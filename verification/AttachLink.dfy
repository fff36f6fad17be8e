/**
  One attach connection end to end: hub output tagged with its repository, the
  client's bounded queue, its writer, the socket, its reader, and the router the
  reader files everything with. Reading and routing one stream is also given as the
  loop the client runs.
 */
module AttachLink {
  import opened Bytes
  import opened TerminalOutput
  import FrameCodec
  import AC = AttachedClients
  import TR = TerminalRouter
  import RL = RouterLosses
  import opened Transport

  type Frame = FrameCodec.Frame

  /** What a control payload turns out to say, once its text is parsed. */
  datatype Control = PaneEvent(repo: Repo, event: TR.HubEvent) | Plain | Unreadable

  /**
    The parts of reading a payload that are not modelled: any test and any parser will do.
    `names` gives the repositories a payload names if it is a set.
   */
  datatype Reading = Reading(
    validText: seq<byte> -> bool,
    parse: seq<byte> -> Control,
    names: seq<byte> -> Option<seq<Repo>>)

  /** Where one frame belongs. */
  datatype Incoming = ForRouter(repo: Repo, m: TR.Message) | ForCaller(payload: seq<byte>) | Bad

  function Sort(how: Reading, f: Frame): Incoming {
    match f.kind
    case Terminal =>
      (match Decode(f.payload, how.validText)
       case Some(o) => ForRouter(o.repo, TR.Output(o.pane, o.data))
       case None => Bad)
    case Control =>
      (match how.parse(f.payload)
       case PaneEvent(repo, event) => ForRouter(repo, TR.Event(event))
       case Plain => ForCaller(f.payload)
       case Unreadable => Bad)
  }

  // ---------------------------------------------------- the client's read loop

  /** What one frame off the connection turned out to be; `Broken` if there was none to make out. */
  datatype Routing = Filed | Handed(payload: seq<byte>) | Failed | Ended | Broken

  /** Filing one frame: the router afterwards, and what is left for the caller. */
  ghost function RouteOne(how: Reading, l: TR.Limits, s: TR.Router, f: Frame): (TR.Router, Routing) {
    match Sort(how, f)
    case Bad => (s, Failed)
    case ForRouter(repo, m) => (TR.Delivered(l, s, repo, m), if TR.Accepts(l, s, repo, m) then Filed else Failed)
    case ForCaller(payload) => (s, Handed(payload))
  }

  /** Where routing a stretch of frames has come to. */
  datatype Progress = Progress(router: TR.Router, handed: seq<seq<byte>>, running: bool)

  /** Routing frames one by one until one cannot be made sense of, filed or handed over. */
  ghost function Pumped(how: Reading, l: TR.Limits, s: TR.Router, frames: seq<Frame>, takers: nat): Progress {
    if frames == [] then Progress(s, [], true)
    else
      var before := Pumped(how, l, s, frames[..|frames| - 1], takers);
      if !before.running then before
      else
        var (next, routing) := RouteOne(how, l, before.router, frames[|frames| - 1]);
        match routing
        case Filed => before.(router := next)
        case Handed(payload) =>
          if |before.handed| == takers then Progress(next, before.handed, false)
          else Progress(next, before.handed + [payload], true)
        case _ => Progress(next, before.handed, false)
  }

  /** Read one frame and file it, if it is terminal traffic. */
  method ReadRouted(how: Reading, src: FrameCodec.ByteSource, router: TR.TerminalRouter) returns (r: Routing)
    requires router.Valid()
    modifies src, router
    ensures router.Valid()
    ensures NeverBreaks(old(src.script)) ==> NeverBreaks(src.script)
    ensures r.Ended? || r.Broken? ==>
              && router.State() == old(router.State())
              && (r.Ended? || NeverBreaks(old(src.script)) ==> FrameCodec.ReadAll(old(src.pending)).0 == [])
    ensures !r.Ended? && !r.Broken? ==>
              var frames := FrameCodec.ReadAll(old(src.pending)).0;
              && frames != []
              && |src.pending| < |old(src.pending)|
              && FrameCodec.ReadAll(src.pending).0 == frames[1..]
              && router.State() == RouteOne(how, router.limits, old(router.State()), frames[0]).0
              && r == RouteOne(how, router.limits, old(router.State()), frames[0]).1
  {
    hide FrameCodec.ParseFrame, FrameCodec.ReadAll, TR.Delivered, TR.Accepts, Sort;
    ghost var before := src.pending;
    var got := FrameCodec.ReadFrame(src);
    if !got.Got? {
      if got != FrameCodec.Disconnected {
        FrameCodec.ReadAllEnds(before);
      }
      return if got == FrameCodec.CleanEnd then Ended else Broken;
    }
    FrameCodec.ReadAllStep(before);
    match Sort(how, got.frame) {
      case Bad => r := Failed;
      case ForRouter(repo, m) =>
        var ok := router.Deliver(repo, m);
        r := if ok then Filed else Failed;
      case ForCaller(payload) => r := Handed(payload);
    }
  }

  lemma {:induction false} StoppedStays(how: Reading, l: TR.Limits, s: TR.Router, frames: seq<Frame>,
                                        takers: nat, k: nat)
    requires k <= |frames| && !Pumped(how, l, s, frames[..k], takers).running
    ensures Pumped(how, l, s, frames, takers) == Pumped(how, l, s, frames[..k], takers)
  {
    hide RouteOne;
    if k == |frames| {
      assert frames[..k] == frames;
    } else {
      assert frames[..|frames| - 1][..k] == frames[..k];
      StoppedStays(how, l, s, frames[..|frames| - 1], takers, k);
    }
  }

  /**
    Read frames and route them until the stream ends or something fails. `takers` is how
    many messages the receiving half of the caller's queue lives to see; `taken` is how
    many frames were read. Only a failing read leaves frames of the stream unread.
   */
  method Pump(how: Reading, src: FrameCodec.ByteSource, router: TR.TerminalRouter, takers: nat)
    returns (handed: seq<seq<byte>>, ghost taken: nat)
    requires router.Valid()
    modifies src, router
    ensures router.Valid()
    ensures var frames := FrameCodec.ReadAll(old(src.pending)).0;
            && taken <= |frames|
            && var done := Pumped(how, router.limits, old(router.State()), frames[..taken], takers);
               router.State() == done.router && handed == done.handed
    ensures NeverBreaks(old(src.script)) ==>
              var frames := FrameCodec.ReadAll(old(src.pending)).0;
              var done := Pumped(how, router.limits, old(router.State()), frames, takers);
              router.State() == done.router && handed == done.handed
  {
    hide FrameCodec.ReadAll, RouteOne;
    handed, taken := [], 0;
    ghost var start, frames := router.State(), FrameCodec.ReadAll(src.pending).0;
    while true
      invariant router.Valid() && (NeverBreaks(old(src.script)) ==> NeverBreaks(src.script))
      invariant taken <= |frames| && FrameCodec.ReadAll(src.pending).0 == frames[taken..]
      invariant Pumped(how, router.limits, start, frames[..taken], takers) == Progress(router.State(), handed, true)
      decreases |src.pending|
    {
      var r := ReadRouted(how, src, router);
      if r.Ended? || r.Broken? {
        assert taken == |frames| ==> frames[..taken] == frames;
        return;
      }
      taken := taken + 1;
      assert frames[..taken][..taken - 1] == frames[..taken - 1];
      assert frames[taken - 1..][0] == frames[taken - 1] && frames[taken - 1..][1..] == frames[taken..];
      if r.Failed? || (r.Handed? && |handed| == takers) {
        StoppedStays(how, router.limits, start, frames, takers, taken);
        return;
      }
      if r.Handed? {
        handed := handed + [r.payload];
      }
    }
  }

  // ------------------------------------------------ the connection, end to end

  /** What the daemon has for a client: a piece of a pane's output, or a control message. */
  datatype Sent = Piece(o: Tagged) | Text(payload: seq<byte>)

  datatype Setup = Setup(how: Reading, limits: TR.Limits, id: nat)

  /**
    Both ends of one connection and everything between them, with a record of what
    was sent to it, offered to its queue, put on the wire, handed over and filed.
   */
  datatype Link = Link(
    sent: seq<Sent>,
    offered: seq<Frame>,
    client: AC.Solo<Frame>,
    wired: seq<Frame>,
    outgoing: seq<byte>,
    wire: seq<byte>,
    partial: seq<byte>,
    delivered: seq<Frame>,
    handed: seq<seq<byte>>,
    reading: bool,
    ops: seq<TR.Op>)

  datatype Label =
    | Relay(o: Tagged)
    | SendControl(payload: seq<byte>, toAll: bool)
    | Elsewhere(op: AC.Op<Frame>)
    | WriterPops
    | WriterWrites(n: nat)
    | ReaderReads(n: nat)
    | ReaderRoutes
    | ReaderFails
    | DrainRepo(repo: Repo)
    | CloseOthers(open: seq<Repo>)

  const RELAY_ERROR: seq<byte> := [123, 125]

  /** The frame one piece of hub output becomes; one that cannot be tagged becomes an error message. */
  function TagFrame(o: Tagged): Frame {
    match Encode(o)
    case Some(payload) => FrameCodec.Frame(FrameCodec.Terminal, payload)
    case None => FrameCodec.Frame(FrameCodec.Control, RELAY_ERROR)
  }

  function Start(): Link {
    Link([], [], AC.Solo(true, true, AC.FreshChannel()), [], [], [], [], [], [], true, [])
  }

  function Offered(u: Setup, s: Link, f: Frame, toAll: bool): Link {
    var op := if toAll then AC.Broadcast(f) else AC.SendTo(u.id, f);
    s.(offered := s.offered + [f], client := AC.SoloStep(s.client, u.id, op))
  }

  /** How many bytes the reader still asks for before it can act on a frame. */
  function Missing(partial: seq<byte>): nat {
    if |partial| < FrameCodec.HEADER_BYTES then FrameCodec.HEADER_BYTES - |partial|
    else
      var len := FrameCodec.FromBigEndian(partial[1..5]);
      if FrameCodec.KindOf(partial[0]).None? || len > FrameCodec.MAX_FRAME_BYTES then 0
      else Max(0, FrameCodec.HEADER_BYTES + len - |partial|)
  }

  /** Operations of the registry that are labels of their own here. */
  predicate TakesPart(id: nat, op: AC.Op<Frame>) {
    AC.OfferedBy(id, op) != [] || (op.WriterTake? && op.id == id)
  }

  ghost function Popped(u: Setup, s: Link): Link {
    if s.client.ch.reading && s.client.ch.queue != [] && s.outgoing == [] then
      var f := s.client.ch.queue[0];
      var took := AC.SoloStep(s.client, u.id, AC.WriterTake(u.id));
      if FrameCodec.InLimit(f) then s.(client := took, wired := s.wired + [f], outgoing := FrameCodec.Encode(f))
      else s.(client := AC.SoloStep(took, u.id, AC.WriterEnd(u.id)))
    else s
  }

  ghost function RoutedFrame(u: Setup, s: Link, f: Frame): Link {
    match Sort(u.how, f)
    case Bad => s.(reading := false)
    case ForCaller(payload) => s.(delivered := s.delivered + [f], partial := [], handed := s.handed + [payload])
    case ForRouter(repo, m) =>
      var filed := s.(ops := s.ops + [TR.Deliver(repo, m)]);
      if TR.Accepts(u.limits, TR.Run(u.limits, s.ops), repo, m)
      then filed.(delivered := s.delivered + [f], partial := [])
      else filed.(reading := false)
  }

  ghost function Step(u: Setup, s: Link, move: Label): Link {
    match move
    case Relay(o) => Offered(u, s, TagFrame(o), false).(sent := s.sent + [Piece(o)])
    case SendControl(payload, toAll) =>
      Offered(u, s, FrameCodec.Frame(FrameCodec.Control, payload), toAll).(sent := s.sent + [Text(payload)])
    case Elsewhere(op) =>
      if TakesPart(u.id, op) then s
      else s.(client := AC.SoloStep(s.client, u.id, op))
    case WriterPops => Popped(u, s)
    case WriterWrites(n) =>
      var k := Min(n, |s.outgoing|);
      s.(wire := s.wire + s.outgoing[..k], outgoing := s.outgoing[k..])
    case ReaderReads(n) =>
      var k := Min(n, Min(|s.wire|, Missing(s.partial)));
      if s.reading then s.(partial := s.partial + s.wire[..k], wire := s.wire[k..]) else s
    case ReaderRoutes =>
      if !s.reading || Missing(s.partial) > 0 then s
      else
        var (got, rest) := FrameCodec.ParseFrame(s.partial);
        if got.Got? && rest == [] then RoutedFrame(u, s, got.frame) else s.(reading := false)
    case ReaderFails => s.(reading := false)
    case DrainRepo(repo) => s.(ops := s.ops + [TR.Drain(repo)])
    case CloseOthers(open) => s.(ops := s.ops + [TR.Retain(open)])
  }

  ghost function Run(u: Setup, labels: seq<Label>): Link {
    if labels == [] then Start() else Step(u, Run(u, labels[..|labels| - 1]), labels[|labels| - 1])
  }

  // ------------------------------------------- one client of a whole registry

  /** What one move of the link does to the registry of attached clients. */
  ghost function ClientMove(u: Setup, s: Link, move: Label): seq<AC.Op<Frame>> {
    match move
    case Relay(o) => [AC.SendTo(u.id, TagFrame(o))]
    case SendControl(payload, toAll) =>
      var f := FrameCodec.Frame(FrameCodec.Control, payload);
      [if toAll then AC.Broadcast(f) else AC.SendTo(u.id, f)]
    case Elsewhere(op) => if TakesPart(u.id, op) then [] else [op]
    case WriterPops =>
      if s.client.ch.reading && s.client.ch.queue != [] && s.outgoing == [] then
        [AC.WriterTake(u.id)] + if FrameCodec.InLimit(s.client.ch.queue[0]) then [] else [AC.WriterEnd(u.id)]
      else []
    case _ => []
  }

  ghost function ClientMoves(u: Setup, moves: seq<Label>): seq<AC.Op<Frame>> {
    if moves == [] then []
    else
      var init := moves[..|moves| - 1];
      ClientMoves(u, init) + ClientMove(u, Run(u, init), moves[|moves| - 1])
  }

  lemma SoloSnoc(id: nat, ops: seq<AC.Op<Frame>>, op: AC.Op<Frame>)
    ensures AC.SoloRun(id, ops + [op]) == AC.SoloStep(AC.SoloRun(id, ops), id, op)
  {
    assert (ops + [op])[..|ops|] == ops;
  }

  lemma StepClient(u: Setup, s: Link, move: Label)
    ensures var done := ClientMove(u, s, move);
            && |done| <= 2
            && Step(u, s, move).client ==
               if |done| == 0 then s.client
               else if |done| == 1 then AC.SoloStep(s.client, u.id, done[0])
               else AC.SoloStep(AC.SoloStep(s.client, u.id, done[0]), u.id, done[1])
  {
    hide AC.SoloStep, TakesPart, Sort, FrameCodec.ParseFrame, FrameCodec.Encode, TR.Accepts, Missing;
  }

  lemma {:induction false} ClientIsSolo(u: Setup, moves: seq<Label>)
    ensures Run(u, moves).client == AC.SoloRun(u.id, ClientMoves(u, moves))
  {
    hide AC.SoloStep, AC.SoloRun, Step, ClientMove;
    if moves == [] {
      SoloNone(u.id);
    } else {
      var init, move := moves[..|moves| - 1], moves[|moves| - 1];
      ClientIsSolo(u, init);
      StepClient(u, Run(u, init), move);
      var before, done := ClientMoves(u, init), ClientMove(u, Run(u, init), move);
      if |done| == 1 {
        assert done == [done[0]];
        SoloSnoc(u.id, before, done[0]);
      } else if |done| == 2 {
        assert before + done == before + [done[0]] + [done[1]];
        SoloSnoc(u.id, before, done[0]);
        SoloSnoc(u.id, before + [done[0]], done[1]);
      } else {
        assert before + done == before;
      }
    }
  }

  lemma SoloNone(id: nat)
    ensures AC.SoloRun<Frame>(id, []) == AC.Solo(true, true, AC.FreshChannel())
  {
  }

  /**
    The client at the near end of the link is the one a registry of any number of clients
    holds: whatever came before it was admitted, and whatever happens to the others.
   */
  lemma ClientIsView(u: Setup, moves: seq<Label>, before: seq<AC.Op<Frame>>, capacity: nat)
    requires |AC.Run(before).clients| < capacity && u.id == AC.Run(before).nextId
    ensures Run(u, moves).client
         == AC.View(AC.Run(before + [AC.TryConnect(capacity)] + ClientMoves(u, moves)), u.id)
  {
    hide AC.Run, AC.SoloRun, AC.View, Run;
    var ops := before + [AC.TryConnect(capacity)] + ClientMoves(u, moves);
    var k := |before|;
    assert ops[..k] == before && ops[k] == AC.TryConnect(capacity) && ops[k + 1..] == ClientMoves(u, moves);
    AC.Isolation(ops, k);
    ClientIsSolo(u, moves);
  }

  // -------------------------------------------------------- what is conserved

  /** What the frames carry for one repository, in order. */
  function RoutedTo(how: Reading, frames: seq<Frame>, repo: Repo): seq<TR.Message> {
    if frames == [] then []
    else
      var n := |frames| - 1;
      RoutedTo(how, frames[..n], repo) + Part(how, frames[n], repo)
  }

  function Part(how: Reading, f: Frame, repo: Repo): seq<TR.Message> {
    var sorted := Sort(how, f);
    if sorted.ForRouter? && sorted.repo == repo then [sorted.m] else []
  }

  /** What the frames carry for the client itself, in order. */
  function HandedTo(how: Reading, frames: seq<Frame>): seq<seq<byte>> {
    if frames == [] then [] else HandedTo(how, frames[..|frames| - 1]) + HandedPart(how, frames[|frames| - 1])
  }

  function HandedPart(how: Reading, f: Frame): seq<seq<byte>> {
    var sorted := Sort(how, f);
    if sorted.ForCaller? then [sorted.payload] else []
  }

  lemma HandedToSnoc(how: Reading, frames: seq<Frame>, f: Frame)
    ensures HandedTo(how, frames + [f]) == HandedTo(how, frames) + HandedPart(how, f)
  {
    assert (frames + [f])[..|frames|] == frames;
  }

  lemma {:induction false} HandedToPrefix(how: Reading, a: seq<Frame>, b: seq<Frame>)
    requires a <= b
    ensures HandedTo(how, a) <= HandedTo(how, b)
    decreases |b|
  {
    if |a| < |b| {
      HandedToPrefix(how, a, b[..|b| - 1]);
    } else {
      assert a == b;
    }
  }

  lemma RoutedToSnoc(how: Reading, frames: seq<Frame>, f: Frame, repo: Repo)
    ensures RoutedTo(how, frames + [f], repo) == RoutedTo(how, frames, repo) + Part(how, f, repo)
  {
    assert (frames + [f])[..|frames|] == frames;
  }

  lemma {:induction false} RoutedToPrefix(how: Reading, a: seq<Frame>, b: seq<Frame>, repo: Repo)
    requires a <= b
    ensures RoutedTo(how, a, repo) <= RoutedTo(how, b, repo)
    decreases |b|
  {
    if |a| < |b| {
      RoutedToPrefix(how, a, b[..|b| - 1], repo);
    } else {
      assert a == b;
    }
  }

  /** The bytes tagged for one pane of one repository, in order. */
  function TaggedBytes(sent: seq<Sent>, repo: Repo, pane: PaneId): seq<byte> {
    if sent == [] then []
    else
      var last := sent[|sent| - 1];
      TaggedBytes(sent[..|sent| - 1], repo, pane)
      + if last.Piece? && last.o.repo == repo && last.o.pane == pane then last.o.data else []
  }

  /** What a control message says to one repository. */
  function TextAtoms(how: Reading, payload: seq<byte>, repo: Repo): seq<TR.Atom> {
    match how.parse(payload)
    case PaneEvent(r, event) => if r == repo then [TR.Notice(event)] else []
    case Plain => []
    case Unreadable => []
  }

  /** What the daemon sends for one repository: bytes of panes and notices, in order. */
  function StreamOf(how: Reading, sent: seq<Sent>, repo: Repo): seq<TR.Atom> {
    if sent == [] then []
    else StreamOf(how, sent[..|sent| - 1], repo) + SentAtoms(how, sent[|sent| - 1], repo)
  }

  /** A piece that cannot be tagged goes out as an error message. */
  function SentAtoms(how: Reading, it: Sent, repo: Repo): seq<TR.Atom> {
    match it
    case Text(payload) => TextAtoms(how, payload, repo)
    case Piece(o) =>
      if |o.repo| > 255 then TextAtoms(how, RELAY_ERROR, repo)
      else if o.repo == repo && how.validText(repo)
      then seq(|o.data|, i requires 0 <= i < |o.data| => TR.OutputByte(o.pane, o.data[i]))
      else []
  }

  /** The control messages that are for the client itself, in order. */
  function PlainOf(how: Reading, sent: seq<Sent>): seq<seq<byte>> {
    if sent == [] then []
    else
      var last := sent[|sent| - 1];
      var text := if last.Text? then Some(last.payload) else if |last.o.repo| > 255 then Some(RELAY_ERROR) else None;
      PlainOf(how, sent[..|sent| - 1]) + if text.Some? && how.parse(text.value) == Plain then [text.value] else []
  }

  /** A repository id the protocol can name. */
  predicate Nameable(how: Reading, repo: Repo) {
    |repo| <= MAX_REPO_BYTES && how.validText(repo)
  }

  /** The bytes on the way are exactly the frames written and not yet read. */
  ghost predicate BytesInv(s: Link) {
    && FrameCodec.AllInLimit(s.wired) && FrameCodec.AllInLimit(s.delivered)
    && s.delivered <= s.wired
    && FrameCodec.EncodeAll(s.wired) == FrameCodec.EncodeAll(s.delivered) + (s.partial + (s.wire + s.outgoing))
  }

  /** The writer works through what the queue took, in order. */
  ghost predicate QueueInv(s: Link) {
    && AC.CutNotSkipped(s.client, s.offered)
    && s.wired <= s.client.ch.taken
    && (s.client.ch.reading ==> s.wired == s.client.ch.taken)
  }

  /** What was ever filed for a repository is what the delivered frames carry for it. */
  ghost predicate FiledInv(u: Setup, s: Link, repo: Repo) {
    RL.AllFiled(u.limits, s.ops, repo) == RoutedTo(u.how, s.delivered, repo)
  }

  /** What was handed over is what the delivered frames carry for the client. */
  ghost predicate HandedInv(u: Setup, s: Link) {
    s.handed == HandedTo(u.how, s.delivered)
  }

  /** What was offered carries the bytes, notices and messages sent and no others. */
  ghost predicate OfferInv(u: Setup, s: Link, repo: Repo) {
    && TR.Atoms(RoutedTo(u.how, s.offered, repo)) == StreamOf(u.how, s.sent, repo)
    && HandedTo(u.how, s.offered) == PlainOf(u.how, s.sent)
  }

  /** The writer taking a frame touches its own end of the link and nothing else. */
  lemma PoppedTouches(u: Setup, s: Link)
    ensures var t := Popped(u, s); t == s.(client := t.client, wired := t.wired, outgoing := t.outgoing)
  {
    hide FrameCodec.Encode, AC.SoloStep;
  }

  lemma PoppedQueue(u: Setup, s: Link)
    requires QueueInv(s)
    ensures QueueInv(Popped(u, s))
  {
    hide AC.CutNotSkipped, AC.Takes, FrameCodec.Encode;
    var take: AC.Op<Frame>, end: AC.Op<Frame> := AC.WriterTake(u.id), AC.WriterEnd(u.id);
    assert s.offered + [] == s.offered;
    AC.CutNotSkippedStep(s.client, u.id, take, s.offered);
    AC.CutNotSkippedStep(AC.SoloStep(s.client, u.id, take), u.id, end, s.offered);
  }

  lemma QueueStep(u: Setup, s: Link, move: Label)
    requires QueueInv(s)
    ensures QueueInv(Step(u, s, move))
  {
    hide AC.CutNotSkipped, AC.Takes, Popped, FrameCodec.ParseFrame, Sort, TR.Accepts;
    match move
    case Relay(o) =>
      AC.CutNotSkippedStep(s.client, u.id, AC.SendTo(u.id, TagFrame(o)), s.offered);
    case SendControl(payload, toAll) =>
      var f := FrameCodec.Frame(FrameCodec.Control, payload);
      AC.CutNotSkippedStep(s.client, u.id, if toAll then AC.Broadcast(f) else AC.SendTo(u.id, f), s.offered);
    case Elsewhere(op) =>
      if AC.OfferedBy(u.id, op) == [] {
        assert s.offered + [] == s.offered;
        AC.CutNotSkippedStep(s.client, u.id, op, s.offered);
      }
    case WriterPops =>
      PoppedQueue(u, s);
    case WriterWrites(_) =>
    case ReaderReads(_) =>
    case ReaderRoutes =>
    case ReaderFails =>
    case DrainRepo(_) =>
    case CloseOthers(_) =>
  }

  /** The next frame the reader makes out is the next frame that was written. */
  lemma NextIsNext(s: Link, f: Frame)
    requires BytesInv(s) && FrameCodec.ParseFrame(s.partial) == (FrameCodec.Got(f), [])
    ensures FrameCodec.InLimit(f) && s.delivered + [f] <= s.wired
    ensures FrameCodec.EncodeAll(s.wired) == FrameCodec.EncodeAll(s.delivered + [f]) + ([] + (s.wire + s.outgoing))
  {
    hide FrameCodec.ParseFrame, FrameCodec.Encode, FrameCodec.EncodeAll;
    FrameCodec.ParsedIsEncoded(s.partial);
    var k := |s.delivered|;
    var head, tail := FrameCodec.EncodeAll(s.delivered), s.wire + s.outgoing;
    assert s.wired == s.delivered + s.wired[k..];
    FrameCodec.EncodeAllAppend(s.delivered, s.wired[k..]);
    assert s.partial == FrameCodec.Encode(f);
    CancelPrefix(head, FrameCodec.EncodeAll(s.wired[k..]), FrameCodec.Encode(f) + tail);
    HeadFrame(s.wired[k..], f, tail);
    assert s.delivered + [f] == s.wired[..k + 1];
    FrameCodec.EncodeAllAppend(s.delivered, [f]);
    EncodeAllOne(f);
    assert head + FrameCodec.Encode(f) + ([] + tail) == head + (FrameCodec.Encode(f) + tail);
  }

  /** A stream that starts with the encoding of `f` is a stream of frames whose first is `f`. */
  lemma HeadFrame(frames: seq<Frame>, f: Frame, tail: seq<byte>)
    requires FrameCodec.AllInLimit(frames) && FrameCodec.InLimit(f)
    requires FrameCodec.EncodeAll(frames) == FrameCodec.Encode(f) + tail
    ensures frames != [] && frames[0] == f
  {
    hide FrameCodec.ParseFrame;
    FrameCodec.ParseEncoded(f, tail);
    if frames != [] {
      hide FrameCodec.Encode;
      FrameCodec.ParseEncoded(frames[0], FrameCodec.EncodeAll(frames[1..]));
    }
  }

  lemma PoppedBytes(u: Setup, s: Link)
    requires BytesInv(s)
    ensures BytesInv(Popped(u, s))
  {
    hide FrameCodec.Encode, FrameCodec.EncodeAll, AC.SoloStep;
    if s.client.ch.queue != [] && FrameCodec.InLimit(s.client.ch.queue[0]) {
      var f := s.client.ch.queue[0];
      FrameCodec.EncodeAllAppend(s.wired, [f]);
      EncodeAllOne(f);
      assert s.partial + (s.wire + []) + FrameCodec.Encode(f) == s.partial + (s.wire + FrameCodec.Encode(f));
    }
  }

  lemma BytesStep(u: Setup, s: Link, move: Label)
    requires BytesInv(s)
    ensures BytesInv(Step(u, s, move))
  {
    hide FrameCodec.ParseFrame, FrameCodec.Encode, FrameCodec.EncodeAll, AC.SoloStep, Sort, TR.Accepts, Popped;
    match move
    case Relay(_) =>
    case SendControl(_, _) =>
    case Elsewhere(_) =>
    case WriterPops =>
      PoppedBytes(u, s);
    case WriterWrites(n) =>
      var k := Min(n, |s.outgoing|);
      assert s.wire + s.outgoing[..k] + s.outgoing[k..] == s.wire + s.outgoing;
    case ReaderReads(n) =>
      var k := Min(n, Min(|s.wire|, Missing(s.partial)));
      assert s.partial + s.wire[..k] + (s.wire[k..] + s.outgoing) == s.partial + (s.wire + s.outgoing);
    case ReaderRoutes =>
      var (got, rest) := FrameCodec.ParseFrame(s.partial);
      if got.Got? && rest == [] {
        NextIsNext(s, got.frame);
      }
    case ReaderFails =>
    case DrainRepo(_) =>
    case CloseOthers(_) =>
  }

  lemma EncodeAllOne(f: Frame)
    requires FrameCodec.InLimit(f)
    ensures FrameCodec.EncodeAll([f]) == FrameCodec.Encode(f)
  {
    assert FrameCodec.EncodeAll([f]) == FrameCodec.Encode(f) + FrameCodec.EncodeAll([]);
  }

  lemma FiledStep(u: Setup, s: Link, move: Label, repo: Repo)
    requires FiledInv(u, s, repo)
    ensures FiledInv(u, Step(u, s, move), repo)
  {
    hide AC.SoloStep, FrameCodec.ParseFrame, FrameCodec.Encode, TR.Accepts, RL.AllFiled, TR.Run, RoutedTo, Part;
    match move
    case Relay(_) =>
    case SendControl(_, _) =>
    case Elsewhere(_) =>
    case WriterPops =>
    case WriterWrites(_) =>
    case ReaderReads(_) =>
    case ReaderRoutes =>
      var (got, rest) := FrameCodec.ParseFrame(s.partial);
      if got.Got? && rest == [] {
        FiledRouted(u, s, got.frame, repo);
      }
    case ReaderFails =>
    case DrainRepo(r) => OpsSnoc(u, s.ops, TR.Drain(r), repo);
    case CloseOthers(open) => OpsSnoc(u, s.ops, TR.Retain(open), repo);
  }

  /** One more operation on the router: what it adds for a repository. */
  lemma OpsSnoc(u: Setup, ops: seq<TR.Op>, op: TR.Op, repo: Repo)
    ensures RL.AllFiled(u.limits, ops + [op], repo) ==
            if op.Deliver? && op.repo == repo && TR.Accepts(u.limits, TR.Run(u.limits, ops), op.repo, op.m)
            then RL.AllFiled(u.limits, ops, repo) + [op.m]
            else RL.AllFiled(u.limits, ops, repo)
  {
    hide TR.Accepts, TR.Run;
    assert (ops + [op])[..|ops|] == ops;
  }

  lemma FiledRouted(u: Setup, s: Link, f: Frame, repo: Repo)
    requires FiledInv(u, s, repo)
    ensures FiledInv(u, RoutedFrame(u, s, f), repo)
  {
    hide TR.Accepts, RL.AllFiled, TR.Run, RoutedTo;
    RoutedToSnoc(u.how, s.delivered, f, repo);
    var sorted := Sort(u.how, f);
    if sorted.ForRouter? {
      OpsSnoc(u, s.ops, TR.Deliver(sorted.repo, sorted.m), repo);
    } else if sorted.ForCaller? {
      assert RoutedTo(u.how, s.delivered, repo) + [] == RoutedTo(u.how, s.delivered, repo);
    }
  }

  lemma HandedStep(u: Setup, s: Link, move: Label)
    requires HandedInv(u, s)
    ensures HandedInv(u, Step(u, s, move))
  {
    hide AC.SoloStep, FrameCodec.ParseFrame, FrameCodec.Encode, TR.Accepts, TR.Run, HandedTo, Missing, Popped;
    PoppedTouches(u, s);
    if move.ReaderRoutes? {
      var (got, rest) := FrameCodec.ParseFrame(s.partial);
      if got.Got? {
        HandedToSnoc(u.how, s.delivered, got.frame);
        assert HandedTo(u.how, s.delivered) + [] == HandedTo(u.how, s.delivered);
      }
    }
  }

  /** A frame carries to a repository what its control text says. */
  lemma ControlCarries(how: Reading, payload: seq<byte>, repo: Repo)
    ensures var f := FrameCodec.Frame(FrameCodec.Control, payload);
            && TR.Atoms(Part(how, f, repo)) == TextAtoms(how, payload, repo)
            && HandedPart(how, f) == if how.parse(payload) == Plain then [payload] else []
  {
    AtomsOfOne(Part(how, FrameCodec.Frame(FrameCodec.Control, payload), repo));
  }

  /** A tagged piece carries its bytes to its own repository, and one that cannot be tagged none. */
  lemma TagFrameCarries(how: Reading, o: Tagged, repo: Repo)
    ensures TR.Atoms(Part(how, TagFrame(o), repo)) == SentAtoms(how, Piece(o), repo)
    ensures HandedPart(how, TagFrame(o)) ==
            if |o.repo| > 255 && how.parse(RELAY_ERROR) == Plain then [RELAY_ERROR] else []
  {
    DecodeEncoded(o, how.validText);
    if |o.repo| > 255 {
      ControlCarries(how, RELAY_ERROR, repo);
    } else {
      AtomsOfOne(Part(how, TagFrame(o), repo));
    }
  }

  lemma AtomsOfOne(part: seq<TR.Message>)
    requires |part| <= 1
    ensures TR.Atoms(part) == if part == [] then [] else TR.AtomsOf(part[0])
  {
    if part != [] {
      assert part == [part[0]];
      TR.AtomsOne(part[0]);
    }
  }

  lemma OfferStep(u: Setup, s: Link, move: Label, repo: Repo)
    requires OfferInv(u, s, repo)
    ensures OfferInv(u, Step(u, s, move), repo)
  {
    hide AC.SoloStep, FrameCodec.ParseFrame, FrameCodec.Encode, TR.Accepts, TR.Atoms, Missing, Popped;
    hide RoutedTo, Part, HandedTo, HandedPart, TagFrame, SentAtoms, TextAtoms;
    PoppedTouches(u, s);
    if move.Relay? {
      var f := TagFrame(move.o);
      TagFrameCarries(u.how, move.o, repo);
      OfferedCarries(u, s, f, repo);
      assert (s.sent + [Piece(move.o)])[..|s.sent|] == s.sent;
      assert PlainOf(u.how, s.sent) + [] == PlainOf(u.how, s.sent);
    } else if move.SendControl? {
      var f := FrameCodec.Frame(FrameCodec.Control, move.payload);
      ControlCarries(u.how, move.payload, repo);
      OfferedCarries(u, s, f, repo);
      TextIs(u.how, move.payload, repo);
      assert (s.sent + [Text(move.payload)])[..|s.sent|] == s.sent;
    }
  }

  lemma TextIs(how: Reading, payload: seq<byte>, repo: Repo)
    ensures SentAtoms(how, Text(payload), repo) == TextAtoms(how, payload, repo)
  {
  }

  lemma OfferedCarries(u: Setup, s: Link, f: Frame, repo: Repo)
    ensures TR.Atoms(RoutedTo(u.how, s.offered + [f], repo))
         == TR.Atoms(RoutedTo(u.how, s.offered, repo)) + TR.Atoms(Part(u.how, f, repo))
    ensures HandedTo(u.how, s.offered + [f]) == HandedTo(u.how, s.offered) + HandedPart(u.how, f)
  {
    RoutedToSnoc(u.how, s.offered, f, repo);
    HandedToSnoc(u.how, s.offered, f);
    TR.AtomsAppend(RoutedTo(u.how, s.offered, repo), Part(u.how, f, repo));
  }

  lemma {:induction false} LinkInvariants(u: Setup, moves: seq<Label>, repo: Repo)
    ensures QueueInv(Run(u, moves)) && BytesInv(Run(u, moves))
    ensures FiledInv(u, Run(u, moves), repo) && HandedInv(u, Run(u, moves)) && OfferInv(u, Run(u, moves), repo)
  {
    if moves != [] {
      hide Step, QueueInv, BytesInv, FiledInv, HandedInv, OfferInv;
      var n := |moves| - 1;
      LinkInvariants(u, moves[..n], repo);
      var s := Run(u, moves[..n]);
      QueueStep(u, s, moves[n]);
      BytesStep(u, s, moves[n]);
      FiledStep(u, s, moves[n], repo);
      HandedStep(u, s, moves[n]);
      OfferStep(u, s, moves[n], repo);
    }
  }

  /** Everything ever filed for a repository is, in every run, a prefix of what was sent for it. */
  lemma FiledIsSent(u: Setup, moves: seq<Label>, repo: Repo)
    ensures TR.Atoms(RL.AllFiled(u.limits, Run(u, moves).ops, repo)) <= StreamOf(u.how, Run(u, moves).sent, repo)
    ensures Run(u, moves).handed <= PlainOf(u.how, Run(u, moves).sent)
    ensures Quiet(Run(u, moves)) ==>
              && TR.Atoms(RL.AllFiled(u.limits, Run(u, moves).ops, repo)) == StreamOf(u.how, Run(u, moves).sent, repo)
              && Run(u, moves).handed == PlainOf(u.how, Run(u, moves).sent)
  {
    LinkInvariants(u, moves, repo);
    var s := Run(u, moves);
    hide Run, TR.Atoms, RoutedTo, HandedTo, RL.AllFiled, FrameCodec.EncodeAll, StreamOf, PlainOf;
    assert s.delivered <= s.offered;
    RoutedToPrefix(u.how, s.delivered, s.offered, repo);
    HandedToPrefix(u.how, s.delivered, s.offered);
    AtomsPrefix(RoutedTo(u.how, s.delivered, repo), RoutedTo(u.how, s.offered, repo));
    if Quiet(s) {
      SameBytesSameFrames(s.delivered, s.wired);
      assert s.delivered == s.offered;
    }
  }

  lemma AtomsPrefix(a: seq<TR.Message>, b: seq<TR.Message>)
    requires a <= b
    ensures TR.Atoms(a) <= TR.Atoms(b)
  {
    assert b == a + b[|a|..];
    TR.AtomsAppend(a, b[|a|..]);
  }

  /**
    End to end, for every interleaving of relays, replies, broadcasts, queue cut-offs,
    partial writes, short reads, routing, drains and closes, and every repository
    whenever it was opened: what was drained since its inbox was last closed, bytes of
    panes and notices in their order, stands in what was sent for the repository right
    behind what had been filed by then. Nothing is missing in it, nothing comes twice and
    nothing is out of order. The same holds of what the client itself was handed.
   */
  lemma DrainedInPlace(u: Setup, moves: seq<Label>, repo: Repo)
    ensures var s := Run(u, moves);
            && TR.Atoms(RL.Lost(u.limits, s.ops, repo)) + TR.Atoms(TR.DrainedSoFar(u.limits, s.ops, repo))
               <= StreamOf(u.how, s.sent, repo)
            && s.handed <= PlainOf(u.how, s.sent)
  {
    hide TR.Atoms, TR.Accepted, TR.DrainedSoFar, RL.AllFiled, RL.Lost, TR.Run, Run, StreamOf, PlainOf;
    var ops := Run(u, moves).ops;
    FiledIsSent(u, moves, repo);
    RL.LostThenAccepted(u.limits, ops, repo);
    TR.AtomsAppend(RL.Lost(u.limits, ops, repo), TR.Accepted(u.limits, ops, repo));
    TR.Conservation(u.limits, ops, repo);
  }

  // --------------------------------------------------------- one pane's bytes

  lemma {:induction false} StreamBytes(how: Reading, sent: seq<Sent>, repo: Repo, pane: PaneId)
    ensures TR.AtomBytes(StreamOf(how, sent, repo), pane) ==
            if Nameable(how, repo) then TaggedBytes(sent, repo, pane) else []
  {
    hide SentAtoms;
    if sent != [] {
      var init, last := sent[..|sent| - 1], sent[|sent| - 1];
      StreamBytes(how, init, repo, pane);
      SentBytes(how, last, repo, pane);
      TR.AtomBytesAppend(StreamOf(how, init, repo), SentAtoms(how, last, repo), pane);
    }
  }

  lemma SentBytes(how: Reading, it: Sent, repo: Repo, pane: PaneId)
    ensures TR.AtomBytes(SentAtoms(how, it, repo), pane) ==
            if it.Piece? && Nameable(how, repo) && it.o.repo == repo && it.o.pane == pane then it.o.data else []
  {
    if it.Piece? && |it.o.repo| <= 255 {
      if it.o.repo == repo && how.validText(repo) {
        TR.AtomBytesOf(TR.Output(it.o.pane, it.o.data), pane);
        assert SentAtoms(how, it, repo) == TR.AtomsOf(TR.Output(it.o.pane, it.o.data));
      }
    } else {
      TextHasNoBytes(how, if it.Text? then it.payload else RELAY_ERROR, repo, pane);
    }
  }

  lemma TextHasNoBytes(how: Reading, payload: seq<byte>, repo: Repo, pane: PaneId)
    ensures TR.AtomBytes(TextAtoms(how, payload, repo), pane) == []
  {
  }

  lemma AtomBytesPrefix(a: seq<TR.Atom>, b: seq<TR.Atom>, pane: PaneId)
    requires a <= b
    ensures TR.AtomBytes(a, pane) <= TR.AtomBytes(b, pane)
  {
    assert b == a + b[|a|..];
    TR.AtomBytesAppend(a, b[|a|..], pane);
  }

  /** The bytes filed for a pane are, in every run, a prefix of the bytes tagged for it. */
  lemma FiledIsPrefix(u: Setup, moves: seq<Label>, repo: Repo, pane: PaneId)
    ensures RL.FiledBytes(u.limits, Run(u, moves).ops, repo, pane) <= TaggedBytes(Run(u, moves).sent, repo, pane)
    ensures Quiet(Run(u, moves)) && Nameable(u.how, repo) ==>
              RL.FiledBytes(u.limits, Run(u, moves).ops, repo, pane) == TaggedBytes(Run(u, moves).sent, repo, pane)
  {
    hide Run, TR.Atoms, TR.AtomBytes, RL.AllFiled, StreamOf, TaggedBytes, Quiet, Nameable;
    var s := Run(u, moves);
    FiledIsSent(u, moves, repo);
    TR.PaneBytesFromAtoms(RL.AllFiled(u.limits, s.ops, repo), pane);
    AtomBytesPrefix(TR.Atoms(RL.AllFiled(u.limits, s.ops, repo)), StreamOf(u.how, s.sent, repo), pane);
    StreamBytes(u.how, s.sent, repo, pane);
  }

  /**
    Over the whole connection, whatever the bytes are: each byte drained for a pane is one
    that was tagged for it, each further on than the one before. They are the beginning of
    what was tagged, the i-th drained being the i-th tagged, exactly unless bytes of the
    pane were drained after a close had dropped some that were queued.
   */
  lemma DrainedIsPrefix(u: Setup, moves: seq<Label>, repo: Repo, pane: PaneId)
    ensures var s := Run(u, moves);
            var drained, tagged := RL.DrainedBytes(u.limits, s.ops, repo, pane), TaggedBytes(s.sent, repo, pane);
            var at := RL.PlacesOf(u.limits, s.ops, repo, pane).drained;
            && |at| == |drained| && RL.Rising(at, |tagged|)
            && (forall i :: 0 <= i < |at| ==> drained[i] == tagged[at[i]])
            && (RL.FromTheStart(at) <==> !RL.Skips(u.limits, s.ops, repo, pane))
            && (!RL.Skips(u.limits, s.ops, repo, pane) ==> drained <= tagged)
  {
    hide Run, RL.FiledBytes, RL.DrainedBytes, RL.QueuedBytes, RL.PlacesOf, RL.Skips;
    var ops := Run(u, moves).ops;
    var p := RL.PlacesOf(u.limits, ops, repo, pane);
    FiledIsPrefix(u, moves, repo, pane);
    RL.PlacesAreRight(u.limits, ops, repo, pane);
    RL.RisingStart(p.drained, p.queued, |RL.FiledBytes(u.limits, ops, repo, pane)|);
    RL.NoHoleExactly(u.limits, ops, repo, pane);
    if RL.FromTheStart(p.drained) {
      PrefixByPlaces(RL.DrainedBytes(u.limits, ops, repo, pane), TaggedBytes(Run(u, moves).sent, repo, pane),
                     p.drained);
    }
  }

  lemma PrefixByPlaces(part: seq<byte>, whole: seq<byte>, at: seq<nat>)
    requires |at| == |part| && RL.FromTheStart(at)
    requires forall i :: 0 <= i < |at| ==> at[i] < |whole| && part[i] == whole[at[i]]
    ensures part <= whole
  {
    if part != [] {
      assert at[|at| - 1] == |at| - 1;
    }
  }

  /** Nothing is queued, being written, on the wire or half read, and the client was not cut off. */
  ghost predicate Quiet(s: Link) {
    && s.client.attached && s.client.ch.reading && s.client.ch.queue == []
    && s.outgoing == [] && s.wire == [] && s.partial == []
  }

  /**
    And nothing is lost on the way: once the link is quiet, what had been filed before the
    last close, what was drained since and what waits in the inbox are together all that
    was sent for a repository, bytes and notices in their order, and the client was handed
    every message for itself.
   */
  lemma QuietLinkHasEverything(u: Setup, moves: seq<Label>, repo: Repo)
    requires Quiet(Run(u, moves))
    ensures var s := Run(u, moves);
            && TR.Atoms(RL.Lost(u.limits, s.ops, repo))
               + (TR.Atoms(TR.DrainedSoFar(u.limits, s.ops, repo))
                  + TR.Atoms(TR.Inbox(TR.Run(u.limits, s.ops), repo)))
               == StreamOf(u.how, s.sent, repo)
            && s.handed == PlainOf(u.how, s.sent)
  {
    hide TR.Atoms, TR.Accepted, TR.DrainedSoFar, RL.AllFiled, RL.Lost, TR.Run, Run, StreamOf, PlainOf, Quiet;
    var ops := Run(u, moves).ops;
    FiledIsSent(u, moves, repo);
    RL.LostThenAccepted(u.limits, ops, repo);
    TR.AtomsAppend(RL.Lost(u.limits, ops, repo), TR.Accepted(u.limits, ops, repo));
    TR.Conservation(u.limits, ops, repo);
  }

  /** If no close ever dropped queued bytes of a pane, a quiet link has drained or queued every byte tagged for it. */
  lemma QuietPaneHasEverything(u: Setup, moves: seq<Label>, repo: Repo, pane: PaneId)
    requires Nameable(u.how, repo) && Quiet(Run(u, moves))
    requires RL.FirstGap(u.limits, Run(u, moves).ops, repo, pane).None?
    ensures RL.DrainedBytes(u.limits, Run(u, moves).ops, repo, pane)
            + RL.QueuedBytes(u.limits, Run(u, moves).ops, repo, pane)
         == TaggedBytes(Run(u, moves).sent, repo, pane)
  {
    hide Run, RL.FirstGap, RL.DrainedBytes, RL.QueuedBytes, RL.FiledBytes, TaggedBytes, Quiet;
    FiledIsPrefix(u, moves, repo, pane);
    RL.NothingMissing(u.limits, Run(u, moves).ops, repo, pane);
  }

  // ------------------------------------------------------- what a frame does

  /** A pane event with room for it is filed behind what its repository already has, and reading goes on. */
  lemma EventIsFiled(u: Setup, s: Link, payload: seq<byte>, repo: Repo, event: TR.HubEvent)
    requires u.how.parse(payload) == PaneEvent(repo, event)
    requires var r := TR.Run(u.limits, s.ops);
             !r.overflowed && TR.TotalMessages(r.inboxes) < u.limits.messages
    ensures var t := RoutedFrame(u, s, FrameCodec.Frame(FrameCodec.Control, payload));
            && t.reading == s.reading && t.handed == s.handed && t.partial == []
            && TR.Atoms(TR.Inbox(TR.Run(u.limits, t.ops), repo))
               == TR.Atoms(TR.Inbox(TR.Run(u.limits, s.ops), repo)) + [TR.Notice(event)]
  {
    hide TR.Atoms, TR.Run, TR.Accepts;
    TR.WithinLimits(u.limits, s.ops);
    TR.EventAccepted(u.limits, TR.Run(u.limits, s.ops), repo, event);
    TR.DeliverStream(u.limits, TR.Run(u.limits, s.ops), repo, TR.Event(event));
    TR.AtomsOne(TR.Event(event));
    RunSnoc(u, s.ops, TR.Deliver(repo, TR.Event(event)));
  }

  lemma RunSnoc(u: Setup, ops: seq<TR.Op>, op: TR.Op)
    ensures TR.Run(u.limits, ops + [op]) == TR.Step(u.limits, TR.Run(u.limits, ops), op)
  {
    assert (ops + [op])[..|ops|] == ops;
  }

  /** Why a frame in the reader's hands ends its reading. */
  ghost predicate Stopper(u: Setup, s: Link) {
    var got := FrameCodec.ParseFrame(s.partial);
    || !got.0.Got? || got.1 != []
    || (got.0.frame.kind.Terminal? && Decode(got.0.frame.payload, u.how.validText).None?)
    || (got.0.frame.kind.Control? && u.how.parse(got.0.frame.payload) == Unreadable)
    || (Step(u, s, ReaderRoutes).ops != s.ops && TR.Run(u.limits, Step(u, s, ReaderRoutes).ops).overflowed)
  }

  /**
    The reader stops exactly when its connection fails, or when it has all it asked for and
    that is no frame, output that does not decode, text that does not parse, or something
    the router refuses.
   */
  lemma ReaderStopsExactly(u: Setup, s: Link, move: Label)
    requires s.reading
    ensures !Step(u, s, move).reading <==>
              move.ReaderFails? || (move.ReaderRoutes? && Missing(s.partial) == 0 && Stopper(u, s))
  {
    hide AC.SoloStep, FrameCodec.ParseFrame, FrameCodec.Encode, TR.Accepts, TR.Run, Missing, Popped;
    PoppedTouches(u, s);
    if move.ReaderRoutes? && Missing(s.partial) == 0 {
      var (got, rest) := FrameCodec.ParseFrame(s.partial);
      if got.Got? && rest == [] {
        var sorted := Sort(u.how, got.frame);
        if sorted.ForRouter? {
          RunSnoc(u, s.ops, TR.Deliver(sorted.repo, sorted.m));
          RefusalOverflows(u, TR.Run(u.limits, s.ops), sorted.repo, sorted.m);
        }
      }
    }
  }

  /** A reader that has stopped takes nothing more off its socket. */
  lemma StoppedReader(u: Setup, s: Link, n: nat)
    requires !s.reading
    ensures Step(u, s, ReaderReads(n)) == s && Step(u, s, ReaderRoutes) == s
  {
  }

  lemma RefusalOverflows(u: Setup, r: TR.Router, repo: Repo, m: TR.Message)
    ensures TR.Delivered(u.limits, r, repo, m).overflowed <==> !TR.Accepts(u.limits, r, repo, m)
  {
  }

  lemma SameBytesSameFrames(a: seq<Frame>, b: seq<Frame>)
    requires FrameCodec.AllInLimit(a) && FrameCodec.AllInLimit(b) && a <= b
    requires FrameCodec.EncodeAll(b) == FrameCodec.EncodeAll(a) + ([] + ([] + []))
    ensures a == b
  {
    hide FrameCodec.ParseFrame, FrameCodec.EncodeAll;
    FrameCodec.RoundTrip(a);
    FrameCodec.RoundTrip(b);
    assert FrameCodec.EncodeAll(b) == FrameCodec.EncodeAll(a);
  }
}
