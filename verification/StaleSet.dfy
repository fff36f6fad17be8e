/**
  A run of one attach connection, every step of it, in which output is lost. The client
  closes what a set does not name when it comes to work that set off, and its reader is
  ahead of it.
 */
module StaleSet {
  import opened Bytes
  import opened TerminalOutput
  import opened AttachLink
  import FrameCodec
  import AC = AttachedClients
  import TR = TerminalRouter
  import RL = RouterLosses

  /** The closes of a run, in order. */
  function ClosesOf(moves: seq<Label>): seq<seq<Repo>> {
    if moves == [] then []
    else
      var last := moves[|moves| - 1];
      ClosesOf(moves[..|moves| - 1]) + if last.CloseOthers? then [last.open] else []
  }

  /** What the sets among the payloads handed over name, in order. */
  function SetsIn(how: Reading, handed: seq<seq<byte>>): seq<seq<Repo>> {
    if handed == [] then []
    else
      var named := how.names(handed[|handed| - 1]);
      SetsIn(how, handed[..|handed| - 1]) + if named.Some? then [named.value] else []
  }

  /** At every point of the run the closes are those of the sets handed over, in order, so far as it has come. */
  ghost predicate ByTheSets(u: Setup, moves: seq<Label>) {
    && ClosesOf(moves) <= SetsIn(u.how, Run(u, moves).handed)
    && (moves == [] || ByTheSets(u, moves[..|moves| - 1]))
  }

  lemma Extend(u: Setup, moves: seq<Label>, move: Label)
    ensures Run(u, moves + [move]) == Step(u, Run(u, moves), move)
  {
    assert (moves + [move])[..|moves|] == moves;
  }

  /** A link at rest with nothing in the way of the next output. */
  ghost predicate AtRest(s: Link) {
    Quiet(s) && s.reading
  }

  /** Once the header is read, exactly the payload is missing. */
  lemma MissingPayload(f: Frame, partial: seq<byte>)
    requires FrameCodec.InLimit(f) && partial <= FrameCodec.Encode(f) && |partial| >= FrameCodec.HEADER_BYTES
    ensures Missing(partial) == |FrameCodec.Encode(f)| - |partial|
  {
    assert partial[..FrameCodec.HEADER_BYTES] == FrameCodec.Header(f);
    assert partial[1..5] == FrameCodec.Header(f)[1..5] == FrameCodec.BigEndian(|f.payload|, 4);
    Pow256Word();
    FrameCodec.BigEndianRoundTrip(|f.payload|, 4);
  }

  lemma TaggedSorts(how: Reading, o: Tagged)
    requires Nameable(how, o.repo)
    ensures Sort(how, TagFrame(o)) == ForRouter(o.repo, TR.Output(o.pane, o.data))
  {
    DecodeEncoded(o, how.validText);
  }

  /** The frame a move offers to the client. */
  function OfferOf(send: Label): Frame
    requires send.Relay? || send.SendControl?
  {
    if send.Relay? then TagFrame(send.o) else FrameCodec.Frame(FrameCodec.Control, send.payload)
  }

  lemma RestOffers(u: Setup, s: Link, send: Label)
    requires AtRest(s) && (send.Relay? || send.SendControl?)
    ensures var t := Step(u, s, send);
            && t.client.attached && t.client.ch.reading && t.client.ch.queue == [OfferOf(send)]
            && t.outgoing == [] && t.wire == []
  {
    hide TagFrame;
  }

  lemma OfferedIsWritten(u: Setup, s: Link, f: Frame)
    requires s.client.attached && s.client.ch.reading && s.client.ch.queue == [f] && s.outgoing == [] && s.wire == []
    requires FrameCodec.InLimit(f)
    ensures var t := Step(u, Step(u, s, WriterPops), WriterWrites(|FrameCodec.Encode(f)|));
            && t == s.(client := t.client, wired := t.wired, wire := FrameCodec.Encode(f))
            && t.client.attached && t.client.ch.reading && t.client.ch.queue == []
  {
    hide FrameCodec.Encode, Missing, TagFrame, FrameCodec.ParseFrame, TR.Accepts, Sort;
    var popped := Step(u, s, WriterPops);
    assert popped == s.(client := popped.client, wired := popped.wired, outgoing := FrameCodec.Encode(f));
  }

  /** From a link at rest, a frame is queued, taken by the writer and written. */
  lemma Write(u: Setup, moves: seq<Label>, send: Label) returns (longer: seq<Label>)
    requires AtRest(Run(u, moves)) && (send.Relay? || send.SendControl?) && FrameCodec.InLimit(OfferOf(send))
    ensures var s, t := Run(u, moves), Run(u, longer);
            t == Step(u, s, send).(client := t.client, wired := t.wired, wire := FrameCodec.Encode(OfferOf(send)))
    ensures Run(u, longer).client.attached && Run(u, longer).client.ch.reading && Run(u, longer).client.ch.queue == []
    ensures ClosesOf(longer) == ClosesOf(moves)
    ensures ByTheSets(u, moves) ==> ByTheSets(u, longer)
  {
    hide Run, FrameCodec.Encode, Step, OfferOf, ClosesOf, ByTheSets, SetsIn;
    var write := WriterWrites(|FrameCodec.Encode(OfferOf(send))|);
    var queued := moves + [send];
    var popped := queued + [WriterPops];
    longer := popped + [write];
    Extend(u, moves, send);
    Extend(u, queued, WriterPops);
    Extend(u, popped, write);
    ExtendCloses(u, moves, send);
    ExtendCloses(u, queued, WriterPops);
    ExtendCloses(u, popped, write);
    RestOffers(u, Run(u, moves), send);
    OfferedIsWritten(u, Run(u, queued), OfferOf(send));
  }

  /** And the reader has it whole in two reads. */
  lemma Carry(u: Setup, moves: seq<Label>, send: Label) returns (longer: seq<Label>)
    requires AtRest(Run(u, moves)) && (send.Relay? || send.SendControl?) && FrameCodec.InLimit(OfferOf(send))
    ensures var s, t := Run(u, moves), Run(u, longer);
            t == Step(u, s, send).(client := t.client, wired := t.wired, partial := FrameCodec.Encode(OfferOf(send)))
    ensures Run(u, longer).client.attached && Run(u, longer).client.ch.reading && Run(u, longer).client.ch.queue == []
    ensures ClosesOf(longer) == ClosesOf(moves)
    ensures ByTheSets(u, moves) ==> ByTheSets(u, longer)
  {
    hide Run, FrameCodec.Encode, Missing, TagFrame, ClosesOf, ByTheSets, SetsIn, AC.SoloStep;
    var wire := FrameCodec.Encode(OfferOf(send));
    var written := Write(u, moves, send);
    var header := written + [ReaderReads(FrameCodec.HEADER_BYTES)];
    Extend(u, written, ReaderReads(FrameCodec.HEADER_BYTES));
    ExtendCloses(u, written, ReaderReads(FrameCodec.HEADER_BYTES));
    HeaderMissing();
    EncodeLength(OfferOf(send));
    assert Run(u, header).partial == wire[..FrameCodec.HEADER_BYTES];
    MissingPayload(OfferOf(send), Run(u, header).partial);
    longer := header + [ReaderReads(|wire|)];
    Extend(u, header, ReaderReads(|wire|));
    ExtendCloses(u, header, ReaderReads(|wire|));
    assert Run(u, longer).partial == wire;
  }

  /** Then one more move routes it: output to the router, a set to the client. */
  lemma Ship(u: Setup, moves: seq<Label>, send: Label) returns (longer: seq<Label>)
    requires AtRest(Run(u, moves)) && (send.Relay? || send.SendControl?) && FrameCodec.InLimit(OfferOf(send))
    requires send.Relay? ==>
               && Nameable(u.how, send.o.repo)
               && TR.Accepts(u.limits, TR.Run(u.limits, Run(u, moves).ops), send.o.repo,
                             TR.Output(send.o.pane, send.o.data))
    requires send.SendControl? ==> u.how.parse(send.payload) == Plain
    ensures AtRest(Run(u, longer))
    ensures Run(u, longer).sent == Run(u, moves).sent + [if send.Relay? then Piece(send.o) else Text(send.payload)]
    ensures Run(u, longer).handed == Run(u, moves).handed + if send.Relay? then [] else [send.payload]
    ensures Run(u, longer).ops == Run(u, moves).ops
                                  + if send.Relay? then [TR.Deliver(send.o.repo, TR.Output(send.o.pane, send.o.data))]
                                    else []
    ensures ClosesOf(longer) == ClosesOf(moves)
    ensures ByTheSets(u, moves) ==> ByTheSets(u, longer)
  {
    hide Run, TR.Accepts, TR.Run, TagFrame, FrameCodec.ParseFrame, FrameCodec.Encode, Missing;
    hide ClosesOf, ByTheSets, SetsIn, AC.SoloStep;
    var carried := Carry(u, moves, send);
    var f := OfferOf(send);
    EncodeLength(f);
    MissingPayload(f, FrameCodec.Encode(f));
    FrameCodec.ParseEncoded(f, []);
    assert FrameCodec.Encode(f) + [] == FrameCodec.Encode(f);
    longer := carried + [ReaderRoutes];
    Extend(u, carried, ReaderRoutes);
    ExtendCloses(u, carried, ReaderRoutes);
    if send.Relay? {
      TaggedSorts(u.how, send.o);
    }
  }

  lemma HeaderMissing()
    ensures Missing([]) == FrameCodec.HEADER_BYTES
  {
  }

  lemma EncodeLength(f: Frame)
    requires FrameCodec.InLimit(f)
    ensures |FrameCodec.Encode(f)| == FrameCodec.HEADER_BYTES + |f.payload|
  {
  }

  lemma ExtendCloses(u: Setup, moves: seq<Label>, move: Label)
    requires !move.CloseOthers?
    ensures ClosesOf(moves + [move]) == ClosesOf(moves)
    ensures ByTheSets(u, moves) ==> ByTheSets(u, moves + [move])
  {
    hide Step;
    assert (moves + [move])[..|moves|] == moves;
    Extend(u, moves, move);
    HandedGrows(u, Run(u, moves), move);
  }

  lemma HandedGrows(u: Setup, s: Link, move: Label)
    ensures SetsIn(u.how, s.handed) <= SetsIn(u.how, Step(u, s, move).handed)
  {
    hide AC.SoloStep, FrameCodec.ParseFrame, FrameCodec.Encode, TR.Accepts, Sort, Missing;
    var next := Step(u, s, move).handed;
    if next != s.handed {
      assert next[..|s.handed|] == s.handed;
    }
  }

  /** The client works off the next set it was handed. */
  lemma CloseByNext(u: Setup, moves: seq<Label>, open: seq<Repo>)
    requires ByTheSets(u, moves) && ClosesOf(moves) + [open] <= SetsIn(u.how, Run(u, moves).handed)
    ensures ByTheSets(u, moves + [CloseOthers(open)])
    ensures ClosesOf(moves + [CloseOthers(open)]) == ClosesOf(moves) + [open]
  {
    hide SetsIn, AC.SoloStep, FrameCodec.ParseFrame, FrameCodec.Encode, TR.Accepts, Sort, Missing;
    assert (moves + [CloseOthers(open)])[..|moves|] == moves;
    Extend(u, moves, CloseOthers(open));
  }

  /**
    The one way a hole appears. The daemon sends a set; a repository is opened and its first
    output follows. The reader hands the set over and files the output before the client
    has worked the set off; the set, which does not name the repository, then closes its
    inbox, and the next output arrives alone.
   */
  lemma StaleSetSkips(how: Reading, told: seq<byte>, repo: Repo, pane: PaneId) returns (u: Setup, moves: seq<Label>)
    requires Nameable(how, repo) && how.parse(told) == Plain && |told| <= FrameCodec.MAX_FRAME_BYTES
    requires how.names(told).Some? && repo !in how.names(told).value
    ensures u.how == how && ByTheSets(u, moves)
    ensures var s := Run(u, moves);
            && s.handed == [told]
            && TaggedBytes(s.sent, repo, pane) == [1, 2]
            && RL.DrainedBytes(u.limits, s.ops, repo, pane) == [2]
            && RL.Skips(u.limits, s.ops, repo, pane)
  {
    hide Run, RL.DrainedBytes, RL.Skips, TR.Run, TR.Accepts, ByTheSets, SetsIn, Step, AtRest, TaggedBytes, RL.StaleOps;
    u := Setup(how, TR.Limits(16, 16), 0);
    var open := how.names(told).value;
    var closed := FiledThenClosed(u, told, repo, pane);
    var second := Tagged(repo, pane, [2]);
    SmallFrame(second);
    RL.StaleSet(u.limits, repo, pane, 1, 2, open);
    var filed := Ship(u, closed, Relay(second));
    moves := filed + [DrainRepo(repo)];
    Extend(u, filed, DrainRepo(repo));
    ExtendCloses(u, filed, DrainRepo(repo));
    Drains(u, Run(u, filed), repo);
    StaleOpsEnd(repo, pane, open);
    TwoTagged(told, Tagged(repo, pane, [1]), second);
    assert Run(u, moves).sent == [Text(told), Piece(Tagged(repo, pane, [1])), Piece(second)];
  }

  /** The set is handed over, the first output filed, and then the set worked off. */
  lemma FiledThenClosed(u: Setup, told: seq<byte>, repo: Repo, pane: PaneId) returns (moves: seq<Label>)
    requires Nameable(u.how, repo) && u.how.parse(told) == Plain && |told| <= FrameCodec.MAX_FRAME_BYTES
    requires u.how.names(told).Some? && repo !in u.how.names(told).value
    requires u.limits.bytes > 0 && u.limits.messages > 0
    ensures ByTheSets(u, moves) && AtRest(Run(u, moves))
    ensures Run(u, moves).handed == [told] && Run(u, moves).sent == [Text(told), Piece(Tagged(repo, pane, [1]))]
    ensures Run(u, moves).ops == RL.StaleOps(repo, pane, 1, 2, u.how.names(told).value)[..2]
  {
    hide Run, TR.Run, TR.Accepts, ClosesOf, ByTheSets, SetsIn, Step, AtRest;
    var open, first := u.how.names(told).value, Tagged(repo, pane, [1]);
    StartAtRest(u);
    SmallFrame(first);
    RL.StaleSet(u.limits, repo, pane, 1, 2, open);
    var handed := Ship(u, [], SendControl(told, true));
    var filed := Ship(u, handed, Relay(first));
    OneSet(u.how, told);
    assert Run(u, filed).handed == [told] && [] + [open] == [open];
    CloseByNext(u, filed, open);
    Extend(u, filed, CloseOthers(open));
    Closes(u, Run(u, filed), open);
    moves := filed + [CloseOthers(open)];
  }

  lemma Closes(u: Setup, s: Link, open: seq<Repo>)
    ensures Step(u, s, CloseOthers(open)) == s.(ops := s.ops + [TR.Retain(open)])
    ensures AtRest(s) ==> AtRest(Step(u, s, CloseOthers(open)))
  {
  }

  lemma Drains(u: Setup, s: Link, repo: Repo)
    ensures Step(u, s, DrainRepo(repo)) == s.(ops := s.ops + [TR.Drain(repo)])
  {
  }

  lemma StaleOpsEnd(repo: Repo, pane: PaneId, open: seq<Repo>)
    ensures var ops := RL.StaleOps(repo, pane, 1, 2, open);
            |ops| == 4 && ops[..2] + [TR.Deliver(repo, TR.Output(pane, [2]))] + [TR.Drain(repo)] == ops
  {
  }

  lemma OneSet(how: Reading, told: seq<byte>)
    requires how.names(told).Some?
    ensures SetsIn(how, [told]) == [how.names(told).value]
  {
    assert [told][..0] == [];
  }

  lemma StartAtRest(u: Setup)
    ensures Run(u, []) == Start() && AtRest(Start()) && Start().ops == [] && Start().sent == []
    ensures Start().handed == [] && ClosesOf([]) == [] && ByTheSets(u, [])
  {
  }

  lemma SmallFrame(o: Tagged)
    requires |o.repo| <= MAX_REPO_BYTES && |o.data| == 1
    ensures FrameCodec.InLimit(TagFrame(o))
  {
  }

  lemma TwoTagged(told: seq<byte>, a: Tagged, b: Tagged)
    requires a.repo == b.repo && a.pane == b.pane && a.data == [1] && b.data == [2]
    ensures TaggedBytes([Text(told), Piece(a), Piece(b)], a.repo, a.pane) == [1, 2]
  {
    var all := [Text(told), Piece(a), Piece(b)];
    assert all[..2] == [Text(told), Piece(a)] && all[..2][..1] == [Text(told)] && all[..1][..0] == [];
    assert TaggedBytes([Text(told)], a.repo, a.pane) == TaggedBytes([], a.repo, a.pane) + [];
    assert TaggedBytes(all[..2], a.repo, a.pane) == [1];
  }
}
