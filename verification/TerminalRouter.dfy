/**
  Splitting one attach socket's terminal traffic per repository: one inbox a
  repository, two connection-wide counters, coalescing of adjacent output, bounded
  drains, and a flag that refuses everything once one message has been refused.
 */
module TerminalRouter {
  import opened Bytes
  import opened TerminalOutput

  const DRAIN_MESSAGES: nat := 64
  const DRAIN_BYTES: nat := 256 * 1024

  /** A control event of the hub, opaque to the router. */
  datatype HubEvent = HubEvent(code: nat)

  datatype Message = Event(event: HubEvent) | Output(pane: PaneId, data: seq<byte>)

  datatype Limits = Limits(bytes: nat, messages: nat)

  function OutputBytes(m: Message): nat {
    match m
    case Event(_) => 0
    case Output(_, data) => |data|
  }

  function BytesOf(inbox: seq<Message>): nat {
    if inbox == [] then 0 else OutputBytes(inbox[0]) + BytesOf(inbox[1..])
  }

  lemma {:induction false} BytesOfAppend(a: seq<Message>, b: seq<Message>)
    ensures BytesOf(a + b) == BytesOf(a) + BytesOf(b)
  {
    if a == [] {
      assert a + b == b;
    } else {
      assert (a + b)[1..] == a[1..] + b;
      BytesOfAppend(a[1..], b);
    }
  }

  lemma BytesOfSplit(inbox: seq<Message>, k: nat)
    requires k <= |inbox|
    ensures BytesOf(inbox) == BytesOf(inbox[..k]) + BytesOf(inbox[k..])
  {
    assert inbox == inbox[..k] + inbox[k..];
    BytesOfAppend(inbox[..k], inbox[k..]);
  }

  // ------------------------------------------------- what the router must do

  /** The router without its counters: what is queued, and whether it refuses. */
  datatype Router = Router(inboxes: map<Repo, seq<Message>>, overflowed: bool)

  const EMPTY_ROUTER := Router(map[], false)

  function Inbox(s: Router, repo: Repo): seq<Message> {
    if repo in s.inboxes then s.inboxes[repo] else []
  }

  function MessagesOf(inbox: seq<Message>): nat {
    |inbox|
  }

  ghost function TotalBytes(inboxes: map<Repo, seq<Message>>): nat {
    Sum(inboxes, BytesOf)
  }

  ghost function TotalMessages(inboxes: map<Repo, seq<Message>>): nat {
    Sum(inboxes, MessagesOf)
  }

  /** Whether a message may join the last one queued: same pane, and one drain chunk together. */
  predicate Coalesces(inbox: seq<Message>, m: Message) {
    && inbox != []
    && inbox[|inbox| - 1].Output?
    && m.Output?
    && inbox[|inbox| - 1].pane == m.pane
    && |inbox[|inbox| - 1].data| + |m.data| <= DRAIN_BYTES
  }

  function Filed(inbox: seq<Message>, m: Message): seq<Message> {
    if Coalesces(inbox, m) then
      inbox[..|inbox| - 1] + [Output(m.pane, inbox[|inbox| - 1].data + m.data)]
    else
      inbox + [m]
  }

  ghost predicate Accepts(l: Limits, s: Router, repo: Repo, m: Message) {
    && !s.overflowed
    && TotalBytes(s.inboxes) + OutputBytes(m) <= l.bytes
    && (Coalesces(Inbox(s, repo), m) || TotalMessages(s.inboxes) < l.messages)
  }

  ghost function Delivered(l: Limits, s: Router, repo: Repo, m: Message): Router {
    if Accepts(l, s, repo, m)
    then s.(inboxes := s.inboxes[repo := Filed(Inbox(s, repo), m)])
    else s.(overflowed := true)
  }

  /**
    How much one drain takes: at most `DRAIN_MESSAGES`, at most `DRAIN_BYTES` unless the
    head alone is larger, and no less than those two allow.
   */
  ghost predicate IsDrain(inbox: seq<Message>, k: nat) {
    && k <= |inbox|
    && k <= DRAIN_MESSAGES
    && (k >= 2 ==> BytesOf(inbox[..k]) <= DRAIN_BYTES)
    && (k < |inbox| && k < DRAIN_MESSAGES ==> k >= 1 && BytesOf(inbox[..k + 1]) > DRAIN_BYTES)
  }

  lemma {:induction false} BytesOfMonotone(inbox: seq<Message>, j: nat, k: nat)
    requires j <= k <= |inbox|
    ensures BytesOf(inbox[..j]) <= BytesOf(inbox[..k])
  {
    BytesOfSplit(inbox[..k], j);
    assert inbox[..k][..j] == inbox[..j];
  }

  /** Those bounds leave one answer. */
  lemma IsDrainUnique(inbox: seq<Message>, a: nat, b: nat)
    requires IsDrain(inbox, a) && IsDrain(inbox, b)
    ensures a == b
  {
    hide BytesOf;
    if a < b {
      BytesOfMonotone(inbox, a + 1, b);
    } else if b < a {
      BytesOfMonotone(inbox, b + 1, a);
    }
  }

  function DrainCount(inbox: seq<Message>): (k: nat)
    ensures IsDrain(inbox, k)
  {
    DrainMore(inbox, 0)
  }

  function DrainMore(inbox: seq<Message>, taken: nat): (k: nat)
    requires taken <= |inbox| && taken <= DRAIN_MESSAGES
    requires taken >= 2 ==> BytesOf(inbox[..taken]) <= DRAIN_BYTES
    ensures IsDrain(inbox, k)
    decreases |inbox| - taken
  {
    if taken == |inbox| || taken == DRAIN_MESSAGES then taken
    else if taken > 0 && BytesOf(inbox[..taken + 1]) > DRAIN_BYTES then taken
    else DrainMore(inbox, taken + 1)
  }

  ghost function AfterDrain(s: Router, repo: Repo): Router {
    if repo in s.inboxes
    then s.(inboxes := s.inboxes[repo := s.inboxes[repo][DrainCount(s.inboxes[repo])..]])
    else s
  }

  ghost function DrainedNow(s: Router, repo: Repo): seq<Message> {
    Inbox(s, repo)[..DrainCount(Inbox(s, repo))]
  }

  ghost function Retained(s: Router, open: seq<Repo>): Router {
    s.(inboxes := map r | r in s.inboxes && r in open :: s.inboxes[r])
  }

  // ------------------------------------------------------------- the router

  function CheckedAdd(a: nat, b: nat): Option<nat> {
    if a + b <= USIZE_MAX then Some(a + b) else None
  }

  function SaturatingAdd(a: nat, b: nat): nat {
    Min(a + b, USIZE_MAX)
  }

  class TerminalRouter {
    const limits: Limits
    var inboxes: map<Repo, seq<Message>>
    var queuedBytes: nat
    var queuedMessages: nat
    var overflowed: bool

    ghost function State(): Router
      reads this
    {
      Router(inboxes, overflowed)
    }

    /** The counters are the true sums over every inbox, and within the limits. */
    ghost predicate Valid()
      reads this
    {
      && queuedBytes == TotalBytes(inboxes) <= limits.bytes <= USIZE_MAX
      && queuedMessages == TotalMessages(inboxes) <= limits.messages
    }

    constructor (limits: Limits)
      requires limits.bytes <= USIZE_MAX
      ensures Valid() && State() == EMPTY_ROUTER && this.limits == limits
    {
      this.limits := limits;
      inboxes := map[];
      queuedBytes, queuedMessages, overflowed := 0, 0, false;
    }

    method Deliver(repo: Repo, m: Message) returns (ok: bool)
      requires Valid()
      modifies this
      ensures Valid()
      ensures ok == Accepts(limits, old(State()), repo, m)
      ensures State() == Delivered(limits, old(State()), repo, m)
    {
      var incoming := OutputBytes(m);
      var inbox := if repo in inboxes then inboxes[repo] else [];
      var coalesces := Coalesces(inbox, m);
      var total := CheckedAdd(queuedBytes, incoming);
      var bytesFit := total.Some? && total.value <= limits.bytes;
      var messagesFit := coalesces || queuedMessages < limits.messages;
      if overflowed || !bytesFit || !messagesFit {
        overflowed := true;
        return false;
      }
      queuedBytes := queuedBytes + incoming;
      if !coalesces {
        queuedMessages := queuedMessages + 1;
      }
      var filed: seq<Message>;
      if coalesces {
        var tail := inbox[|inbox| - 1];
        filed := inbox[..|inbox| - 1] + [Output(tail.pane, tail.data + m.data)];
      } else {
        filed := inbox + [m];
      }
      FiledSizes(inbox, m);
      SumUpdate(inboxes, BytesOf, repo, filed);
      SumUpdate(inboxes, MessagesOf, repo, filed);
      inboxes := inboxes[repo := filed];
      ok := true;
    }

    method Drain(repo: Repo) returns (drained: seq<Message>)
      requires Valid()
      modifies this
      ensures Valid()
      ensures drained == DrainedNow(old(State()), repo)
      ensures State() == AfterDrain(old(State()), repo)
    {
      if repo !in inboxes {
        return [];
      }
      var inbox := inboxes[repo];
      var outputBytes;
      drained, outputBytes := TakePrefix(inbox);
      var rest := inbox[|drained|..];
      BytesOfSplit(inbox, |drained|);
      SumUpdate(inboxes, BytesOf, repo, rest);
      SumUpdate(inboxes, MessagesOf, repo, rest);
      queuedBytes := queuedBytes - outputBytes;
      queuedMessages := queuedMessages - |drained|;
      inboxes := inboxes[repo := rest];
    }

    method Retain(open: seq<Repo>)
      requires Valid()
      modifies this
      ensures Valid()
      ensures State() == Retained(old(State()), open)
    {
      var kept, removedBytes, removedMessages := Sweep(inboxes, open);
      queuedBytes := queuedBytes - removedBytes;
      queuedMessages := queuedMessages - removedMessages;
      inboxes := kept;
    }
  }

  /** The loop of one drain over the front of an inbox. */
  method TakePrefix(inbox: seq<Message>) returns (drained: seq<Message>, outputBytes: nat)
    ensures |drained| == DrainCount(inbox)
    ensures drained == inbox[..|drained|]
    ensures outputBytes == BytesOf(drained)
  {
    drained, outputBytes := [], 0;
    var rest := inbox;
    while |drained| < DRAIN_MESSAGES && rest != []
      invariant |drained| <= |inbox| && |drained| <= DRAIN_MESSAGES
      invariant drained == inbox[..|drained|] && rest == inbox[|drained|..]
      invariant outputBytes == BytesOf(drained)
      invariant |drained| >= 2 ==> outputBytes <= DRAIN_BYTES
      decreases |rest|
    {
      var nextBytes := OutputBytes(rest[0]);
      DrainOneMore(inbox, |drained|);
      if drained != [] && SaturatingAdd(outputBytes, nextBytes) > DRAIN_BYTES {
        break;
      }
      drained := drained + [rest[0]];
      rest := rest[1..];
      outputBytes := outputBytes + nextBytes;
    }
    IsDrainUnique(inbox, |drained|, DrainCount(inbox));
  }

  /** The loop of `retain`: the inboxes kept, and what the others held. */
  method Sweep(inboxes: map<Repo, seq<Message>>, open: seq<Repo>)
    returns (kept: map<Repo, seq<Message>>, removedBytes: nat, removedMessages: nat)
    ensures kept == map r | r in inboxes && r in open :: inboxes[r]
    ensures TotalBytes(kept) + removedBytes == TotalBytes(inboxes)
    ensures TotalMessages(kept) + removedMessages == TotalMessages(inboxes)
  {
    kept, removedBytes, removedMessages := inboxes, 0, 0;
    var unseen := inboxes.Keys;
    while unseen != {}
      invariant unseen <= inboxes.Keys
      invariant kept.Keys <= inboxes.Keys
      invariant forall r :: r in kept ==> kept[r] == inboxes[r]
      invariant forall r :: r in inboxes ==> (r in kept <==> r in unseen || r in open)
      invariant TotalBytes(kept) + removedBytes == TotalBytes(inboxes)
      invariant TotalMessages(kept) + removedMessages == TotalMessages(inboxes)
      decreases unseen
    {
      var repo :| repo in unseen;
      unseen := unseen - {repo};
      if repo !in open {
        SumRemove(kept, BytesOf, repo);
        SumRemove(kept, MessagesOf, repo);
        removedBytes := removedBytes + BytesOf(kept[repo]);
        removedMessages := removedMessages + |kept[repo]|;
        kept := kept - {repo};
      }
    }
  }

  lemma DrainOneMore(inbox: seq<Message>, taken: nat)
    requires taken < |inbox|
    ensures BytesOf(inbox[..taken + 1]) == BytesOf(inbox[..taken]) + OutputBytes(inbox[taken])
    ensures inbox[..taken + 1] == inbox[..taken] + [inbox[taken]]
  {
    assert inbox[..taken + 1] == inbox[..taken] + [inbox[taken]];
    BytesOfAppend(inbox[..taken], [inbox[taken]]);
    assert BytesOf([inbox[taken]]) == OutputBytes(inbox[taken]) + BytesOf([]);
  }

  lemma FiledSizes(inbox: seq<Message>, m: Message)
    ensures BytesOf(Filed(inbox, m)) == BytesOf(inbox) + OutputBytes(m)
    ensures |Filed(inbox, m)| == |inbox| + if Coalesces(inbox, m) then 0 else 1
  {
    if Coalesces(inbox, m) {
      var n := |inbox| - 1;
      assert inbox == inbox[..n] + [inbox[n]];
      BytesOfAppend(inbox[..n], [inbox[n]]);
      BytesOfAppend(inbox[..n], [Output(m.pane, inbox[n].data + m.data)]);
    } else {
      BytesOfAppend(inbox, [m]);
    }
  }

  // ------------------------------------------------------------ whole runs

  datatype Op = Deliver(repo: Repo, m: Message) | Drain(repo: Repo) | Retain(open: seq<Repo>)

  ghost function Step(l: Limits, s: Router, op: Op): Router {
    match op
    case Deliver(repo, m) => Delivered(l, s, repo, m)
    case Drain(repo) => AfterDrain(s, repo)
    case Retain(open) => Retained(s, open)
  }

  /** The router after a run of operations, the last of them `ops[|ops| - 1]`. */
  ghost function Run(l: Limits, ops: seq<Op>): Router {
    if ops == [] then EMPTY_ROUTER
    else Step(l, Run(l, ops[..|ops| - 1]), ops[|ops| - 1])
  }

  ghost predicate AcceptedAt(l: Limits, ops: seq<Op>, i: nat)
    requires i < |ops| && ops[i].Deliver?
  {
    Accepts(l, Run(l, ops[..i]), ops[i].repo, ops[i].m)
  }

  /** The messages filed for `repo`, in order, since it was last not among the open ones. */
  ghost function Accepted(l: Limits, ops: seq<Op>, repo: Repo): seq<Message> {
    if ops == [] then []
    else
      var n := |ops| - 1;
      var before := Accepted(l, ops[..n], repo);
      match ops[n]
      case Deliver(r, m) => if r == repo && AcceptedAt(l, ops, n) then before + [m] else before
      case Drain(_) => before
      case Retain(open) => if repo in open then before else []
  }

  /** What the drains of `repo` returned, laid end to end, over the same stretch. */
  ghost function DrainedSoFar(l: Limits, ops: seq<Op>, repo: Repo): seq<Message> {
    if ops == [] then []
    else
      var n := |ops| - 1;
      var before := DrainedSoFar(l, ops[..n], repo);
      match ops[n]
      case Deliver(_, _) => before
      case Drain(r) => if r == repo then before + DrainedNow(Run(l, ops[..n]), repo) else before
      case Retain(open) => if repo in open then before else []
  }

  /** One indivisible piece of a repository's stream. */
  datatype Atom = OutputByte(pane: PaneId, b: byte) | Notice(event: HubEvent)

  function AtomsOf(m: Message): seq<Atom> {
    match m
    case Event(e) => [Notice(e)]
    case Output(pane, data) => seq(|data|, i requires 0 <= i < |data| => OutputByte(pane, data[i]))
  }

  /** The stream a list of messages carries, however it is cut into messages. */
  function Atoms(ms: seq<Message>): seq<Atom> {
    if ms == [] then [] else AtomsOf(ms[0]) + Atoms(ms[1..])
  }

  lemma {:induction false} AtomsAppend(a: seq<Message>, b: seq<Message>)
    ensures Atoms(a + b) == Atoms(a) + Atoms(b)
  {
    if a == [] {
      assert a + b == b;
    } else {
      assert (a + b)[1..] == a[1..] + b;
      AtomsAppend(a[1..], b);
    }
  }

  lemma AtomsOne(m: Message)
    ensures Atoms([m]) == AtomsOf(m)
  {
    assert Atoms([m]) == AtomsOf(m) + Atoms([]);
  }

  lemma AtomsJoin(pane: PaneId, a: seq<byte>, b: seq<byte>)
    ensures AtomsOf(Output(pane, a + b)) == AtomsOf(Output(pane, a)) + AtomsOf(Output(pane, b))
  {
  }

  /** Joining a message to the last one queued adds exactly its own stream. */
  lemma FiledAtoms(inbox: seq<Message>, m: Message)
    ensures Atoms(Filed(inbox, m)) == Atoms(inbox) + AtomsOf(m)
  {
    hide Atoms, AtomsOf;
    AtomsOne(m);
    if Coalesces(inbox, m) {
      var n := |inbox| - 1;
      var joined := Output(m.pane, inbox[n].data + m.data);
      AtomsJoin(m.pane, inbox[n].data, m.data);
      assert inbox == inbox[..n] + [inbox[n]];
      AtomsAppend(inbox[..n], [inbox[n]]);
      AtomsAppend(inbox[..n], [joined]);
      AtomsOne(inbox[n]);
      AtomsOne(joined);
    } else {
      AtomsAppend(inbox, [m]);
    }
  }

  lemma DeliverStream(l: Limits, s: Router, repo: Repo, m: Message)
    requires Accepts(l, s, repo, m)
    ensures Atoms(Inbox(Delivered(l, s, repo, m), repo)) == Atoms(Inbox(s, repo)) + Atoms([m])
  {
    FiledAtoms(Inbox(s, repo), m);
    AtomsOne(m);
  }

  lemma DrainStream(s: Router, repo: Repo)
    ensures Atoms(Inbox(s, repo)) == Atoms(DrainedNow(s, repo)) + Atoms(Inbox(AfterDrain(s, repo), repo))
  {
    hide Atoms, DrainCount, BytesOf;
    assert Inbox(s, repo) == DrainedNow(s, repo) + Inbox(AfterDrain(s, repo), repo);
    AtomsAppend(DrainedNow(s, repo), Inbox(AfterDrain(s, repo), repo));
  }

  /**
    Conservation: whatever was delivered, drained and closed, what a repository's
    drains returned followed by what is still queued is the stream that was filed for
    it. Nothing is lost, repeated or reordered, and coalescing cannot be observed.
   */
  lemma {:induction false} Conservation(l: Limits, ops: seq<Op>, repo: Repo)
    ensures Atoms(DrainedSoFar(l, ops, repo)) + Atoms(Inbox(Run(l, ops), repo)) == Atoms(Accepted(l, ops, repo))
  {
    if ops != [] {
      var n := |ops| - 1;
      Conservation(l, ops[..n], repo);
      ConservationStep(l, ops, repo);
    }
  }

  lemma ConservationStep(l: Limits, ops: seq<Op>, repo: Repo)
    requires ops != []
    requires var before := ops[..|ops| - 1];
             Atoms(DrainedSoFar(l, before, repo)) + Atoms(Inbox(Run(l, before), repo))
             == Atoms(Accepted(l, before, repo))
    ensures Atoms(DrainedSoFar(l, ops, repo)) + Atoms(Inbox(Run(l, ops), repo)) == Atoms(Accepted(l, ops, repo))
  {
    hide Atoms;
    var n := |ops| - 1;
    var s := Run(l, ops[..n]);
    match ops[n]
    case Deliver(r, m) =>
      if r == repo && AcceptedAt(l, ops, n) {
        DeliverStream(l, s, repo, m);
        AtomsAppend(Accepted(l, ops[..n], repo), [m]);
      }
    case Drain(r) =>
      if r == repo {
        DrainStream(s, repo);
        AtomsAppend(DrainedSoFar(l, ops[..n], repo), DrainedNow(s, repo));
      }
    case Retain(open) =>
      AtomsNone();
  }

  lemma AtomsNone()
    ensures Atoms([]) == []
  {
  }

  /** The bytes of one pane, in order. */
  function PaneBytes(ms: seq<Message>, pane: PaneId): seq<byte> {
    if ms == [] then []
    else (if ms[0].Output? && ms[0].pane == pane then ms[0].data else []) + PaneBytes(ms[1..], pane)
  }

  lemma {:induction false} PaneBytesAppend(a: seq<Message>, b: seq<Message>, pane: PaneId)
    ensures PaneBytes(a + b, pane) == PaneBytes(a, pane) + PaneBytes(b, pane)
  {
    if a == [] {
      assert a + b == b;
    } else {
      assert (a + b)[1..] == a[1..] + b;
      PaneBytesAppend(a[1..], b, pane);
    }
  }

  function AtomBytes(atoms: seq<Atom>, pane: PaneId): seq<byte> {
    if atoms == [] then []
    else (if atoms[0].OutputByte? && atoms[0].pane == pane then [atoms[0].b] else []) + AtomBytes(atoms[1..], pane)
  }

  lemma {:induction false} AtomBytesAppend(a: seq<Atom>, b: seq<Atom>, pane: PaneId)
    ensures AtomBytes(a + b, pane) == AtomBytes(a, pane) + AtomBytes(b, pane)
  {
    if a == [] {
      assert a + b == b;
    } else {
      assert (a + b)[1..] == a[1..] + b;
      AtomBytesAppend(a[1..], b, pane);
    }
  }

  lemma {:induction false} AtomBytesOf(m: Message, pane: PaneId)
    ensures AtomBytes(AtomsOf(m), pane) == if m.Output? && m.pane == pane then m.data else []
    decreases OutputBytes(m)
  {
    if m.Output? && m.data != [] {
      var rest := Output(m.pane, m.data[1..]);
      assert AtomsOf(m)[1..] == AtomsOf(rest);
      AtomBytesOf(rest, pane);
    } else if m.Event? {
      assert AtomBytes(AtomsOf(m)[1..], pane) == [];
    }
  }

  lemma {:induction false} PaneBytesFromAtoms(ms: seq<Message>, pane: PaneId)
    ensures PaneBytes(ms, pane) == AtomBytes(Atoms(ms), pane)
  {
    if ms != [] {
      AtomBytesOf(ms[0], pane);
      PaneBytesFromAtoms(ms[1..], pane);
      AtomBytesAppend(AtomsOf(ms[0]), Atoms(ms[1..]), pane);
    }
  }

  /** Per pane: what was drained, then what is queued, is what was filed. */
  lemma PaneConservation(l: Limits, ops: seq<Op>, repo: Repo, pane: PaneId)
    ensures PaneBytes(DrainedSoFar(l, ops, repo), pane) + PaneBytes(Inbox(Run(l, ops), repo), pane)
         == PaneBytes(Accepted(l, ops, repo), pane)
  {
    var drained, queued := DrainedSoFar(l, ops, repo), Inbox(Run(l, ops), repo);
    Conservation(l, ops, repo);
    AtomBytesAppend(Atoms(drained), Atoms(queued), pane);
    PaneBytesFromAtoms(drained, pane);
    PaneBytesFromAtoms(queued, pane);
    PaneBytesFromAtoms(Accepted(l, ops, repo), pane);
  }

  /** The true totals never pass the limits, in any run. */
  lemma {:induction false} WithinLimits(l: Limits, ops: seq<Op>)
    ensures TotalBytes(Run(l, ops).inboxes) <= l.bytes
    ensures TotalMessages(Run(l, ops).inboxes) <= l.messages
  {
    if ops != [] {
      var n := |ops| - 1;
      var s := Run(l, ops[..n]);
      WithinLimits(l, ops[..n]);
      match ops[n]
      case Deliver(repo, m) =>
        if Accepts(l, s, repo, m) {
          FiledSizes(Inbox(s, repo), m);
          SumUpdate(s.inboxes, BytesOf, repo, Filed(Inbox(s, repo), m));
          SumUpdate(s.inboxes, MessagesOf, repo, Filed(Inbox(s, repo), m));
        }
      case Drain(repo) =>
        if repo in s.inboxes {
          var k := DrainCount(s.inboxes[repo]);
          BytesOfSplit(s.inboxes[repo], k);
          SumUpdate(s.inboxes, BytesOf, repo, s.inboxes[repo][k..]);
          SumUpdate(s.inboxes, MessagesOf, repo, s.inboxes[repo][k..]);
        }
      case Retain(open) =>
        SumRestrict(s.inboxes, BytesOf, open);
        SumRestrict(s.inboxes, MessagesOf, open);
    }
  }

  lemma {:induction false} SumRestrict(m: map<Repo, seq<Message>>, weight: seq<Message> -> nat, open: seq<Repo>)
    ensures Sum(map r | r in m && r in open :: m[r], weight) <= Sum(m, weight)
    decreases |m|
  {
    var kept := map r | r in m && r in open :: m[r];
    if m == map[] {
      assert kept == map[];
    } else {
      var k :| k in m;
      var rest := m - {k};
      SumRestrict(rest, weight, open);
      SumRemove(m, weight, k);
      if k in open {
        SumRemove(kept, weight, k);
        assert kept - {k} == map r | r in rest && r in open :: rest[r];
      } else {
        assert kept == map r | r in rest && r in open :: rest[r];
      }
    }
  }

  lemma {:induction false} OverflowSticks(l: Limits, ops: seq<Op>, k: nat)
    requires k <= |ops| && Run(l, ops[..k]).overflowed
    ensures Run(l, ops).overflowed
  {
    if k == |ops| {
      assert ops[..k] == ops;
    } else {
      assert ops[..|ops| - 1][..k] == ops[..k];
      OverflowSticks(l, ops[..|ops| - 1], k);
    }
  }

  /** After one refusal every later delivery is refused: a hole is never followed by bytes. */
  lemma Poisoned(l: Limits, ops: seq<Op>, i: nat, j: nat)
    requires i < j < |ops| && ops[i].Deliver? && ops[j].Deliver?
    requires !AcceptedAt(l, ops, i)
    ensures !AcceptedAt(l, ops, j)
  {
    assert ops[..i + 1][..i] == ops[..i];
    assert ops[..j][..i + 1] == ops[..i + 1];
    OverflowSticks(l, ops[..j], i + 1);
  }

  // --------------------------------------------------- what things weigh

  /** How many bytes of output a stream holds. */
  function ByteCount(atoms: seq<Atom>): nat {
    if atoms == [] then 0 else ByteCount(atoms[1..]) + if atoms[0].OutputByte? then 1 else 0
  }

  lemma {:induction false} ByteCountAppend(a: seq<Atom>, b: seq<Atom>)
    ensures ByteCount(a + b) == ByteCount(a) + ByteCount(b)
  {
    if a == [] {
      assert a + b == b;
    } else {
      assert (a + b)[1..] == a[1..] + b;
      ByteCountAppend(a[1..], b);
    }
  }

  lemma {:induction false} ByteCountOf(m: Message)
    ensures ByteCount(AtomsOf(m)) == if m.Output? then |m.data| else 0
    decreases if m.Output? then |m.data| else 0
  {
    if m.Output? && m.data != [] {
      var rest := Output(m.pane, m.data[1..]);
      assert AtomsOf(m)[1..] == AtomsOf(rest);
      ByteCountOf(rest);
    } else if m.Event? {
      assert AtomsOf(m)[1..] == [];
    }
  }

  /** The bytes the limits count are the bytes of output in the stream, and nothing else. */
  lemma {:induction false} BytesAreOutput(ms: seq<Message>)
    ensures BytesOf(ms) == ByteCount(Atoms(ms))
  {
    if ms != [] {
      BytesAreOutput(ms[1..]);
      ByteCountAppend(AtomsOf(ms[0]), Atoms(ms[1..]));
      ByteCountOf(ms[0]);
    }
  }

  /** Within the limits an event is accepted exactly if nothing was refused and a message more fits. */
  lemma EventAccepted(l: Limits, s: Router, repo: Repo, event: HubEvent)
    requires TotalBytes(s.inboxes) <= l.bytes
    ensures Accepts(l, s, repo, Event(event)) <==> !s.overflowed && TotalMessages(s.inboxes) < l.messages
  {
  }

  /** Whether output continues the last message of an inbox within one drain. */
  predicate Continues(inbox: seq<Message>, pane: PaneId, data: seq<byte>) {
    && |inbox| > 0
    && match inbox[|inbox| - 1]
       case Event(_) => false
       case Output(p, queued) => p == pane && |queued| + |data| <= 256 * 1024
  }

  /**
    Output is accepted exactly if nothing was refused, its bytes fit, and it needs no message
    of its own or one more fits; and it needs none exactly where it continues the last one.
   */
  lemma OutputAccepted(l: Limits, s: Router, repo: Repo, pane: PaneId, data: seq<byte>)
    ensures Accepts(l, s, repo, Output(pane, data)) <==>
              && !s.overflowed
              && TotalBytes(s.inboxes) + |data| <= l.bytes
              && (Continues(Inbox(s, repo), pane, data) || TotalMessages(s.inboxes) < l.messages)
    ensures |Filed(Inbox(s, repo), Output(pane, data))|
         == |Inbox(s, repo)| + if Continues(Inbox(s, repo), pane, data) then 0 else 1
  {
    hide TotalBytes, TotalMessages;
  }

  lemma {:induction false} EventsWeighNothing(inbox: seq<Message>)
    requires forall i :: 0 <= i < |inbox| ==> inbox[i].Event?
    ensures BytesOf(inbox) == 0
  {
    if inbox != [] {
      EventsWeighNothing(inbox[1..]);
    }
  }

  /** A drain takes events by the message bound alone. */
  lemma EventsDrain(inbox: seq<Message>)
    requires forall i :: 0 <= i < |inbox| ==> inbox[i].Event?
    ensures DrainCount(inbox) == Min(|inbox|, 64)
  {
    hide BytesOf, DrainCount;
    var n := Min(|inbox|, 64);
    EventsWeighNothing(inbox[..n]);
    IsDrainUnique(inbox, n, DrainCount(inbox));
  }

  /**
    And output by both: as many messages as fit into 64 and 256 KiB, but one at least, told
    by the streams they carry.
   */
  lemma DrainedFits(inbox: seq<Message>)
    ensures var k := DrainCount(inbox);
            && k <= |inbox| && k <= 64 && (inbox != [] ==> k >= 1)
            && (k >= 2 ==> ByteCount(Atoms(inbox[..k])) <= 256 * 1024)
            && (k < |inbox| && k < 64 ==> ByteCount(Atoms(inbox[..k + 1])) > 256 * 1024)
  {
    hide BytesOf, DrainCount, Atoms, ByteCount;
    var k := DrainCount(inbox);
    BytesAreOutput(inbox[..k]);
    if k < |inbox| {
      BytesAreOutput(inbox[..k + 1]);
    }
  }
}
