/**
  What closing inboxes can cost. A client closes every inbox that is not in the set it
  was last told, and that set may be older than the bytes its reader has already filed.
  Here the router's whole history is kept across such closes.
 */
module RouterLosses {
  import opened Bytes
  import opened TerminalOutput
  import opened TerminalRouter

  /** What the last operation filed for a repository. */
  ghost function FiledNow(l: Limits, ops: seq<Op>, repo: Repo): seq<Message>
    requires ops != []
  {
    var n := |ops| - 1;
    if ops[n].Deliver? && ops[n].repo == repo && AcceptedAt(l, ops, n) then [ops[n].m] else []
  }

  /** What the last operation drained from it. */
  ghost function TakenNow(l: Limits, ops: seq<Op>, repo: Repo): seq<Message>
    requires ops != []
  {
    var n := |ops| - 1;
    if ops[n].Drain? && ops[n].repo == repo then DrainedNow(Run(l, ops[..n]), repo) else []
  }

  /** Everything ever filed for a repository, in order. */
  ghost function AllFiled(l: Limits, ops: seq<Op>, repo: Repo): seq<Message> {
    if ops == [] then [] else AllFiled(l, ops[..|ops| - 1], repo) + FiledNow(l, ops, repo)
  }

  /** Everything ever drained from it, in order. */
  ghost function AllDrained(l: Limits, ops: seq<Op>, repo: Repo): seq<Message> {
    if ops == [] then [] else AllDrained(l, ops[..|ops| - 1], repo) + TakenNow(l, ops, repo)
  }

  /** Whether an operation closes the repository's inbox. */
  predicate Closes(op: Op, repo: Repo) {
    op.Retain? && repo !in op.open
  }

  /** What had been filed when the inbox was last closed. */
  ghost function Lost(l: Limits, ops: seq<Op>, repo: Repo): seq<Message> {
    if ops == [] then []
    else if Closes(ops[|ops| - 1], repo) then AllFiled(l, ops[..|ops| - 1], repo)
    else Lost(l, ops[..|ops| - 1], repo)
  }

  /** Everything filed is what the last close cut off and what was accepted since. */
  lemma {:induction false} LostThenAccepted(l: Limits, ops: seq<Op>, repo: Repo)
    ensures AllFiled(l, ops, repo) == Lost(l, ops, repo) + Accepted(l, ops, repo)
  {
    hide AcceptedAt, Run;
    if ops != [] {
      LostThenAccepted(l, ops[..|ops| - 1], repo);
    }
  }

  // -------------------------------------------------------------- one pane

  ghost function FiledBytes(l: Limits, ops: seq<Op>, repo: Repo, pane: PaneId): seq<byte> {
    PaneBytes(AllFiled(l, ops, repo), pane)
  }

  ghost function DrainedBytes(l: Limits, ops: seq<Op>, repo: Repo, pane: PaneId): seq<byte> {
    PaneBytes(AllDrained(l, ops, repo), pane)
  }

  ghost function QueuedBytes(l: Limits, ops: seq<Op>, repo: Repo, pane: PaneId): seq<byte> {
    PaneBytes(Inbox(Run(l, ops), repo), pane)
  }

  /** Where bytes of a pane first went missing: so many drained, so many filed. */
  datatype Gap = Gap(drained: nat, filed: nat)

  ghost function FirstGap(l: Limits, ops: seq<Op>, repo: Repo, pane: PaneId): Option<Gap> {
    if ops == [] then None
    else
      var init := ops[..|ops| - 1];
      var before := FirstGap(l, init, repo, pane);
      if before.None? && Closes(ops[|ops| - 1], repo) && QueuedBytes(l, init, repo, pane) != []
      then Some(Gap(|DrainedBytes(l, init, repo, pane)|, |FiledBytes(l, init, repo, pane)|))
      else before
  }

  /** A close dropped bytes of the pane that were queued, and later ones were drained all the same. */
  ghost predicate Skips(l: Limits, ops: seq<Op>, repo: Repo, pane: PaneId) {
    var gap := FirstGap(l, ops, repo, pane);
    gap.Some? && |DrainedBytes(l, ops, repo, pane)| > gap.value.drained
  }

  lemma FiledPane(inbox: seq<Message>, m: Message, pane: PaneId)
    ensures PaneBytes(Filed(inbox, m), pane) == PaneBytes(inbox, pane) + PaneBytes([m], pane)
  {
    hide Filed, Atoms, AtomsOf, AtomBytes, PaneBytes;
    FiledAtoms(inbox, m);
    AtomsOne(m);
    AtomBytesAppend(Atoms(inbox), AtomsOf(m), pane);
    PaneBytesFromAtoms(inbox, pane);
    PaneBytesFromAtoms([m], pane);
    PaneBytesFromAtoms(Filed(inbox, m), pane);
  }

  /** How one operation moves what is queued: new bytes at the back, drained ones off the front. */
  lemma QueueMoves(l: Limits, ops: seq<Op>, repo: Repo, pane: PaneId)
    requires ops != []
    ensures Closes(ops[|ops| - 1], repo) ==> QueuedBytes(l, ops, repo, pane) == []
    ensures !Closes(ops[|ops| - 1], repo) ==>
              QueuedBytes(l, ops[..|ops| - 1], repo, pane) + PaneBytes(FiledNow(l, ops, repo), pane)
              == PaneBytes(TakenNow(l, ops, repo), pane) + QueuedBytes(l, ops, repo, pane)
  {
    hide Accepts, DrainCount, Filed, PaneBytes, BytesOf;
    NoBytes(pane);
    var n := |ops| - 1;
    var s := Run(l, ops[..n]);
    match ops[n]
    case Deliver(r, m) =>
      if r == repo && AcceptedAt(l, ops, n) {
        FiledPane(Inbox(s, repo), m, pane);
      }
    case Drain(r) =>
      if r == repo {
        assert Inbox(s, repo) == DrainedNow(s, repo) + Inbox(AfterDrain(s, repo), repo);
        PaneBytesAppend(DrainedNow(s, repo), Inbox(AfterDrain(s, repo), repo), pane);
      }
    case Retain(open) =>
  }

  lemma NoBytes(pane: PaneId)
    ensures PaneBytes([], pane) == []
  {
  }

  lemma HistoryMoves(l: Limits, ops: seq<Op>, repo: Repo, pane: PaneId)
    requires ops != []
    ensures FiledBytes(l, ops, repo, pane)
         == FiledBytes(l, ops[..|ops| - 1], repo, pane) + PaneBytes(FiledNow(l, ops, repo), pane)
    ensures DrainedBytes(l, ops, repo, pane)
         == DrainedBytes(l, ops[..|ops| - 1], repo, pane) + PaneBytes(TakenNow(l, ops, repo), pane)
    ensures Closes(ops[|ops| - 1], repo) ==>
              PaneBytes(FiledNow(l, ops, repo), pane) == [] && PaneBytes(TakenNow(l, ops, repo), pane) == []
  {
    hide PaneBytes;
    NoBytes(pane);
    PaneBytesAppend(AllFiled(l, ops[..|ops| - 1], repo), FiledNow(l, ops, repo), pane);
    PaneBytesAppend(AllDrained(l, ops[..|ops| - 1], repo), TakenNow(l, ops, repo), pane);
  }

  /** As long as no close dropped bytes of the pane, drained and queued are everything filed. */
  lemma {:induction false} NothingMissing(l: Limits, ops: seq<Op>, repo: Repo, pane: PaneId)
    requires FirstGap(l, ops, repo, pane).None?
    ensures DrainedBytes(l, ops, repo, pane) + QueuedBytes(l, ops, repo, pane) == FiledBytes(l, ops, repo, pane)
  {
    hide QueuedBytes, DrainedBytes, FiledBytes, PaneBytes, Run;
    if ops == [] {
      NothingYet(l, repo, pane);
    } else {
      NothingMissing(l, ops[..|ops| - 1], repo, pane);
      QueueMoves(l, ops, repo, pane);
      HistoryMoves(l, ops, repo, pane);
      var drained := DrainedBytes(l, ops[..|ops| - 1], repo, pane);
      var taken, queued := PaneBytes(TakenNow(l, ops, repo), pane), QueuedBytes(l, ops, repo, pane);
      assert drained + taken + queued == drained + (taken + queued);
    }
  }

  lemma NothingYet(l: Limits, repo: Repo, pane: PaneId)
    ensures QueuedBytes(l, [], repo, pane) == DrainedBytes(l, [], repo, pane) == FiledBytes(l, [], repo, pane) == []
  {
  }

  // ------------------------------------------------- where drained bytes stood

  /** The numbers from `a` up to and without `b`. */
  function Range(a: nat, b: nat): (r: seq<nat>)
    requires a <= b
    ensures |r| == b - a && forall i :: 0 <= i < |r| ==> r[i] == a + i
  {
    seq(b - a, i requires 0 <= i < b - a => a + i)
  }

  /** Where the bytes of a pane that were drained, and those queued, stand among the bytes filed for it. */
  datatype Places = Places(drained: seq<nat>, queued: seq<nat>)

  /** New bytes come in behind, drained ones leave in front, a close drops all. */
  function Moved(p: Places, filed: nat, added: nat, taken: nat, closed: bool): Places {
    var waiting := p.queued + Range(filed, filed + added);
    var n := Min(taken, |waiting|);
    Places(p.drained + waiting[..n], if closed then [] else waiting[n..])
  }

  ghost function PlacesOf(l: Limits, ops: seq<Op>, repo: Repo, pane: PaneId): Places {
    if ops == [] then Places([], [])
    else
      var init := ops[..|ops| - 1];
      Moved(PlacesOf(l, init, repo, pane), |FiledBytes(l, init, repo, pane)|, |PaneBytes(FiledNow(l, ops, repo), pane)|,
            |PaneBytes(TakenNow(l, ops, repo), pane)|, Closes(ops[|ops| - 1], repo))
  }

  ghost predicate Rising(at: seq<nat>, bound: nat) {
    && (forall i :: 0 <= i < |at| ==> at[i] < bound)
    && (forall i, j :: 0 <= i < j < |at| ==> at[i] < at[j])
  }

  /** The places are those of the bytes, each later one further on. */
  ghost predicate Placed(p: Places, drained: seq<byte>, queued: seq<byte>, filed: seq<byte>) {
    && Rising(p.drained + p.queued, |filed|)
    && |p.drained| == |drained| && |p.queued| == |queued|
    && (forall i :: 0 <= i < |drained| ==> p.drained[i] < |filed| && drained[i] == filed[p.drained[i]])
    && (forall i :: 0 <= i < |queued| ==> p.queued[i] < |filed| && queued[i] == filed[p.queued[i]])
  }

  lemma PlacedMoves(p: Places, drained: seq<byte>, queued: seq<byte>, filed: seq<byte>,
                    added: seq<byte>, taken: seq<byte>, left: seq<byte>, closed: bool)
    requires Placed(p, drained, queued, filed)
    requires if closed then left == [] && added == [] && taken == [] else queued + added == taken + left
    ensures Placed(Moved(p, |filed|, |added|, |taken|, closed), drained + taken, left, filed + added)
  {
    var waiting := p.queued + Range(|filed|, |filed| + |added|);
    var next := Moved(p, |filed|, |added|, |taken|, closed);
    if closed {
      assert waiting == p.queued && waiting[..0] == [] && next == Places(p.drained, []);
      assert filed + added == filed && drained + taken == drained && p.drained + [] == p.drained;
      RisingStart(p.drained, p.queued, |filed|);
    } else {
      assert |waiting| == |taken + left|;
      WaitingPlaced(p, queued, filed, added);
      assert next.drained + next.queued == p.drained + waiting;
      WaitingRises(p, |filed|, |added|);
      forall i | 0 <= i < |taken|
        ensures waiting[i] < |filed + added| && taken[i] == (filed + added)[waiting[i]]
      {
        assert (taken + left)[i] == taken[i];
      }
      forall i | 0 <= i < |left|
        ensures waiting[|taken| + i] < |filed + added| && left[i] == (filed + added)[waiting[|taken| + i]]
      {
        assert (taken + left)[|taken| + i] == left[i];
      }
    }
  }

  lemma RisingStart(a: seq<nat>, b: seq<nat>, bound: nat)
    requires Rising(a + b, bound)
    ensures Rising(a, bound)
  {
    assert forall i :: 0 <= i < |a| ==> (a + b)[i] == a[i];
  }

  lemma WaitingPlaced(p: Places, queued: seq<byte>, filed: seq<byte>, added: seq<byte>)
    requires |p.queued| == |queued|
    requires forall i :: 0 <= i < |queued| ==> p.queued[i] < |filed| && queued[i] == filed[p.queued[i]]
    ensures var waiting := p.queued + Range(|filed|, |filed| + |added|);
            forall i :: 0 <= i < |queued + added| ==>
              waiting[i] < |filed + added| && (queued + added)[i] == (filed + added)[waiting[i]]
  {
  }

  lemma WaitingRises(p: Places, filed: nat, added: nat)
    requires Rising(p.drained + p.queued, filed)
    ensures Rising(p.drained + (p.queued + Range(filed, filed + added)), filed + added)
  {
    var all, more := p.drained + p.queued, Range(filed, filed + added);
    assert p.drained + (p.queued + more) == all + more;
    forall i, j | 0 <= i < j < |all + more|
      ensures (all + more)[i] < (all + more)[j]
    {
      assert i < |all| ==> (all + more)[i] == all[i];
      assert j < |all| ==> (all + more)[j] == all[j];
    }
  }

  /** In every run the places are right: drained bytes keep their order and none comes twice. */
  lemma {:induction false} PlacesAreRight(l: Limits, ops: seq<Op>, repo: Repo, pane: PaneId)
    ensures Placed(PlacesOf(l, ops, repo, pane), DrainedBytes(l, ops, repo, pane),
                   QueuedBytes(l, ops, repo, pane), FiledBytes(l, ops, repo, pane))
  {
    hide QueuedBytes, DrainedBytes, FiledBytes, PaneBytes, Run, Placed, Moved;
    if ops == [] {
      NothingYet(l, repo, pane);
      NothingPlaced();
    } else {
      var init := ops[..|ops| - 1];
      PlacesAreRight(l, init, repo, pane);
      QueueMoves(l, ops, repo, pane);
      HistoryMoves(l, ops, repo, pane);
      PlacedMoves(PlacesOf(l, init, repo, pane),
                  DrainedBytes(l, init, repo, pane), QueuedBytes(l, init, repo, pane), FiledBytes(l, init, repo, pane),
                  PaneBytes(FiledNow(l, ops, repo), pane), PaneBytes(TakenNow(l, ops, repo), pane),
                  QueuedBytes(l, ops, repo, pane), Closes(ops[|ops| - 1], repo));
    }
  }

  lemma NothingPlaced()
    ensures Placed(Places([], []), [], [], [])
  {
  }

  /** Before a gap the places are all there are; after one, the part before it is, and the rest is beyond it. */
  ghost predicate Split(gap: Option<Gap>, p: Places, filed: nat) {
    match gap
    case None => p.drained + p.queued == Range(0, filed)
    case Some(g) =>
      && g.drained < g.filed <= filed
      && g.drained <= |p.drained|
      && (forall i :: 0 <= i < g.drained ==> p.drained[i] == i)
      && (forall i :: g.drained <= i < |p.drained| ==> p.drained[i] >= g.filed)
      && (forall i :: 0 <= i < |p.queued| ==> p.queued[i] >= g.filed)
  }

  lemma RangeGrows(filed: nat, added: nat)
    ensures Range(0, filed) + Range(filed, filed + added) == Range(0, filed + added)
  {
  }

  lemma SplitMoves(gap: Option<Gap>, p: Places, filed: nat, added: nat, taken: nat)
    requires Split(gap, p, filed)
    ensures Split(gap, Moved(p, filed, added, taken, false), filed + added)
  {
    var more := Range(filed, filed + added);
    var waiting := p.queued + more;
    var next := Moved(p, filed, added, taken, false);
    var n := Min(taken, |waiting|);
    assert waiting == waiting[..n] + waiting[n..];
    if gap.None? {
      assert next.drained + next.queued == p.drained + p.queued + more;
      RangeGrows(filed, added);
    } else {
      assert forall i :: 0 <= i < |waiting| ==> waiting[i] >= gap.value.filed;
    }
  }

  lemma SplitCloses(gap: Option<Gap>, p: Places, filed: nat)
    requires Split(gap, p, filed)
    ensures Moved(p, filed, 0, 0, true) == Places(p.drained, [])
    ensures Split(if gap.None? && p.queued != [] then Some(Gap(|p.drained|, filed)) else gap,
                  Moved(p, filed, 0, 0, true), filed)
  {
    assert p.queued + Range(filed, filed) == p.queued;
    assert p.drained + p.queued[..0] == p.drained;
    if gap.None? {
      forall i | 0 <= i < |p.drained|
        ensures p.drained[i] == i
      {
        assert (p.drained + p.queued)[i] == p.drained[i];
      }
    }
  }

  lemma {:induction false} PlacesAroundGap(l: Limits, ops: seq<Op>, repo: Repo, pane: PaneId)
    ensures Split(FirstGap(l, ops, repo, pane), PlacesOf(l, ops, repo, pane), |FiledBytes(l, ops, repo, pane)|)
  {
    hide QueuedBytes, DrainedBytes, FiledBytes, PaneBytes, Run, Split, Moved;
    if ops == [] {
      NothingYet(l, repo, pane);
      NothingSplit();
    } else {
      var init := ops[..|ops| - 1];
      PlacesAroundGap(l, init, repo, pane);
      PlacesAreRight(l, init, repo, pane);
      HistoryMoves(l, ops, repo, pane);
      var before, filed := PlacesOf(l, init, repo, pane), |FiledBytes(l, init, repo, pane)|;
      if Closes(ops[|ops| - 1], repo) {
        SplitCloses(FirstGap(l, init, repo, pane), before, filed);
      } else {
        SplitMoves(FirstGap(l, init, repo, pane), before, filed, |PaneBytes(FiledNow(l, ops, repo), pane)|,
                   |PaneBytes(TakenNow(l, ops, repo), pane)|);
      }
    }
  }

  lemma NothingSplit()
    ensures Split(None, Places([], []), 0)
  {
  }

  /** Every drained byte is the next one filed: the i-th drained is the i-th filed. */
  ghost predicate FromTheStart(at: seq<nat>) {
    forall i :: 0 <= i < |at| ==> at[i] == i
  }

  /**
    In every run, what was ever drained for a pane is, byte for byte and by where each byte
    stood, the beginning of what was filed exactly unless bytes were drained after a close
    dropped some that were queued.
   */
  lemma NoHoleExactly(l: Limits, ops: seq<Op>, repo: Repo, pane: PaneId)
    ensures FromTheStart(PlacesOf(l, ops, repo, pane).drained) <==> !Skips(l, ops, repo, pane)
  {
    hide QueuedBytes, DrainedBytes, FiledBytes, PaneBytes, Run, PlacesOf, FirstGap;
    PlacesAreRight(l, ops, repo, pane);
    PlacesAroundGap(l, ops, repo, pane);
    var p, gap := PlacesOf(l, ops, repo, pane), FirstGap(l, ops, repo, pane);
    if gap.None? {
      forall i | 0 <= i < |p.drained|
        ensures p.drained[i] == i
      {
        assert (p.drained + p.queued)[i] == p.drained[i];
      }
    } else if Skips(l, ops, repo, pane) {
      assert p.drained[gap.value.drained] >= gap.value.filed;
    }
  }

  // -------------------------------------------------------------- an example

  /** Output, a close by a set from before the repository was opened, more output, a drain. */
  function StaleOps(repo: Repo, pane: PaneId, a: byte, b: byte, open: seq<Repo>): seq<Op> {
    [Deliver(repo, Output(pane, [a])), Retain(open), Deliver(repo, Output(pane, [b])), Drain(repo)]
  }

  lemma RunSnoc(l: Limits, ops: seq<Op>, op: Op)
    ensures Run(l, ops + [op]) == Step(l, Run(l, ops), op)
  {
    assert (ops + [op])[..|ops|] == ops;
  }

  lemma StaleSet(l: Limits, repo: Repo, pane: PaneId, a: byte, b: byte, open: seq<Repo>)
    requires l.bytes > 0 && l.messages > 0 && repo !in open
    ensures var ops := StaleOps(repo, pane, a, b, open);
            && Accepts(l, Run(l, []), repo, Output(pane, [a]))
            && Accepts(l, Run(l, ops[..2]), repo, Output(pane, [b]))
            && DrainedBytes(l, ops, repo, pane) == [b]
            && Skips(l, ops, repo, pane)
  {
    hide Run, AllDrained, AllFiled, FirstGap, DrainCount, PaneBytes, Accepts;
    var ops := StaleOps(repo, pane, a, b, open);
    assert ops[..1] == [] + [ops[0]] && ops[..2] == ops[..1] + [ops[1]] && ops[..3] == ops[..2] + [ops[2]];
    assert ops[..2][..1] == ops[..1] && ops[..3][..2] == ops[..2];
    EmptyRun(l);
    RunSnoc(l, [], ops[0]);
    FirstOutput(l, repo, pane, a);
    RunSnoc(l, ops[..1], ops[1]);
    assert Run(l, ops[..2]) == EMPTY_ROUTER;
    RunSnoc(l, ops[..2], ops[2]);
    FirstOutput(l, repo, pane, b);
    OneDrained(pane, a);
    OneDrained(pane, b);
    NeverDrained(l, ops[..3], repo);
    NeverDrained(l, ops[..1], repo);
    LastDrained(l, ops, repo);
    assert Run(l, ops[..3]).inboxes == map[repo := [Output(pane, [b])]];
    assert TakenNow(l, ops, repo) == [Output(pane, [b])];
    NoBytes(pane);
    GapOpens(l, ops[..2], repo, pane);
    GapStays(l, ops[..3], repo, pane);
    GapStays(l, ops, repo, pane);
  }

  lemma EmptyRun(l: Limits)
    ensures Run(l, []) == EMPTY_ROUTER
  {
  }

  lemma FirstOutput(l: Limits, repo: Repo, pane: PaneId, b: byte)
    requires l.bytes > 0 && l.messages > 0
    ensures Accepts(l, EMPTY_ROUTER, repo, Output(pane, [b]))
    ensures Delivered(l, EMPTY_ROUTER, repo, Output(pane, [b])) == Router(map[repo := [Output(pane, [b])]], false)
  {
    assert TotalBytes(map[]) == 0 && TotalMessages(map[]) == 0;
    assert Filed([], Output(pane, [b])) == [Output(pane, [b])];
  }

  lemma {:induction false} NeverDrained(l: Limits, ops: seq<Op>, repo: Repo)
    requires forall i :: 0 <= i < |ops| ==> !ops[i].Drain?
    ensures AllDrained(l, ops, repo) == []
  {
    if ops != [] {
      NeverDrained(l, ops[..|ops| - 1], repo);
    }
  }

  lemma LastDrained(l: Limits, ops: seq<Op>, repo: Repo)
    requires ops != []
    ensures AllDrained(l, ops, repo) == AllDrained(l, ops[..|ops| - 1], repo) + TakenNow(l, ops, repo)
  {
  }

  lemma GapOpens(l: Limits, ops: seq<Op>, repo: Repo, pane: PaneId)
    requires ops != [] && Closes(ops[|ops| - 1], repo) && QueuedBytes(l, ops[..|ops| - 1], repo, pane) != []
    requires DrainedBytes(l, ops[..|ops| - 1], repo, pane) == []
    ensures FirstGap(l, ops, repo, pane).Some? && FirstGap(l, ops, repo, pane).value.drained == 0
  {
    hide QueuedBytes, FiledBytes, PaneBytes, Run;
    if FirstGap(l, ops[..|ops| - 1], repo, pane).Some? {
      PlacesAroundGap(l, ops[..|ops| - 1], repo, pane);
      PlacesAreRight(l, ops[..|ops| - 1], repo, pane);
    }
  }

  lemma GapStays(l: Limits, ops: seq<Op>, repo: Repo, pane: PaneId)
    requires ops != [] && FirstGap(l, ops[..|ops| - 1], repo, pane).Some?
    ensures FirstGap(l, ops, repo, pane) == FirstGap(l, ops[..|ops| - 1], repo, pane)
  {
  }

  lemma OneDrained(pane: PaneId, b: byte)
    ensures DrainCount([Output(pane, [b])]) == 1
    ensures PaneBytes([Output(pane, [b])], pane) == [b]
  {
    assert BytesOf([Output(pane, [b])]) == 1 + BytesOf([]);
    IsDrainUnique([Output(pane, [b])], 1, DrainCount([Output(pane, [b])]));
  }
}
