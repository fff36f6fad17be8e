/**
  The owner of the panes parks between passes. Reader and waiter threads queue an event
  and then raise a flag; the owner drains, works out the earliest moment it has timed
  work of its own, and waits for the flag or that moment. Every single receive of a
  pass, every send and every raising of the flag is its own step.
 */
module OwnerWake {
  import opened Bytes
  import opened PtyDrain
  import PT = PaneTrace

  /** The two threads behind a pane that queue events for it. */
  datatype Producer = Reader | Waiter

  datatype Place =
    | BeforePass
    | Passing(now: Time, todo: set<PaneId>, at: Option<PaneId>)
    | AfterPass
    | Parked(until: Time)

  /**
    `panes` holds each pane with the record of what was queued for it, taken and reported;
    `owes` the producers that have queued an event and not yet raised the flag for it.
   */
  datatype World = World(
    panes: map<PaneId, PT.Trace>,
    place: Place,
    pending: bool,
    owes: set<(PaneId, Producer)>,
    clock: Time)

  datatype Label =
    | Send(id: PaneId, e: PtyEvent)
    | Raise(id: PaneId, who: Producer)
    | Insert(id: PaneId)
    | Remove(id: PaneId)
    | StartPass(now: Time)
    | Visit(id: PaneId)
    | Receive
    | EndPass
    | EnterWait(now: Time, deadline: Option<Time>, cap: Time)
    | LeaveWait

  const START := World(map[], BeforePass, false, {}, 0)

  /** Who queues an event. */
  function Sender(e: PtyEvent): Producer {
    if e.ChildExited? then Waiter else Reader
  }

  predicate Spent(p: Pane) {
    p.window.Some? && p.window.value.used >= BUDGET
  }

  /** The moments one pane wants the owner back at. */
  function Deadlines(p: Pane): seq<Time> {
    (if p.exit.Draining? then [p.exit.since + EXIT_GRACE] else [])
    + (if Spent(p) then [End(p.window.value)] else [])
  }

  ghost predicate NoLaterThan(deadline: Option<Time>, p: Pane) {
    forall t :: t in Deadlines(p) ==> deadline.Some? && deadline.value <= t
  }

  /** A pane wants the owner back at the end of a grace that began, or of a window that is spent. */
  ghost predicate Wants(p: Pane, t: Time) {
    || (p.exit.Draining? && t == p.exit.since + 50_000_000)
    || (p.window.Some? && p.window.value.used >= 64 && t == p.window.value.start + 8_000_000)
  }

  lemma DeadlinesAreWanted(p: Pane)
    ensures forall t :: t in Deadlines(p) <==> Wants(p, t)
  {
  }

  /** The earliest of the moments any pane wants the owner back at, and none if no pane wants it. */
  method NextDeadline(panes: seq<Entry>) returns (deadline: Option<Time>)
    ensures forall i :: 0 <= i < |panes| ==> NoLaterThan(deadline, panes[i].pane)
    ensures deadline.Some? ==> exists i :: 0 <= i < |panes| && Wants(panes[i].pane, deadline.value)
    ensures deadline.None? ==> forall i, t :: 0 <= i < |panes| ==> !Wants(panes[i].pane, t)
    ensures forall i, t :: 0 <= i < |panes| && Wants(panes[i].pane, t) ==> deadline.Some? && deadline.value <= t
  {
    deadline := None;
    var i := 0;
    while i < |panes|
      invariant 0 <= i <= |panes|
      invariant forall j :: 0 <= j < i ==> NoLaterThan(deadline, panes[j].pane)
      invariant deadline.Some? ==> exists j :: 0 <= j < i && deadline.value in Deadlines(panes[j].pane)
    {
      var wanted := Deadlines(panes[i].pane);
      var k := 0;
      while k < |wanted|
        invariant 0 <= k <= |wanted|
        invariant forall j :: 0 <= j < i ==> NoLaterThan(deadline, panes[j].pane)
        invariant forall j :: 0 <= j < k ==> deadline.Some? && deadline.value <= wanted[j]
        invariant deadline.Some? ==> exists j :: 0 <= j <= i && deadline.value in Deadlines(panes[j].pane)
      {
        if deadline.None? || wanted[k] < deadline.value {
          deadline := Some(wanted[k]);
        }
        k := k + 1;
      }
      i := i + 1;
    }
    forall i | 0 <= i < |panes|
      ensures forall t :: t in Deadlines(panes[i].pane) <==> Wants(panes[i].pane, t)
    {
      DeadlinesAreWanted(panes[i].pane);
    }
  }

  // ------------------------------------------------------------------- steps

  /** Every pane's record is one a pane of a woken owner can have. */
  ghost predicate Sound(w: World) {
    forall id :: id in w.panes ==> PT.Sound(w.panes[id], true)
  }

  /** One pane takes a step of its own. */
  ghost function Moved(w: World, id: PaneId, l: PT.Label): (next: World)
    requires Sound(w) && id in w.panes
    ensures Sound(next)
  {
    w.(panes := w.panes[id := PT.Step(w.panes[id], l, true)])
  }

  /** The pass comes to a pane. */
  ghost function Visited(w: World, id: PaneId): (next: World)
    requires Sound(w) && w.place.Passing? && id in w.panes
    ensures Sound(next)
  {
    var next := Moved(w, id, PT.BeginTurn(w.place.now));
    next.(place := w.place.(todo := w.place.todo - {id}, at := if next.panes[id].turn.Some? then Some(id) else None))
  }

  /** One receive on the channel of the pane the pass is at. */
  ghost function Received(w: World, id: PaneId): (next: World)
    requires Sound(w) && w.place.Passing? && id in w.panes
    ensures Sound(next)
  {
    var next := Moved(w, id, PT.ReceiveOne);
    if next.panes[id].turn.Some? then next else next.(place := w.place.(at := None))
  }

  ghost function Step(w: World, l: Label): (next: World)
    requires Sound(w)
    ensures Sound(next)
  {
    match l
    case Send(id, e) =>
      if id in w.panes && PT.MaySend(w.panes[id], e) && (id, Sender(e)) !in w.owes
      then Moved(w, id, PT.Produce(e)).(owes := w.owes + {(id, Sender(e))})
      else w
    case Raise(id, who) =>
      if (id, who) in w.owes then w.(pending := true, owes := w.owes - {(id, who)}) else w
    case Insert(id) =>
      if id !in w.panes && (w.place.BeforePass? || w.place.AfterPass?)
      then w.(panes := w.panes[id := PT.START])
      else w
    case Remove(id) =>
      if w.place.BeforePass? || w.place.AfterPass? then w.(panes := w.panes - {id}) else w
    case StartPass(now) =>
      if w.place.BeforePass? && now >= w.clock
      then w.(place := Passing(now, w.panes.Keys, None), clock := now)
      else w
    case Visit(id) =>
      if w.place.Passing? && w.place.at.None? && id in w.place.todo && id in w.panes then Visited(w, id) else w
    case Receive =>
      if w.place.Passing? && w.place.at.Some? && w.place.at.value in w.panes then Received(w, w.place.at.value) else w
    case EndPass =>
      if w.place.Passing? && w.place.at.None? && w.place.todo == {} then w.(place := AfterPass) else w
    case EnterWait(now, deadline, cap) =>
      if w.place.AfterPass? && (forall id :: id in w.panes ==> NoLaterThan(deadline, w.panes[id].pane)) then
        var until := Min(if deadline.Some? then deadline.value else now + cap, now + cap);
        if w.pending || until <= now then w.(pending := false, place := BeforePass) else w.(place := Parked(until))
      else w
    case LeaveWait =>
      if w.place.Parked? then w.(pending := false, place := BeforePass) else w
  }

  ghost function Run(labels: seq<Label>): (w: World)
    ensures Sound(w)
  {
    if labels == [] then START else Step(Run(labels[..|labels| - 1]), labels[|labels| - 1])
  }

  // ------------------------------------------------- each pane on its own

  /** What a step of the world is to one pane that is there before and after. */
  ghost function PaneMove(w: World, l: Label, id: PaneId): Option<PT.Label>
    requires Sound(w)
  {
    match l
    case Send(to, e) =>
      if to == id && id in w.panes && PT.MaySend(w.panes[id], e) && (id, Sender(e)) !in w.owes
      then Some(PT.Produce(e)) else None
    case Visit(v) =>
      if v == id && w.place.Passing? && w.place.at.None? && id in w.place.todo
      then Some(PT.BeginTurn(w.place.now)) else None
    case Receive => if w.place.Passing? && w.place.at == Some(id) then Some(PT.ReceiveOne) else None
    case _ => None
  }

  lemma StepPane(w: World, l: Label, id: PaneId)
    requires Sound(w) && id in Step(w, l).panes
    ensures id !in w.panes ==> Step(w, l).panes[id] == PT.START
    ensures id in w.panes ==>
              Step(w, l).panes[id] ==
              if PaneMove(w, l, id).Some? then PT.Step(w.panes[id], PaneMove(w, l, id).value, true) else w.panes[id]
  {
    hide PT.Step, PT.MaySend;
  }

  /**
    In every run of the owner and all the producers, each pane has gone through a run of
    its own, so what holds of one pane's runs holds of every pane here: its exit is
    reported once, its output in order, its bytes no faster than its windows allow.
   */
  lemma {:induction false} PaneRuns(labels: seq<Label>, id: PaneId) returns (own: seq<PT.Label>)
    requires id in Run(labels).panes
    ensures Run(labels).panes[id] == PT.Run(own, true)
  {
    hide Step, PT.Step;
    var init, last := labels[..|labels| - 1], labels[|labels| - 1];
    var w := Run(init);
    StepPane(w, last, id);
    if id !in w.panes {
      own := [];
    } else {
      var before := PaneRuns(init, id);
      var move := PaneMove(w, last, id);
      if move.None? {
        own := before;
      } else {
        own := before + [move.value];
        assert own[..|before|] == before;
      }
    }
  }

  /** The exit, prefix and pacing results, over runs of the owner with every receive a step of its own. */
  lemma EveryPaneReportsRight(labels: seq<Label>, id: PaneId, from: Time, length: Time)
    requires id in Run(labels).panes
    ensures var t := Run(labels).panes[id];
            && Ends(PT.Plain(t.reported)) <= 1
            && Heard(PT.Plain(t.reported)) <= Sent(t.sent)
            && PT.SaidWithin(t.reported, from, from + length) <= BUDGET * PT.WindowsIn(length)
  {
    hide Run;
    var own := PaneRuns(labels, id);
    PT.ReportedOnceInOrder(own, true);
    PT.PacingBound(own, from, length);
  }

  /** And the step that reports an exit has the reason it needs. */
  lemma EveryExitIsDue(labels: seq<Label>, l: Label, id: PaneId)
    requires id in Run(labels).panes && !Run(labels).panes[id].pane.exit.Reported?
    requires id in Step(Run(labels), l).panes && Step(Run(labels), l).panes[id].pane.exit.Reported?
    ensures var before, after := Run(labels).panes[id], Step(Run(labels), l).panes[id];
            || (Exited in PT.Plain(after.taken) && Heard(PT.Plain(after.reported)) == Sent(after.sent))
            || (after.pane.rx == [] && exists since: Time ::
                  PT.Stamped(since, ChildExited) in before.taken && after.clock >= since + EXIT_GRACE)
  {
    hide Run, Step, PT.Run, PT.Plain, Heard, Sent;
    var w := Run(labels);
    var own := PaneRuns(labels, id);
    StepPane(w, l, id);
    var move := PaneMove(w, l, id);
    OnlyReceiveReports(w.panes[id], move.value);
    RunOnce(own);
    PT.ExitReport(own, true);
  }

  lemma OnlyReceiveReports(t: PT.Trace, l: PT.Label)
    requires PT.Sound(t, true) && !t.pane.exit.Reported? && PT.Step(t, l, true).pane.exit.Reported?
    ensures l.ReceiveOne?
  {
  }

  lemma RunOnce(own: seq<PT.Label>)
    ensures PT.Run(own + [PT.ReceiveOne], true) == PT.Step(PT.Run(own, true), PT.ReceiveOne, true)
  {
    assert (own + [PT.ReceiveOne])[..|own|] == own;
  }

  // -------------------------------------------------------------- invariants

  /** The pass under way still has this pane ahead of it, or is at it. */
  predicate Ahead(place: Place, id: PaneId) {
    place.BeforePass? || (place.Passing? && (id in place.todo || place.at == Some(id)))
  }

  /** A queued event no exit has made moot is on its way to being looked at. */
  predicate Covered(w: World, id: PaneId)
    requires id in w.panes
  {
    var p := w.panes[id].pane;
    p.rx != [] && !p.exit.Reported? ==>
      || w.pending
      || (id, Reader) in w.owes
      || (id, Waiter) in w.owes
      || Ahead(w.place, id)
      || Spent(p)
  }

  /** A pane has a turn exactly while the pass is at it, and then its window has room for just that. */
  predicate TurnSound(w: World, id: PaneId)
    requires id in w.panes
  {
    var t := w.panes[id];
    && t.clock <= w.clock
    && (w.place.Passing? ==> w.place.now == w.clock)
    && (t.turn.Some? <==> w.place.Passing? && w.place.at == Some(id))
    && (t.turn.Some? ==> t.pane.window.Some? && t.pane.window.value.used + t.turn.value.allowed == BUDGET)
  }

  /** A parked owner wakes no later than any moment this pane asked for. */
  ghost predicate OnTime(w: World, id: PaneId)
    requires id in w.panes
  {
    w.place.Parked? ==> NoLaterThan(Some(w.place.until), w.panes[id].pane)
  }

  ghost predicate PaneInv(w: World, id: PaneId)
    requires id in w.panes
  {
    TurnSound(w, id) && Covered(w, id) && OnTime(w, id)
  }

  ghost predicate Inv(w: World) {
    && Sound(w)
    && (w.place.Passing? ==> w.place.now == w.clock)
    && (w.place.Passing? && w.place.at.Some? ==> w.place.at.value in w.panes)
    && forall id :: id in w.panes ==> PaneInv(w, id)
  }

  lemma ReceivedKeeps(w: World, id: PaneId)
    requires Sound(w) && w.place.Passing? && w.place.at == Some(id) && id in w.panes && PaneInv(w, id)
    ensures PaneInv(Received(w, id), id)
  {
  }

  lemma VisitedKeeps(w: World, id: PaneId)
    requires Sound(w) && w.place.Passing? && w.place.at.None? && id in w.place.todo && id in w.panes && PaneInv(w, id)
    ensures PaneInv(Visited(w, id), id)
  {
  }

  lemma SendKeeps(w: World, to: PaneId, e: PtyEvent, id: PaneId)
    requires Sound(w) && id in w.panes && PaneInv(w, id)
    ensures id in Step(w, Send(to, e)).panes && PaneInv(Step(w, Send(to, e)), id)
  {
    assert Sender(e) == Reader || Sender(e) == Waiter;
    assert Deadlines(Step(w, Send(to, e)).panes[id].pane) == Deadlines(w.panes[id].pane);
  }

  lemma WaitKeeps(w: World, now: Time, deadline: Option<Time>, cap: Time, id: PaneId)
    requires Sound(w) && id in w.panes && PaneInv(w, id)
    ensures id in Step(w, EnterWait(now, deadline, cap)).panes
    ensures PaneInv(Step(w, EnterWait(now, deadline, cap)), id)
  {
    if w.place.AfterPass? && (forall i :: i in w.panes ==> NoLaterThan(deadline, w.panes[i].pane)) {
      assert NoLaterThan(deadline, w.panes[id].pane);
    }
  }

  lemma PaneStep(w: World, l: Label, id: PaneId)
    requires Inv(w) && id in w.panes && id in Step(w, l).panes
    ensures PaneInv(Step(w, l), id)
  {
    hide PT.Step, NoLaterThan, Spent;
    match l
    case Send(to, e) => SendKeeps(w, to, e, id);
    case Raise(_, _) =>
    case Insert(_) =>
    case Remove(_) =>
    case StartPass(_) =>
    case Visit(v) =>
      if v == id && w.place.Passing? && w.place.at.None? && v in w.place.todo {
        VisitedKeeps(w, v);
      }
    case Receive =>
      if w.place.Passing? && w.place.at == Some(id) {
        ReceivedKeeps(w, id);
      }
    case EndPass =>
    case EnterWait(now, deadline, cap) => WaitKeeps(w, now, deadline, cap, id);
    case LeaveWait =>
  }

  lemma NewPane(w: World, l: Label, id: PaneId)
    requires Inv(w) && id !in w.panes && id in Step(w, l).panes
    ensures PaneInv(Step(w, l), id)
  {
    hide PT.Step;
  }

  lemma PlaceStep(w: World, l: Label)
    requires Inv(w)
    ensures var next := Step(w, l);
            && (next.place.Passing? ==> next.place.now == next.clock)
            && (next.place.Passing? && next.place.at.Some? ==> next.place.at.value in next.panes)
  {
    hide PT.Step, PaneInv;
  }

  lemma InvStep(w: World, l: Label)
    requires Inv(w)
    ensures Inv(Step(w, l))
  {
    hide Step, PaneInv;
    PlaceStep(w, l);
    forall id | id in Step(w, l).panes
      ensures PaneInv(Step(w, l), id)
    {
      if id in w.panes {
        PaneStep(w, l, id);
      } else {
        NewPane(w, l, id);
      }
    }
  }

  lemma {:induction false} RunInv(labels: seq<Label>)
    ensures Inv(Run(labels))
  {
    if labels != [] {
      hide Step, PaneInv;
      RunInv(labels[..|labels| - 1]);
      InvStep(Run(labels[..|labels| - 1]), labels[|labels| - 1]);
    }
  }

  /**
    No stranded events: whenever the owner is parked and the flag is down, every queued
    event of a pane whose exit is unreported has a producer that is about to raise the
    flag, or waits for a spent window whose end the owner will be awake at. A pane
    draining after its child's death is looked at again by the end of its grace.
   */
  lemma NoStrandedEvents(labels: seq<Label>, id: PaneId)
    requires Run(labels).place.Parked? && !Run(labels).pending && id in Run(labels).panes
    ensures var w := Run(labels);
            var p := w.panes[id].pane;
            && (p.rx != [] && !p.exit.Reported? ==>
                  || (id, Reader) in w.owes
                  || (id, Waiter) in w.owes
                  || (Spent(p) && w.place.until <= End(p.window.value)))
            && (p.exit.Draining? ==> w.place.until <= p.exit.since + EXIT_GRACE)
  {
    RunInv(labels);
    var w := Run(labels);
    var p := w.panes[id].pane;
    assert PaneInv(w, id);
    assert p.exit.Draining? ==> p.exit.since + EXIT_GRACE in Deadlines(p);
    assert Spent(p) ==> End(p.window.value) in Deadlines(p);
  }

  // ------------------------------------------------------------- it comes round

  /** Raising the flag, and what a wait does with it. */
  lemma WakeExactly(w: World, id: PaneId, who: Producer, now: Time, deadline: Option<Time>, cap: Time)
    requires Sound(w)
    ensures var raised := Step(w, Raise(id, who));
            raised == if (id, who) in w.owes then w.(pending := true, owes := w.owes - {(id, who)}) else w
    ensures w.place.AfterPass? && (forall i :: i in w.panes ==> NoLaterThan(deadline, w.panes[i].pane)) ==>
              var until := if deadline.Some? && deadline.value < now + cap then deadline.value else now + cap;
              var waiting := Step(w, EnterWait(now, deadline, cap));
              waiting == if w.pending || until <= now then w.(pending := false, place := BeforePass)
                         else w.(place := Parked(until))
    ensures w.place.Parked? ==> Step(w, LeaveWait) == w.(pending := false, place := BeforePass)
  {
    hide NoLaterThan;
  }

  /** Panes come and go between passes, and a pane that comes is new. */
  lemma PanesComeAndGo(w: World, id: PaneId)
    requires Sound(w) && (w.place.BeforePass? || w.place.AfterPass?)
    ensures id !in w.panes ==> Step(w, Insert(id)).panes == w.panes[id := PT.START]
    ensures id in w.panes ==> Step(w, Insert(id)) == w
    ensures Step(w, Remove(id)).panes == w.panes - {id}
  {
  }

  /** An event that may be queued is, and its thread then owes a wake-up: the waiter of the child, else the reader. */
  lemma SendOwes(w: World, id: PaneId, e: PtyEvent)
    requires Sound(w) && id in w.panes && PT.MaySend(w.panes[id], e)
    requires (id, if e == ChildExited then Waiter else Reader) !in w.owes
    ensures var after := Step(w, Send(id, e));
            && after.panes[id].pane.rx == w.panes[id].pane.rx + [e]
            && after.owes == w.owes + {(id, if e == ChildExited then Waiter else Reader)}
  {
  }

  ghost function RunFrom(w: World, labels: seq<Label>): (end: World)
    requires Sound(w)
    ensures Sound(end)
    decreases labels
  {
    if labels == [] then w else RunFrom(Step(w, labels[0]), labels[1..])
  }

  /** The pane has been looked at: nothing waits, or its exit is reported, or its window is spent. */
  ghost predicate LookedAt(p: Pane) {
    p.rx == [] || p.exit.Reported? || Spent(p)
  }

  /** The receives of one turn, up to its end. */
  lemma {:induction false} TurnEnds(w: World, id: PaneId) returns (labels: seq<Label>)
    requires Inv(w) && w.place.Passing? && w.place.at == Some(id) && id in w.panes
    ensures var end := RunFrom(w, labels);
            && Inv(end) && end.place == w.place.(at := None) && end.clock == w.clock
            && id in end.panes && end.panes == w.panes[id := end.panes[id]] && LookedAt(end.panes[id].pane)
    decreases w.panes[id].turn.value.budget
  {
    hide Step, PaneInv, LookedAt;
    var next := Step(w, Receive);
    InvStep(w, Receive);
    OneReceive(w, id);
    if next.place.at.None? {
      labels := [Receive];
      RunFromOne(w, Receive, []);
    } else {
      var rest := TurnEnds(next, id);
      labels := [Receive] + rest;
      RunFromOne(w, Receive, rest);
      var last := RunFrom(next, rest).panes[id];
      assert next.panes[id := last] == w.panes[id := last];
    }
  }

  lemma OneReceive(w: World, id: PaneId)
    requires Inv(w) && w.place.Passing? && w.place.at == Some(id) && id in w.panes
    ensures var next := Step(w, Receive);
            && w.panes[id].turn.Some? && id in next.panes
            && next.panes == w.panes[id := next.panes[id]] && next.clock == w.clock && next.place.Passing?
            && (next.place == w.place || next.place == w.place.(at := None))
            && (next.place.at.Some? ==>
                next.panes[id].turn.Some? && next.panes[id].turn.value.budget < w.panes[id].turn.value.budget)
            && (next.place.at.None? ==> LookedAt(next.panes[id].pane))
  {
    assert PaneInv(w, id);
  }

  /** The rest of a pass that is between two panes. */
  lemma {:induction false} PassEnds(w: World) returns (labels: seq<Label>)
    requires Inv(w) && w.place.Passing? && w.place.at.None? && w.place.todo <= w.panes.Keys
    ensures var end := RunFrom(w, labels);
            && Inv(end) && end.place.AfterPass? && end.panes.Keys == w.panes.Keys
            && (forall id :: id in w.panes && id !in w.place.todo ==> end.panes[id] == w.panes[id])
            && (forall id :: id in w.place.todo ==> LookedAt(end.panes[id].pane))
    decreases |w.place.todo|
  {
    hide Step, PaneInv, LookedAt;
    if w.place.todo == {} {
      labels := [EndPass];
      InvStep(w, EndPass);
      OneEnd(w);
      RunFromOne(w, EndPass, []);
    } else {
      var id :| id in w.place.todo;
      var visited := Step(w, Visit(id));
      InvStep(w, Visit(id));
      OneVisit(w, id);
      var turn: seq<Label> := [];
      var after := visited;
      if visited.place.at.Some? {
        turn := TurnEnds(visited, id);
        after := RunFrom(visited, turn);
      }
      var rest := PassEnds(after);
      labels := [Visit(id)] + (turn + rest);
      RunFromOne(w, Visit(id), turn + rest);
      RunFromAppend(visited, turn, rest);
    }
  }

  lemma RunFromOne(w: World, l: Label, rest: seq<Label>)
    requires Sound(w)
    ensures RunFrom(w, [l] + rest) == RunFrom(Step(w, l), rest)
    ensures RunFrom(w, [l]) == Step(w, l)
  {
    hide Step;
    assert ([l] + rest)[1..] == rest && [l][1..] == [];
  }

  lemma OneEnd(w: World)
    requires Inv(w) && w.place.Passing? && w.place.at.None? && w.place.todo == {}
    ensures Step(w, EndPass) == w.(place := AfterPass)
  {
  }

  lemma OneVisit(w: World, id: PaneId)
    requires Inv(w) && w.place.Passing? && w.place.at.None? && id in w.place.todo && id in w.panes
    ensures var next := Step(w, Visit(id));
            && next.place.Passing? && next.place.todo == w.place.todo - {id} && next.place.now == w.place.now
            && id in next.panes && next.panes == w.panes[id := next.panes[id]]
            && (next.place.at == Some(id) || (next.place.at.None? && LookedAt(next.panes[id].pane)))
  {
    assert PaneInv(w, id);
  }

  lemma {:induction false} RunFromAppend(w: World, a: seq<Label>, b: seq<Label>)
    requires Sound(w)
    ensures RunFrom(w, a + b) == RunFrom(RunFrom(w, a), b)
    decreases a
  {
    hide Step;
    if a == [] {
      assert a + b == b;
    } else {
      assert (a + b)[1..] == a[1..] + b;
      RunFromAppend(Step(w, a[0]), a[1..], b);
    }
  }

  /**
    An owner that is awake gets round: at any time not before the last pass it can make a
    whole pass by its own steps, and then no pane has anything waiting that is neither moot
    nor held back by a spent window.
   */
  lemma PassGetsRound(labels: seq<Label>, now: Time) returns (own: seq<Label>)
    requires Run(labels).place.BeforePass? && now >= Run(labels).clock
    ensures var end := RunFrom(Run(labels), own);
            && end.place.AfterPass? && end.panes.Keys == Run(labels).panes.Keys
            && forall id :: id in end.panes ==> LookedAt(end.panes[id].pane)
  {
    hide Run;
    RunInv(labels);
    var w := Run(labels);
    InvStep(w, StartPass(now));
    var started := Step(w, StartPass(now));
    assert started.place == Passing(now, w.panes.Keys, None) && started.panes == w.panes;
    var rest := PassEnds(started);
    own := [StartPass(now)] + rest;
    RunFromOne(w, StartPass(now), rest);
  }
}
