/**
  One pass over the panes' queued events: what it reports, and what it leaves for the
  next pass. Each pane has a budget counted over a time window, and an exit phase that
  holds a dead child's exit back until its output has been drained.
 */
module PtyDrain {
  import opened Bytes

  /** Instants and durations, in nanoseconds. */
  type Time = nat

  const BUDGET: nat := 64
  const DRAIN_WINDOW: Time := 8_000_000
  const EXIT_GRACE: Time := 50_000_000

  /** What a pane's reader and waiter threads queue. */
  datatype PtyEvent = Output(data: seq<byte>) | ChildExited | Exited

  datatype ExitPhase = Running | Draining(since: Time) | Reported

  datatype Window = Window(start: Time, used: nat)

  function End(w: Window): Time {
    w.start + DRAIN_WINDOW
  }

  datatype Pane = Pane(rx: seq<PtyEvent>, exit: ExitPhase, window: Option<Window>)

  /** What a pass reports of one pane. */
  datatype PaneEvent = Said(data: seq<byte>) | Ended

  datatype BackendEvent =
    | PaneCreated(pane: PaneId)
    | PaneOutput(pane: PaneId, data: seq<byte>)
    | PaneExited(pane: PaneId)

  /** The budget subtraction of a pass cannot underflow. */
  predicate WithinBudget(p: Pane) {
    p.window.Some? ==> p.window.value.used <= BUDGET
  }

  predicate GraceOver(exit: ExitPhase, now: Time) {
    exit.Draining? && Max(0, now - exit.since) >= EXIT_GRACE
  }

  /** One look at a pane's channel: what came off it, what that makes known, and whether to go on. */
  datatype Receipt = Receipt(pane: Pane, took: seq<PtyEvent>, events: seq<PaneEvent>, goesOn: bool)

  function Receive(p: Pane, now: Time, budget: nat): Receipt {
    if budget == 0 then Receipt(p, [], [], false)
    else if p.rx == [] then
      if GraceOver(p.exit, now) then Receipt(p.(exit := Reported), [], [Ended], false) else Receipt(p, [], [], false)
    else
      var rest := p.(rx := p.rx[1..]);
      match p.rx[0]
      case Output(data) => Receipt(rest, [p.rx[0]], [Said(data)], true)
      case ChildExited =>
        Receipt(rest.(exit := if p.exit.Running? then Draining(now) else p.exit), [p.rx[0]], [], true)
      case Exited =>
        Receipt(rest.(exit := Reported), [p.rx[0]], if p.exit.Reported? then [] else [Ended], false)
  }

  datatype Polled = Polled(pane: Pane, events: seq<PaneEvent>, left: nat)

  /** Taking events until the budget is spent, the channel is dry or the master ended. */
  function Poll(p: Pane, now: Time, budget: nat): (r: Polled)
    ensures r.left <= budget && r.pane.window == p.window
    decreases budget
  {
    var one := Receive(p, now, budget);
    if !one.goesOn then Polled(one.pane, one.events, budget)
    else
      var more := Poll(one.pane, now, budget - 1);
      more.(events := one.events + more.events)
  }

  /** The window a paced pass counts against: the one still open, or a new one. */
  function Opened(p: Pane, now: Time): Window {
    if p.window.Some? && now < End(p.window.value) then p.window.value else Window(now, 0)
  }

  /** One pane after one pass, and what the pass reports of it. */
  function Pass(p: Pane, now: Time, paced: bool): (Pane, seq<PaneEvent>)
    requires WithinBudget(p)
  {
    var q := if paced then p.(window := Some(Opened(p, now))) else p;
    var allowed := if paced then BUDGET - Opened(p, now).used else BUDGET;
    if paced && allowed == 0 then (q, [])
    else
      var polled := Poll(q, now, allowed);
      (polled.pane.(window := if q.window.None? then None
                              else Some(q.window.value.(used := q.window.value.used + (allowed - polled.left)))),
       polled.events)
  }

  // ------------------------------------------------ what was queued and heard

  /** The output among what a pane's threads queued. */
  function Sent(events: seq<PtyEvent>): seq<seq<byte>> {
    if events == [] then []
    else (if events[0].Output? then [events[0].data] else []) + Sent(events[1..])
  }

  /** The output among what was reported. */
  function Heard(events: seq<PaneEvent>): seq<seq<byte>> {
    if events == [] then []
    else (if events[0].Said? then [events[0].data] else []) + Heard(events[1..])
  }

  function Ends(events: seq<PaneEvent>): nat {
    if events == [] then 0 else (if events[0].Ended? then 1 else 0) + Ends(events[1..])
  }

  lemma {:induction false} SentAppend(a: seq<PtyEvent>, b: seq<PtyEvent>)
    ensures Sent(a + b) == Sent(a) + Sent(b)
  {
    if a == [] {
      assert a + b == b;
    } else {
      assert (a + b)[1..] == a[1..] + b;
      SentAppend(a[1..], b);
      var first := if a[0].Output? then [a[0].data] else [];
      assert Sent(a + b) == first + (Sent(a[1..]) + Sent(b));
      assert Sent(a) == first + Sent(a[1..]);
    }
  }

  lemma {:induction false} HeardAppend(a: seq<PaneEvent>, b: seq<PaneEvent>)
    ensures Heard(a + b) == Heard(a) + Heard(b)
    ensures Ends(a + b) == Ends(a) + Ends(b)
  {
    if a == [] {
      assert a + b == b;
    } else {
      assert (a + b)[1..] == a[1..] + b;
      HeardAppend(a[1..], b);
      var first := if a[0].Said? then [a[0].data] else [];
      assert Heard(a + b) == first + (Heard(a[1..]) + Heard(b));
      assert Heard(a) == first + Heard(a[1..]);
    }
  }

  /** What a poll took off the channel is what it reports: the output, and the exit when the phase moves. */
  lemma {:induction false} PollFacts(p: Pane, now: Time, budget: nat)
    ensures var r := Poll(p, now, budget);
            && |r.pane.rx| <= |p.rx|
            && var n := |p.rx| - |r.pane.rx|;
               && p.rx[n..] == r.pane.rx
               && Heard(r.events) == Sent(p.rx[..n])
               && (p.exit.Reported? ==> r.pane.exit.Reported?)
               && Ends(r.events) == if !p.exit.Reported? && r.pane.exit.Reported? then 1 else 0
    decreases budget
  {
    hide Poll;
    var one := Receive(p, now, budget);
    PollStep(p, now, budget);
    if one.goesOn {
      PollFacts(one.pane, now, budget - 1);
      var r := Poll(one.pane, now, budget - 1);
      var n := |p.rx| - |r.pane.rx|;
      assert p.rx[..n][1..] == p.rx[1..][..n - 1];
      HeardAppend(one.events, r.events);
    } else if one.took != [] {
      assert p.rx[..1] == [p.rx[0]];
    }
  }

  // ------------------------------------------------------------ the backend

  datatype Entry = Entry(id: PaneId, pane: Pane)

  function Tagged(id: PaneId, e: PaneEvent): BackendEvent {
    match e
    case Said(data) => PaneOutput(id, data)
    case Ended => PaneExited(id)
  }

  function TaggedAll(id: PaneId, events: seq<PaneEvent>): seq<BackendEvent> {
    seq(|events|, i requires 0 <= i < |events| => Tagged(id, events[i]))
  }

  ghost predicate AllWithinBudget(panes: seq<Entry>) {
    forall i :: 0 <= i < |panes| ==> WithinBudget(panes[i].pane)
  }

  /** What a pass reports of every pane, in the order of their ids. */
  function Reports(panes: seq<Entry>, now: Time, paced: bool): seq<BackendEvent>
    requires AllWithinBudget(panes)
  {
    if panes == [] then []
    else
      var n := |panes| - 1;
      Reports(panes[..n], now, paced) + TaggedAll(panes[n].id, Pass(panes[n].pane, now, paced).1)
  }

  /** Every pane after a pass. */
  function Passed(panes: seq<Entry>, now: Time, paced: bool): seq<Entry>
    requires AllWithinBudget(panes)
  {
    seq(|panes|, i requires 0 <= i < |panes| => Entry(panes[i].id, Pass(panes[i].pane, now, paced).0))
  }

  predicate Spoke(events: seq<PaneEvent>) {
    exists i :: 0 <= i < |events| && events[i].Said?
  }

  /** The slots after a pass: each that spoke is marked with the time of the pass. */
  ghost function Marked(last: map<PaneId, Time>, panes: seq<Entry>, now: Time, paced: bool): map<PaneId, Time>
    requires AllWithinBudget(panes)
  {
    if panes == [] then last
    else
      var n := |panes| - 1;
      var before := Marked(last, panes[..n], now, paced);
      if Spoke(Pass(panes[n].pane, now, paced).1) && panes[n].id in before
      then before[panes[n].id := now]
      else before
  }

  /** The part of the backend a drain pass works on. */
  class PaneDrain {
    var panes: seq<Entry>
    var lastOutput: map<PaneId, Time>
    var created: seq<BackendEvent>
    var paced: bool

    /** Panes in ascending order of id; a window kept for a pane means the owner is woken. */
    ghost predicate Valid()
      reads this
    {
      && (forall i, j :: 0 <= i < j < |panes| ==> panes[i].id < panes[j].id)
      && AllWithinBudget(panes)
      && (!paced ==> forall i :: 0 <= i < |panes| ==> panes[i].pane.window.None?)
      && (forall i :: 0 <= i < |created| ==> created[i].PaneCreated?)
    }

    constructor ()
      ensures Valid() && panes == [] && created == [] && !paced && lastOutput == map[]
    {
      panes, lastOutput, created, paced := [], map[], [], false;
    }

    method SetWaker()
      requires Valid()
      modifies this`paced
      ensures Valid() && paced
    {
      paced := true;
    }

    method DrainQueued(now: Time) returns (events: seq<BackendEvent>)
      requires Valid()
      modifies this
      ensures Valid() && created == [] && paced == old(paced)
      ensures events == old(created) + Reports(old(panes), now, paced)
      ensures panes == Passed(old(panes), now, paced)
      ensures lastOutput == Marked(old(lastOutput), old(panes), now, paced)
      ensures forall k :: 0 <= k < |panes| ==> Told(old(panes)[k], panes[k], events)
    {
      hide Told;
      PassedWithinBudget(panes, now, paced);
      forall k | 0 <= k < |panes|
        ensures Told(panes[k], Passed(panes, now, paced)[k], created + Reports(panes, now, paced))
      {
        PassIsTold(created, panes, now, paced, k);
      }
      events := created;
      created := [];
      var reports;
      panes, reports, lastOutput := VisitAll(panes, lastOutput, now, paced);
      events := events + reports;
    }
  }

  /** The output events about a pane, by what they carry. */
  function OutputsOf(events: seq<BackendEvent>, id: PaneId): seq<seq<byte>> {
    if events == [] then []
    else
      (match events[0] case PaneOutput(pane, data) => (if pane == id then [data] else []) case _ => [])
      + OutputsOf(events[1..], id)
  }

  function ExitsOf(events: seq<BackendEvent>, id: PaneId): nat {
    if events == [] then 0 else (if events[0] == PaneExited(id) then 1 else 0) + ExitsOf(events[1..], id)
  }

  /**
    What the caller is told of one pane in a pass: the data of the output that left its
    channel, in order, and its exit exactly once if that became reported now.
   */
  ghost predicate Told(before: Entry, after: Entry, events: seq<BackendEvent>) {
    && before.id == after.id
    && |after.pane.rx| <= |before.pane.rx|
    && var n := |before.pane.rx| - |after.pane.rx|;
       && before.pane.rx[n..] == after.pane.rx
       && OutputsOf(events, before.id) == Sent(before.pane.rx[..n])
       && ExitsOf(events, before.id) == if !before.pane.exit.Reported? && after.pane.exit.Reported? then 1 else 0
  }

  lemma {:induction false} EventsAppend(a: seq<BackendEvent>, b: seq<BackendEvent>, id: PaneId)
    ensures OutputsOf(a + b, id) == OutputsOf(a, id) + OutputsOf(b, id)
    ensures ExitsOf(a + b, id) == ExitsOf(a, id) + ExitsOf(b, id)
  {
    if a == [] {
      assert a + b == b;
    } else {
      assert (a + b)[1..] == a[1..] + b;
      EventsAppend(a[1..], b, id);
    }
  }

  lemma {:induction false} TaggedTell(owner: PaneId, events: seq<PaneEvent>, id: PaneId)
    ensures OutputsOf(TaggedAll(owner, events), id) == if owner == id then Heard(events) else []
    ensures ExitsOf(TaggedAll(owner, events), id) == if owner == id then Ends(events) else 0
  {
    if events != [] {
      assert TaggedAll(owner, events)[1..] == TaggedAll(owner, events[1..]);
      TaggedTell(owner, events[1..], id);
    }
  }

  lemma {:induction false} CreatedTell(created: seq<BackendEvent>, id: PaneId)
    requires forall i :: 0 <= i < |created| ==> created[i].PaneCreated?
    ensures OutputsOf(created, id) == [] && ExitsOf(created, id) == 0
  {
    if created != [] {
      CreatedTell(created[1..], id);
    }
  }

  lemma {:induction false} OthersTell(panes: seq<Entry>, now: Time, paced: bool, id: PaneId)
    requires AllWithinBudget(panes) && forall i :: 0 <= i < |panes| ==> panes[i].id != id
    ensures OutputsOf(Reports(panes, now, paced), id) == [] && ExitsOf(Reports(panes, now, paced), id) == 0
  {
    hide Pass, TaggedAll;
    if panes != [] {
      var n := |panes| - 1;
      OthersTell(panes[..n], now, paced, id);
      EventsAppend(Reports(panes[..n], now, paced), TaggedAll(panes[n].id, Pass(panes[n].pane, now, paced).1), id);
      TaggedTell(panes[n].id, Pass(panes[n].pane, now, paced).1, id);
    }
  }

  lemma {:induction false} PaneTells(panes: seq<Entry>, now: Time, paced: bool, k: nat)
    requires AllWithinBudget(panes)
    requires k < |panes| && forall i :: 0 <= i < |panes| && i != k ==> panes[i].id != panes[k].id
    ensures OutputsOf(Reports(panes, now, paced), panes[k].id) == Heard(Pass(panes[k].pane, now, paced).1)
    ensures ExitsOf(Reports(panes, now, paced), panes[k].id) == Ends(Pass(panes[k].pane, now, paced).1)
  {
    hide Pass, TaggedAll, OutputsOf, ExitsOf, Heard, Ends;
    var n, id := |panes| - 1, panes[k].id;
    EventsAppend(Reports(panes[..n], now, paced), TaggedAll(panes[n].id, Pass(panes[n].pane, now, paced).1), id);
    TaggedTell(panes[n].id, Pass(panes[n].pane, now, paced).1, id);
    if k == n {
      OthersTell(panes[..n], now, paced, id);
    } else {
      PaneTells(panes[..n], now, paced, k);
    }
  }

  lemma PassFacts(p: Pane, now: Time, paced: bool)
    requires WithinBudget(p)
    ensures var (q, events) := Pass(p, now, paced);
            && |q.rx| <= |p.rx|
            && var n := |p.rx| - |q.rx|;
               && p.rx[n..] == q.rx
               && Heard(events) == Sent(p.rx[..n])
               && Ends(events) == if !p.exit.Reported? && q.exit.Reported? then 1 else 0
  {
    hide Poll;
    PollFacts(if paced then p.(window := Some(Opened(p, now))) else p, now,
              if paced then BUDGET - Opened(p, now).used else BUDGET);
  }

  lemma PassIsTold(created: seq<BackendEvent>, panes: seq<Entry>, now: Time, paced: bool, k: nat)
    requires AllWithinBudget(panes) && k < |panes|
    requires forall i, j :: 0 <= i < j < |panes| ==> panes[i].id < panes[j].id
    requires forall i :: 0 <= i < |created| ==> created[i].PaneCreated?
    ensures Told(panes[k], Passed(panes, now, paced)[k], created + Reports(panes, now, paced))
  {
    hide Pass, OutputsOf, ExitsOf, Heard, Ends, Sent, Reports;
    EventsAppend(created, Reports(panes, now, paced), panes[k].id);
    CreatedTell(created, panes[k].id);
    PaneTells(panes, now, paced, k);
    PassFacts(panes[k].pane, now, paced);
  }

  lemma PassedWithinBudget(panes: seq<Entry>, now: Time, paced: bool)
    requires AllWithinBudget(panes)
    requires !paced ==> forall i :: 0 <= i < |panes| ==> panes[i].pane.window.None?
    ensures AllWithinBudget(Passed(panes, now, paced))
    ensures !paced ==> forall i :: 0 <= i < |panes| ==> Passed(panes, now, paced)[i].pane.window.None?
  {
    forall i | 0 <= i < |panes|
      ensures WithinBudget(Passed(panes, now, paced)[i].pane)
      ensures !paced ==> Passed(panes, now, paced)[i].pane.window.None?
    {
      PassWithinBudget(panes[i].pane, now, paced);
    }
  }

  /** The loop over the panes, in the order of their ids. */
  method VisitAll(before: seq<Entry>, lastBefore: map<PaneId, Time>, now: Time, paced: bool)
    returns (panes: seq<Entry>, events: seq<BackendEvent>, last: map<PaneId, Time>)
    requires AllWithinBudget(before)
    ensures panes == Passed(before, now, paced)
    ensures events == Reports(before, now, paced)
    ensures last == Marked(lastBefore, before, now, paced)
  {
    hide Pass, Spoke;
    panes, events, last := [], [], lastBefore;
    var i := 0;
    while i < |before|
      invariant 0 <= i <= |before|
      invariant panes == Passed(before, now, paced)[..i]
      invariant events == Reports(before[..i], now, paced)
      invariant last == Marked(lastBefore, before[..i], now, paced)
    {
      var id := before[i].id;
      var pane, said, spoke := DrainPane(before[i].pane, now, paced);
      assert before[..i + 1][..i] == before[..i];
      events := events + TaggedAll(id, said);
      if spoke && id in last {
        last := last[id := now];
      }
      panes := panes + [Entry(id, pane)];
      i := i + 1;
    }
    assert before[..i] == before;
  }

  /** One pane's turn in a pass. */
  method DrainPane(p: Pane, now: Time, paced: bool) returns (pane: Pane, events: seq<PaneEvent>, spoke: bool)
    requires WithinBudget(p)
    ensures pane == Pass(p, now, paced).0 && events == Pass(p, now, paced).1
    ensures spoke == Spoke(events)
  {
    hide Poll;
    pane, events, spoke := p, [], false;
    var budget: nat := BUDGET;
    if paced {
      var window := match pane.window
        case Some(w) => (if now < End(w) then w else Window(now, 0))
        case None => Window(now, 0);
      pane := pane.(window := Some(window));
      budget := budget - window.used;
      if budget == 0 {
        return;
      }
    }
    var allowed := budget;
    pane, events, spoke, budget := TakeEvents(pane, now, budget);
    if pane.window.Some? {
      var w := pane.window.value;
      pane := pane.(window := Some(w.(used := w.used + (allowed - budget))));
    }
  }

  /** The loop over one pane's channel. */
  method TakeEvents(p: Pane, now: Time, allowed: nat)
    returns (pane: Pane, events: seq<PaneEvent>, spoke: bool, budget: nat)
    ensures Polled(pane, events, budget) == Poll(p, now, allowed)
    ensures spoke == Spoke(events)
  {
    hide Poll, Spoke;
    pane, events, spoke, budget := p, [], false, allowed;
    NothingSpoke();
    ghost var whole := Poll(p, now, allowed);
    while budget > 0
      invariant spoke == Spoke(events)
      invariant whole.pane == Poll(pane, now, budget).pane && whole.left == Poll(pane, now, budget).left
      invariant whole.events == events + Poll(pane, now, budget).events
      decreases budget
    {
      PollStep(pane, now, budget);
      if pane.rx == [] {
        if GraceOver(pane.exit, now) {
          SpokeSnoc(events, Ended);
          pane, events := pane.(exit := Reported), events + [Ended];
        }
        return;
      }
      var next := pane.rx[0];
      match next {
        case Output(data) =>
          SpokeSnoc(events, Said(data));
          pane := pane.(rx := pane.rx[1..]);
          events, spoke := events + [Said(data)], true;
        case ChildExited =>
          pane := pane.(rx := pane.rx[1..], exit := if pane.exit.Running? then Draining(now) else pane.exit);
        case Exited =>
          if !pane.exit.Reported? {
            SpokeSnoc(events, Ended);
            events := events + [Ended];
          }
          pane := pane.(rx := pane.rx[1..], exit := Reported);
          return;
      }
      budget := budget - 1;
    }
    PollStep(pane, now, budget);
  }

  lemma PollStep(p: Pane, now: Time, budget: nat)
    ensures var one := Receive(p, now, budget);
            var all := Poll(p, now, budget);
            if !one.goesOn then all == Polled(one.pane, one.events, budget)
            else
              && budget > 0
              && all.pane == Poll(one.pane, now, budget - 1).pane
              && all.left == Poll(one.pane, now, budget - 1).left
              && all.events == one.events + Poll(one.pane, now, budget - 1).events
  {
  }

  lemma NothingSpoke()
    ensures !Spoke([])
  {
  }

  lemma SpokeSnoc(events: seq<PaneEvent>, e: PaneEvent)
    ensures Spoke(events + [e]) == (Spoke(events) || e.Said?)
  {
    if Spoke(events) {
      var i :| 0 <= i < |events| && events[i].Said?;
      assert (events + [e])[i].Said?;
    }
    assert (events + [e])[|events|] == e;
  }

  /** A pass never spends more than the budget of the window it counts against. */
  lemma PassWithinBudget(p: Pane, now: Time, paced: bool)
    requires WithinBudget(p) && (!paced ==> p.window.None?)
    ensures WithinBudget(Pass(p, now, paced).0)
    ensures !paced ==> Pass(p, now, paced).0.window.None?
  {
    hide Poll;
  }

  // -------------------------------------------- panes do not affect each other

  function About(e: BackendEvent): PaneId {
    e.pane
  }

  /** The events about one pane. */
  function Only(events: seq<BackendEvent>, id: PaneId): seq<BackendEvent> {
    if events == [] then []
    else
      var n := |events| - 1;
      Only(events[..n], id) + if About(events[n]) == id then [events[n]] else []
  }

  lemma {:induction false} OnlyAppend(a: seq<BackendEvent>, b: seq<BackendEvent>, id: PaneId)
    ensures Only(a + b, id) == Only(a, id) + Only(b, id)
  {
    if b == [] {
      assert a + b == a;
    } else {
      var n := |b| - 1;
      assert (a + b)[..|a| + n] == a + b[..n];
      OnlyAppend(a, b[..n], id);
    }
  }

  lemma {:induction false} OnlyTagged(owner: PaneId, events: seq<PaneEvent>, id: PaneId)
    ensures Only(TaggedAll(owner, events), id) == if owner == id then TaggedAll(owner, events) else []
  {
    if events != [] {
      var n := |events| - 1;
      OnlyTagged(owner, events[..n], id);
      assert TaggedAll(owner, events)[..n] == TaggedAll(owner, events[..n]);
    }
  }

  /** Of a pane that is not there a pass reports nothing. */
  lemma {:induction false} ReportsOfNoPane(panes: seq<Entry>, now: Time, paced: bool, id: PaneId)
    requires AllWithinBudget(panes) && forall i :: 0 <= i < |panes| ==> panes[i].id != id
    ensures Only(Reports(panes, now, paced), id) == []
  {
    hide Pass;
    if panes != [] {
      var n := |panes| - 1;
      ReportsOfNoPane(panes[..n], now, paced, id);
      OnlyAppend(Reports(panes[..n], now, paced), TaggedAll(panes[n].id, Pass(panes[n].pane, now, paced).1), id);
      OnlyTagged(panes[n].id, Pass(panes[n].pane, now, paced).1, id);
    }
  }

  /**
    What a pass reports of a pane is what that pane's own channel, phase and window
    give, whatever the other panes hold.
   */
  lemma {:induction false} ReportsAreSeparate(panes: seq<Entry>, now: Time, paced: bool, k: nat)
    requires AllWithinBudget(panes)
    requires k < |panes| && forall i :: 0 <= i < |panes| && i != k ==> panes[i].id != panes[k].id
    ensures Only(Reports(panes, now, paced), panes[k].id)
         == TaggedAll(panes[k].id, Pass(panes[k].pane, now, paced).1)
  {
    hide Pass, Only, TaggedAll;
    var n, id := |panes| - 1, panes[k].id;
    OnlyAppend(Reports(panes[..n], now, paced), TaggedAll(panes[n].id, Pass(panes[n].pane, now, paced).1), id);
    OnlyTagged(panes[n].id, Pass(panes[n].pane, now, paced).1, id);
    if k == n {
      ReportsOfNoPane(panes[..n], now, paced, id);
    } else {
      ReportsAreSeparate(panes[..n], now, paced, k);
    }
  }
}
