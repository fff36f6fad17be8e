/**
  One pane over a whole run, receive by receive: its reader and waiter threads queue
  events at any time, also between two receives of one pass, and turns at non-decreasing
  times take them. What is reported, when, and how fast.
 */
module PaneTrace {
  import opened Bytes
  import opened PtyDrain

  const CHANNEL_CAPACITY: nat := 256

  datatype Stamped<E> = Stamped(at: Time, event: E)

  /** The pane's turn in a pass: when the pass began, what it was allowed, what is left of that. */
  datatype Turn = Turn(now: Time, budget: nat, allowed: nat)

  /**
    The pane and the turn under way; everything its threads queued; everything taken off
    the channel and everything reported, with the time of the pass; and the time of the
    last pass.
   */
  datatype Trace = Trace(
    pane: Pane,
    turn: Option<Turn>,
    sent: seq<PtyEvent>,
    taken: seq<Stamped<PtyEvent>>,
    reported: seq<Stamped<PaneEvent>>,
    clock: Time)

  datatype Label = Produce(e: PtyEvent) | BeginTurn(now: Time) | ReceiveOne

  const START := Trace(Pane([], Running, None), None, [], [], [], 0)

  /** The reader queues output and then one end; the waiter queues one exit; a full channel blocks both. */
  predicate MaySend(t: Trace, e: PtyEvent) {
    && |t.pane.rx| < CHANNEL_CAPACITY
    && (e.ChildExited? ==> ChildExited !in t.sent)
    && (!e.ChildExited? ==> Exited !in t.sent)
  }

  /** What a thread can queue: anything while there is room, but each end only once and nothing after its own. */
  lemma SendExactly(t: Trace, e: PtyEvent, paced: bool)
    requires Sound(t, paced)
    ensures var open := |t.pane.rx| < 256
                        && (match e
                            case Output(_) => Exited !in t.sent
                            case Exited => Exited !in t.sent
                            case ChildExited => ChildExited !in t.sent);
            Step(t, Produce(e), paced)
            == if open then t.(pane := t.pane.(rx := t.pane.rx + [e]), sent := t.sent + [e]) else t
  {
  }

  function StampAll<E>(now: Time, events: seq<E>): seq<Stamped<E>> {
    seq(|events|, i requires 0 <= i < |events| => Stamped(now, events[i]))
  }

  function Plain<E>(stamped: seq<Stamped<E>>): seq<E> {
    seq(|stamped|, i requires 0 <= i < |stamped| => stamped[i].event)
  }

  lemma PlainAppend<E>(a: seq<Stamped<E>>, now: Time, events: seq<E>)
    ensures Plain(a + StampAll(now, events)) == Plain(a) + events
  {
  }

  /** No window is used beyond the budget, and a turn never has more to spend than its window has room for. */
  predicate Sound(t: Trace, paced: bool) {
    && WithinBudget(t.pane)
    && (!paced ==> t.pane.window.None?)
    && (t.turn.Some? ==>
        && t.turn.value.now == t.clock
        && t.turn.value.budget <= t.turn.value.allowed
        && (paced ==> t.pane.window.Some? && t.pane.window.value.used + t.turn.value.allowed <= BUDGET))
  }

  /** The pane as its turn begins: the window the turn counts against, and what is left in it. */
  function Readied(p: Pane, now: Time, paced: bool): Pane {
    if paced then p.(window := Some(Opened(p, now))) else p
  }

  function Allowed(p: Pane, now: Time, paced: bool): nat
    requires WithinBudget(p)
  {
    if paced then BUDGET - Opened(p, now).used else BUDGET
  }

  /** A pane at the end of its turn: what was used is counted. */
  function Counted(p: Pane, used: nat): Pane {
    if p.window.None? then p else p.(window := Some(p.window.value.(used := p.window.value.used + used)))
  }

  function Begun(t: Trace, now: Time, paced: bool): (next: Trace)
    requires Sound(t, paced)
    ensures Sound(next, paced)
  {
    if t.turn.Some? || now < t.clock then t
    else
      var allowed := Allowed(t.pane, now, paced);
      t.(pane := Readied(t.pane, now, paced),
         turn := if allowed == 0 then None else Some(Turn(now, allowed, allowed)),
         clock := now)
  }

  function Received(t: Trace, paced: bool): (next: Trace)
    requires Sound(t, paced)
    ensures Sound(next, paced)
  {
    if t.turn.None? then t
    else
      var turn := t.turn.value;
      var one := Receive(t.pane, turn.now, turn.budget);
      t.(pane := if one.goesOn then one.pane else Counted(one.pane, turn.allowed - turn.budget),
         turn := if one.goesOn then Some(turn.(budget := turn.budget - 1)) else None,
         taken := t.taken + StampAll(turn.now, one.took),
         reported := t.reported + StampAll(turn.now, one.events))
  }

  function Step(t: Trace, l: Label, paced: bool): (next: Trace)
    requires Sound(t, paced)
    ensures Sound(next, paced)
  {
    match l
    case Produce(e) =>
      if MaySend(t, e) then t.(pane := t.pane.(rx := t.pane.rx + [e]), sent := t.sent + [e]) else t
    case BeginTurn(now) => Begun(t, now, paced)
    case ReceiveOne => Received(t, paced)
  }

  function Run(labels: seq<Label>, paced: bool): (t: Trace)
    ensures Sound(t, paced)
  {
    if labels == [] then START else Step(Run(labels[..|labels| - 1], paced), labels[|labels| - 1], paced)
  }

  // ------------------------------------------------- a turn left alone is a pass

  /** The receives of a turn, one after another until it ends. */
  function TurnDone(t: Trace, paced: bool): Trace
    requires Sound(t, paced)
    decreases if t.turn.Some? then t.turn.value.budget + 1 else 0
  {
    if t.turn.None? then t else TurnDone(Received(t, paced), paced)
  }

  lemma {:induction false} TurnIsPoll(t: Trace, paced: bool)
    requires Sound(t, paced) && t.turn.Some?
    ensures var turn := t.turn.value;
            var r := Poll(t.pane, turn.now, turn.budget);
            && TurnDone(t, paced).pane == Counted(r.pane, turn.allowed - r.left)
            && TurnDone(t, paced).reported == t.reported + StampAll(turn.now, r.events)
    decreases t.turn.value.budget
  {
    hide Poll, Receive, StampAll;
    var turn := t.turn.value;
    var one := Receive(t.pane, turn.now, turn.budget);
    PollStep(t.pane, turn.now, turn.budget);
    var next := Received(t, paced);
    assert TurnDone(t, paced) == TurnDone(next, paced);
    if one.goesOn {
      TurnIsPoll(next, paced);
      StampAppend(turn.now, one.events, Poll(one.pane, turn.now, turn.budget - 1).events);
      assert t.reported + (StampAll(turn.now, one.events)
             + StampAll(turn.now, Poll(one.pane, turn.now, turn.budget - 1).events)) == TurnDone(t, paced).reported;
    }
  }

  lemma StampAppend<E>(now: Time, a: seq<E>, b: seq<E>)
    ensures StampAll(now, a + b) == StampAll(now, a) + StampAll(now, b)
  {
  }

  /**
    With no send in between, a pane's turn leaves it, and reports of it, exactly what one
    pass of the backend's loop does.
   */
  lemma TurnIsPass(t: Trace, now: Time, paced: bool)
    requires Sound(t, paced) && t.turn.None? && now >= t.clock
    ensures var (pane, events) := Pass(t.pane, now, paced);
            && TurnDone(Begun(t, now, paced), paced).pane == pane
            && TurnDone(Begun(t, now, paced), paced).reported == t.reported + StampAll(now, events)
  {
    hide Poll, Received;
    var begun := Begun(t, now, paced);
    if begun.turn.Some? {
      TurnIsPoll(begun, paced);
    }
  }

  // ------------------------------------------------------------ one receive

  /** Everything one receive does to a pane, in terms of what it takes off the channel. */
  lemma ReceiveFacts(p: Pane, now: Time, budget: nat)
    ensures var r := Receive(p, now, budget);
            && p.rx == r.took + r.pane.rx
            && Heard(r.events) == Sent(r.took)
            && |Sent(r.took)| <= (if r.goesOn then 1 else 0)
            && Ends(r.events) == (if !p.exit.Reported? && r.pane.exit.Reported? then 1 else 0)
            && (p.exit.Reported? ==> r.pane.exit.Reported?)
            && (!p.exit.Reported? && r.pane.exit.Reported? ==>
                Exited in r.took || (r.pane.rx == [] && GraceOver(p.exit, now)))
            && (r.pane.exit.Draining? ==>
                r.pane.exit == p.exit || (r.pane.exit.since == now && ChildExited in r.took))
            && r.pane.window == p.window
  {
  }

  // ------------------------------------------------------- exits, over a run

  /** The reader's end is its last word. */
  ghost predicate EndIsLast(sent: seq<PtyEvent>) {
    forall i, j :: 0 <= i < j < |sent| && sent[i].Exited? ==> sent[j].ChildExited?
  }

  lemma {:induction false} NoOutputSent(events: seq<PtyEvent>)
    requires forall e :: e in events ==> !e.Output?
    ensures Sent(events) == []
  {
    if events != [] {
      assert events[0] in events;
      NoOutputSent(events[1..]);
    }
  }

  lemma NothingAfterEnd(a: seq<PtyEvent>, b: seq<PtyEvent>)
    requires EndIsLast(a + b) && Exited in a
    ensures Sent(a + b) == Sent(a)
  {
    var i :| 0 <= i < |a| && a[i].Exited?;
    forall e | e in b ensures !e.Output? {
      var j :| 0 <= j < |b| && b[j] == e;
      assert (a + b)[i].Exited? && (a + b)[|a| + j] == e;
    }
    NoOutputSent(b);
    SentAppend(a, b);
  }

  ghost predicate Inv(t: Trace) {
    && Plain(t.taken) + t.pane.rx == t.sent
    && Heard(Plain(t.reported)) == Sent(Plain(t.taken))
    && Ends(Plain(t.reported)) == (if t.pane.exit.Reported? then 1 else 0)
    && (t.pane.exit.Draining? ==> Stamped(t.pane.exit.since, ChildExited) in t.taken)
    && EndIsLast(t.sent)
  }

  lemma ProduceKeeps(t: Trace, e: PtyEvent, paced: bool)
    requires Sound(t, paced) && Inv(t)
    ensures Inv(Step(t, Produce(e), paced))
  {
    if MaySend(t, e) {
      assert Plain(t.taken) + (t.pane.rx + [e]) == t.sent + [e];
    }
  }

  lemma ReceiveKeeps(t: Trace, paced: bool)
    requires Sound(t, paced) && Inv(t)
    ensures Inv(Received(t, paced))
  {
    hide Heard, Sent, Ends, EndIsLast, Receive, Plain, StampAll;
    if t.turn.Some? {
      var now := t.turn.value.now;
      var one := Receive(t.pane, now, t.turn.value.budget);
      ReceiveFacts(t.pane, now, t.turn.value.budget);
      PlainAppend(t.taken, now, one.took);
      PlainAppend(t.reported, now, one.events);
      HeardAppend(Plain(t.reported), one.events);
      SentAppend(Plain(t.taken), one.took);
      assert Plain(t.taken) + one.took + one.pane.rx == Plain(t.taken) + (one.took + one.pane.rx);
      if one.pane.exit.Draining? && one.pane.exit != t.pane.exit {
        StampedIn(now, one.took, ChildExited);
      }
    }
  }

  lemma StampedIn<E>(now: Time, events: seq<E>, e: E)
    requires e in events
    ensures Stamped(now, e) in StampAll(now, events)
  {
    var i :| 0 <= i < |events| && events[i] == e;
    assert StampAll(now, events)[i] == Stamped(now, e);
  }

  lemma {:induction false} RunInv(labels: seq<Label>, paced: bool)
    ensures Inv(Run(labels, paced))
  {
    if labels != [] {
      var n := |labels| - 1;
      var t := Run(labels[..n], paced);
      RunInv(labels[..n], paced);
      match labels[n]
      case Produce(e) => ProduceKeeps(t, e, paced);
      case BeginTurn(_) =>
      case ReceiveOne => ReceiveKeeps(t, paced);
    }
  }

  /** In every run the exit is reported at most once, and the output reported is a prefix of the output queued. */
  lemma ReportedOnceInOrder(labels: seq<Label>, paced: bool)
    ensures Ends(Plain(Run(labels, paced).reported)) <= 1
    ensures Heard(Plain(Run(labels, paced).reported)) <= Sent(Run(labels, paced).sent)
  {
    RunInv(labels, paced);
    var t := Run(labels, paced);
    SentAppend(Plain(t.taken), t.pane.rx);
  }

  /**
    When a receive reports the exit, either it reached the reader's end and every byte the
    reader queued has been reported; or it found the channel dry, and the whole grace has
    passed since the pass that took the news of the child's death.
   */
  lemma ExitReport(labels: seq<Label>, paced: bool)
    requires !Run(labels, paced).pane.exit.Reported?
    requires Run(labels + [ReceiveOne], paced).pane.exit.Reported?
    ensures var before, after := Run(labels, paced), Run(labels + [ReceiveOne], paced);
            || (Exited in Plain(after.taken) && Heard(Plain(after.reported)) == Sent(after.sent))
            || (after.pane.rx == [] && exists since: Time ::
                  Stamped(since, ChildExited) in before.taken && after.clock >= since + EXIT_GRACE)
  {
    hide Heard, Sent, Ends, Receive, Plain, StampAll;
    var t := Run(labels, paced);
    assert (labels + [ReceiveOne])[..|labels|] == labels;
    var after := Received(t, paced);
    RunInv(labels, paced);
    ReceiveKeeps(t, paced);
    var now, one := t.turn.value.now, Receive(t.pane, t.turn.value.now, t.turn.value.budget);
    ReceiveFacts(t.pane, now, t.turn.value.budget);
    if Exited in one.took {
      PlainAppend(t.taken, now, one.took);
      assert Exited in Plain(after.taken);
      NothingAfterEnd(Plain(after.taken), after.pane.rx);
    } else {
      assert Stamped(t.pane.exit.since, ChildExited) in t.taken;
    }
  }

  /**
    And it is not held back: a turn with anything left to spend that finds the channel of a
    draining pane dry reports the exit exactly once 50 ms have passed.
   */
  lemma DryTurnReports(t: Trace, paced: bool)
    requires Sound(t, paced) && t.turn.Some? && t.turn.value.budget > 0
    requires t.pane.rx == [] && t.pane.exit.Draining?
    ensures Received(t, paced).pane.exit.Reported? <==> t.turn.value.now >= t.pane.exit.since + 50_000_000
    ensures Received(t, paced).pane.exit.Reported? ==>
              Received(t, paced).reported == t.reported + [Stamped(t.turn.value.now, Ended)]
    ensures !Received(t, paced).pane.exit.Reported? ==> Received(t, paced).reported == t.reported
    ensures Received(t, paced).turn.None?
  {
  }

  /** A turn takes whatever is queued, one event at a time, until its allowance is spent. */
  lemma TurnTakesNext(t: Trace, paced: bool)
    requires Sound(t, paced) && t.turn.Some? && t.turn.value.budget > 0 && t.pane.rx != []
    ensures var next := Received(t, paced);
            && next.pane.rx == t.pane.rx[1..]
            && next.taken == t.taken + [Stamped(t.turn.value.now, t.pane.rx[0])]
            && (!t.pane.rx[0].Exited? ==>
                next.turn == Some(Turn(t.turn.value.now, t.turn.value.budget - 1, t.turn.value.allowed)))
            && (t.pane.rx[0].ChildExited? && t.pane.exit.Running? ==> next.pane.exit == Draining(t.turn.value.now))
  {
  }

  /** A woken owner's turn may take what is left of 64 in the 8 ms since the window began, a polling owner's 64. */
  lemma TurnAllowance(t: Trace, now: Time, paced: bool)
    requires Sound(t, paced) && t.turn.None? && now >= t.clock
    ensures var next := Begun(t, now, paced);
            var begins := t.pane.window.None? || now >= t.pane.window.value.start + 8_000_000;
            var allowed := if !paced || begins then 64 else 64 - t.pane.window.value.used;
            && next.turn == (if allowed == 0 then None else Some(Turn(now, allowed, allowed)))
            && next.pane.window == if paced && begins then Some(Window(now, 0)) else t.pane.window
  {
  }

  // ------------------------------------------------------------------ pacing

  /** How many outputs were reported at or after `from` and before `until`. */
  function SaidWithin(reported: seq<Stamped<PaneEvent>>, from: Time, until: Time): nat {
    if reported == [] then 0
    else
      var n := |reported| - 1;
      SaidWithin(reported[..n], from, until)
      + if reported[n].event.Said? && from <= reported[n].at < until then 1 else 0
  }

  lemma {:induction false} SaidWithinStamped(
    before: seq<Stamped<PaneEvent>>, now: Time, events: seq<PaneEvent>, from: Time, until: Time)
    ensures SaidWithin(before + StampAll(now, events), from, until) ==
            SaidWithin(before, from, until) + if from <= now < until then |Heard(events)| else 0
  {
    if events == [] {
      assert before + StampAll(now, events) == before;
    } else {
      var n := |events| - 1;
      var all := before + StampAll(now, events);
      assert all[..|all| - 1] == before + StampAll(now, events[..n]);
      SaidWithinStamped(before, now, events[..n], from, until);
      assert events == events[..n] + [events[n]];
      HeardAppend(events[..n], [events[n]]);
      assert Heard([events[n]]) == if events[n].Said? then [events[n].data] else [];
    }
  }

  /** The most a pane may have said since `from`, given the window it is in. */
  function Allowance(w: Option<Window>, from: Time): nat {
    if w.None? then 0
    else if w.value.start < from then w.value.used
    else BUDGET + BUDGET * ((w.value.start - from) / DRAIN_WINDOW) + w.value.used
  }

  /** The window a pane is in, with what its turn has used so far. */
  function Spending(t: Trace): Option<Window> {
    if t.pane.window.None? || t.turn.None? then t.pane.window
    else
      var w := t.pane.window.value;
      Some(w.(used := w.used + Max(0, t.turn.value.allowed - t.turn.value.budget)))
  }

  ghost predicate Paced(t: Trace, from: Time, until: Time) {
    && (t.pane.window.Some? ==> t.pane.window.value.start <= t.clock)
    && SaidWithin(t.reported, from, until) <= Allowance(Spending(t), from)
    && (t.clock < from ==> SaidWithin(t.reported, from, until) == 0)
  }

  /** Windows of a pane start at least one window length apart. */
  lemma NextWindow(p: Pane, now: Time)
    ensures || p.window == Some(Opened(p, now))
            || (Opened(p, now) == Window(now, 0) && (p.window.Some? ==> now >= p.window.value.start + DRAIN_WINDOW))
  {
  }

  lemma DivStep(a: nat, b: nat)
    requires b >= a + DRAIN_WINDOW
    ensures b / DRAIN_WINDOW >= a / DRAIN_WINDOW + 1
  {
  }

  lemma AllowanceGrows(p: Pane, now: Time, from: Time)
    requires WithinBudget(p) && from <= now
    ensures Allowance(p.window, from) <= Allowance(Some(Opened(p, now)), from)
  {
    NextWindow(p, now);
    if p.window.Some? && p.window != Some(Opened(p, now)) && p.window.value.start >= from {
      var a, b := p.window.value.start - from, now - from;
      DivStep(a, b);
      assert BUDGET * (b / DRAIN_WINDOW) >= BUDGET * (a / DRAIN_WINDOW) + BUDGET;
    }
  }

  lemma OpenedStart(p: Pane, now: Time)
    requires p.window.Some? ==> p.window.value.start <= now
    ensures Opened(p, now).start <= now
  {
  }

  lemma AllowanceUsed(a: Window, b: Window, from: Time)
    requires a.start == b.start && a.used <= b.used
    ensures Allowance(Some(b), from) == Allowance(Some(a), from) + (b.used - a.used)
  {
  }

  lemma PacedBegin(t: Trace, now: Time, from: Time, until: Time)
    requires Sound(t, true) && Paced(t, from, until)
    ensures Paced(Begun(t, now, true), from, until)
  {
    hide SaidWithin, Allowance, Opened;
    if t.turn.None? && now >= t.clock {
      OpenedStart(t.pane, now);
      OpenedUsed(t.pane, now);
      if now >= from {
        AllowanceGrows(t.pane, now, from);
      }
    }
  }

  lemma OpenedUsed(p: Pane, now: Time)
    requires WithinBudget(p)
    ensures Opened(p, now).used <= BUDGET
  {
  }

  lemma PacedReceive(t: Trace, from: Time, until: Time)
    requires Sound(t, true) && Paced(t, from, until)
    ensures Paced(Received(t, true), from, until)
  {
    hide SaidWithin, Allowance, Receive, Heard, Sent, StampAll;
    if t.turn.Some? {
      var turn := t.turn.value;
      var one := Receive(t.pane, turn.now, turn.budget);
      ReceiveFacts(t.pane, turn.now, turn.budget);
      SaidWithinStamped(t.reported, turn.now, one.events, from, until);
      AllowanceUsed(Spending(t).value, Spending(Received(t, true)).value, from);
    }
  }

  lemma {:induction false} RunPaced(labels: seq<Label>, from: Time, until: Time)
    ensures Paced(Run(labels, true), from, until)
  {
    if labels != [] {
      var n := |labels| - 1;
      RunPaced(labels[..n], from, until);
      match labels[n]
      case Produce(_) =>
      case BeginTurn(now) => PacedBegin(Run(labels[..n], true), now, from, until);
      case ReceiveOne => PacedReceive(Run(labels[..n], true), from, until);
    }
  }

  /** How many windows an interval of that length can touch. */
  function WindowsIn(length: Time): nat {
    (length + DRAIN_WINDOW - 1) / DRAIN_WINDOW + 1
  }

  lemma AllowanceBounded(w: Window, from: Time, length: Time)
    requires w.used <= BUDGET && w.start < from + length
    ensures Allowance(Some(w), from) <= BUDGET * WindowsIn(length)
  {
    if w.start >= from {
      var a := (w.start - from) / DRAIN_WINDOW;
      var c := (length + DRAIN_WINDOW - 1) / DRAIN_WINDOW;
      assert a + 1 <= c;
      assert BUDGET * (a + 1) <= BUDGET * c;
    }
  }

  /**
    The pacing bound: however often a woken owner runs, one pane reports at most a
    budget's worth of output for every drain window an interval can touch, and one more.
   */
  lemma {:induction false} PacingBound(labels: seq<Label>, from: Time, length: Time)
    ensures SaidWithin(Run(labels, true).reported, from, from + length) <= BUDGET * WindowsIn(length)
  {
    hide Receive, Allowance, WindowsIn, SaidWithin, Heard, StampAll;
    if labels == [] {
      NothingSaid(from, from + length);
    } else {
      var n := |labels| - 1;
      var t := Run(labels[..n], true);
      PacingBound(labels[..n], from, length);
      if labels[n].ReceiveOne? && t.turn.Some? {
        var now, one := t.turn.value.now, Receive(t.pane, t.turn.value.now, t.turn.value.budget);
        SaidWithinStamped(t.reported, now, one.events, from, from + length);
        if now < from + length {
          RunPaced(labels, from, from + length);
          ReceiveFacts(t.pane, now, t.turn.value.budget);
          AllowanceBounded(Spending(Run(labels, true)).value, from, length);
        }
      }
    }
  }

  lemma NothingSaid(from: Time, until: Time)
    ensures SaidWithin([], from, until) == 0
  {
  }
}
