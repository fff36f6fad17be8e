/**
  One daemon per socket path: the advisory lock, the socket file and any number of
  processes that start, serve, leave or crash at any point between two system calls.
 */
module InstanceSocket {
  import opened Bytes

  type Pid = nat

  /** The system call a process makes next. Every phase from `Locked` to `Unlocking` holds the lock. */
  datatype Phase =
    | Trying
    | Locked
    | Clearing
    | Binding
    | Restricting
    | Serving
    | Leaving
    | Closing
    | Unlocking
    | Gone

  /** `path` tells whose listener the socket file leads to, a closed one included. */
  datatype World = World(lock: Option<Pid>, path: Option<Pid>, procs: map<Pid, Phase>)

  const EMPTY_WORLD := World(None, None, map[])

  /** How a lock attempt fares before anybody's claim is looked at. */
  datatype Weather = Fair | Signal | Fault

  datatype TryLockError = WouldBlock | Interrupted | OtherError

  datatype Attempt = Held | Again | Failed

  function OutcomeOf(e: TryLockError): Attempt {
    match e
    case WouldBlock => Held
    case Interrupted => Again
    case OtherError => Failed
  }

  /** What the kernel answers to a lock attempt, nothing meaning success. */
  function LockAnswer(lock: Option<Pid>, weather: Weather): Option<TryLockError> {
    match weather
    case Signal => Some(Interrupted)
    case Fault => Some(OtherError)
    case Fair => if lock.Some? then Some(WouldBlock) else None
  }

  datatype Label =
    | Arrive(p: Pid)
    | TryLock(p: Pid, weather: Weather)
    | Look(p: Pid)
    | Clear(p: Pid, ok: bool)
    | Bind(p: Pid, ok: bool)
    | Restrict(p: Pid, ok: bool)
    | Leave(p: Pid)
    | Unlink(p: Pid, ok: bool)
    | Close(p: Pid)
    | Unlock(p: Pid)
    | Crash(p: Pid)

  predicate At(w: World, p: Pid, phase: Phase) {
    p in w.procs && w.procs[p] == phase
  }

  function Goto(w: World, p: Pid, phase: Phase): World {
    w.(procs := w.procs[p := phase])
  }

  function TriedLock(w: World, p: Pid, weather: Weather): World {
    var answer := LockAnswer(w.lock, weather);
    if answer.None? then Goto(w.(lock := Some(p)), p, Locked)
    else match OutcomeOf(answer.value)
      case Held => Goto(w, p, Gone)
      case Again => w
      case Failed => Goto(w, p, Gone)
  }

  function Step(w: World, l: Label): World {
    match l
    case Arrive(p) => if p in w.procs then w else Goto(w, p, Trying)
    case TryLock(p, weather) => if At(w, p, Trying) then TriedLock(w, p, weather) else w
    case Look(p) => if At(w, p, Locked) then Goto(w, p, if w.path.Some? then Clearing else Binding) else w
    case Clear(p, ok) =>
      if !At(w, p, Clearing) then w
      else if ok then Goto(w.(path := None), p, Binding)
      else Goto(w, p, Unlocking)
    case Bind(p, ok) =>
      if !At(w, p, Binding) then w
      else if ok && w.path.None? then Goto(w.(path := Some(p)), p, Restricting)
      else Goto(w, p, Unlocking)
    case Restrict(p, ok) => if At(w, p, Restricting) then Goto(w, p, if ok then Serving else Closing) else w
    case Leave(p) => if At(w, p, Serving) then Goto(w, p, Leaving) else w
    case Unlink(p, ok) =>
      if At(w, p, Leaving) then Goto(if ok then w.(path := None) else w, p, Closing) else w
    case Close(p) => if At(w, p, Closing) then Goto(w, p, Unlocking) else w
    case Unlock(p) => if At(w, p, Unlocking) then Goto(w.(lock := None), p, Gone) else w
    case Crash(p) =>
      if p !in w.procs then w
      else Goto(if w.lock == Some(p) then w.(lock := None) else w, p, Gone)
  }

  /** From a world, through a schedule. */
  function After(w: World, labels: seq<Label>): World {
    if labels == [] then w else Step(After(w, labels[..|labels| - 1]), labels[|labels| - 1])
  }

  function Run(labels: seq<Label>): World {
    After(EMPTY_WORLD, labels)
  }

  // ------------------------------------------------- one process, call by call

  /** What a call to bind does, in order; steps that do not apply are skipped. */
  function BindSchedule(p: Pid, tries: seq<Weather>, clearOk: bool, bindOk: bool, restrictOk: bool): seq<Label> {
    Tries(p, tries) + [Look(p), Clear(p, clearOk), Bind(p, bindOk), Restrict(p, restrictOk), Close(p), Unlock(p)]
  }

  function Tries(p: Pid, tries: seq<Weather>): (labels: seq<Label>)
    ensures |labels| == |tries|
  {
    if tries == [] then [] else Tries(p, tries[..|tries| - 1]) + [TryLock(p, tries[|tries| - 1])]
  }

  class Place {
    var lock: Option<Pid>
    var path: Option<Pid>
    var procs: map<Pid, Phase>

    ghost function State(): World
      reads this
    {
      World(lock, path, procs)
    }

    constructor ()
      ensures State() == EMPTY_WORLD
    {
      lock, path, procs := None, None, map[];
    }

    /** Asks until the answer is about the lock; a signal is no answer. */
    method Acquire(p: Pid, tries: seq<Weather>)
      requires At(State(), p, Trying)
      modifies this
      ensures State() == After(old(State()), Tries(p, tries))
    {
      hide After, Tries;
      var i := 0;
      NoTries(State(), p);
      while i < |tries|
        invariant 0 <= i <= |tries|
        invariant At(State(), p, Trying)
        invariant State() == After(old(State()), Tries(p, tries[..i]))
      {
        var answer := LockAnswer(lock, tries[i]);
        TriesNext(old(State()), p, tries, i);
        if answer.None? {
          lock := Some(p);
          procs := procs[p := Locked];
          TriesSettled(old(State()), p, tries, i + 1);
          return;
        }
        match OutcomeOf(answer.value) {
          case Again =>
          case _ =>
            procs := procs[p := Gone];
            TriesSettled(old(State()), p, tries, i + 1);
            return;
        }
        i := i + 1;
      }
      assert tries[..i] == tries;
    }

    method BindSocket(p: Pid, tries: seq<Weather>, clearOk: bool, bindOk: bool, restrictOk: bool)
      returns (serving: bool)
      requires At(State(), p, Trying)
      modifies this
      ensures State() == After(old(State()), BindSchedule(p, tries, clearOk, bindOk, restrictOk))
      ensures serving == At(State(), p, Serving)
    {
      hide Tries, BindSteps, After;
      ghost var start := State();
      Acquire(p, tries);
      LockFirst(start, p, tries);
      BindUnfolds(start, p, tries, clearOk, bindOk, restrictOk);
      BindOutcome(State(), p, clearOk, bindOk, restrictOk);
      if procs[p] != Locked {
        return false;
      }
      if path.Some? {
        if !clearOk {
          lock, procs := None, procs[p := Gone];
          return false;
        }
        path := None;
      }
      if !bindOk {
        lock, procs := None, procs[p := Gone];
        return false;
      }
      path := Some(p);
      if !restrictOk {
        lock, procs := None, procs[p := Gone];
        return false;
      }
      procs := procs[p := Serving];
      serving := true;
    }

    /** The file goes first, then the listener, and the lock last. */
    method DropSocket(p: Pid, unlinkOk: bool)
      requires At(State(), p, Serving)
      modifies this
      ensures State() == After(old(State()), [Leave(p), Unlink(p, unlinkOk), Close(p), Unlock(p)])
    {
      hide Step;
      ghost var w := State();
      DropOutcome(w, p, unlinkOk);
      if unlinkOk {
        path := None;
      }
      lock, procs := None, procs[p := Gone];
      FourSteps(w, Leave(p), Unlink(p, unlinkOk), Close(p), Unlock(p));
    }
  }

  lemma NoTries(w: World, p: Pid)
    ensures After(w, Tries(p, [])) == w
  {
  }

  lemma TriesNext(w: World, p: Pid, tries: seq<Weather>, i: nat)
    requires i < |tries|
    ensures After(w, Tries(p, tries[..i + 1])) == Step(After(w, Tries(p, tries[..i])), TryLock(p, tries[i]))
  {
    hide Step;
    assert tries[..i + 1][..i] == tries[..i];
    var labels := Tries(p, tries[..i]);
    assert (labels + [TryLock(p, tries[i])])[..|labels|] == labels;
  }

  /** Once a process has its answer, further tries do not happen. */
  lemma {:induction false} TriesSettled(w: World, p: Pid, tries: seq<Weather>, i: nat)
    requires i <= |tries| && !At(After(w, Tries(p, tries[..i])), p, Trying)
    ensures After(w, Tries(p, tries)) == After(w, Tries(p, tries[..i]))
  {
    if i == |tries| {
      assert tries[..i] == tries;
    } else {
      var n := |tries| - 1;
      assert tries[..n][..i] == tries[..i];
      TriesSettled(w, p, tries[..n], i);
      TriesNext(w, p, tries, n);
      assert tries[..n + 1] == tries;
    }
  }

  /** After the tries a process that never got its answer is still asking; otherwise it holds the lock or is gone. */
  lemma {:induction false} LockFirst(w: World, p: Pid, tries: seq<Weather>)
    requires At(w, p, Trying)
    ensures var v := After(w, Tries(p, tries)); At(v, p, Trying) || At(v, p, Locked) || At(v, p, Gone)
  {
    if tries != [] {
      var n := |tries| - 1;
      LockFirst(w, p, tries[..n]);
      TriesNext(w, p, tries, n);
      assert tries[..n + 1] == tries;
    }
  }

  lemma AfterSnoc(w: World, labels: seq<Label>, l: Label)
    ensures After(w, labels + [l]) == Step(After(w, labels), l)
  {
    assert (labels + [l])[..|labels|] == labels;
  }

  lemma FourSteps(w: World, a: Label, b: Label, c: Label, d: Label)
    ensures After(w, [a, b, c, d]) == Step(Step(Step(Step(w, a), b), c), d)
  {
    hide Step;
    assert [] + [a] == [a] && [a] + [b] == [a, b] && [a, b] + [c] == [a, b, c] && [a, b, c] + [d] == [a, b, c, d];
    AfterSnoc(w, [], a);
    AfterSnoc(w, [a], b);
    AfterSnoc(w, [a, b], c);
    AfterSnoc(w, [a, b, c], d);
  }

  /** What follows the lock in a call to bind. */
  function BindSteps(w: World, p: Pid, clearOk: bool, bindOk: bool, restrictOk: bool): World {
    Step(Step(Step(Step(Step(Step(w, Look(p)), Clear(p, clearOk)), Bind(p, bindOk)), Restrict(p, restrictOk)),
              Close(p)), Unlock(p))
  }

  /** Where those steps lead, and what a failure leaves behind. */
  lemma BindOutcome(w: World, p: Pid, clearOk: bool, bindOk: bool, restrictOk: bool)
    requires p in w.procs && w.procs[p] in {Trying, Locked, Gone}
    ensures BindSteps(w, p, clearOk, bindOk, restrictOk) ==
              if !At(w, p, Locked) then w
              else if w.path.Some? && !clearOk then World(None, w.path, w.procs[p := Gone])
              else if !bindOk then World(None, None, w.procs[p := Gone])
              else if !restrictOk then World(None, Some(p), w.procs[p := Gone])
              else World(w.lock, Some(p), w.procs[p := Serving])
  {
    hide Step;
    var cleared := Step(Step(w, Look(p)), Clear(p, clearOk));
    ClearOutcome(w, p, clearOk);
    var bound := Step(Step(cleared, Bind(p, bindOk)), Restrict(p, restrictOk));
    BoundOutcome(cleared, p, bindOk, restrictOk);
    EndOutcome(bound, p);
    Overwrites(w.procs, p, cleared.procs[p], bound.procs[p]);
    Overwrites(w.procs, p, bound.procs[p], Gone);
  }

  lemma ClearOutcome(w: World, p: Pid, clearOk: bool)
    requires p in w.procs && w.procs[p] in {Trying, Locked, Gone}
    ensures Step(Step(w, Look(p)), Clear(p, clearOk)) ==
              if !At(w, p, Locked) then w
              else if w.path.Some? && !clearOk then Goto(w, p, Unlocking)
              else World(w.lock, None, w.procs[p := Binding])
  {
    if At(w, p, Locked) && w.path.Some? {
      Overwrites(w.procs, p, Clearing, if clearOk then Binding else Unlocking);
    }
  }

  lemma BoundOutcome(w: World, p: Pid, bindOk: bool, restrictOk: bool)
    requires p in w.procs && w.procs[p] in {Trying, Binding, Unlocking, Gone}
    ensures Step(Step(w, Bind(p, bindOk)), Restrict(p, restrictOk)) ==
              if !At(w, p, Binding) then w
              else if !bindOk || w.path.Some? then Goto(w, p, Unlocking)
              else World(w.lock, Some(p), w.procs[p := if restrictOk then Serving else Closing])
  {
    if At(w, p, Binding) && bindOk && w.path.None? {
      Overwrites(w.procs, p, Restricting, if restrictOk then Serving else Closing);
    }
  }

  lemma EndOutcome(w: World, p: Pid)
    requires p in w.procs && w.procs[p] in {Trying, Serving, Closing, Unlocking, Gone}
    ensures Step(Step(w, Close(p)), Unlock(p)) ==
              if w.procs[p] in {Closing, Unlocking} then World(None, w.path, w.procs[p := Gone]) else w
  {
    if At(w, p, Closing) {
      Overwrites(w.procs, p, Unlocking, Gone);
    }
  }

  lemma DropOutcome(w: World, p: Pid, unlinkOk: bool)
    requires At(w, p, Serving)
    ensures Step(Step(Step(Step(w, Leave(p)), Unlink(p, unlinkOk)), Close(p)), Unlock(p))
         == World(None, if unlinkOk then None else w.path, w.procs[p := Gone])
  {
    var left := Step(Step(w, Leave(p)), Unlink(p, unlinkOk));
    Overwrites(w.procs, p, Leaving, Closing);
    assert left == World(w.lock, if unlinkOk then None else w.path, w.procs[p := Closing]);
    hide Step;
    EndOutcome(left, p);
    Overwrites(w.procs, p, Closing, Gone);
  }

  lemma Overwrites(procs: map<Pid, Phase>, p: Pid, a: Phase, b: Phase)
    ensures procs[p := a][p := b] == procs[p := b]
  {
  }

  lemma BindUnfolds(w: World, p: Pid, tries: seq<Weather>, clearOk: bool, bindOk: bool, restrictOk: bool)
    ensures After(w, BindSchedule(p, tries, clearOk, bindOk, restrictOk)) ==
              BindSteps(After(w, Tries(p, tries)), p, clearOk, bindOk, restrictOk)
  {
    hide Step, Tries;
    var t := Tries(p, tries);
    AfterSnoc(w, t, Look(p));
    AfterSnoc(w, t + [Look(p)], Clear(p, clearOk));
    AfterSnoc(w, t + [Look(p)] + [Clear(p, clearOk)], Bind(p, bindOk));
    AfterSnoc(w, t + [Look(p)] + [Clear(p, clearOk)] + [Bind(p, bindOk)], Restrict(p, restrictOk));
    AfterSnoc(w, t + [Look(p)] + [Clear(p, clearOk)] + [Bind(p, bindOk)] + [Restrict(p, restrictOk)], Close(p));
    AfterSnoc(w, t + [Look(p)] + [Clear(p, clearOk)] + [Bind(p, bindOk)] + [Restrict(p, restrictOk)] + [Close(p)],
              Unlock(p));
    assert t + [Look(p)] + [Clear(p, clearOk)] + [Bind(p, bindOk)] + [Restrict(p, restrictOk)] + [Close(p)]
        + [Unlock(p)] == BindSchedule(p, tries, clearOk, bindOk, restrictOk);
  }

  // -------------------------------------------------------------- the protocol

  predicate HoldsLock(phase: Phase) {
    !phase.Trying? && !phase.Gone?
  }

  /** The process has a listener open on the path. */
  predicate Listens(phase: Phase) {
    phase.Restricting? || phase.Serving? || phase.Leaving? || phase.Closing?
  }

  /** The phases in which the socket file must lead to the process's own listener. */
  predicate OwnsPath(phase: Phase) {
    phase.Restricting? || phase.Serving? || phase.Leaving?
  }

  ghost predicate Inv(w: World) {
    && (forall p :: p in w.procs ==> (HoldsLock(w.procs[p]) <==> w.lock == Some(p)))
    && (w.lock.Some? ==> w.lock.value in w.procs)
    && (forall p :: p in w.procs && OwnsPath(w.procs[p]) ==> w.path == Some(p))
    && (forall p :: p in w.procs && w.procs[p].Binding? ==> w.path.None?)
    && (w.path.Some? ==> w.path.value in w.procs)
  }

  predicate IsEntry(l: Label) {
    l.Arrive? || l.TryLock? || l.Look? || l.Crash?
  }

  lemma EntryKeeps(w: World, l: Label)
    requires Inv(w) && IsEntry(l)
    ensures Inv(Step(w, l))
  {
  }

  lemma HolderKeeps(w: World, l: Label)
    requires Inv(w) && !IsEntry(l)
    ensures Inv(Step(w, l))
  {
  }

  lemma StepKeeps(w: World, l: Label)
    requires Inv(w)
    ensures Inv(Step(w, l))
  {
    hide Step, Inv;
    if IsEntry(l) {
      EntryKeeps(w, l);
    } else {
      HolderKeeps(w, l);
    }
  }

  lemma {:induction false} AfterKeeps(w: World, labels: seq<Label>)
    requires Inv(w)
    ensures Inv(After(w, labels))
  {
    if labels != [] {
      hide Step, Inv;
      AfterKeeps(w, labels[..|labels| - 1]);
      StepKeeps(After(w, labels[..|labels| - 1]), labels[|labels| - 1]);
    }
  }

  lemma RunInv(labels: seq<Label>)
    ensures Inv(Run(labels))
  {
    hide Step;
    AfterKeeps(EMPTY_WORLD, labels);
  }

  /**
    Whatever the processes do and wherever they crash: at most one holds a bound socket;
    the path leads to the serving daemon's own listener until it starts to leave; what a
    leaving daemon unlinks is its own file; and what a starting daemon clears away has no
    listener behind it.
   */
  lemma SingleInstance(labels: seq<Label>)
    ensures var w := Run(labels);
            && (forall p, q :: p in w.procs && q in w.procs && Listens(w.procs[p]) && Listens(w.procs[q]) ==> p == q)
            && (forall p: Pid :: At(w, p, Serving) || At(w, p, Leaving) ==> w.path == Some(p))
            && (forall p: Pid :: At(w, p, Clearing) && w.path.Some? ==>
                  w.path.value in w.procs && !Listens(w.procs[w.path.value]))
  {
    hide Run;
    RunInv(labels);
  }

  /** While one process holds the lock, no step of another touches the lock, the path or that process. */
  lemma OthersCannotInterfere(labels: seq<Label>, p: Pid, l: Label)
    requires p in Run(labels).procs && HoldsLock(Run(labels).procs[p]) && l.p != p
    ensures var w := Run(labels);
            Step(w, l).lock == w.lock && Step(w, l).path == w.path
            && p in Step(w, l).procs && Step(w, l).procs[p] == w.procs[p]
  {
    hide Run;
    RunInv(labels);
  }

  /**
    Whatever was left behind by crashes and failures, a process that finds the lock free
    and meets no fault of the system ends up serving on the path.
   */
  lemma DebrisNeverBlocks(labels: seq<Label>, p: Pid)
    requires Run(labels).lock.None? && At(Run(labels), p, Trying)
    ensures var w := After(Run(labels), BindSchedule(p, [Fair], true, true, true));
            At(w, p, Serving) && w.path == Some(p) && w.lock == Some(p)
  {
    hide Run, After, BindSteps;
    BindUnfolds(Run(labels), p, [Fair], true, true, true);
    TriesOne(Run(labels), p, Fair);
    BindOutcome(Step(Run(labels), TryLock(p, Fair)), p, true, true, true);
  }

  lemma TriesOne(w: World, p: Pid, weather: Weather)
    ensures After(w, Tries(p, [weather])) == Step(w, TryLock(p, weather))
  {
    hide Step;
    TriesNext(w, p, [weather], 0);
    assert [weather][..1] == [weather];
    assert After(w, Tries(p, [weather][..0])) == w;
  }

  /** A process that has the lock never finds the address in use: its bind fails only if the system fails. */
  lemma BindFindsPathFree(labels: seq<Label>, p: Pid)
    requires At(Run(labels), p, Binding)
    ensures At(Step(Run(labels), Bind(p, true)), p, Restricting)
  {
    hide Run;
    RunInv(labels);
  }

  /**
    One attempt at the lock: a signal is no answer and the process asks again; a fault or
    another's claim ends it; a free lock is its own.
   */
  lemma AttemptExactly(w: World, p: Pid, weather: Weather)
    requires At(w, p, Trying)
    ensures var after := Step(w, TryLock(p, weather));
            && (weather == Signal ==> after == w)
            && (weather == Fault ==> At(after, p, Gone) && after.lock == w.lock)
            && (weather == Fair && w.lock.Some? ==> At(after, p, Gone) && after.lock == w.lock)
            && (weather == Fair && w.lock.None? ==> At(after, p, Locked) && after.lock == Some(p))
            && after.path == w.path
  {
  }

  /** How a failed lock call is read. */
  lemma OutcomesAreTold()
    ensures OutcomeOf(WouldBlock) == Held && OutcomeOf(Interrupted) == Again && OutcomeOf(OtherError) == Failed
  {
  }

  /** A crash ends the process and frees its lock, and leaves its socket file where it was. */
  lemma CrashExactly(w: World, p: Pid)
    ensures p !in w.procs ==> Step(w, Crash(p)) == w
    ensures p in w.procs ==>
            var after := Step(w, Crash(p));
            && At(after, p, Gone) && after.path == w.path
            && after.lock == (if w.lock == Some(p) then None else w.lock)
            && forall q :: q in w.procs && q != p ==> q in after.procs && after.procs[q] == w.procs[q]
  {
  }

  /** A process that comes asks for the lock. */
  lemma ArrivalAsks(w: World, p: Pid)
    ensures p !in w.procs ==> Step(w, Arrive(p)) == w.(procs := w.procs[p := Trying])
    ensures p in w.procs ==> Step(w, Arrive(p)) == w
  {
  }

  /** The first one that comes ends up serving. */
  lemma FirstServes(p: Pid)
    ensures var w := After(Run([Arrive(p)]), BindSchedule(p, [Fair], true, true, true));
            At(w, p, Serving) && w.path == Some(p) && w.lock == Some(p)
  {
    hide After, BindSchedule, Step;
    ArrivalAsks(EMPTY_WORLD, p);
    AfterSnoc(EMPTY_WORLD, [], Arrive(p));
    assert [] + [Arrive(p)] == [Arrive(p)];
    NoSteps(EMPTY_WORLD);
    DebrisNeverBlocks([Arrive(p)], p);
  }

  lemma NoSteps(w: World)
    ensures After(w, []) == w
  {
  }

  /** So whoever serves may crash, and the next process that comes ends up serving. */
  lemma NextServesAfterCrash(labels: seq<Label>, p: Pid, q: Pid)
    requires At(Run(labels), p, Serving) && At(Run(labels), q, Trying)
    ensures var w := After(Run(labels + [Crash(p)]), BindSchedule(q, [Fair], true, true, true));
            At(w, q, Serving) && w.path == Some(q)
  {
    hide After, BindSchedule;
    RunInv(labels);
    AfterSnoc(EMPTY_WORLD, labels, Crash(p));
    CrashExactly(Run(labels), p);
    DebrisNeverBlocks(labels + [Crash(p)], q);
  }

  /** The lock is never lost: it is free, or a process that has not ended holds it. */
  lemma LockIsHeldByTheLiving(labels: seq<Label>)
    ensures var w := Run(labels);
            w.lock.Some? ==> w.lock.value in w.procs && HoldsLock(w.procs[w.lock.value])
  {
    hide Run;
    RunInv(labels);
  }
}
