/**
  The session's one clone slot: starting, finishing and looking up jobs, and the bounded
  memory of finished ones. Callers interleave at every hold of the table's lock.
 */
module CloneJobs {
  import opened Bytes

  const MAX_RETAINED_JOBS: nat := 32

  datatype JobState = Running | Done(path: string) | Failed(message: string)

  datatype Lookup = Idle | Found(job: nat, state: JobState) | Unknown(job: nat)

  /** `issued` is the last id handed out. */
  datatype Table = Table(issued: nat, jobs: map<nat, JobState>)

  // ---------------------------------------------------------------- eviction

  predicate IsLeast(ids: set<nat>, m: nat) {
    m in ids && forall x :: x in ids ==> m <= x
  }

  lemma {:induction false} HasLeast(ids: set<nat>)
    requires ids != {}
    ensures exists m :: IsLeast(ids, m)
  {
    var some :| some in ids;
    var rest := ids - {some};
    if rest == {} {
      assert ids == {some};
      assert IsLeast(ids, some);
    } else {
      HasLeast(rest);
      var m: nat :| IsLeast(rest, m);
      assert ids == rest + {some};
      assert IsLeast(ids, if m <= some then m else some);
    }
  }

  ghost function Least(ids: set<nat>): (m: nat)
    requires ids != {}
    ensures IsLeast(ids, m)
  {
    HasLeast(ids);
    var m :| IsLeast(ids, m);
    m
  }

  /** The ids in ascending order. */
  ghost function Ascending(ids: set<nat>): (s: seq<nat>)
    ensures |s| == |ids| && forall i :: 0 <= i < |s| ==> s[i] in ids
  {
    if ids == {} then [] else [Least(ids)] + Ascending(ids - {Least(ids)})
  }

  method SortIds(ids: set<nat>) returns (s: seq<nat>)
    ensures s == Ascending(ids)
  {
    s := [];
    var rest := ids;
    while rest != {}
      invariant Ascending(ids) == s + Ascending(rest)
      decreases |rest|
    {
      HasLeast(rest);
      var m :| m in rest && IsLeast(rest, m);
      assert m == Least(rest);
      assert s + ([m] + Ascending(rest - {m})) == s + [m] + Ascending(rest - {m});
      s := s + [m];
      rest := rest - {m};
    }
  }

  function Finished(jobs: map<nat, JobState>): set<nat> {
    set id | id in jobs && !jobs[id].Running?
  }

  /** The entries without the given ids. */
  function Without(jobs: map<nat, JobState>, ids: seq<nat>): map<nat, JobState> {
    if ids == [] then jobs else Without(jobs, ids[..|ids| - 1]) - {ids[|ids| - 1]}
  }

  ghost function Oldest(jobs: map<nat, JobState>): seq<nat> {
    var finished := Ascending(Finished(jobs));
    finished[..Min(|finished|, Max(|jobs| - MAX_RETAINED_JOBS / 2, 0))]
  }

  /** The oldest finished jobs make room once the table is full. */
  ghost function Evicted(jobs: map<nat, JobState>): map<nat, JobState> {
    if |jobs| >= MAX_RETAINED_JOBS then Without(jobs, Oldest(jobs)) else jobs
  }

  method Evict(jobs: map<nat, JobState>) returns (kept: map<nat, JobState>)
    ensures kept == Evicted(jobs)
  {
    kept := jobs;
    if |jobs| >= MAX_RETAINED_JOBS {
      var finished := SortIds(Finished(jobs));
      var count := Min(|finished|, Max(|jobs| - MAX_RETAINED_JOBS / 2, 0));
      for i := 0 to count
        invariant kept == Without(jobs, finished[..i])
      {
        assert finished[..i + 1][..i] == finished[..i];
        kept := kept - {finished[i]};
      }
    }
  }

  // --------------------------------------------------------------- the table

  ghost predicate Busy(jobs: map<nat, JobState>) {
    exists id :: id in jobs && jobs[id].Running?
  }

  ghost function Started(t: Table): Table {
    if Busy(t.jobs) then t
    else Table(t.issued + 1, Evicted(t.jobs)[t.issued + 1 := Running])
  }

  function Ended(t: Table, id: nat, result: JobState): Table {
    if id in t.jobs then t.(jobs := t.jobs[id := result]) else t
  }

  class CloneJobs {
    var issued: nat
    var jobs: map<nat, JobState>

    ghost function State(): Table
      reads this
    {
      Table(issued, jobs)
    }

    constructor ()
      ensures State() == Table(0, map[])
    {
      issued, jobs := 0, map[];
    }

    method TryStart() returns (r: Option<nat>)
      modifies this
      ensures State() == Started(old(State()))
      ensures r == if Busy(old(jobs)) then None else Some(old(issued) + 1)
    {
      if exists id :: id in jobs && jobs[id].Running? {
        return None;
      }
      issued := issued + 1;
      var kept := Evict(jobs);
      jobs := kept[issued := Running];
      r := Some(issued);
    }

    method Finish(id: nat, result: JobState)
      modifies this
      ensures State() == Ended(old(State()), id, result)
    {
      if id in jobs {
        jobs := jobs[id := result];
      }
    }

    /** Asked about no job in particular, it tells of a running one if there is any. */
    method Look(job: Option<nat>) returns (r: Lookup)
      ensures job.Some? ==> r == if job.value in jobs then Found(job.value, jobs[job.value]) else Unknown(job.value)
      ensures job.None? ==> !r.Unknown? && (r.Idle? <==> !Busy(jobs))
      ensures job.None? && r.Found? ==> r.job in jobs && jobs[r.job] == r.state == Running
    {
      if job.Some? {
        return if job.value in jobs then Found(job.value, jobs[job.value]) else Unknown(job.value);
      }
      if id :| id in jobs && jobs[id].Running? {
        return Found(id, jobs[id]);
      }
      r := Idle;
    }
  }

  // ------------------------------------------------------- the service, in steps

  /** How far the thread that owns a job has come; `Panicked` if the runner took it down. */
  datatype Phase = Claiming | Launching | Working | Panicked

  datatype Service = Service(table: Table, active: map<nat, Phase>)

  const NEW_SERVICE := Service(Table(0, map[]), map[])

  datatype Label =
    | Start
    | MakeDirectory(job: nat, ok: bool)
    | Launch(job: nat, ok: bool)
    | Work(job: nat, outcome: JobState)
    | Panic(job: nat)

  function EndJob(s: Service, job: nat, result: JobState): Service {
    Service(Ended(s.table, job, result), s.active - {job})
  }

  ghost function Step(s: Service, l: Label): Service {
    match l
    case Start =>
      if Busy(s.table.jobs) then s
      else Service(Started(s.table), s.active[s.table.issued + 1 := Claiming])
    case MakeDirectory(job, ok) =>
      if job !in s.active || !s.active[job].Claiming? then s
      else if ok then s.(active := s.active[job := Launching])
      else EndJob(s, job, Failed("could not create the destination"))
    case Launch(job, ok) =>
      if job !in s.active || !s.active[job].Launching? then s
      else if ok then s.(active := s.active[job := Working])
      else EndJob(s, job, Failed("could not start the clone"))
    case Work(job, outcome) =>
      if job !in s.active || !s.active[job].Working? || outcome.Running? then s
      else EndJob(s, job, outcome)
    case Panic(job) =>
      if job in s.active && s.active[job].Working? then s.(active := s.active[job := Panicked]) else s
  }

  ghost function Run(labels: seq<Label>): Service {
    if labels == [] then NEW_SERVICE else Step(Run(labels[..|labels| - 1]), labels[|labels| - 1])
  }

  /** The retained ids are the last ones issued, without a gap. */
  ghost predicate Contiguous(t: Table, kept: nat) {
    kept <= t.issued && forall id: nat :: id in t.jobs <==> t.issued - kept < id <= t.issued
  }

  ghost predicate Inv(s: Service) {
    && Contiguous(s.table, |s.table.jobs|)
    && Min(s.table.issued, MAX_RETAINED_JOBS / 2 + 1) <= |s.table.jobs| <= MAX_RETAINED_JOBS
    && (forall id :: id in s.table.jobs ==> (s.table.jobs[id].Running? <==> id in s.active))
    && (forall id :: id in s.active ==> id == s.table.issued > 0)
  }

  ghost function Interval(lo: nat, hi: nat): (ids: set<nat>)
    ensures forall id: nat :: id in ids <==> lo < id <= hi
  {
    if hi <= lo then {} else Interval(lo, hi - 1) + {hi}
  }

  lemma {:induction false} IntervalSize(lo: nat, hi: nat)
    requires lo <= hi
    ensures |Interval(lo, hi)| == hi - lo
  {
    if lo < hi {
      IntervalSize(lo, hi - 1);
    }
  }

  lemma {:induction false} AscendingInterval(lo: nat, hi: nat, k: nat)
    requires lo + k < hi
    ensures k < |Ascending(Interval(lo, hi))|
    ensures Ascending(Interval(lo, hi))[k] == lo + 1 + k
    decreases k
  {
    IntervalSize(lo, hi);
    var ids := Interval(lo, hi);
    assert lo + 1 in ids;
    assert Least(ids) == lo + 1;
    assert ids - {lo + 1} == Interval(lo + 1, hi);
    if k > 0 {
      AscendingInterval(lo + 1, hi, k - 1);
    }
  }

  lemma {:induction false} WithoutTells(jobs: map<nat, JobState>, ids: seq<nat>)
    ensures forall id :: id in Without(jobs, ids) <==> id in jobs && id !in ids
    ensures forall id :: id in Without(jobs, ids) ==> Without(jobs, ids)[id] == jobs[id]
  {
    if ids != [] {
      WithoutTells(jobs, ids[..|ids| - 1]);
      assert ids == ids[..|ids| - 1] + [ids[|ids| - 1]];
    }
  }

  /** In a full table of finished jobs without gaps, the older half goes. */
  lemma EvictionKeepsNewest(t: Table)
    requires Contiguous(t, |t.jobs|) && !Busy(t.jobs) && |t.jobs| == MAX_RETAINED_JOBS
    ensures Contiguous(Table(t.issued, Evicted(t.jobs)), MAX_RETAINED_JOBS / 2)
    ensures forall id :: id in Evicted(t.jobs) ==> t.jobs[id] == Evicted(t.jobs)[id]
  {
    hide Without, Ascending;
    var lo := t.issued - MAX_RETAINED_JOBS;
    var gone := Oldest(t.jobs);
    assert Finished(t.jobs) == Interval(lo, t.issued);
    IntervalSize(lo, t.issued);
    assert |gone| == MAX_RETAINED_JOBS / 2;
    forall id
      ensures id in gone <==> lo < id <= lo + |gone|
    {
      if lo < id <= lo + |gone| {
        AscendingInterval(lo, t.issued, id - lo - 1);
        assert gone[id - lo - 1] == id;
      }
      if id in gone {
        var k :| 0 <= k < |gone| && gone[k] == id;
        AscendingInterval(lo, t.issued, k);
      }
    }
    WithoutTells(t.jobs, gone);
  }

  lemma SizeOf(t: Table, kept: nat)
    requires Contiguous(t, kept)
    ensures |t.jobs| == kept
  {
    assert t.jobs.Keys == Interval(t.issued - kept, t.issued);
    IntervalSize(t.issued - kept, t.issued);
  }

  lemma StartKeeps(s: Service)
    requires Inv(s) && !Busy(s.table.jobs)
    ensures Inv(Step(s, Start))
  {
    hide Evicted;
    var t := s.table;
    var kept := Evicted(t.jobs);
    var size := if |t.jobs| == MAX_RETAINED_JOBS then MAX_RETAINED_JOBS / 2 else |t.jobs|;
    if |t.jobs| == MAX_RETAINED_JOBS {
      EvictionKeepsNewest(t);
    } else {
      NothingEvicted(t.jobs);
    }
    assert Contiguous(Table(t.issued, kept), size);
    assert forall id :: id in kept ==> !kept[id].Running?;
    NoneActive(s);
    SizeOf(Started(t), size + 1);
  }

  lemma NothingEvicted(jobs: map<nat, JobState>)
    requires |jobs| < MAX_RETAINED_JOBS
    ensures Evicted(jobs) == jobs
  {
  }

  lemma NoneActive(s: Service)
    requires Inv(s) && !Busy(s.table.jobs)
    ensures s.active == map[]
  {
    assert forall id :: id !in s.active;
  }

  lemma EndKeeps(s: Service, job: nat, result: JobState)
    requires Inv(s) && job in s.active && !result.Running?
    ensures Inv(EndJob(s, job, result))
  {
    var after := EndJob(s, job, result).table;
    assert after.jobs.Keys == s.table.jobs.Keys;
    assert |after.jobs| == |after.jobs.Keys| == |s.table.jobs.Keys|;
  }

  lemma StepKeeps(s: Service, l: Label)
    requires Inv(s)
    ensures Inv(Step(s, l))
  {
    match l
    case Start =>
      if !Busy(s.table.jobs) {
        StartKeeps(s);
      }
    case MakeDirectory(job, ok) =>
      if job in s.active {
        EndKeeps(s, job, Failed("could not create the destination"));
      }
    case Launch(job, ok) =>
      if job in s.active {
        EndKeeps(s, job, Failed("could not start the clone"));
      }
    case Work(job, outcome) =>
      if job in s.active && !outcome.Running? {
        EndKeeps(s, job, outcome);
      }
    case Panic(job) =>
  }

  lemma {:induction false} RunInv(labels: seq<Label>)
    ensures Inv(Run(labels))
  {
    if labels != [] {
      hide Inv, Step;
      RunInv(labels[..|labels| - 1]);
      StepKeeps(Run(labels[..|labels| - 1]), labels[|labels| - 1]);
    }
  }

  /**
    In every reachable state: at most one job runs, and a job runs exactly while the
    thread that claimed it is on its way or after it panicked; the table holds the last ids issued without a
    gap, at most 32 of them, and always the job just issued and the 16 before it.
   */
  lemma TableInvariant(labels: seq<Label>)
    ensures var s := Run(labels);
            && (forall x, y :: IsRunning(s.table, x) && IsRunning(s.table, y) ==> x == y)
            && (forall id :: id in s.table.jobs ==> (s.table.jobs[id].Running? <==> id in s.active))
            && |s.table.jobs| <= MAX_RETAINED_JOBS
            && Contiguous(s.table, |s.table.jobs|)
            && (forall id: nat :: 0 < id <= s.table.issued <= id + MAX_RETAINED_JOBS / 2 ==> id in s.table.jobs)
  {
    hide Run;
    RunInv(labels);
  }

  ghost predicate IsRunning(t: Table, job: nat) {
    job in t.jobs && t.jobs[job].Running?
  }

  lemma EvictedSpares(jobs: map<nat, JobState>)
    ensures forall id :: id in Evicted(jobs) ==> id in jobs && Evicted(jobs)[id] == jobs[id]
    ensures forall id :: id in jobs && jobs[id].Running? ==> id in Evicted(jobs)
  {
    WithoutTells(jobs, Oldest(jobs));
  }

  lemma ResultStep(s: Service, l: Label, job: nat)
    requires Inv(s) && job in s.table.jobs && !s.table.jobs[job].Running?
    ensures job in Step(s, l).table.jobs ==> Step(s, l).table.jobs[job] == s.table.jobs[job]
    ensures job !in Step(s, l).table.jobs ==> Step(s, l).table.issued > job + MAX_RETAINED_JOBS / 2
  {
    hide Evicted;
    EvictedSpares(s.table.jobs);
    StepKeeps(s, l);
    assert s.table.issued <= Step(s, l).table.issued;
  }

  /** A job's result, once recorded, never changes for as long as the job is remembered. */
  lemma {:induction false} ResultsAreFinal(labels: seq<Label>, k: nat, job: nat)
    requires k <= |labels|
    requires job in Run(labels[..k]).table.jobs && !Run(labels[..k]).table.jobs[job].Running?
    ensures job <= Run(labels).table.issued
    ensures job in Run(labels).table.jobs ==> Run(labels).table.jobs[job] == Run(labels[..k]).table.jobs[job]
    ensures job !in Run(labels).table.jobs ==> Run(labels).table.issued > job + MAX_RETAINED_JOBS / 2
  {
    hide Step;
    if k == |labels| {
      assert labels[..k] == labels;
      RunInv(labels);
    } else {
      var init, last := labels[..|labels| - 1], labels[|labels| - 1];
      assert init[..k] == labels[..k];
      ResultsAreFinal(init, k, job);
      RunInv(init);
      if job in Run(init).table.jobs {
        ResultStep(Run(init), last, job);
      }
      ForgottenStep(Run(init), last, job);
    }
  }

  /** A forgotten job stays forgotten. */
  lemma ForgottenStep(s: Service, l: Label, job: nat)
    requires Inv(s) && job <= s.table.issued
    ensures s.table.issued <= Step(s, l).table.issued
    ensures job !in s.table.jobs ==> job !in Step(s, l).table.jobs
  {
    hide Evicted;
    EvictedSpares(s.table.jobs);
  }

  /** What a thread's last step says of its job, if it is one. */
  ghost function Verdict(s: Service, l: Label, job: nat): Option<JobState> {
    if job !in s.active then None
    else match s.active[job]
      case Claiming =>
        if l == MakeDirectory(job, false) then Some(Failed("could not create the destination")) else None
      case Launching => if l == Launch(job, false) then Some(Failed("could not start the clone")) else None
      case Working => if l.Work? && l.job == job && !l.outcome.Running? then Some(l.outcome) else None
      case Panicked => None
  }

  /** What is remembered of a job is what its thread ended with, for as long as it is remembered. */
  lemma ResultIsTheThreads(labels: seq<Label>, k: nat, job: nat)
    requires k < |labels| && Verdict(Run(labels[..k]), labels[k], job).Some?
    ensures job in Run(labels).table.jobs ==>
              Run(labels).table.jobs[job] == Verdict(Run(labels[..k]), labels[k], job).value
  {
    hide Run;
    RunInv(labels[..k]);
    assert labels[..k + 1] == labels[..k] + [labels[k]];
    RunSnoc(labels[..k], labels[k]);
    ResultsAreFinal(labels, k + 1, job);
  }

  // ------------------------------------------------------- a runner that panics

  lemma PanickedStep(s: Service, l: Label, job: nat)
    requires Inv(s) && job in s.active && s.active[job].Panicked?
    ensures Step(s, l).table == s.table
    ensures job in Step(s, l).active && Step(s, l).active[job].Panicked?
  {
    hide Evicted;
    assert job == s.table.issued && job in s.table.jobs;
    assert Busy(s.table.jobs);
  }

  /** After a panic nothing changes any more: the job counts as running and every start is refused. */
  lemma {:induction false} StuckAfterPanic(labels: seq<Label>, k: nat, job: nat)
    requires k <= |labels| && job in Run(labels[..k]).active && Run(labels[..k]).active[job].Panicked?
    ensures job in Run(labels).active && Run(labels).active[job].Panicked?
    ensures Run(labels).table == Run(labels[..k]).table && Busy(Run(labels).table.jobs)
  {
    hide Step;
    RunInv(labels);
    if k == |labels| {
      assert labels[..k] == labels;
    } else {
      var init := labels[..|labels| - 1];
      assert init[..k] == labels[..k];
      StuckAfterPanic(init, k, job);
      RunInv(init);
      PanickedStep(Run(init), labels[|labels| - 1], job);
    }
    assert job in Run(labels).table.jobs && Run(labels).table.jobs[job].Running?;
  }

  /** A panic can happen: the run that gets there, and the start it refuses. */
  lemma PanicExample()
    ensures var labels := [Start, MakeDirectory(1, true), Launch(1, true), Panic(1)];
            && 1 in Run(labels).active && Run(labels).active[1].Panicked?
            && Step(Run(labels), Start) == Run(labels)
  {
    hide Run, Evicted;
    var labels := [Start, MakeDirectory(1, true), Launch(1, true), Panic(1)];
    EmptyRun();
    NothingEvicted(map[]);
    assert [] + labels[..1] == labels[..1] == [Start];
    RunSnoc([], Start);
    assert Run([Start]) == Service(Table(1, map[1 := Running]), map[1 := Claiming]);
    RunSnoc(labels[..1], MakeDirectory(1, true));
    assert labels[..1] + [MakeDirectory(1, true)] == labels[..2];
    RunSnoc(labels[..2], Launch(1, true));
    assert labels[..2] + [Launch(1, true)] == labels[..3];
    RunSnoc(labels[..3], Panic(1));
    assert labels[..3] + [Panic(1)] == labels;
    assert Run(labels).table.jobs[1].Running?;
  }

  lemma EmptyRun()
    ensures Run([]) == NEW_SERVICE
  {
  }

  /** Without one, the slot can always be free again: the thread under way has one more step to record its end. */
  lemma FreeWithoutPanic(labels: seq<Label>) returns (more: seq<Label>)
    requires forall job :: job in Run(labels).active ==> !Run(labels).active[job].Panicked?
    ensures !Busy(Run(labels + more).table.jobs)
  {
    hide Run;
    RunInv(labels);
    var s := Run(labels);
    var job := s.table.issued;
    if job !in s.active {
      more := [];
      assert labels + more == labels;
    } else {
      var last := match s.active[job]
        case Claiming => MakeDirectory(job, false)
        case Launching => Launch(job, false)
        case _ => Work(job, Done(""));
      more := [last];
      RunSnoc(labels, last);
      assert Step(s, last).active == map[];
      StepKeeps(s, last);
    }
  }

  lemma RunSnoc(labels: seq<Label>, l: Label)
    ensures Run(labels + [l]) == Step(Run(labels), l)
  {
    assert (labels + [l])[..|labels|] == labels;
  }
}
