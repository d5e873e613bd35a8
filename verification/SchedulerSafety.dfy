/** What every reachable state of `execute` keeps: each conjunct of the
    invariant is kept by every step of every thread. */
module SchedulerSafety {
  import opened Common
  import opened Graphs
  import opened Scheduler

  // ---- counters and pushers, one kind of job change at a time ----

  lemma WaitsKept<C>(p: Plan<C>, before: map<C, Job<C>>, after: map<C, Job<C>>)
    requires Linked(p) && before.Keys == after.Keys == p.deps.Keys
    requires forall b | b in p.deps :: Owed(p, before[b], b) == Owed(p, after[b], b)
    ensures forall d | d in p.deps :: Waits(p, after, d) == Waits(p, before, d)
  {
  }

  lemma CountersKept<C>(p: Plan<C>, left: map<C, int>, before: map<C, Job<C>>, after: map<C, Job<C>>)
    requires Linked(p) && left.Keys == before.Keys == after.Keys == p.deps.Keys
    requires forall b | b in p.deps :: Owed(p, before[b], b) == Owed(p, after[b], b)
    requires Counters(p, left, before)
    ensures Counters(p, left, after)
  {
    WaitsKept(p, before, after);
  }

  lemma AimersKept<C>(p: Plan<C>, before: map<C, Job<C>>, after: map<C, Job<C>>)
    requires before.Keys == after.Keys == p.deps.Keys
    requires forall b | b in p.deps :: Aim(before[b]) == Aim(after[b])
    ensures forall d | d in p.deps :: Aimers(p, after, d) == Aimers(p, before, d)
  {
  }

  lemma PushersKept<C>(p: Plan<C>, left: map<C, int>, before: map<C, Job<C>>, after: map<C, Job<C>>)
    requires p.dependents.Keys == left.Keys == before.Keys == after.Keys == p.deps.Keys
    requires forall b | b in p.deps :: Aim(before[b]) == Aim(after[b])
    requires forall d | d in p.deps :: (before[d] == NotPushed <==> after[d] == NotPushed) || (p.deps[d] == {} && left[d] == 0)
    requires Pushers(p, left, before)
    ensures Pushers(p, left, after)
  {
    AimersKept(p, before, after);
  }

  ghost predicate Active<C>(j: Job<C>)
  {
    !j.NotPushed? && !j.Pushing?
  }

  /** A task goes on without touching a counter: begin, read, write, succeed,
      fail, settle, finish. */
  lemma TaskGoesOn<C>(p: Plan<C>, left: map<C, int>, job: map<C, Job<C>>, c: C, j: Job<C>)
    requires Linked(p) && left.Keys == job.Keys == p.deps.Keys
    requires Counters(p, left, job) && Pushers(p, left, job)
    requires c in job && Active(job[c]) && Active(j) && Owed(p, job[c], c) == Owed(p, j, c)
    ensures Counters(p, left, job[c := j]) && Pushers(p, left, job[c := j])
  {
    CountersKept(p, left, job, job[c := j]);
    PushersKept(p, left, job, job[c := j]);
  }

  lemma SeedIsPushed<C>(p: Plan<C>, left: map<C, int>, job: map<C, Job<C>>, c: C)
    requires Linked(p) && left.Keys == job.Keys == p.deps.Keys
    requires Counters(p, left, job) && Pushers(p, left, job)
    requires c in job && job[c] == NotPushed && p.deps[c] == {}
    ensures Counters(p, left, job[c := Queued]) && Pushers(p, left, job[c := Queued])
  {
    assert left[c] == 0 by {
      assert Waits(p, job, c) == {};
    }
    CountersKept(p, left, job, job[c := Queued]);
    PushersKept(p, left, job, job[c := Queued]);
  }

  /** A dependency that is still owed keeps the counter above zero. */
  lemma OwedIsCounted<C>(p: Plan<C>, left: map<C, int>, job: map<C, Job<C>>, b: C, d: C)
    requires Linked(p) && left.Keys == job.Keys == p.deps.Keys && Counters(p, left, job)
    requires b in p.deps && d in Owed(p, job[b], b)
    ensures d in p.deps && b in p.deps[d] && b in Waits(p, job, d) && left[d] > 0
  {
    assert d in p.dependents[b];
    assert b in Waits(p, job, d);
  }

  /** A command that was pushed is owed by none of its dependencies. */
  lemma PushedIsNotOwed<C>(p: Plan<C>, left: map<C, int>, job: map<C, Job<C>>, b: C, d: C)
    requires Linked(p) && left.Keys == job.Keys == p.deps.Keys
    requires Counters(p, left, job) && Pushers(p, left, job)
    requires b in p.deps && d in p.deps && job[d] != NotPushed
    ensures d !in Owed(p, job[b], b)
    ensures b in p.deps[d] ==> Released(job[b])
  {
    if d in Owed(p, job[b], b) {
      OwedIsCounted(p, left, job, b, d);
    }
    if b in p.deps[d] {
      assert d in p.dependents[b];
    }
  }

  lemma WaitsDecremented<C>(p: Plan<C>, before: map<C, Job<C>>, after: map<C, Job<C>>, c: C, d: C)
    requires Linked(p) && before.Keys == after.Keys == p.deps.Keys && c in p.deps
    requires forall b | b in p.deps && b != c :: after[b] == before[b]
    requires Owed(p, after[c], c) == Owed(p, before[c], c) - {d}
    ensures forall e | e in p.deps ::
              Waits(p, after, e) == if e == d then Waits(p, before, e) - {c} else Waits(p, before, e)
  {
  }

  lemma DecrementKeepsCounters<C>(p: Plan<C>, left: map<C, int>, job: map<C, Job<C>>,
                                  left': map<C, int>, job': map<C, Job<C>>, c: C, d: C)
    requires Linked(p) && left.Keys == job.Keys == left'.Keys == job'.Keys == p.deps.Keys && Counters(p, left, job)
    requires c in job && d in Owed(p, job[c], c)
    requires forall b | b in p.deps && b != c :: job'[b] == job[b]
    requires forall b | b in p.deps && b != d :: left'[b] == left[b]
    requires d in left' && left'[d] == left[d] - 1
    requires Owed(p, job'[c], c) == Owed(p, job[c], c) - {d}
    ensures Counters(p, left', job')
  {
    OwedIsCounted(p, left, job, c, d);
    WaitsDecremented(p, job, job', c, d);
    forall e | e in p.deps
      ensures left'[e] == |Waits(p, job', e)|
    {
      assert left[e] == |Waits(p, job, e)|;
    }
  }

  lemma AimersGained<C>(p: Plan<C>, before: map<C, Job<C>>, after: map<C, Job<C>>, c: C, aim: set<C>)
    requires before.Keys == after.Keys == p.deps.Keys && c in p.deps
    requires forall b | b in p.deps && b != c :: Aim(after[b]) == Aim(before[b])
    requires Aim(before[c]) == {} && Aim(after[c]) == aim
    ensures forall e | e in p.deps ::
              Aimers(p, after, e) == if e in aim then Aimers(p, before, e) + {c} else Aimers(p, before, e)
  {
  }

  lemma AimersAfterDecrement<C>(p: Plan<C>, left: map<C, int>, job: map<C, Job<C>>,
                                left': map<C, int>, job': map<C, Job<C>>, c: C, d: C)
    requires left.Keys == job.Keys == left'.Keys == job'.Keys == p.deps.Keys == p.dependents.Keys && Pushers(p, left, job)
    requires c in job && d in job && d in p.dependents[c] && p.deps[d] != {} && left[d] > 0
    requires forall b | b in p.deps && b != c :: job'[b] == job[b]
    requires forall b | b in p.deps && b != d :: left'[b] == left[b]
    requires left'[d] == left[d] - 1
    requires job[c] != NotPushed && job'[c] != NotPushed
    requires Aim(job[c]) == {} && Aim(job'[c]) == if left[d] == 1 then {d} else {}
    ensures forall e {:trigger Aimers(p, job', e)} | e in p.deps ::
              |Aimers(p, job', e)| == if p.deps[e] != {} && left'[e] == 0 && job'[e] == NotPushed then 1 else 0
  {
    assert job[d] == NotPushed && d != c;
    AimersGained(p, job, job', c, Aim(job'[c]));
    forall e | e in p.deps
      ensures |Aimers(p, job', e)| == if p.deps[e] != {} && left'[e] == 0 && job'[e] == NotPushed then 1 else 0
    {
      if e == d {
        OneAimerMore(p, left, job, job', c, d);
      }
    }
  }

  lemma DecrementKeepsPushers<C>(p: Plan<C>, left: map<C, int>, job: map<C, Job<C>>,
                                 left': map<C, int>, job': map<C, Job<C>>, c: C, d: C)
    requires left.Keys == job.Keys == left'.Keys == job'.Keys == p.deps.Keys == p.dependents.Keys && Pushers(p, left, job)
    requires c in job && d in job && d in p.dependents[c] && p.deps[d] != {} && left[d] > 0
    requires forall b | b in p.deps && b != c :: job'[b] == job[b]
    requires forall b | b in p.deps && b != d :: left'[b] == left[b]
    requires left'[d] == left[d] - 1
    requires job[c] != NotPushed && job'[c] != NotPushed
    requires Aim(job[c]) == {} && Aim(job'[c]) == if left[d] == 1 then {d} else {}
    ensures Pushers(p, left', job')
  {
    assert job[d] == NotPushed && d != c;
    AimersAfterDecrement(p, left, job, left', job', c, d);
  }

  lemma OneAimerMore<C>(p: Plan<C>, left: map<C, int>, job: map<C, Job<C>>, job': map<C, Job<C>>, c: C, d: C)
    requires left.Keys == job.Keys == job'.Keys == p.deps.Keys == p.dependents.Keys && Pushers(p, left, job)
    requires c in job && d in job && left[d] > 0
    requires Aimers(p, job', d) == if left[d] == 1 then Aimers(p, job, d) + {c} else Aimers(p, job, d)
    ensures |Aimers(p, job', d)| == if left[d] == 1 then 1 else 0
  {
    assert |Aimers(p, job, d)| == 0;
    assert Aimers(p, job', d) == if left[d] == 1 then {c} else {};
  }

  /** What a task aims at is unpushed, and nobody else aims at it. */
  lemma AimIsUnique<C>(p: Plan<C>, left: map<C, int>, job: map<C, Job<C>>, c: C, d: C)
    requires left.Keys == job.Keys == p.deps.Keys == p.dependents.Keys && Pushers(p, left, job)
    requires c in job && d in job && d in Aim(job[c])
    ensures job[d] == NotPushed && left[d] == 0 && Aimers(p, job, d) == {c}
  {
    assert c in Aimers(p, job, d);
    SubsetCardinality({c}, Aimers(p, job, d));
  }

  lemma AimersLost<C>(p: Plan<C>, before: map<C, Job<C>>, after: map<C, Job<C>>, c: C, d: C)
    requires before.Keys == after.Keys == p.deps.Keys && c in p.deps
    requires forall b | b in p.deps && b != c :: Aim(after[b]) == Aim(before[b])
    requires Aim(before[c]) == {d} && Aim(after[c]) == {}
    ensures forall e | e in p.deps ::
              Aimers(p, after, e) == if e == d then Aimers(p, before, e) - {c} else Aimers(p, before, e)
  {
  }

  lemma AimersPushed<C>(p: Plan<C>, job: map<C, Job<C>>, job': map<C, Job<C>>, c: C, d: C)
    requires job.Keys == job'.Keys == p.deps.Keys
    requires c in job && d in job && c != d && Aim(job[c]) == {d} && Aimers(p, job, d) == {c}
    requires forall b | b in p.deps && b != c && b != d :: job'[b] == job[b]
    requires job[c] != NotPushed && job'[c] != NotPushed && Aim(job'[c]) == {}
    requires job[d] == NotPushed && job'[d] == Queued
    ensures Aimers(p, job', d) == {}
    ensures forall e | e in p.deps && e != d ::
              Aimers(p, job', e) == Aimers(p, job, e) && (job'[e] == NotPushed <==> job[e] == NotPushed)
  {
    AimersLost(p, job, job', c, d);
  }

  lemma PushKeepsPushers<C>(p: Plan<C>, left: map<C, int>, job: map<C, Job<C>>, job': map<C, Job<C>>, c: C, d: C)
    requires left.Keys == job.Keys == job'.Keys == p.deps.Keys == p.dependents.Keys && Pushers(p, left, job)
    requires c in job && d in job && c != d && Aim(job[c]) == {d} && Aimers(p, job, d) == {c} && left[d] == 0
    requires forall b | b in p.deps && b != c && b != d :: job'[b] == job[b]
    requires job[c] != NotPushed && job'[c] != NotPushed && Aim(job'[c]) == {}
    requires job[d] == NotPushed && job'[d] == Queued
    ensures Pushers(p, left, job')
  {
    AimersPushed(p, job, job', c, d);
    AimersAfterPush(p, left, job, job', d);
  }

  lemma AimersAfterPush<C>(p: Plan<C>, left: map<C, int>, job: map<C, Job<C>>, job': map<C, Job<C>>, d: C)
    requires left.Keys == job.Keys == job'.Keys == p.deps.Keys == p.dependents.Keys && Pushers(p, left, job)
    requires d in p.deps && Aimers(p, job', d) == {} && job'[d] != NotPushed
    requires forall e | e in p.deps && e != d ::
               Aimers(p, job', e) == Aimers(p, job, e) && (job'[e] == NotPushed <==> job[e] == NotPushed)
    ensures forall e {:trigger Aimers(p, job', e)} | e in p.deps ::
              |Aimers(p, job', e)| == if p.deps[e] != {} && left[e] == 0 && job'[e] == NotPushed then 1 else 0
  {
    forall e | e in p.deps
      ensures |Aimers(p, job', e)| == if p.deps[e] != {} && left[e] == 0 && job'[e] == NotPushed then 1 else 0
    {
      if e != d { assert |Aimers(p, job, e)| == if p.deps[e] != {} && left[e] == 0 && job[e] == NotPushed then 1 else 0; }
    }
  }

  lemma ReleaseStep<C>(p: Plan<C>, left: map<C, int>, job: map<C, Job<C>>, c: C, d: C, j: Job<C>)
    requires Linked(p) && left.Keys == job.Keys == p.deps.Keys && Counters(p, left, job) && Pushers(p, left, job)
    requires c in job && job[c].Releasing? && d in job[c].todo && d in left
    requires j == if left[d] == 1 then Pushing(job[c].ok, job[c].todo - {d}, d)
                  else Releasing(job[c].ok, job[c].todo - {d})
    ensures Counters(p, left[d := left[d] - 1], job[c := j]) && Pushers(p, left[d := left[d] - 1], job[c := j])
  {
    assert d in Owed(p, job[c], c);
    OwedIsCounted(p, left, job, c, d);
    DecrementKeepsCounters(p, left, job, left[d := left[d] - 1], job[c := j], c, d);
    DecrementKeepsPushers(p, left, job, left[d := left[d] - 1], job[c := j], c, d);
  }

  lemma PushStep<C>(p: Plan<C>, left: map<C, int>, job: map<C, Job<C>>, c: C, d: C)
    requires Linked(p) && left.Keys == job.Keys == p.deps.Keys && Counters(p, left, job) && Pushers(p, left, job)
    requires c in job && job[c].Pushing? && d == job[c].next && d in job
    ensures Counters(p, left, job[c := Releasing(job[c].ok, job[c].todo)][d := Queued])
    ensures Pushers(p, left, job[c := Releasing(job[c].ok, job[c].todo)][d := Queued])
    ensures job[d] == NotPushed
  {
    var job' := job[c := Releasing(job[c].ok, job[c].todo)][d := Queued];
    AimIsUnique(p, left, job, c, d);
    PushKeepsPushers(p, left, job, job', c, d);
    CountersKept(p, left, job, job');
  }


  // ---- the steps by what they change ----

  ghost predicate SameQueueFields<C>(s: State<C>, s': State<C>)
  {
    s'.all == s.all && s'.pending == s.pending && s'.main == s.main && s'.waited == s.waited
  }

  /** What a step of the task of `c` changes and keeps. */
  ghost predicate GoesOn<C>(p: Plan<C>, cfg: Config, s: State<C>, c: C, s': State<C>)
    requires Sized(p, s)
  {
    && c in s.job && c in s'.job
    && s'.left == s.left && s'.job == s.job[c := s'.job[c]] && SameQueueFields(s, s')
    && s'.interrupted == s.interrupted && (s.stopped ==> s'.stopped)
    && Active(s.job[c]) && Active(s'.job[c]) && !s.job[c].Done? && Stage(s.job[c]) <= Stage(s'.job[c])
    && Owed(p, s.job[c], c) == Owed(p, s'.job[c], c)
    && (cfg.throwOnErrors && (Released(s.job[c]) ==> RanOk(s.job[c])) && Released(s'.job[c]) ==> RanOk(s'.job[c]))
    && (!cfg.throwOnErrors ==> s'.job[c] != Done(Threw))
    && (s'.job[c] == Done(Skipped) ==> s'.stopped || s'.interrupted)
  }

  /** ... and when the command neither fails nor settles a failure. */
  ghost predicate FailsNoMore<C>(cfg: Config, s: State<C>, c: C, s': State<C>)
  {
    && c in s.job && c in s'.job && (Failed(s'.job[c]) <==> Failed(s.job[c]))
    && !s.job[c].Failing? && !s'.job[c].Failing?
    && s'.errorsLeft == s.errorsLeft && (s'.stopped == s.stopped || (s'.stopped && cfg.timeLimit))
  }

  lemma BeginGoesOn<C>(p: Plan<C>, cfg: Config, s: State<C>, c: C, s': State<C>)
    requires Sized(p, s) && Begins(s, c, s')
    ensures GoesOn(p, cfg, s, c, s') && FailsNoMore(cfg, s, c, s')
  {
  }

  lemma ReadGoesOn<C>(p: Plan<C>, cfg: Config, s: State<C>, c: C, q: Path, s': State<C>)
    requires Sized(p, s) && Reads(p, s, c, q, s')
    ensures GoesOn(p, cfg, s, c, s') && FailsNoMore(cfg, s, c, s')
  {
  }

  lemma WriteGoesOn<C>(p: Plan<C>, cfg: Config, s: State<C>, c: C, q: Path, s': State<C>)
    requires Sized(p, s) && Writes(p, s, c, q, s')
    ensures GoesOn(p, cfg, s, c, s') && FailsNoMore(cfg, s, c, s')
  {
  }

  lemma ReuseGoesOn<C>(p: Plan<C>, cfg: Config, s: State<C>, c: C, s': State<C>)
    requires Sized(p, s) && Reuses(p, s, c, s')
    ensures GoesOn(p, cfg, s, c, s') && FailsNoMore(cfg, s, c, s')
  {
  }

  lemma SuccessGoesOn<C>(p: Plan<C>, cfg: Config, s: State<C>, c: C, s': State<C>)
    requires Sized(p, s) && Succeeds(p, s, c, s')
    ensures GoesOn(p, cfg, s, c, s') && FailsNoMore(cfg, s, c, s')
  {
  }

  lemma FailureGoesOn<C>(p: Plan<C>, cfg: Config, s: State<C>, c: C, garbage: Disk, s': State<C>)
    requires Sized(p, s) && Fails(p, s, c, garbage, s')
    ensures GoesOn(p, cfg, s, c, s')
  {
  }

  lemma SettlingGoesOn<C>(p: Plan<C>, cfg: Config, s: State<C>, c: C, s': State<C>)
    requires Sized(p, s) && Settles(p, cfg, s, c, s')
    ensures GoesOn(p, cfg, s, c, s')
  {
  }

  lemma FinishGoesOn<C>(p: Plan<C>, cfg: Config, s: State<C>, c: C, late: bool, s': State<C>)
    requires Sized(p, s) && Finishes(cfg, s, c, late, s')
    ensures GoesOn(p, cfg, s, c, s') && FailsNoMore(cfg, s, c, s')
  {
  }

  lemma ContinuingTask<C>(p: Plan<C>, cfg: Config, s: State<C>, l: Label<C>, s': State<C>)
    requires Sized(p, s) && TaskNext(p, cfg, s, l, s')
    ensures GoesOn(p, cfg, s, l.c, s')
    ensures !l.Fail? && !l.Settle? ==> FailsNoMore(cfg, s, l.c, s')
    ensures l.Begin? ==> Stage(s.job[l.c]) == 1 < Stage(s'.job[l.c])
  {
    match l
    case Begin(c) => BeginGoesOn(p, cfg, s, c, s');
    case Read(c, q) => ReadGoesOn(p, cfg, s, c, q, s');
    case Write(c, q) => WriteGoesOn(p, cfg, s, c, q, s');
    case Reuse(c) => ReuseGoesOn(p, cfg, s, c, s');
    case Succeed(c) => SuccessGoesOn(p, cfg, s, c, s');
    case Fail(c, garbage) => FailureGoesOn(p, cfg, s, c, garbage, s');
    case Settle(c) => SettlingGoesOn(p, cfg, s, c, s');
    case Finish(c, late) => FinishGoesOn(p, cfg, s, c, late, s');
  }

  lemma LoopingMain<C>(p: Plan<C>, cfg: Config, s: State<C>, l: Label<C>, s': State<C>)
    requires Sized(p, s) && LoopNext(p, cfg, s, l, s')
    ensures s'.left == s.left && s'.job == s.job && s'.all == s.all
    ensures s'.stopped == s.stopped && s'.interrupted == s.interrupted && s'.errorsLeft == s.errorsLeft
    ensures s'.disk == s.disk
    ensures !s.main.Seeding? && !s'.main.Seeding?
  {
  }

  lemma SizedStep<C>(p: Plan<C>, cfg: Config, s: State<C>, l: Label<C>, s': State<C>)
    requires Sized(p, s) && Next(p, cfg, s, l, s')
    ensures Sized(p, s')
  {
    if Continues(l) {
      ContinuingTask(p, cfg, s, l, s');
      SizedTask(p, cfg, s, l.c, s');
    } else if Loops(l) {
      SizedLoop(p, cfg, s, l, s');
    } else {
      SizedPush(p, cfg, s, l, s');
    }
  }

  lemma SizedTask<C>(p: Plan<C>, cfg: Config, s: State<C>, c: C, s': State<C>)
    requires Sized(p, s) && GoesOn(p, cfg, s, c, s')
    ensures Sized(p, s')
  {
  }

  lemma SizedLoop<C>(p: Plan<C>, cfg: Config, s: State<C>, l: Label<C>, s': State<C>)
    requires Sized(p, s) && LoopNext(p, cfg, s, l, s')
    ensures Sized(p, s')
  {
  }

  lemma SizedPush<C>(p: Plan<C>, cfg: Config, s: State<C>, l: Label<C>, s': State<C>)
    requires Sized(p, s) && PushNext(p, s, l, s')
    ensures Sized(p, s')
  {
  }

  lemma CountersContinue<C>(p: Plan<C>, cfg: Config, s: State<C>, l: Label<C>, s': State<C>)
    requires Linked(p) && Sized(p, s) && Counters(p, s.left, s.job) && Pushers(p, s.left, s.job)
    requires TaskNext(p, cfg, s, l, s') && Sized(p, s')
    ensures Counters(p, s'.left, s'.job) && Pushers(p, s'.left, s'.job)
  {
    ContinuingTask(p, cfg, s, l, s');
    TaskGoesOn(p, s.left, s.job, l.c, s'.job[l.c]);
  }

  lemma CountersPush<C>(p: Plan<C>, s: State<C>, c: C, s': State<C>)
    requires Linked(p) && Sized(p, s) && Counters(p, s.left, s.job) && Pushers(p, s.left, s.job)
    requires PushesNext(s, c, s') && Sized(p, s')
    ensures Counters(p, s'.left, s'.job) && Pushers(p, s'.left, s'.job)
    ensures s.job[s.job[c].next] == NotPushed
  {
    PushStep(p, s.left, s.job, c, s.job[c].next);
  }

  lemma CountersSeed<C>(p: Plan<C>, s: State<C>, s': State<C>)
    requires Linked(p) && Sized(p, s) && Counters(p, s.left, s.job) && Pushers(p, s.left, s.job)
    requires SeedsOne(p, s, s') && Sized(p, s') && s.job[p.order[s.main.k]] == NotPushed
    ensures Counters(p, s'.left, s'.job) && Pushers(p, s'.left, s'.job)
  {
    SeedIsPushed(p, s.left, s.job, p.order[s.main.k]);
  }

  lemma CountersRelease<C>(p: Plan<C>, s: State<C>, c: C, d: C, s': State<C>)
    requires Linked(p) && Sized(p, s) && Counters(p, s.left, s.job) && Pushers(p, s.left, s.job)
    requires Releases(s, c, d, s') && Sized(p, s')
    ensures Counters(p, s'.left, s'.job) && Pushers(p, s'.left, s'.job)
  {
    ReleaseStep(p, s.left, s.job, c, d, s'.job[c]);
  }

  lemma CountersStep<C>(p: Plan<C>, cfg: Config, s: State<C>, l: Label<C>, s': State<C>)
    requires Linked(p) && Sized(p, s) && Counters(p, s.left, s.job) && Pushers(p, s.left, s.job)
    requires Next(p, cfg, s, l, s') && Sized(p, s')
    requires l.SeedOne? && s.main.Seeding? && s.main.k < |p.order| ==> s.job[p.order[s.main.k]] == NotPushed
    ensures Counters(p, s'.left, s'.job) && Pushers(p, s'.left, s'.job)
  {
    if Continues(l) {
      CountersContinue(p, cfg, s, l, s');
    } else if Loops(l) {
      LoopingMain(p, cfg, s, l, s');
    } else {
      match l
      case SeedOne => CountersSeed(p, s, s');
      case Release(c, d) => CountersRelease(p, s, c, d, s');
      case Push(c) => CountersPush(p, s, c, s');
      case _ =>
    }
  }

  // ---- seeding and the queue of futures ----

  /** In a topological order the first command depends on nothing, so the sorted
      order starts with such a command. */
  lemma FirstIsIndependent<C>(p: Plan<C>)
    requires WellFormed(p) && p.order != []
    ensures p.deps[p.order[0]] == {}
  {
    assert p.order[0] in Elements(p.found);
    assert p.found != [] && p.found[0] in Elements(p.order);
    var c := p.found[0];
    assert p.found[..0] == [];
    assert forall d | d in p.deps[c] :: d in p.deps && d in p.found[..0];
    assert p.deps[c] == {};
    var i :| 0 <= i < |p.order| && p.order[i] == c;
  }

  ghost predicate SameQueue<C>(s: State<C>, s': State<C>)
  {
    && SameQueueFields(s, s')
    && s'.job.Keys == s.job.Keys
    && (forall c | c in s.job :: s'.job[c] == NotPushed <==> s.job[c] == NotPushed)
    && (forall c | c in s.job && s.job[c].Done? :: s'.job[c] == s.job[c])
  }

  lemma SameQueueStep<C>(p: Plan<C>, cfg: Config, s: State<C>, l: Label<C>, s': State<C>)
    requires Sized(p, s) && Next(p, cfg, s, l, s') && (Continues(l) || l.Release? || l.Interrupt?)
    ensures SameQueue(s, s')
  {
    if Continues(l) {
      ContinuingTask(p, cfg, s, l, s');
      SameQueueOfTask(p, cfg, s, l.c, s');
    }
  }

  lemma SameQueueOfTask<C>(p: Plan<C>, cfg: Config, s: State<C>, c: C, s': State<C>)
    requires Sized(p, s) && GoesOn(p, cfg, s, c, s')
    ensures SameQueue(s, s')
  {
  }

  lemma SeedingEnds<C>(p: Plan<C>, s: State<C>)
    requires Linked(p) && Ordered(p) && Sized(p, s) && Seeded(p, s) && Queue(p, s)
    requires p.order != [] && p.deps[p.order[0]] == {}
    requires s.main.Seeding? && (s.main.k < |p.order| ==> p.deps[p.order[s.main.k]] != {})
    ensures s.pending != []
    ensures forall d | d in p.deps && p.deps[d] == {} :: s.job[d] != NotPushed
  {
    var k := s.main.k;
    forall d | d in p.deps && p.deps[d] == {}
      ensures s.job[d] != NotPushed
    {
      assert d in Elements(p.order);
      var i :| 0 <= i < |p.order| && p.order[i] == d;
      assert i < k;
      assert p.order[..k][i] == d;
      assert d in s.all;
    }
  }

  lemma SeedIsNew<C>(p: Plan<C>, s: State<C>)
    requires Linked(p) && Ordered(p) && Sized(p, s) && Seeded(p, s) && Queue(p, s)
    requires s.main.Seeding? && s.main.k < |p.order|
    ensures p.order[s.main.k] !in s.all && s.job[p.order[s.main.k]] == NotPushed
  {
    var k := s.main.k;
    forall i | 0 <= i < k
      ensures p.order[..k][i] != p.order[k]
    {
      assert p.order[..k][i] == p.order[i];
    }
  }

  lemma SeededSameQueue<C>(p: Plan<C>, s: State<C>, s': State<C>)
    requires Linked(p) && Sized(p, s) && Sized(p, s') && Seeded(p, s) && SameQueue(s, s')
    ensures Seeded(p, s')
  {
  }

  lemma SeededSeedOne<C>(p: Plan<C>, s: State<C>, s': State<C>)
    requires Linked(p) && Sized(p, s) && Sized(p, s') && Seeded(p, s) && SeedsOne(p, s, s')
    ensures Seeded(p, s')
  {
    assert p.order[..s.main.k + 1] == p.order[..s.main.k] + [p.order[s.main.k]];
  }

  lemma SeededPush<C>(p: Plan<C>, s: State<C>, c: C, s': State<C>)
    requires Linked(p) && Sized(p, s) && Sized(p, s') && Seeded(p, s) && PushesNext(s, c, s')
    ensures Seeded(p, s')
  {
  }

  lemma SeededStep<C>(p: Plan<C>, cfg: Config, s: State<C>, l: Label<C>, s': State<C>)
    requires Linked(p) && Ordered(p) && Sized(p, s) && Seeded(p, s) && Queue(p, s)
    requires p.order != [] ==> p.deps[p.order[0]] == {}
    requires Next(p, cfg, s, l, s') && Sized(p, s')
    ensures Seeded(p, s')
  {
    if Continues(l) || l.Release? || l.Interrupt? {
      SameQueueStep(p, cfg, s, l, s');
      SeededSameQueue(p, s, s');
    } else if Loops(l) {
      LoopingMain(p, cfg, s, l, s');
    } else {
      SeededPushing(p, cfg, s, l, s');
    }
  }

  lemma SeededPushing<C>(p: Plan<C>, cfg: Config, s: State<C>, l: Label<C>, s': State<C>)
    requires Linked(p) && Ordered(p) && Sized(p, s) && Seeded(p, s) && Queue(p, s)
    requires p.order != [] ==> p.deps[p.order[0]] == {}
    requires PushNext(p, s, l, s') && Sized(p, s') && (l.SeedStop? || l.SeedOne? || l.Push?)
    ensures Seeded(p, s')
  {
    match l
    case SeedStop => SeedingEnds(p, s);
    case SeedOne => SeededSeedOne(p, s, s');
    case Push(c) => SeededPush(p, s, c, s');
  }

  lemma QueueSameQueue<C>(p: Plan<C>, s: State<C>, s': State<C>)
    requires Linked(p) && Sized(p, s) && Sized(p, s') && Queue(p, s) && SameQueue(s, s')
    ensures Queue(p, s')
  {
  }

  lemma QueueSeed<C>(p: Plan<C>, s: State<C>, s': State<C>)
    requires Linked(p) && Sized(p, s) && Sized(p, s') && Queue(p, s) && Seeded(p, s) && SeedsOne(p, s, s')
    requires p.order[s.main.k] !in s.all
    ensures Queue(p, s')
  {
    AppendFresh(s.all, p.order[s.main.k]);
  }

  lemma SuffixGrows<T>(s: seq<T>, from: nat, x: T)
    requires from <= |s|
    ensures (s + [x])[from..] == s[from..] + [x]
  {
  }

  lemma Associative<T>(a: seq<T>, b: seq<T>, c: seq<T>)
    ensures a + b + c == a + (b + c)
  {
  }

  lemma PushedIsQueued<C>(p: Plan<C>, s: State<C>, c: C, s': State<C>)
    requires Linked(p) && Sized(p, s) && Sized(p, s') && Queue(p, s) && PushesNext(s, c, s')
    requires s.job[s.job[c].next] == NotPushed
    ensures NoDuplicates(s'.all) && s.waited < |s.all|
    ensures forall e | e in p.deps :: s'.job[e] != NotPushed <==> e in s'.all
    ensures forall i | 0 <= i < s.waited :: s'.job[s'.all[i]].Done?
  {
    AppendFresh(s.all, s.job[c].next);
    assert c in s.all && !s.job[c].Done?;
    forall i | 0 <= i < s.waited
      ensures s'.job[s'.all[i]].Done?
    {
      assert s'.all[i] == s.all[i] && s.job[s.all[i]].Done?;
    }
  }

  lemma QueuePush<C>(p: Plan<C>, s: State<C>, c: C, s': State<C>)
    requires Linked(p) && Sized(p, s) && Sized(p, s') && Queue(p, s) && PushesNext(s, c, s')
    requires s.job[s.job[c].next] == NotPushed
    ensures Queue(p, s')
  {
    var d := s.job[c].next;
    PushedIsQueued(p, s, c, s');
    match s.main
    case Waiting(batch, k) =>
      SuffixGrows(s.all, s.waited - k, d);
      Associative(batch, s.pending, [d]);
    case _ =>
      SuffixGrows(s.all, s.waited, d);
  }

  lemma QueueSeedStop<C>(p: Plan<C>, s: State<C>, s': State<C>)
    requires Linked(p) && Sized(p, s) && Sized(p, s') && Queue(p, s) && Seeded(p, s) && StopsSeeding(p, s, s')
    ensures Queue(p, s')
  {
  }

  lemma QueueWait<C>(p: Plan<C>, s: State<C>, s': State<C>)
    requires Linked(p) && Sized(p, s) && Sized(p, s') && Queue(p, s) && WaitsForOne(p, s, s')
    ensures Queue(p, s')
  {
    var from := s.waited - s.main.k;
    assert |s.all[from..]| == |s.main.batch| + |s.pending|;
    assert s.all[from..][s.main.k] == s.all[s.waited];
    assert s.main.batch[s.main.k] == s.all[s.waited];
  }

  lemma QueueEndOfBatch<C>(p: Plan<C>, s: State<C>, s': State<C>)
    requires Linked(p) && Sized(p, s) && Sized(p, s') && Queue(p, s) && EndsBatch(s, s')
    ensures Queue(p, s')
  {
    var from := s.waited - s.main.k;
    assert s.all[from..][s.main.k..] == s.all[s.waited..];
    assert (s.main.batch + s.pending)[s.main.k..] == s.pending;
  }

  lemma QueueLoop<C>(p: Plan<C>, cfg: Config, s: State<C>, l: Label<C>, s': State<C>)
    requires Linked(p) && Sized(p, s) && Sized(p, s') && Queue(p, s) && LoopNext(p, cfg, s, l, s')
    ensures Queue(p, s')
  {
    match l
    case WaitOne => QueueWait(p, s, s');
    case EndBatch => QueueEndOfBatch(p, s, s');
    case Snapshot => assert [] + s.pending == s.pending && s.pending + [] == s.pending;
    case Leave =>
    case Gather(_) =>
  }

  lemma QueueStep<C>(p: Plan<C>, cfg: Config, s: State<C>, l: Label<C>, s': State<C>)
    requires Linked(p) && Ordered(p) && Sized(p, s) && Seeded(p, s) && Queue(p, s)
    requires Counters(p, s.left, s.job) && Pushers(p, s.left, s.job)
    requires Next(p, cfg, s, l, s') && Sized(p, s')
    ensures Queue(p, s')
  {
    if Continues(l) || l.Release? || l.Interrupt? {
      SameQueueStep(p, cfg, s, l, s');
      QueueSameQueue(p, s, s');
    } else if Loops(l) {
      QueueLoop(p, cfg, s, l, s');
    } else {
      QueuePushing(p, cfg, s, l, s');
    }
  }

  lemma QueuePushing<C>(p: Plan<C>, cfg: Config, s: State<C>, l: Label<C>, s': State<C>)
    requires Linked(p) && Ordered(p) && Sized(p, s) && Seeded(p, s) && Queue(p, s) && Pushers(p, s.left, s.job)
    requires PushNext(p, s, l, s') && Sized(p, s') && (l.SeedOne? || l.SeedStop? || l.Push?)
    ensures Queue(p, s')
  {
    match l
    case SeedOne => SeedIsNew(p, s); QueueSeed(p, s, s');
    case SeedStop => QueueSeedStop(p, s, s');
    case Push(c) => AimIsUnique(p, s.left, s.job, c, s.job[c].next); QueuePush(p, s, c, s');
  }

  // ---- failures ----

  lemma FailedSetKept<C>(s: State<C>, s': State<C>)
    requires s.job.Keys == s'.job.Keys
    requires forall c | c in s.job :: Failed(s'.job[c]) <==> Failed(s.job[c])
    ensures FailedSet(s') == FailedSet(s)
  {
  }

  /** No task fails or settles; the plan is stopped, if at all, by the time limit. */
  lemma ErrorsSame<C>(p: Plan<C>, cfg: Config, s: State<C>, s': State<C>)
    requires Sized(p, s) && Sized(p, s') && Errors(p, cfg, s)
    requires forall c | c in s.job :: Failed(s'.job[c]) <==> Failed(s.job[c])
    requires forall c | c in s.job :: s.job[c].Failing? || s'.job[c].Failing? ==> s'.job[c] == s.job[c]
    requires s'.errorsLeft == s.errorsLeft && (s'.stopped == s.stopped || (s'.stopped && cfg.timeLimit))
    ensures Errors(p, cfg, s')
  {
    FailedSetKept(s, s');
  }

  lemma ErrorsFail<C>(p: Plan<C>, cfg: Config, s: State<C>, c: C, garbage: Disk, s': State<C>)
    requires Sized(p, s) && Sized(p, s') && Errors(p, cfg, s) && Fails(p, s, c, garbage, s')
    ensures Errors(p, cfg, s')
  {
    assert FailedSet(s') == FailedSet(s) + {c};
    assert c !in FailedSet(s);
    assert s'.job[c].Failing?;
    if |FailedSet(s')| >= Threshold(cfg) {
      assert s'.job[c].errorsLeft < 1;
    }
  }

  lemma ErrorsSettle<C>(p: Plan<C>, cfg: Config, s: State<C>, c: C, s': State<C>)
    requires Sized(p, s) && Sized(p, s') && Errors(p, cfg, s) && Settles(p, cfg, s, c, s')
    ensures Errors(p, cfg, s')
  {
    FailedSetKept(s, s');
    if |FailedSet(s')| >= Threshold(cfg) && !s'.stopped {
      var d :| d in p.deps && s.job[d].Failing? && s.job[d].errorsLeft < 1;
      assert d != c && s'.job[d] == s.job[d];
    }
  }

  lemma ErrorsOneJob<C>(p: Plan<C>, cfg: Config, s: State<C>, c: C, s': State<C>)
    requires Sized(p, s) && Sized(p, s') && Errors(p, cfg, s) && GoesOn(p, cfg, s, c, s') && FailsNoMore(cfg, s, c, s')
    ensures Errors(p, cfg, s')
  {
    ErrorsSame(p, cfg, s, s');
  }

  lemma ErrorsContinue<C>(p: Plan<C>, cfg: Config, s: State<C>, l: Label<C>, s': State<C>)
    requires Sized(p, s) && Sized(p, s') && Errors(p, cfg, s)
    requires TaskNext(p, cfg, s, l, s')
    ensures Errors(p, cfg, s')
  {
    if l.Fail? {
      ErrorsFail(p, cfg, s, l.c, l.garbage, s');
    } else if l.Settle? {
      ErrorsSettle(p, cfg, s, l.c, s');
    } else {
      ContinuingTask(p, cfg, s, l, s');
      ErrorsOneJob(p, cfg, s, l.c, s');
    }
  }

  ghost predicate Steady<C>(j: Job<C>)
  {
    j.Running? || j.Failing? || j.Done?
  }

  /** Nobody fails, ends, or starts to let dependents go. */
  ghost predicate Gentle<C>(s: State<C>, s': State<C>)
  {
    && s'.job.Keys == s.job.Keys && s'.errorsLeft == s.errorsLeft && s'.stopped == s.stopped
    && (s.interrupted ==> s'.interrupted)
    && (forall c | c in s.job ::
          && (Failed(s'.job[c]) <==> Failed(s.job[c])) && (RanOk(s'.job[c]) <==> RanOk(s.job[c]))
          && (Released(s'.job[c]) <==> Released(s.job[c]))
          && (Stage(s.job[c]) <= Stage(s'.job[c]))
          && (Steady(s.job[c]) || Steady(s'.job[c]) ==> s'.job[c] == s.job[c]))
  }

  lemma GentleRelease<C>(s: State<C>, c: C, d: C, s': State<C>)
    requires Releases(s, c, d, s')
    ensures Gentle(s, s')
  {
  }

  lemma GentlePush<C>(s: State<C>, c: C, s': State<C>)
    requires PushesNext(s, c, s') && s.job[s.job[c].next] == NotPushed
    ensures Gentle(s, s')
  {
  }

  lemma GentleStep<C>(p: Plan<C>, cfg: Config, s: State<C>, l: Label<C>, s': State<C>)
    requires Sized(p, s) && Next(p, cfg, s, l, s') && !Continues(l)
    requires l.SeedOne? && s.main.Seeding? && s.main.k < |p.order| ==> s.job[p.order[s.main.k]] == NotPushed
    requires l.Push? && l.c in s.job && s.job[l.c].Pushing? && s.job[l.c].next in s.job ==> s.job[s.job[l.c].next] == NotPushed
    ensures Gentle(s, s')
  {
    if Loops(l) {
      LoopingMain(p, cfg, s, l, s');
    } else {
      GentlePushing(p, s, l, s');
    }
  }

  lemma GentlePushing<C>(p: Plan<C>, s: State<C>, l: Label<C>, s': State<C>)
    requires Sized(p, s) && PushNext(p, s, l, s')
    requires l.SeedOne? && s.main.Seeding? && s.main.k < |p.order| ==> s.job[p.order[s.main.k]] == NotPushed
    requires l.Push? && l.c in s.job && s.job[l.c].Pushing? && s.job[l.c].next in s.job ==> s.job[s.job[l.c].next] == NotPushed
    ensures Gentle(s, s')
  {
    match l
    case SeedOne => GentleSeed(p, s, s');
    case SeedStop => GentleSame(s, s');
    case Release(c, d) => GentleRelease(s, c, d, s');
    case Push(c) => GentlePush(s, c, s');
    case Interrupt => GentleSame(s, s');
  }

  lemma GentleSeed<C>(p: Plan<C>, s: State<C>, s': State<C>)
    requires Sized(p, s) && SeedsOne(p, s, s') && s.job[p.order[s.main.k]] == NotPushed
    ensures Gentle(s, s')
  {
  }

  lemma GentleSame<C>(s: State<C>, s': State<C>)
    requires s'.job == s.job && s'.errorsLeft == s.errorsLeft && s'.stopped == s.stopped && (s.interrupted ==> s'.interrupted)
    ensures Gentle(s, s')
  {
  }

  lemma ErrorsStep<C>(p: Plan<C>, cfg: Config, s: State<C>, l: Label<C>, s': State<C>)
    requires Sized(p, s) && Sized(p, s') && Errors(p, cfg, s) && Next(p, cfg, s, l, s')
    requires !Continues(l) ==> Gentle(s, s')
    ensures Errors(p, cfg, s')
  {
    if !Continues(l) {
      ErrorsSame(p, cfg, s, s');
    } else {
      ErrorsContinue(p, cfg, s, l, s');
    }
  }

  // ---- outcomes ----

  lemma OutcomesContinue<C>(p: Plan<C>, cfg: Config, s: State<C>, c: C, s': State<C>)
    requires Sized(p, s) && Sized(p, s') && Outcomes(p, cfg, s) && GoesOn(p, cfg, s, c, s')
    ensures Outcomes(p, cfg, s')
  {
  }

  lemma OutcomesGentle<C>(p: Plan<C>, cfg: Config, s: State<C>, s': State<C>)
    requires Sized(p, s) && Sized(p, s') && Outcomes(p, cfg, s) && Gentle(s, s')
    ensures Outcomes(p, cfg, s')
  {
  }

  lemma OutcomesStep<C>(p: Plan<C>, cfg: Config, s: State<C>, l: Label<C>, s': State<C>)
    requires Sized(p, s) && Sized(p, s') && Outcomes(p, cfg, s) && Next(p, cfg, s, l, s')
    requires !Continues(l) ==> Gentle(s, s')
    ensures Outcomes(p, cfg, s')
  {
    if Continues(l) {
      ContinuingTask(p, cfg, s, l, s');
      OutcomesContinue(p, cfg, s, l.c, s');
    } else {
      OutcomesGentle(p, cfg, s, s');
    }
  }

  // ---- the report ----

  /** No more than all commands are pushed, and all of them when as many are. */
  lemma PushedAreSome<C>(p: Plan<C>, s: State<C>)
    requires Linked(p) && Ordered(p) && Sized(p, s) && Queue(p, s)
    ensures |s.all| <= |p.order|
    ensures |s.all| == |p.order| ==> forall c | c in p.deps :: c in s.all
  {
    CardinalityOfElements(s.all);
    CardinalityOfElements(p.order);
    SubsetCardinality(Elements(s.all), Elements(p.order));
    if |s.all| == |p.order| {
      forall c | c in p.deps
        ensures c in s.all
      {
        assert c in Elements(p.order);
      }
    }
  }

  lemma StuckStays<C>(p: Plan<C>, cfg: Config, s: State<C>, l: Label<C>, s': State<C>)
    requires Linked(p) && Sized(p, s) && Sized(p, s') && Queue(p, s) && Next(p, cfg, s, l, s')
    requires Stuck(p, cfg, s) && !s.main.Seeding?
    ensures Continues(l) || l.Release? || l.Push? ==> false
    ensures !l.WaitOne? ==> Stuck(p, cfg, s')
  {
    assert forall c | c in p.deps && s.job[c] != NotPushed :: s.job[c].Done?;
    if Continues(l) {
      ContinuingTask(p, cfg, s, l, s');
    } else if Loops(l) {
      LoopingMain(p, cfg, s, l, s');
    }
  }

  lemma EndOfBatchLeaves<C>(p: Plan<C>, cfg: Config, s: State<C>, s': State<C>)
    requires Linked(p) && Ordered(p) && Sized(p, s) && Sized(p, s') && Queue(p, s) && EndsBatch(s, s')
    ensures Reported(p, cfg, s')
  {
    PushedAreSome(p, s);
    if s'.main.Leaving? && s'.waited != |p.order| && !s.stopped && !s.interrupted {
      assert s.main.batch == [] && s.main.k == 0;
      assert |s.all[s.waited..]| == 0;
      forall c | c in s.all
        ensures s.job[c].Done?
      {
        var i :| 0 <= i < |s.all| && s.all[i] == c;
      }
    }
  }

  lemma GatherReports<C>(p: Plan<C>, cfg: Config, s: State<C>, late: bool, s': State<C>)
    requires Linked(p) && Ordered(p) && Sized(p, s) && Sized(p, s') && Queue(p, s) && Reported(p, cfg, s)
    requires Gathers(p, cfg, s, late, s')
    ensures Reported(p, cfg, s')
  {
    PushedAreSome(p, s);
    if s.waited == |p.order| {
      forall c | c in p.deps
        ensures s.job[c].Done?
      {
        var i :| 0 <= i < |s.all| && s.all[i] == c;
      }
    }
  }

  /** Task steps and interrupts leave a report true. */
  lemma ReportStays<C>(p: Plan<C>, cfg: Config, s: State<C>, s': State<C>)
    requires Linked(p) && Sized(p, s) && Sized(p, s') && Reported(p, cfg, s)
    requires s'.main == s.main && s'.waited == s.waited
    requires forall c | c in s.job && s.job[c].Done? :: s'.job[c] == s.job[c]
    requires (s.stopped ==> s'.stopped) && (s.interrupted ==> s'.interrupted)
    requires Stuck(p, cfg, s) ==> Stuck(p, cfg, s')
    ensures Reported(p, cfg, s')
  {
  }

  lemma ReportedLoop<C>(p: Plan<C>, cfg: Config, s: State<C>, l: Label<C>, s': State<C>)
    requires Linked(p) && Ordered(p) && Sized(p, s) && Sized(p, s') && Queue(p, s) && Reported(p, cfg, s)
    requires LoopNext(p, cfg, s, l, s')
    ensures Reported(p, cfg, s')
  {
    match l
    case EndBatch => EndOfBatchLeaves(p, cfg, s, s');
    case Gather(late) => GatherReports(p, cfg, s, late, s');
    case _ =>
  }

  lemma ReportedElse<C>(p: Plan<C>, cfg: Config, s: State<C>, l: Label<C>, s': State<C>)
    requires Linked(p) && Sized(p, s) && Sized(p, s') && Queue(p, s) && Reported(p, cfg, s) && Next(p, cfg, s, l, s')
    requires (Continues(l) || l.Release? || l.Push? || l.Interrupt?) && (!Continues(l) ==> Gentle(s, s'))
    ensures Reported(p, cfg, s')
  {
    if Continues(l) {
      ContinuingTask(p, cfg, s, l, s');
      assert s.stopped ==> s'.stopped;
    }
    if !s.main.Seeding? {
      if Stuck(p, cfg, s) {
        StuckStays(p, cfg, s, l, s');
      }
      ReportStays(p, cfg, s, s');
    }
  }

  lemma ReportedStep<C>(p: Plan<C>, cfg: Config, s: State<C>, l: Label<C>, s': State<C>)
    requires Linked(p) && Ordered(p) && Sized(p, s) && Sized(p, s') && Queue(p, s) && Seeded(p, s) && Reported(p, cfg, s)
    requires Next(p, cfg, s, l, s') && (!Continues(l) ==> Gentle(s, s'))
    requires p.order != [] ==> p.deps[p.order[0]] == {}
    ensures Reported(p, cfg, s')
  {
    if Loops(l) {
      ReportedLoop(p, cfg, s, l, s');
    } else if l.SeedStop? {
      SeedingEnds(p, s);
    } else if !l.SeedOne? {
      ReportedElse(p, cfg, s, l, s');
    }
  }

  lemma InBoundsContinue<C>(p: Plan<C>, cfg: Config, s: State<C>, l: Label<C>, s': State<C>)
    requires Sized(p, s) && TaskNext(p, cfg, s, l, s') && InBounds(p, s)
    ensures l.c in s'.job
    ensures var j := s'.job[l.c]; j.Running? ==> j.view.Keys <= p.actions[l.c].inputs && j.written <= p.actions[l.c].outputs
  {
  }

  lemma InBoundsStep<C>(p: Plan<C>, cfg: Config, s: State<C>, l: Label<C>, s': State<C>)
    requires Sized(p, s) && Sized(p, s') && Next(p, cfg, s, l, s') && InBounds(p, s) && (!Continues(l) ==> Gentle(s, s'))
    ensures InBounds(p, s')
  {
    if Continues(l) {
      ContinuingTask(p, cfg, s, l, s');
      InBoundsContinue(p, cfg, s, l, s');
    } else if Loops(l) {
      LoopingMain(p, cfg, s, l, s');
    } else {
      assert Gentle(s, s');
    }
  }

  // ---- the invariant of every run ----

  lemma StartCounters<C>(p: Plan<C>, cfg: Config, disk: Disk)
    requires Linked(p) && Sized(p, Start(p, cfg, disk))
    ensures var s := Start(p, cfg, disk); Counters(p, s.left, s.job) && Pushers(p, s.left, s.job)
  {
    var s := Start(p, cfg, disk);
    forall d | d in p.deps
      ensures Waits(p, s.job, d) == p.deps[d]
    {
      assert forall b | b in p.deps[d] :: d in p.dependents[b];
    }
    forall d | d in p.deps
      ensures Aimers(p, s.job, d) == {}
    {
    }
    assert forall d | d in p.deps && p.deps[d] != {} :: s.left[d] != 0;
  }

  lemma StartQueue<C>(p: Plan<C>, cfg: Config, disk: Disk)
    requires Linked(p) && Ordered(p) && Sized(p, Start(p, cfg, disk))
    ensures var s := Start(p, cfg, disk); Seeded(p, s) && Queue(p, s)
  {
    assert p.order[..0] == [];
    if p.order == [] {
      assert Elements(p.order) == {};
    }
  }

  lemma StartOutcomes<C>(p: Plan<C>, cfg: Config, disk: Disk)
    requires Linked(p) && Ordered(p) && Sized(p, Start(p, cfg, disk))
    ensures var s := Start(p, cfg, disk); Outcomes(p, cfg, s) && Reported(p, cfg, s) && InBounds(p, s)
  {
    if p.order == [] {
      assert Elements(p.order) == {};
    }
  }

  lemma StartErrors<C>(p: Plan<C>, cfg: Config, disk: Disk)
    requires Sized(p, Start(p, cfg, disk))
    ensures Errors(p, cfg, Start(p, cfg, disk))
  {
    assert FailedSet(Start(p, cfg, disk)) == {};
  }

  lemma StartHasInvariant<C>(p: Plan<C>, cfg: Config, disk: Disk)
    requires WellFormed(p)
    ensures Inv(p, cfg, Start(p, cfg, disk))
  {
    StartCounters(p, cfg, disk);
    StartQueue(p, cfg, disk);
    StartOutcomes(p, cfg, disk);
    StartErrors(p, cfg, disk);
  }

  /** Only what was never pushed is pushed. */
  lemma PushedIsNew<C>(p: Plan<C>, cfg: Config, s: State<C>, l: Label<C>, s': State<C>)
    requires Linked(p) && Ordered(p) && Sized(p, s) && Seeded(p, s) && Queue(p, s) && Pushers(p, s.left, s.job)
    requires Next(p, cfg, s, l, s')
    ensures l.SeedOne? && s.main.Seeding? && s.main.k < |p.order| ==> s.job[p.order[s.main.k]] == NotPushed
    ensures l.Push? && l.c in s.job && s.job[l.c].Pushing? && s.job[l.c].next in s.job ==> s.job[s.job[l.c].next] == NotPushed
  {
    if l.SeedOne? { SeedIsNew(p, s); }
    if l.Push? { AimIsUnique(p, s.left, s.job, l.c, s.job[l.c].next); }
  }

  lemma QueueingStep<C>(p: Plan<C>, cfg: Config, s: State<C>, l: Label<C>, s': State<C>)
    requires Linked(p) && Ordered(p) && Sized(p, s) && Counters(p, s.left, s.job) && Pushers(p, s.left, s.job)
    requires Seeded(p, s) && Queue(p, s) && Next(p, cfg, s, l, s') && Sized(p, s')
    requires p.order != [] ==> p.deps[p.order[0]] == {}
    requires l.SeedOne? && s.main.Seeding? && s.main.k < |p.order| ==> s.job[p.order[s.main.k]] == NotPushed
    ensures Counters(p, s'.left, s'.job) && Pushers(p, s'.left, s'.job) && Seeded(p, s') && Queue(p, s')
  {
    CountersStep(p, cfg, s, l, s');
    SeededStep(p, cfg, s, l, s');
    QueueStep(p, cfg, s, l, s');
  }

  lemma EndingStep<C>(p: Plan<C>, cfg: Config, s: State<C>, l: Label<C>, s': State<C>)
    requires Linked(p) && Ordered(p) && Sized(p, s) && Seeded(p, s) && Queue(p, s) && Next(p, cfg, s, l, s') && Sized(p, s')
    requires Errors(p, cfg, s) && Outcomes(p, cfg, s) && Reported(p, cfg, s) && InBounds(p, s)
    requires p.order != [] ==> p.deps[p.order[0]] == {}
    requires l.SeedOne? && s.main.Seeding? && s.main.k < |p.order| ==> s.job[p.order[s.main.k]] == NotPushed
    requires l.Push? && l.c in s.job && s.job[l.c].Pushing? && s.job[l.c].next in s.job ==> s.job[s.job[l.c].next] == NotPushed
    ensures Errors(p, cfg, s') && Outcomes(p, cfg, s') && Reported(p, cfg, s') && InBounds(p, s')
  {
    if !Continues(l) { GentleStep(p, cfg, s, l, s'); }
    ErrorsStep(p, cfg, s, l, s');
    OutcomesStep(p, cfg, s, l, s');
    ReportedStep(p, cfg, s, l, s');
    InBoundsStep(p, cfg, s, l, s');
  }

  lemma InvariantStep<C>(p: Plan<C>, cfg: Config, s: State<C>, l: Label<C>, s': State<C>)
    requires Inv(p, cfg, s) && Next(p, cfg, s, l, s')
    ensures Inv(p, cfg, s')
  {
    SizedStep(p, cfg, s, l, s');
    if p.order != [] { FirstIsIndependent(p); }
    PushedIsNew(p, cfg, s, l, s');
    QueueingStep(p, cfg, s, l, s');
    EndingStep(p, cfg, s, l, s');
  }

  ghost predicate Follows<C>(p: Plan<C>, cfg: Config, s: State<C>, l: Label<C>, s': State<C>)
  {
    Sized(p, s) && Next(p, cfg, s, l, s')
  }

  ghost predicate FollowsAt<C>(p: Plan<C>, cfg: Config, states: seq<State<C>>, labels: seq<Label<C>>, i: nat)
    requires 0 < i < |states| == |labels| + 1
  {
    Follows(p, cfg, states[i - 1], labels[i - 1], states[i])
  }

  /** Each state follows from the one before by the label in between. */
  ghost predicate Steps<C>(p: Plan<C>, cfg: Config, states: seq<State<C>>, labels: seq<Label<C>>)
  {
    && |states| == |labels| + 1
    && (forall i {:trigger FollowsAt(p, cfg, states, labels, i)} | 0 < i < |states| :: FollowsAt(p, cfg, states, labels, i))
  }

  /** A run: steps from the start. */
  ghost predicate IsRun<C>(p: Plan<C>, cfg: Config, disk: Disk, states: seq<State<C>>, labels: seq<Label<C>>)
  {
    Steps(p, cfg, states, labels) && states[0] == Start(p, cfg, disk)
  }

  ghost predicate InvAt<C>(p: Plan<C>, cfg: Config, states: seq<State<C>>, i: nat)
    requires i < |states|
  {
    Inv(p, cfg, states[i])
  }

  ghost predicate AlwaysInv<C>(p: Plan<C>, cfg: Config, states: seq<State<C>>)
  {
    forall i {:trigger InvAt(p, cfg, states, i)} | 0 <= i < |states| :: InvAt(p, cfg, states, i)
  }

  lemma InvariantFollows<C>(p: Plan<C>, cfg: Config, states: seq<State<C>>, labels: seq<Label<C>>, i: nat)
    requires 0 < i < |states| == |labels| + 1
    requires InvAt(p, cfg, states, i - 1) && FollowsAt(p, cfg, states, labels, i)
    ensures InvAt(p, cfg, states, i)
  {
    InvariantStep(p, cfg, states[i - 1], labels[i - 1], states[i]);
  }

  lemma {:induction false} StepsKeepInvariant<C>(p: Plan<C>, cfg: Config, states: seq<State<C>>, labels: seq<Label<C>>, i: nat)
    requires Steps(p, cfg, states, labels) && InvAt(p, cfg, states, 0) && i < |states|
    ensures InvAt(p, cfg, states, i)
  {
    if i > 0 {
      StepsKeepInvariant(p, cfg, states, labels, i - 1);
      InvariantFollows(p, cfg, states, labels, i);
    }
  }

  /** Every state of every run has the invariant. */
  lemma RunKeepsInvariant<C>(p: Plan<C>, cfg: Config, disk: Disk, states: seq<State<C>>, labels: seq<Label<C>>)
    requires WellFormed(p) && IsRun(p, cfg, disk, states, labels)
    ensures AlwaysInv(p, cfg, states)
  {
    StartHasInvariant(p, cfg, disk);
    assert InvAt(p, cfg, states, 0);
    forall i | 0 <= i < |states|
      ensures InvAt(p, cfg, states, i)
    {
      StepsKeepInvariant(p, cfg, states, labels, i);
    }
  }
}
