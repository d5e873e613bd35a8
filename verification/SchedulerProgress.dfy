/** `execute` always has a next step until it returns, and every step brings it
    closer to the end: each run is finite and ends with a report. */
module SchedulerProgress {
  import opened Common
  import opened Graphs
  import opened Scheduler
  import opened SchedulerSafety
  import opened SchedulerTheorems

  // ---- a next step ----

  lemma SeedingCanStep<C>(p: Plan<C>, s: State<C>) returns (l: Label<C>, s': State<C>)
    requires Sized(p, s) && s.main.Seeding?
    ensures PushNext(p, s, l, s') && (l.SeedOne? || l.SeedStop?)
  {
    var k := s.main.k;
    if k < |p.order| && p.deps[p.order[k]] == {} {
      var c := p.order[k];
      l := SeedOne;
      s' := s.(job := s.job[c := Queued], pending := s.pending + [c], all := s.all + [c], main := Seeding(k + 1));
    } else {
      l := SeedStop;
      s' := s.(main := if s.pending == [] then Returned(NoCommandsWithoutDependencies) else Choosing);
    }
  }

  lemma LoopCanStep<C>(p: Plan<C>, cfg: Config, s: State<C>) returns (l: Label<C>, s': State<C>)
    requires Sized(p, s) && !s.main.Seeding? && !s.main.Returned?
    requires s.main.Waiting? && s.main.k < |s.main.batch| ==> s.job[s.main.batch[s.main.k]].Done?
    ensures Loops(l) && LoopNext(p, cfg, s, l, s')
  {
    match s.main
    case Choosing =>
      if s.waited != |p.order| {
        l, s' := Snapshot, s.(main := Waiting(s.pending, 0), pending := []);
      } else {
        l, s' := Leave, s.(main := Leaving);
      }
    case Waiting(batch, k) =>
      if k < |batch| {
        l, s' := WaitOne, s.(main := Waiting(batch, k + 1), waited := s.waited + 1);
      } else {
        l, s' := EndBatch, s.(main := if s.stopped || batch == [] || s.interrupted then Leaving else Choosing);
      }
    case Leaving =>
      l, s' := Gather(false), s.(main := Returned(Report(p, cfg, s, false)));
  }

  lemma MainCanStep<C>(p: Plan<C>, cfg: Config, s: State<C>) returns (l: Label<C>, s': State<C>)
    requires Sized(p, s) && !s.main.Returned?
    requires s.main.Waiting? && s.main.k < |s.main.batch| ==> s.job[s.main.batch[s.main.k]].Done?
    ensures Next(p, cfg, s, l, s') && !l.Fail? && !l.Interrupt?
  {
    if s.main.Seeding? {
      l, s' := SeedingCanStep(p, s);
    } else {
      l, s' := LoopCanStep(p, cfg, s);
    }
  }

  lemma RunningCanStep<C>(p: Plan<C>, cfg: Config, s: State<C>, c: C) returns (l: Label<C>, s': State<C>)
    requires Sized(p, s) && InBounds(p, s) && c in s.job && s.job[c].Running?
    ensures TaskNext(p, cfg, s, l, s') && Continues(l) && !l.Fail?
  {
    var j := s.job[c];
    if j.view.Keys != p.actions[c].inputs {
      var q :| q in p.actions[c].inputs && q !in j.view;
      l, s' := Read(c, q), s.(job := s.job[c := Running(j.view[q := Get(s.disk, q)], j.written)]);
    } else if j.written != p.actions[c].outputs {
      var q :| q in p.actions[c].outputs && q !in j.written;
      l := Write(c, q);
      s' := s.(job := s.job[c := Running(j.view, j.written + {q})], disk := s.disk[q := p.actions[c].run(j.view, q)]);
    } else {
      l, s' := Succeed(c), s.(job := s.job[c := Releasing(true, p.dependents[c])]);
    }
  }

  lemma ReleasingCanStep<C>(p: Plan<C>, s: State<C>, c: C) returns (l: Label<C>, s': State<C>)
    requires Sized(p, s) && c in s.job && !s.main.Seeding?
    requires (s.job[c].Releasing? && s.job[c].todo != {} && s.job[c].todo <= s.left.Keys)
             || (s.job[c].Pushing? && s.job[c].next in s.job)
    ensures PushNext(p, s, l, s') && (l.Release? || l.Push?)
  {
    match s.job[c]
    case Releasing(ok, todo) =>
      var d :| d in todo;
      l := Release(c, d);
      s' := s.(left := s.left[d := s.left[d] - 1],
               job := s.job[c := if s.left[d] == 1 then Pushing(ok, todo - {d}, d) else Releasing(ok, todo - {d})]);
    case Pushing(ok, todo, d) =>
      l := Push(c);
      s' := s.(job := s.job[c := Releasing(ok, todo)][d := Queued], pending := s.pending + [d], all := s.all + [d]);
  }

  lemma WorkingCanStep<C>(p: Plan<C>, cfg: Config, s: State<C>, c: C) returns (l: Label<C>, s': State<C>)
    requires Sized(p, s) && InBounds(p, s) && c in s.job
    requires s.job[c].Queued? || s.job[c].Running? || s.job[c].Failing? || (s.job[c].Releasing? && s.job[c].todo == {})
    ensures TaskNext(p, cfg, s, l, s') && Continues(l) && !l.Fail?
  {
    var j := s.job[c];
    match j
    case Queued =>
      l, s' := Begin(c), s.(job := s.job[c := if s.stopped || s.interrupted then Done(Skipped) else Running(map[], {})]);
    case Running(_, _) =>
      l, s' := RunningCanStep(p, cfg, s, c);
    case Failing(_) =>
      l := Settle(c);
      s' := s.(stopped := s.stopped || j.errorsLeft < 1,
               job := s.job[c := if cfg.throwOnErrors then Done(Threw) else Releasing(false, p.dependents[c])]);
    case Releasing(ok, _) =>
      l, s' := Finish(c, false), s.(job := s.job[c := Done(if ok then Succeeded else Tolerated)]);
  }

  lemma TaskCanStep<C>(p: Plan<C>, cfg: Config, s: State<C>, c: C) returns (l: Label<C>, s': State<C>)
    requires Linked(p) && Sized(p, s) && InBounds(p, s) && c in s.job && !s.job[c].NotPushed? && !s.job[c].Done?
    requires Owed(p, s.job[c], c) <= p.dependents[c] && Aim(s.job[c]) <= p.dependents[c] && !s.main.Seeding?
    ensures Next(p, cfg, s, l, s') && !l.Fail? && !l.Interrupt?
  {
    if s.job[c].Pushing? || (s.job[c].Releasing? && s.job[c].todo != {}) {
      assert s.job[c].Pushing? ==> s.job[c].next in Aim(s.job[c]);
      l, s' := ReleasingCanStep(p, s, c);
    } else {
      l, s' := WorkingCanStep(p, cfg, s, c);
    }
  }

  lemma AwaitedIsPushed<C>(p: Plan<C>, s: State<C>)
    requires Linked(p) && Sized(p, s) && Queue(p, s) && s.main.Waiting? && s.main.k < |s.main.batch|
    ensures s.job[s.main.batch[s.main.k]] != NotPushed
  {
    var from := s.waited - s.main.k;
    assert s.all[from..][s.main.k] == s.all[s.waited];
    assert s.main.batch[s.main.k] in s.all;
  }

  lemma AimsInside<C>(p: Plan<C>, s: State<C>, c: C)
    requires Linked(p) && Sized(p, s) && Counters(p, s.left, s.job) && Pushers(p, s.left, s.job) && c in p.deps
    ensures Owed(p, s.job[c], c) <= p.dependents[c] && Aim(s.job[c]) <= p.dependents[c]
  {
  }

  lemma AwaitedCanStep<C>(p: Plan<C>, cfg: Config, s: State<C>) returns (l: Label<C>, s': State<C>)
    requires Linked(p) && Sized(p, s) && Queue(p, s) && InBounds(p, s) && s.main.Waiting? && s.main.k < |s.main.batch|
    requires Counters(p, s.left, s.job) && Pushers(p, s.left, s.job) && !s.job[s.main.batch[s.main.k]].Done?
    ensures Next(p, cfg, s, l, s') && !l.Fail? && !l.Interrupt?
  {
    AwaitedIsPushed(p, s);
    AimsInside(p, s, s.main.batch[s.main.k]);
    l, s' := TaskCanStep(p, cfg, s, s.main.batch[s.main.k]);
  }

  /** No deadlock: until `execute` has returned some thread can go on, without
      any command having to fail and without an interrupt. */
  lemma CanStep<C>(p: Plan<C>, cfg: Config, s: State<C>) returns (l: Label<C>, s': State<C>)
    requires Inv(p, cfg, s) && !s.main.Returned?
    ensures Next(p, cfg, s, l, s') && !l.Fail? && !l.Interrupt?
  {
    if s.main.Waiting? && s.main.k < |s.main.batch| && !s.job[s.main.batch[s.main.k]].Done? {
      l, s' := AwaitedCanStep(p, cfg, s);
    } else {
      l, s' := MainCanStep(p, cfg, s);
    }
  }

  // ---- a measure ----

  ghost function Weight<C>(p: Plan<C>, c: C, j: Job<C>): nat
    requires c in p.dependents && c in p.actions
  {
    var d := 2 * |p.dependents[c]|;
    var a := p.actions[c];
    match j
    case NotPushed => d + 5 + |a.inputs| + |a.outputs|
    case Queued => d + 4 + |a.inputs| + |a.outputs|
    case Running(view, written) => d + 3 + |a.inputs - view.Keys| + |a.outputs - written|
    case Failing(_) => d + 2
    case Releasing(_, todo) => 2 * |todo| + 1
    case Pushing(_, todo, _) => 2 * |todo| + 2
    case Done(_) => 0
  }

  ghost function Weights<C>(p: Plan<C>, order: seq<C>, job: map<C, Job<C>>): nat
    requires job.Keys == p.dependents.Keys == p.actions.Keys
    requires forall i | 0 <= i < |order| :: order[i] in job
  {
    if order == [] then 0 else Weight(p, order[0], job[order[0]]) + Weights(p, order[1..], job)
  }

  ghost function MainWeight<C>(p: Plan<C>, s: State<C>): int
  {
    var n := |p.order|;
    match s.main
    case Seeding(k) => 3 * n + 4 + (n - k)
    case Choosing => 3 * (n - s.waited) + 3
    case Waiting(_, k) => 3 * (n - s.waited) + (if k == 0 then 2 else 4)
    case Leaving => 1
    case Returned(_) => 0
  }

  ghost function Measure<C>(p: Plan<C>, s: State<C>): int
    requires Sized(p, s)
  {
    Weights(p, p.order, s.job) + MainWeight(p, s) + (if s.interrupted then 0 else 1)
  }

  lemma {:induction false} WeightsShrink<C>(p: Plan<C>, order: seq<C>, before: map<C, Job<C>>, after: map<C, Job<C>>)
    requires before.Keys == after.Keys == p.dependents.Keys == p.actions.Keys
    requires forall i | 0 <= i < |order| :: order[i] in before
    requires forall c | c in before :: Weight(p, c, after[c]) <= Weight(p, c, before[c])
    ensures Weights(p, order, after) <= Weights(p, order, before)
    ensures (exists c :: c in order && Weight(p, c, after[c]) < Weight(p, c, before[c])) ==>
              Weights(p, order, after) < Weights(p, order, before)
  {
    if order != [] {
      WeightsShrink(p, order[1..], before, after);
      assert forall c | c in order :: c == order[0] || c in order[1..];
    }
  }

  lemma WeightOfRead<C>(p: Plan<C>, s: State<C>, c: C, q: Path, s': State<C>)
    requires Sized(p, s) && Reads(p, s, c, q, s')
    ensures c in s'.job
    ensures Weight(p, c, s'.job[c]) < Weight(p, c, s.job[c])
  {
    var j, a := s.job[c], p.actions[c];
    assert a.inputs - s'.job[c].view.Keys == a.inputs - j.view.Keys - {q};
  }

  lemma WeightOfWrite<C>(p: Plan<C>, s: State<C>, c: C, q: Path, s': State<C>)
    requires Sized(p, s) && Writes(p, s, c, q, s')
    ensures c in s'.job
    ensures Weight(p, c, s'.job[c]) < Weight(p, c, s.job[c])
  {
    var j, a := s.job[c], p.actions[c];
    assert a.outputs - s'.job[c].written == a.outputs - j.written - {q};
  }

  lemma WeightOfBegin<C>(p: Plan<C>, s: State<C>, c: C, s': State<C>)
    requires Sized(p, s) && Begins(s, c, s')
    ensures c in s'.job
    ensures Weight(p, c, s'.job[c]) < Weight(p, c, s.job[c])
  {
    var nothing: View := map[];
    assert p.actions[c].inputs - nothing.Keys == p.actions[c].inputs;
    assert p.actions[c].outputs - {} == p.actions[c].outputs;
  }

  lemma WeightOfReuse<C>(p: Plan<C>, s: State<C>, c: C, s': State<C>)
    requires Sized(p, s) && Reuses(p, s, c, s')
    ensures c in s'.job
    ensures Weight(p, c, s'.job[c]) < Weight(p, c, s.job[c])
  {
  }

  lemma WeightOfSuccess<C>(p: Plan<C>, s: State<C>, c: C, s': State<C>)
    requires Sized(p, s) && Succeeds(p, s, c, s')
    ensures c in s'.job
    ensures Weight(p, c, s'.job[c]) < Weight(p, c, s.job[c])
  {
  }

  lemma WeightOfFailure<C>(p: Plan<C>, s: State<C>, c: C, garbage: Disk, s': State<C>)
    requires Sized(p, s) && Fails(p, s, c, garbage, s')
    ensures c in s'.job
    ensures Weight(p, c, s'.job[c]) < Weight(p, c, s.job[c])
  {
  }

  lemma WeightOfSettling<C>(p: Plan<C>, cfg: Config, s: State<C>, c: C, s': State<C>)
    requires Sized(p, s) && Settles(p, cfg, s, c, s')
    ensures c in s'.job
    ensures Weight(p, c, s'.job[c]) < Weight(p, c, s.job[c])
  {
  }

  lemma WeightOfFinishing<C>(p: Plan<C>, cfg: Config, s: State<C>, c: C, late: bool, s': State<C>)
    requires Sized(p, s) && Finishes(cfg, s, c, late, s')
    ensures c in s'.job
    ensures Weight(p, c, s'.job[c]) < Weight(p, c, s.job[c])
  {
  }

  lemma WeightOfContinuing<C>(p: Plan<C>, cfg: Config, s: State<C>, l: Label<C>, s': State<C>)
    requires Sized(p, s) && TaskNext(p, cfg, s, l, s')
    ensures l.c in s.job && l.c in s'.job
    ensures Weight(p, l.c, s'.job[l.c]) < Weight(p, l.c, s.job[l.c])
  {
    match l
    case Read(c, q) => WeightOfRead(p, s, c, q, s');
    case Write(c, q) => WeightOfWrite(p, s, c, q, s');
    case Begin(c) => WeightOfBegin(p, s, c, s');
    case Reuse(c) => WeightOfReuse(p, s, c, s');
    case Succeed(c) => WeightOfSuccess(p, s, c, s');
    case Fail(c, garbage) => WeightOfFailure(p, s, c, garbage, s');
    case Settle(c) => WeightOfSettling(p, cfg, s, c, s');
    case Finish(c, late) => WeightOfFinishing(p, cfg, s, c, late, s');
  }

  lemma {:induction false} SomeShrinks<C>(p: Plan<C>, before: map<C, Job<C>>, after: map<C, Job<C>>, c: C)
    requires Linked(p) && Ordered(p) && before.Keys == after.Keys == p.deps.Keys && c in p.deps
    requires forall d | d in before :: Weight(p, d, after[d]) <= Weight(p, d, before[d])
    requires Weight(p, c, after[c]) < Weight(p, c, before[c])
    ensures Weights(p, p.order, after) < Weights(p, p.order, before)
  {
    WeightsShrink(p, p.order, before, after);
    assert c in Elements(p.order);
    assert c in p.order;
  }

  ghost predicate NotHeavier<C>(p: Plan<C>, before: map<C, Job<C>>, after: map<C, Job<C>>, c: C)
    requires before.Keys == after.Keys == p.dependents.Keys == p.actions.Keys && c in before
  {
    Weight(p, c, after[c]) <= Weight(p, c, before[c])
  }

  /** One job gets lighter, the others do not get heavier, and the calling
      thread is not set back. */
  lemma JobsShrink<C>(p: Plan<C>, s: State<C>, s': State<C>, c: C)
    requires Linked(p) && Ordered(p) && Sized(p, s) && Sized(p, s') && c in p.deps
    requires forall d {:trigger NotHeavier(p, s.job, s'.job, d)} | d in p.deps && d != c :: NotHeavier(p, s.job, s'.job, d)
    requires Weight(p, c, s'.job[c]) < Weight(p, c, s.job[c])
    requires MainWeight(p, s') <= MainWeight(p, s) && (s.interrupted ==> s'.interrupted)
    ensures Measure(p, s') < Measure(p, s)
  {
    forall d | d in s.job
      ensures Weight(p, d, s'.job[d]) <= Weight(p, d, s.job[d])
    {
      assert d != c ==> NotHeavier(p, s.job, s'.job, d);
    }
    SomeShrinks(p, s.job, s'.job, c);
  }

  lemma OneJobShrinks<C>(p: Plan<C>, s: State<C>, s': State<C>, c: C)
    requires Linked(p) && Ordered(p) && Sized(p, s) && Sized(p, s') && c in p.deps
    requires s'.job == s.job[c := s'.job[c]]
    requires Weight(p, c, s'.job[c]) < Weight(p, c, s.job[c])
    requires MainWeight(p, s') <= MainWeight(p, s) && (s.interrupted ==> s'.interrupted)
    ensures Measure(p, s') < Measure(p, s)
  {
    forall d | d in p.deps && d != c
      ensures NotHeavier(p, s.job, s'.job, d)
    {
      assert s'.job[d] == s.job[d];
    }
    JobsShrink(p, s, s', c);
  }

  lemma SeedShrinks<C>(p: Plan<C>, s: State<C>, s': State<C>)
    requires Linked(p) && Ordered(p) && Sized(p, s) && Sized(p, s') && SeedsOne(p, s, s')
    requires s.job[p.order[s.main.k]] == NotPushed
    ensures Measure(p, s') < Measure(p, s)
  {
    OneJobShrinks(p, s, s', p.order[s.main.k]);
  }

  lemma WeightOfRelease<C>(p: Plan<C>, s: State<C>, c: C, d: C, s': State<C>)
    requires Sized(p, s) && Releases(s, c, d, s')
    ensures c in s'.job
    ensures Weight(p, c, s'.job[c]) < Weight(p, c, s.job[c])
  {
    assert |s.job[c].todo - {d}| == |s.job[c].todo| - 1;
  }

  lemma ReleaseShrinks<C>(p: Plan<C>, s: State<C>, c: C, d: C, s': State<C>)
    requires Linked(p) && Ordered(p) && Sized(p, s) && Sized(p, s') && Releases(s, c, d, s')
    ensures Measure(p, s') < Measure(p, s)
  {
    WeightOfRelease(p, s, c, d, s');
    OneJobShrinks(p, s, s', c);
  }

  lemma WeightOfPush<C>(p: Plan<C>, s: State<C>, c: C, s': State<C>, e: C)
    requires Sized(p, s) && Sized(p, s') && PushesNext(s, c, s') && s.job[s.job[c].next] == NotPushed && e in s.job
    ensures Weight(p, e, s'.job[e]) <= Weight(p, e, s.job[e])
    ensures e == c ==> Weight(p, e, s'.job[e]) < Weight(p, e, s.job[e])
  {
    if e != s.job[c].next && e != c { assert s'.job[e] == s.job[e]; }
  }

  lemma WeightsOfPush<C>(p: Plan<C>, s: State<C>, c: C, s': State<C>)
    requires Sized(p, s) && Sized(p, s') && PushesNext(s, c, s') && s.job[s.job[c].next] == NotPushed
    ensures forall e {:trigger NotHeavier(p, s.job, s'.job, e)} | e in p.deps :: NotHeavier(p, s.job, s'.job, e)
    ensures Weight(p, c, s'.job[c]) < Weight(p, c, s.job[c])
  {
    forall e | e in p.deps
      ensures NotHeavier(p, s.job, s'.job, e)
    {
      WeightOfPush(p, s, c, s', e);
    }
    WeightOfPush(p, s, c, s', c);
  }

  lemma PushShrinks<C>(p: Plan<C>, s: State<C>, c: C, s': State<C>)
    requires Linked(p) && Ordered(p) && Sized(p, s) && Sized(p, s') && PushesNext(s, c, s')
    requires s.job[s.job[c].next] == NotPushed
    ensures Measure(p, s') < Measure(p, s)
  {
    WeightsOfPush(p, s, c, s');
    assert c in p.deps && MainWeight(p, s') == MainWeight(p, s);
    JobsShrink(p, s, s', c);
  }

  lemma ContinueShrinks<C>(p: Plan<C>, cfg: Config, s: State<C>, l: Label<C>, s': State<C>)
    requires Linked(p) && Ordered(p) && Sized(p, s) && Sized(p, s') && TaskNext(p, cfg, s, l, s')
    ensures Measure(p, s') < Measure(p, s)
  {
    ContinuingTask(p, cfg, s, l, s');
    WeightOfContinuing(p, cfg, s, l, s');
    assert s'.interrupted == s.interrupted;
    OneJobShrinks(p, s, s', l.c);
  }

  lemma LoopShrinks<C>(p: Plan<C>, cfg: Config, s: State<C>, l: Label<C>, s': State<C>)
    requires Linked(p) && Ordered(p) && Sized(p, s) && Sized(p, s') && Queue(p, s) && LoopNext(p, cfg, s, l, s')
    ensures Measure(p, s') < Measure(p, s)
  {
    LoopingMain(p, cfg, s, l, s');
    PushedAreSome(p, s);
    MainWeightShrinks(p, cfg, s, l, s');
  }

  lemma MainWeightShrinks<C>(p: Plan<C>, cfg: Config, s: State<C>, l: Label<C>, s': State<C>)
    requires Linked(p) && Sized(p, s) && Queue(p, s) && LoopNext(p, cfg, s, l, s') && |s.all| <= |p.order|
    ensures MainWeight(p, s') < MainWeight(p, s)
  {
    match l
    case WaitOne => AwaitedIsQueued(p, s);
    case _ =>
  }

  /** While the batch has more futures, not all have been waited for. */
  lemma AwaitedIsQueued<C>(p: Plan<C>, s: State<C>)
    requires Linked(p) && Sized(p, s) && Queue(p, s) && s.main.Waiting? && s.main.k < |s.main.batch|
    ensures s.waited < |s.all|
  {
    var from := s.waited - s.main.k;
    assert |s.all[from..]| == |s.main.batch| + |s.pending|;
  }

  lemma PushingShrinks<C>(p: Plan<C>, cfg: Config, s: State<C>, l: Label<C>, s': State<C>)
    requires Linked(p) && Ordered(p) && Sized(p, s) && Sized(p, s') && PushNext(p, s, l, s')
    requires l.SeedOne? && s.main.Seeding? && s.main.k < |p.order| ==> s.job[p.order[s.main.k]] == NotPushed
    requires l.Push? && l.c in s.job && s.job[l.c].Pushing? && s.job[l.c].next in s.job ==> s.job[s.job[l.c].next] == NotPushed
    ensures Measure(p, s') < Measure(p, s)
  {
    match l
    case SeedOne => SeedShrinks(p, s, s');
    case SeedStop =>
    case Release(c, d) => ReleaseShrinks(p, s, c, d, s');
    case Push(c) => PushShrinks(p, s, c, s');
    case Interrupt =>
  }

  /** Every step, also a failing one or an interrupt, makes the measure smaller. */
  lemma StepShrinks<C>(p: Plan<C>, cfg: Config, s: State<C>, l: Label<C>, s': State<C>)
    requires Inv(p, cfg, s) && Next(p, cfg, s, l, s')
    ensures Sized(p, s') && 0 <= Measure(p, s') < Measure(p, s)
  {
    InvariantStep(p, cfg, s, l, s');
    MeasureIsNatural(p, cfg, s');
    if Continues(l) {
      ContinueShrinks(p, cfg, s, l, s');
    } else if Loops(l) {
      LoopShrinks(p, cfg, s, l, s');
    } else {
      PushedIsNew(p, cfg, s, l, s');
      PushingShrinks(p, cfg, s, l, s');
    }
  }

  lemma MeasureIsNatural<C>(p: Plan<C>, cfg: Config, s: State<C>)
    requires Inv(p, cfg, s)
    ensures 0 <= Measure(p, s)
  {
    PushedAreSome(p, s);
    assert 0 <= MainWeight(p, s);
  }

  ghost predicate ShrinksAt<C>(p: Plan<C>, states: seq<State<C>>, i: nat)
    requires i < |states|
  {
    Sized(p, states[i]) && 0 <= Measure(p, states[i]) && (i > 0 ==> Sized(p, states[i - 1]) && Measure(p, states[i]) < Measure(p, states[i - 1]))
  }

  lemma {:induction false} ShrinkingEnds<C>(p: Plan<C>, states: seq<State<C>>, i: nat)
    requires i < |states|
    requires forall j {:trigger ShrinksAt(p, states, j)} | 0 <= j < |states| :: ShrinksAt(p, states, j)
    ensures Sized(p, states[0]) && Sized(p, states[i]) && Measure(p, states[i]) + i <= Measure(p, states[0])
  {
    assert ShrinksAt(p, states, 0);
    if i > 0 {
      ShrinkingEnds(p, states, i - 1);
      assert ShrinksAt(p, states, i);
    }
  }

  /** Every run is finite: it has no more steps than the measure of the start. */
  lemma RunsAreFinite<C>(p: Plan<C>, cfg: Config, disk: Disk, states: seq<State<C>>, labels: seq<Label<C>>)
    requires WellFormed(p) && IsRun(p, cfg, disk, states, labels)
    ensures Sized(p, Start(p, cfg, disk)) && |labels| <= Measure(p, Start(p, cfg, disk))
  {
    RunKeepsInvariant(p, cfg, disk, states, labels);
    forall i | 0 <= i < |states|
      ensures ShrinksAt(p, states, i)
    {
      assert InvAt(p, cfg, states, i);
      MeasureIsNatural(p, cfg, states[i]);
      if i > 0 {
        assert InvAt(p, cfg, states, i - 1) && FollowsAt(p, cfg, states, labels, i);
        StepShrinks(p, cfg, states[i - 1], labels[i - 1], states[i]);
      }
    }
    ShrinkingEnds(p, states, |labels|);
    assert ShrinksAt(p, states, |labels|);
  }

  /** A run that can only be interrupted any more has returned; undisturbed and without a failure it
      has returned normally with every command run. */
  lemma MaximalRunsReturn<C>(p: Plan<C>, cfg: Config, disk: Disk, states: seq<State<C>>, labels: seq<Label<C>>, last: State<C>)
    requires WellFormed(p) && IsRun(p, cfg, disk, states, labels) && last == states[|labels|] && Sized(p, last)
    requires forall l: Label<C>, s': State<C> {:trigger Next(p, cfg, last, l, s')} :: Next(p, cfg, last, l, s') ==> l.Interrupt?
    ensures last.main.Returned?
    ensures !cfg.timeLimit && !last.interrupted && FailedSet(last) == {} ==>
              last.main == Returned(Normal) && forall c | c in p.deps :: last.job[c] == Done(Succeeded)
  {
    RunKeepsInvariant(p, cfg, disk, states, labels);
    assert InvAt(p, cfg, states, |labels|);
    if !last.main.Returned? {
      var l, s' := CanStep(p, cfg, last);
      assert false;
    }
    if !cfg.timeLimit && !last.interrupted && FailedSet(last) == {} {
      NoLostWakeup(p, cfg, last);
    }
  }
}
