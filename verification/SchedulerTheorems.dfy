/** What the invariant of `execute` means for its callers. */
module SchedulerTheorems {
  import opened Common
  import opened Graphs
  import opened Scheduler
  import opened SchedulerSafety

  /** A command is handed to the executor only when all it depends on has run. */
  lemma DependenciesRanBefore<C>(p: Plan<C>, cfg: Config, s: State<C>, d: C, b: C)
    requires Inv(p, cfg, s) && d in p.deps && b in p.deps[d] && s.job[d] != NotPushed
    ensures b in p.deps && Released(s.job[b])
    ensures cfg.throwOnErrors ==> RanOk(s.job[b])
  {
    assert b in p.deps;
    PushedIsNotOwed(p, s.left, s.job, b, d);
  }

  /** Failure containment, for all that a command depends on through others:
      whatever lies below a pushed command ran without error. */
  lemma {:induction false} BelowPushedRanOk<C>(p: Plan<C>, cfg: Config, s: State<C>, path: seq<C>, i: nat)
    requires Inv(p, cfg, s) && cfg.throwOnErrors
    requires IsPath(p.deps, path) && s.job[path[0]] != NotPushed && 0 < i < |path|
    ensures RanOk(s.job[path[i]])
  {
    if i > 1 {
      BelowPushedRanOk(p, cfg, s, path, i - 1);
    }
    assert path[i - 1 + 1] in p.deps[path[i - 1]];
    DependenciesRanBefore(p, cfg, s, path[i - 1], path[i]);
  }

  lemma StagesGrow<C>(p: Plan<C>, cfg: Config, s: State<C>, l: Label<C>, s': State<C>, c: C)
    requires Sized(p, s) && Sized(p, s') && Next(p, cfg, s, l, s') && c in p.deps
    requires l.SeedOne? && s.main.Seeding? && s.main.k < |p.order| ==> s.job[p.order[s.main.k]] == NotPushed
    requires l.Push? && l.c in s.job && s.job[l.c].Pushing? && s.job[l.c].next in s.job ==> s.job[s.job[l.c].next] == NotPushed
    ensures Stage(s.job[c]) <= Stage(s'.job[c])
    ensures l == Begin(c) ==> Stage(s.job[c]) == 1 < Stage(s'.job[c])
  {
    if Continues(l) {
      ContinuingTask(p, cfg, s, l, s');
    } else if Loops(l) {
      LoopingMain(p, cfg, s, l, s');
    } else {
      GentlePushing(p, s, l, s');
    }
  }

  ghost function StageAt<C>(s: State<C>, c: C): nat
  {
    if c in s.job then Stage(s.job[c]) else 0
  }

  lemma StagesGrowAt<C>(p: Plan<C>, cfg: Config, states: seq<State<C>>, labels: seq<Label<C>>, i: nat, c: C)
    requires 0 < i < |states| == |labels| + 1 && c in p.deps
    requires InvAt(p, cfg, states, i - 1) && FollowsAt(p, cfg, states, labels, i)
    ensures StageAt(states[i - 1], c) <= StageAt(states[i], c)
    ensures labels[i - 1] == Begin(c) ==> StageAt(states[i - 1], c) == 1 < StageAt(states[i], c)
  {
    var s, l, s' := states[i - 1], labels[i - 1], states[i];
    SizedStep(p, cfg, s, l, s');
    PushedIsNew(p, cfg, s, l, s');
    StagesGrow(p, cfg, s, l, s', c);
  }

  ghost predicate StageStepAt<C>(states: seq<State<C>>, labels: seq<Label<C>>, c: C, i: nat)
    requires 0 < i < |states| == |labels| + 1
  {
    && StageAt(states[i - 1], c) <= StageAt(states[i], c)
    && (labels[i - 1] == Begin(c) ==> StageAt(states[i - 1], c) == 1 < StageAt(states[i], c))
  }

  lemma StagesGrowAlong<C>(p: Plan<C>, cfg: Config, disk: Disk, states: seq<State<C>>, labels: seq<Label<C>>, c: C)
    requires WellFormed(p) && IsRun(p, cfg, disk, states, labels) && c in p.deps
    ensures |states| == |labels| + 1
    ensures forall i {:trigger StageStepAt(states, labels, c, i)} | 0 < i < |states| :: StageStepAt(states, labels, c, i)
  {
    RunKeepsInvariant(p, cfg, disk, states, labels);
    forall i | 0 < i < |states|
      ensures StageStepAt(states, labels, c, i)
    {
      assert InvAt(p, cfg, states, i - 1) && FollowsAt(p, cfg, states, labels, i);
      StagesGrowAt(p, cfg, states, labels, i, c);
    }
  }

  lemma {:induction false} StagesGrowBetween<C>(states: seq<State<C>>, labels: seq<Label<C>>, c: C, i: nat, k: nat)
    requires i <= k < |states| == |labels| + 1
    requires forall i {:trigger StageStepAt(states, labels, c, i)} | 0 < i < |states| :: StageStepAt(states, labels, c, i)
    ensures StageAt(states[i], c) <= StageAt(states[k], c)
    decreases k
  {
    if i < k {
      StagesGrowBetween(states, labels, c, i, k - 1);
      assert StageStepAt(states, labels, c, k);
    }
  }

  /** No command is run twice. */
  lemma RunsAtMostOnce<C>(p: Plan<C>, cfg: Config, disk: Disk, states: seq<State<C>>, labels: seq<Label<C>>,
                          c: C, i: nat, k: nat)
    requires WellFormed(p) && IsRun(p, cfg, disk, states, labels) && i < k < |labels|
    requires c in p.deps && labels[i] == Begin(c)
    ensures labels[k] != Begin(c)
  {
    StagesGrowAlong(p, cfg, disk, states, labels, c);
    BeginsOnce(states, labels, c, i, k);
  }

  lemma BeginsOnce<C>(states: seq<State<C>>, labels: seq<Label<C>>, c: C, i: nat, k: nat)
    requires i < k < |labels| && |states| == |labels| + 1 && labels[i] == Begin(c)
    requires forall i {:trigger StageStepAt(states, labels, c, i)} | 0 < i < |states| :: StageStepAt(states, labels, c, i)
    ensures labels[k] != Begin(c)
  {
    assert StageStepAt(states, labels, c, i + 1);
    StagesGrowBetween(states, labels, c, i + 1, k);
    assert StageStepAt(states, labels, c, k + 1);
  }

  /** The plan is stopped exactly from failure number max(1, skip_errors) on,
      leaving aside failures whose task has not stored the flag yet. */
  lemma StoppedFromThreshold<C>(p: Plan<C>, cfg: Config, s: State<C>)
    requires Inv(p, cfg, s) && !cfg.timeLimit
    requires forall c | c in p.deps :: !s.job[c].Failing?
    ensures s.stopped <==> |FailedSet(s)| >= Threshold(cfg)
  {
  }

  /** Without time limit and interrupt, and with no failed command, nothing is
      stopped or skipped. */
  lemma UndisturbedEndsWell<C>(p: Plan<C>, cfg: Config, s: State<C>, c: C)
    requires Sized(p, s) && Outcomes(p, cfg, s) && Errors(p, cfg, s)
    requires !cfg.timeLimit && !s.interrupted && FailedSet(s) == {} && c in p.deps
    ensures !s.stopped
    ensures s.job[c].Done? ==> s.job[c] == Done(Succeeded)
  {
    assert |FailedSet(s)| == 0;
    assert !Failed(s.job[c]) by {
      assert c !in FailedSet(s);
    }
    if s.job[c].Done? {
      var o := s.job[c].outcome;
      assert s.job[c] == Done(o) && (o.Succeeded? || o.Threw? || o.Tolerated? || o.Skipped?);
    }
  }

  /** A normal return of an undisturbed, throwing `execute`: every command ran
      without error. */
  lemma NormalReturnMeansAllSucceeded<C>(p: Plan<C>, cfg: Config, s: State<C>)
    requires Inv(p, cfg, s) && s.main == Returned(Normal)
    requires cfg.throwOnErrors && !cfg.timeLimit && !s.interrupted
    ensures forall c | c in p.deps :: s.job[c] == Done(Succeeded)
  {
    assert Reported(p, cfg, s) && Outcomes(p, cfg, s) && Errors(p, cfg, s);
    DoneWithoutThrowing(p, cfg, s);
  }

  lemma DoneWithoutThrowing<C>(p: Plan<C>, cfg: Config, s: State<C>)
    requires Sized(p, s) && Outcomes(p, cfg, s) && Errors(p, cfg, s)
    requires cfg.throwOnErrors && !cfg.timeLimit && !s.interrupted
    requires forall c | c in p.deps :: s.job[c].Done? && s.job[c] != Done(Threw)
    ensures forall c | c in p.deps :: s.job[c] == Done(Succeeded)
  {
    forall c | c in p.deps
      ensures !Failed(s.job[c])
    {
      assert Released(s.job[c]) ==> RanOk(s.job[c]);
    }
    assert FailedSet(s) == {};
    forall c | c in p.deps
      ensures s.job[c] == Done(Succeeded)
    {
      UndisturbedEndsWell(p, cfg, s, c);
    }
  }

  /** The first command, in the order they were found, that was never pushed. */
  lemma FirstUnpushed<C>(p: Plan<C>, job: map<C, Job<C>>, k: nat) returns (c: C)
    requires Linked(p) && IsTopological(p.deps, p.found) && job.Keys == p.deps.Keys
    requires k < |p.found| && p.found[k] in job && job[p.found[k]] == NotPushed
    ensures c in p.deps && job[c] == NotPushed
    ensures forall b | b in p.deps[c] :: b in p.deps && job[b] != NotPushed
  {
    c := p.found[k];
    if b :| b in p.deps[c] && job[b] == NotPushed {
      assert b in p.found[..k];
      var i :| 0 <= i < k && p.found[..k][i] == b;
      c := FirstUnpushed(p, job, i);
    }
  }

  /** When everything pushed has ended but something was never pushed, then some
      command threw or was skipped: no wake-up is lost. */
  lemma StuckHasCause<C>(p: Plan<C>, cfg: Config, s: State<C>) returns (b: C)
    requires Inv(p, cfg, s) && Stuck(p, cfg, s) && !s.main.Seeding?
    ensures b in p.deps && (s.job[b] == Done(Threw) || s.job[b] == Done(Skipped))
  {
    var d := SomeUnpushed(p, s);
    var k := FoundAt(p, d);
    var c := FirstUnpushed(p, s.job, k);
    b := CauseBelow(p, s, c);
  }

  lemma SomeUnpushed<C>(p: Plan<C>, s: State<C>) returns (d: C)
    requires Linked(p) && Ordered(p) && Sized(p, s) && Queue(p, s) && |s.all| < |p.order|
    ensures d in p.deps && s.job[d] == NotPushed
  {
    CardinalityOfElements(s.all);
    CardinalityOfElements(p.order);
    if p.deps.Keys <= Elements(s.all) {
      SubsetCardinality(Elements(p.order), Elements(s.all));
      assert false;
    }
    d :| d in p.deps && d !in Elements(s.all);
  }

  lemma FoundAt<C>(p: Plan<C>, d: C) returns (k: nat)
    requires IsTopological(p.deps, p.found) && d in p.deps
    ensures k < |p.found| && p.found[k] == d
  {
    assert d in Elements(p.found);
    k :| 0 <= k < |p.found| && p.found[k] == d;
  }

  lemma CauseBelow<C>(p: Plan<C>, s: State<C>, c: C) returns (b: C)
    requires Linked(p) && Sized(p, s) && Counters(p, s.left, s.job) && Pushers(p, s.left, s.job) && Seeded(p, s) && Queue(p, s)
    requires c in p.deps && s.job[c] == NotPushed && !s.main.Seeding?
    requires forall b | b in p.deps[c] :: b in p.deps && s.job[b] != NotPushed
    requires forall b | b in s.all :: s.job[b].Done?
    ensures b in p.deps && (s.job[b] == Done(Threw) || s.job[b] == Done(Skipped))
  {
    UnpushedIsOwed(p, s, c);
    b :| b in Waits(p, s.job, c);
    assert b in s.all && s.job[b].Done? && c in Owed(p, s.job[b], b);
    var o := s.job[b].outcome;
    assert s.job[b] == Done(o) && (o.Succeeded? || o.Threw? || o.Tolerated? || o.Skipped?);
  }

  /** A counter at zero would mean that some task is about to push. */
  lemma UnpushedIsOwed<C>(p: Plan<C>, s: State<C>, c: C)
    requires Linked(p) && Sized(p, s) && Counters(p, s.left, s.job) && Pushers(p, s.left, s.job) && Seeded(p, s) && Queue(p, s)
    requires c in p.deps && s.job[c] == NotPushed && !s.main.Seeding?
    requires forall b | b in s.all :: s.job[b].Done?
    ensures Waits(p, s.job, c) != {}
  {
    assert p.deps[c] != {};
    assert Aimers(p, s.job, c) == {};
    assert s.left[c] != 0;
    assert |Waits(p, s.job, c)| != 0;
  }

  /** No lost wake-up: undisturbed and without failures, the loop is left only
      when every command has been waited for, and `execute` returns normally
      with every command done.  In particular "Executor did not perform all
      steps" and "No commands without deps" are out of reach. */
  lemma NoLostWakeup<C>(p: Plan<C>, cfg: Config, s: State<C>)
    requires Inv(p, cfg, s) && !cfg.timeLimit && !s.interrupted && FailedSet(s) == {}
    ensures s.main == Leaving ==> s.waited == |p.order|
    ensures s.main.Returned? ==> s.main == Returned(Normal) && forall c | c in p.deps :: s.job[c] == Done(Succeeded)
  {
    if s.main.Leaving? || s.main.Returned? {
      if Stuck(p, cfg, s) {
        var b := StuckHasCause(p, cfg, s);
        UndisturbedEndsWell(p, cfg, s, b);
        assert false;
      }
    }
    ReturnIsNormal(p, cfg, s);
  }

  lemma ReturnIsNormal<C>(p: Plan<C>, cfg: Config, s: State<C>)
    requires Linked(p) && Sized(p, s) && Errors(p, cfg, s) && Outcomes(p, cfg, s) && Reported(p, cfg, s)
    requires !cfg.timeLimit && !s.interrupted && FailedSet(s) == {}
    requires s.main.Leaving? || s.main.Returned? ==> !Stuck(p, cfg, s)
    ensures s.main == Leaving ==> s.waited == |p.order|
    ensures s.main.Returned? ==> s.main == Returned(Normal) && forall c | c in p.deps :: s.job[c] == Done(Succeeded)
  {
    forall c | c in p.deps
      ensures s.job[c].Done? ==> s.job[c] == Done(Succeeded)
    {
      UndisturbedEndsWell(p, cfg, s, c);
    }
    assert !s.stopped;
  }
}
