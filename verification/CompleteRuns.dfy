/** Runs of `execute` in which nothing goes wrong: every plan has one, so the theorems
    about complete runs speak of something. */
module CompleteRuns {
  import opened Graphs
  import opened Scheduler
  import opened SchedulerSafety
  import opened SchedulerTheorems
  import opened SchedulerProgress
  import opened ParallelBuild

  /** No command has failed and nobody has interrupted. */
  ghost predicate Calm<C>(s: State<C>)
  {
    FailedSet(s) == {} && !s.interrupted
  }

  lemma CalmTask<C>(p: Plan<C>, cfg: Config, s: State<C>, c: C, s': State<C>)
    requires Sized(p, s) && GoesOn(p, cfg, s, c, s') && FailsNoMore(cfg, s, c, s') && Calm(s)
    ensures Calm(s')
  {
    FailedSetKept(s, s');
  }

  lemma CalmStep<C>(p: Plan<C>, cfg: Config, s: State<C>, l: Label<C>, s': State<C>)
    requires Inv(p, cfg, s) && Next(p, cfg, s, l, s') && Calm(s) && !l.Fail? && !l.Interrupt?
    ensures Calm(s')
  {
    if Continues(l) {
      assert l.c !in FailedSet(s);
      ContinuingTask(p, cfg, s, l, s');
      CalmTask(p, cfg, s, l.c, s');
    } else if Loops(l) {
      LoopingMain(p, cfg, s, l, s');
    } else {
      PushedIsNew(p, cfg, s, l, s');
      GentleStep(p, cfg, s, l, s');
      FailedSetKept(s, s');
    }
  }

  lemma OneMore<C>(p: Plan<C>, cfg: Config, s: State<C>, l: Label<C>, states: seq<State<C>>, labels: seq<Label<C>>)
    requires Steps(p, cfg, states, labels) && Follows(p, cfg, s, l, states[0])
    ensures Steps(p, cfg, [s] + states, [l] + labels)
  {
    var more, with := [s] + states, [l] + labels;
    forall i | 0 < i < |more|
      ensures FollowsAt(p, cfg, more, with, i)
    {
      if i > 1 {
        assert FollowsAt(p, cfg, states, labels, i - 1);
        assert more[i - 1] == states[i - 2] && more[i] == states[i - 1] && with[i - 1] == labels[i - 2];
      }
    }
  }

  /** From any calm state on, `execute` can come to its end calmly. */
  lemma {:induction false} CanReturn<C>(p: Plan<C>, cfg: Config, s: State<C>) returns (states: seq<State<C>>, labels: seq<Label<C>>)
    requires Inv(p, cfg, s) && Calm(s)
    ensures Steps(p, cfg, states, labels) && states[0] == s
    ensures Inv(p, cfg, states[|labels|]) && Calm(states[|labels|]) && states[|labels|].main.Returned?
    decreases Measure(p, s)
  {
    if s.main.Returned? {
      return [s], [];
    }
    var l, s' := CanStep(p, cfg, s);
    InvariantStep(p, cfg, s, l, s');
    CalmStep(p, cfg, s, l, s');
    MeasureIsNatural(p, cfg, s);
    StepShrinks(p, cfg, s, l, s');
    states, labels := CanReturn(p, cfg, s');
    OneMore(p, cfg, s, l, states, labels);
    states, labels := [s] + states, [l] + labels;
  }

  lemma AllSucceeded<C>(p: Plan<C>, cfg: Config, s: State<C>)
    requires Inv(p, cfg, s) && Calm(s) && s.main.Returned? && !cfg.timeLimit
    ensures s.main == Returned(Normal) && s.job == map c | c in p.deps :: Done(Succeeded)
  {
    NoLostWakeup(p, cfg, s);
    AllTheSame(p.deps.Keys, s.job);
  }

  lemma AllTheSame<C>(commands: set<C>, job: map<C, Job<C>>)
    requires job.Keys == commands && forall c | c in commands :: job[c] == Done(Succeeded)
    ensures job == map c | c in commands :: Done(Succeeded)
  {
  }

  /** Every plan has a complete run: it returns normally with every command run, and
      leaves the files of the sequential build. */
  lemma CompleteRunExists<C>(p: Plan<C>, cfg: Config, disk: Disk) returns (states: seq<State<C>>, labels: seq<Label<C>>)
    requires WellFormed(p) && FilesOrdered(p) && !cfg.timeLimit
    ensures IsRun(p, cfg, disk, states, labels)
    ensures states[|labels|].main == Returned(Normal)
    ensures states[|labels|].job == map c | c in p.deps :: Done(Succeeded)
    ensures states[|labels|].disk == Sequential(p, p.found, disk)
  {
    StartHasInvariant(p, cfg, disk);
    var s := Start(p, cfg, disk);
    assert FailedSet(s) == {};
    states, labels := CanReturn(p, cfg, s);
    AllSucceeded(p, cfg, states[|labels|]);
    ParallelEqualsSequential(p, cfg, disk, states, labels, p.found);
  }
}
