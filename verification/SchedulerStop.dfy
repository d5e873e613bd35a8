/** What a set stop or interrupt flag does to a run of `execute`. */
module SchedulerStops {
  import opened Common
  import opened Graphs
  import opened Scheduler
  import opened SchedulerSafety
  import opened SchedulerTheorems

  /** The plan is to come to its end. */
  ghost predicate Halted<C>(s: State<C>)
  {
    s.stopped || s.interrupted
  }

  ghost predicate Waiting<C>(j: Job<C>)
  {
    j.NotPushed? || j.Queued?
  }

  ghost predicate Unstarted<C>(j: Job<C>)
  {
    j.NotPushed? || j.Queued? || j == Done(Skipped)
  }

  /** A step in which the command does something. */
  ghost predicate ActsOn<C>(l: Label<C>, c: C)
  {
    (l.Read? || l.Write? || l.Reuse? || l.Succeed? || l.Fail?) && l.c == c
  }

  lemma HaltedStays<C>(p: Plan<C>, cfg: Config, s: State<C>, l: Label<C>, s': State<C>)
    requires Inv(p, cfg, s) && Next(p, cfg, s, l, s') && Halted(s)
    ensures Halted(s')
  {
    if Continues(l) {
      ContinuingTask(p, cfg, s, l, s');
    } else {
      PushedIsNew(p, cfg, s, l, s');
      GentleStep(p, cfg, s, l, s');
    }
  }

  lemma TaskStartsNothing<C>(p: Plan<C>, cfg: Config, s: State<C>, l: Label<C>, s': State<C>)
    requires Sized(p, s) && TaskNext(p, cfg, s, l, s') && Halted(s) && l.c in s.job && Unstarted(s.job[l.c])
    ensures l.Begin? && l.c in s'.job && s'.job[l.c] == Done(Skipped)
  {
  }

  lemma GentleStartsNothing<C>(s: State<C>, s': State<C>, c: C)
    requires Gentle(s, s') && c in s.job && Unstarted(s.job[c])
    ensures Unstarted(s'.job[c])
  {
  }

  lemma StepStartsNothing<C>(p: Plan<C>, cfg: Config, s: State<C>, l: Label<C>, s': State<C>, c: C)
    requires Inv(p, cfg, s) && Next(p, cfg, s, l, s') && Sized(p, s') && Halted(s)
    requires c in p.deps && Unstarted(s.job[c])
    ensures Unstarted(s'.job[c]) && !ActsOn(l, c)
  {
    if Continues(l) {
      ContinuingTask(p, cfg, s, l, s');
      if l.c == c { TaskStartsNothing(p, cfg, s, l, s'); }
    } else {
      PushedIsNew(p, cfg, s, l, s');
      GentleStep(p, cfg, s, l, s');
      GentleStartsNothing(s, s', c);
    }
  }

  ghost predicate UnstartedAt<C>(states: seq<State<C>>, c: C, i: nat)
    requires i < |states|
  {
    c in states[i].job && Unstarted(states[i].job[c]) && Halted(states[i])
  }

  lemma UnstartedFollows<C>(p: Plan<C>, cfg: Config, states: seq<State<C>>, labels: seq<Label<C>>, c: C, i: nat)
    requires 0 < i < |states| == |labels| + 1
    requires InvAt(p, cfg, states, i - 1) && FollowsAt(p, cfg, states, labels, i) && UnstartedAt(states, c, i - 1)
    ensures UnstartedAt(states, c, i) && !ActsOn(labels[i - 1], c)
  {
    SizedStep(p, cfg, states[i - 1], labels[i - 1], states[i]);
    HaltedStays(p, cfg, states[i - 1], labels[i - 1], states[i]);
    StepStartsNothing(p, cfg, states[i - 1], labels[i - 1], states[i], c);
  }

  lemma {:induction false} UnstartedAlong<C>(p: Plan<C>, cfg: Config, states: seq<State<C>>, labels: seq<Label<C>>,
                                             c: C, i: nat, k: nat)
    requires Steps(p, cfg, states, labels) && AlwaysInv(p, cfg, states) && i <= k < |states| && UnstartedAt(states, c, i)
    ensures UnstartedAt(states, c, k)
    decreases k
  {
    if i < k {
      UnstartedAlong(p, cfg, states, labels, c, i, k - 1);
      assert InvAt(p, cfg, states, k - 1) && FollowsAt(p, cfg, states, labels, k);
      UnstartedFollows(p, cfg, states, labels, c, k);
    }
  }

  lemma UnstartedIsIdle<C>(p: Plan<C>, cfg: Config, states: seq<State<C>>, labels: seq<Label<C>>, c: C, i: nat, j: nat)
    requires Steps(p, cfg, states, labels) && AlwaysInv(p, cfg, states) && i <= j < |labels| && UnstartedAt(states, c, i)
    ensures !ActsOn(labels[j], c)
  {
    UnstartedAlong(p, cfg, states, labels, c, i, j);
    assert InvAt(p, cfg, states, j) && FollowsAt(p, cfg, states, labels, j + 1);
    UnstartedFollows(p, cfg, states, labels, c, j + 1);
  }

  /** Once the plan is stopped or interrupted, a command that has not started never will:
      it reads, writes and decides nothing, in any interleaving. */
  lemma HaltedStartsNothing<C>(p: Plan<C>, cfg: Config, disk: Disk, states: seq<State<C>>, labels: seq<Label<C>>,
                               i: nat, k: nat, c: C)
    requires WellFormed(p) && IsRun(p, cfg, disk, states, labels) && i <= k < |states|
    requires (states[i].stopped || states[i].interrupted) && c in states[i].job && Waiting(states[i].job[c])
    ensures c in states[k].job && Unstarted(states[k].job[c])
    ensures forall j | i <= j < k :: !ActsOn(labels[j], c)
  {
    RunKeepsInvariant(p, cfg, disk, states, labels);
    UnstartedAlong(p, cfg, states, labels, c, i, k);
    forall j | i <= j < k
      ensures !ActsOn(labels[j], c)
    {
      UnstartedIsIdle(p, cfg, states, labels, c, i, j);
    }
  }

  // ---- what halts a plan ----

  /** The plan is halted right after a finish past the time limit, an interrupt, and the
      settling of the failure that is one too many. */
  lemma HaltingSteps<C>(p: Plan<C>, cfg: Config, s: State<C>, l: Label<C>, s': State<C>)
    requires Inv(p, cfg, s) && Next(p, cfg, s, l, s')
    ensures l == Interrupt ==> Halted(s')
    ensures l.Finish? && l.late ==> Halted(s')
    ensures l.Settle? && |FailedSet(s)| >= Threshold(cfg) && (forall c | c in p.deps && c != l.c :: !s.job[c].Failing?) ==>
              Halted(s')
  {
    if l.Settle? {
      SettlingHalts(p, cfg, s, l.c, s');
    }
  }

  lemma SettlingHalts<C>(p: Plan<C>, cfg: Config, s: State<C>, c: C, s': State<C>)
    requires Sized(p, s) && Errors(p, cfg, s) && Settles(p, cfg, s, c, s')
    ensures |FailedSet(s)| >= Threshold(cfg) && (forall d | d in p.deps && d != c :: !s.job[d].Failing?) ==> s'.stopped
  {
  }

  // ---- the calling thread ----

  /** The thread is inside its last round or past it. */
  ghost predicate LastRound<C>(s: State<C>)
  {
    (s.main.Waiting? || s.main.Leaving? || s.main.Returned?) && Halted(s)
  }

  lemma LoopGoesOut<C>(p: Plan<C>, cfg: Config, s: State<C>, l: Label<C>, s': State<C>)
    requires Sized(p, s) && LoopNext(p, cfg, s, l, s') && Halted(s)
    ensures l.Snapshot? || s.main.Waiting? || s.main.Leaving? || s.main.Returned? ==>
              s'.main.Waiting? || s'.main.Leaving? || s'.main.Returned?
    ensures s.main.Waiting? || s.main.Leaving? || s.main.Returned? ==> !l.Snapshot?
  {
  }

  lemma LastRoundFollows<C>(p: Plan<C>, cfg: Config, s: State<C>, l: Label<C>, s': State<C>)
    requires Inv(p, cfg, s) && Next(p, cfg, s, l, s') && Halted(s) && (l.Snapshot? || LastRound(s))
    ensures LastRound(s') && (LastRound(s) ==> !l.Snapshot?)
  {
    HaltedStays(p, cfg, s, l, s');
    if Continues(l) {
      ContinuingTask(p, cfg, s, l, s');
    } else if Loops(l) {
      LoopGoesOut(p, cfg, s, l, s');
    }
  }

  ghost predicate LastRoundAt<C>(states: seq<State<C>>, i: nat)
    requires i < |states|
  {
    LastRound(states[i])
  }

  lemma {:induction false} LastRoundStays<C>(p: Plan<C>, cfg: Config, states: seq<State<C>>, labels: seq<Label<C>>, i: nat, k: nat)
    requires Steps(p, cfg, states, labels) && AlwaysInv(p, cfg, states) && i <= k < |states| && LastRoundAt(states, i)
    ensures LastRoundAt(states, k)
    decreases k
  {
    if i < k {
      LastRoundStays(p, cfg, states, labels, i, k - 1);
      assert InvAt(p, cfg, states, k - 1) && FollowsAt(p, cfg, states, labels, k);
      LastRoundFollows(p, cfg, states[k - 1], labels[k - 1], states[k]);
    }
  }

  /** Once the plan is stopped or interrupted, the calling thread takes at most one more
      batch of futures to wait for. */
  lemma HaltedTakesOneBatch<C>(p: Plan<C>, cfg: Config, disk: Disk, states: seq<State<C>>, labels: seq<Label<C>>,
                               i: nat, j: nat, k: nat)
    requires WellFormed(p) && IsRun(p, cfg, disk, states, labels) && i <= j < k < |labels|
    requires Halted(states[i]) && labels[j] == Snapshot
    ensures labels[k] != Snapshot
  {
    RunKeepsInvariant(p, cfg, disk, states, labels);
    HaltedAlong(p, cfg, states, labels, i, j);
    assert InvAt(p, cfg, states, j) && FollowsAt(p, cfg, states, labels, j + 1);
    LastRoundFollows(p, cfg, states[j], labels[j], states[j + 1]);
    LastRoundStays(p, cfg, states, labels, j + 1, k);
    assert InvAt(p, cfg, states, k) && FollowsAt(p, cfg, states, labels, k + 1);
    LastRoundFollows(p, cfg, states[k], labels[k], states[k + 1]);
  }

  lemma {:induction false} HaltedAlong<C>(p: Plan<C>, cfg: Config, states: seq<State<C>>, labels: seq<Label<C>>, i: nat, k: nat)
    requires Steps(p, cfg, states, labels) && AlwaysInv(p, cfg, states) && i <= k < |states| && Halted(states[i])
    ensures Halted(states[k])
    decreases k
  {
    if i < k {
      HaltedAlong(p, cfg, states, labels, i, k - 1);
      assert InvAt(p, cfg, states, k - 1) && FollowsAt(p, cfg, states, labels, k);
      HaltedStays(p, cfg, states[k - 1], labels[k - 1], states[k]);
    }
  }

  // ---- what is reported ----

  /** The result of execute: an exception of a command goes before everything else, then a
      complete count, then the time limit, then the interrupt. */
  lemma ResultIs<C>(p: Plan<C>, cfg: Config, s: State<C>, late: bool, s': State<C>)
    requires Inv(p, cfg, s) && Gathers(p, cfg, s, late, s')
    ensures s'.main.Returned?
    ensures var r := s'.main.result;
            var threw := cfg.throwOnErrors && exists c :: c in p.deps && s.job[c] == Done(Threw);
            && (threw <==> r == CommandsFailed)
            && (r == Normal ==> forall c | c in p.deps :: s.job[c].Done?)
            && (!threw && s.waited == |p.deps| ==> r == Normal)
            && (!threw && s.waited != |p.deps| && late && s.stopped ==> r == TimeLimitExceeded)
            && (!threw && s.waited != |p.deps| && s.interrupted && !late ==> r == Interrupted)
            && (!threw && s.waited != |p.deps| && !s.stopped && !s.interrupted ==> r == NotAllSteps)
  {
    CardinalityOfElements(p.order);
    if s.waited == |p.order| { AllWaitedFor(p, cfg, s); }
  }

  lemma AllWaitedFor<C>(p: Plan<C>, cfg: Config, s: State<C>)
    requires Inv(p, cfg, s) && s.waited == |p.order|
    ensures forall c | c in p.deps :: s.job[c].Done?
  {
    CardinalityOfElements(p.order);
    CardinalityOfElements(s.all);
    SubsetCardinality(Elements(s.all), p.deps.Keys);
  }
}
