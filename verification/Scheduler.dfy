/** ExecutionPlan::execute (src/sw/builder/execution_plan.cpp:45-180) as a
    transition system: worker threads run the task of one command each, the
    calling thread seeds, waits and reports.  One label is one step that other
    threads can observe; any interleaving of enabled labels is a run. */
module Scheduler {
  import opened Common
  import opened Graphs

  type Content = string
  type Disk = map<Path, Content>

  /** What a command has read: a missing file reads as None. */
  type View = map<Path, Option<Content>>

  function Get(disk: Disk, p: Path): Option<Content>
  {
    if p in disk then Some(disk[p]) else None
  }

  function ViewOf(disk: Disk, files: set<Path>): View
  {
    map p | p in files :: Get(disk, p)
  }

  /** The files a command declares, and the contents it writes for what it read. */
  datatype Action = Action(inputs: set<Path>, outputs: set<Path>, run: (View, Path) -> Content)

  /** What `init` leaves behind: the sorted commands, the order they were found
      in, the edges and the reverse edges. */
  datatype Plan<C(==)> = Plan(
    order: seq<C>,
    found: seq<C>,
    deps: map<C, set<C>>,
    dependents: map<C, set<C>>,
    actions: map<C, Action>)

  /** Edges stay inside the plan and the reverse edges are their inverse. */
  ghost predicate Linked<C>(p: Plan<C>)
  {
    && p.deps.Keys == p.dependents.Keys == p.actions.Keys
    && (forall c, d {:trigger d in p.deps[c]} | c in p.deps && d in p.deps[c] :: d in p.deps && c in p.dependents[d])
    && (forall c, d {:trigger d in p.dependents[c]} | c in p.deps && d in p.dependents[c] :: d in p.deps && c in p.deps[d])
  }

  /** Every command once, those without dependencies first. */
  ghost predicate Ordered<C>(p: Plan<C>)
  {
    && NoDuplicates(p.order)
    && (forall i | 0 <= i < |p.order| :: p.order[i] in p.deps)
    && Elements(p.order) == p.deps.Keys
    && (forall i, j | 0 <= i < j < |p.order| && p.deps[p.order[j]] == {} :: p.deps[p.order[i]] == {})
  }

  ghost predicate WellFormed<C>(p: Plan<C>)
  {
    Linked(p) && Ordered(p) && IsTopological(p.deps, p.found)
  }

  /** Prepare's guarantees about files, without simultaneous outputs. */
  ghost predicate FilesOrdered<C>(p: Plan<C>)
    requires Linked(p)
  {
    && (forall a, b, q | a in p.deps && b in p.deps && q in p.actions[a].outputs && q in p.actions[b].outputs :: a == b)
    && (forall g, c, q | g in p.deps && c in p.deps && q in p.actions[g].outputs && q in p.actions[c].inputs :: g in p.deps[c])
  }

  datatype Config = Config(skipErrors: int, throwOnErrors: bool, timeLimit: bool)

  datatype Outcome = Succeeded | Threw | Tolerated | Skipped

  /** Where the task of one command is.  `todo` are the dependent commands whose
      counter the task has still to decrement, `next` the one it has brought to
      zero and is about to push. */
  datatype Job<C(==)> =
    | NotPushed
    | Queued
    | Running(view: View, written: set<Path>)
    | Failing(errorsLeft: int)
    | Releasing(ok: bool, todo: set<C>)
    | Pushing(ok: bool, todo: set<C>, next: C)
    | Done(outcome: Outcome)

  datatype Result =
    | Normal
    | CommandsFailed
    | TimeLimitExceeded
    | Interrupted
    | NotAllSteps
    | NoCommandsWithoutDependencies

  datatype Main<C(==)> =
    | Seeding(k: nat)
    | Choosing
    | Waiting(batch: seq<C>, k: nat)
    | Leaving
    | Returned(result: Result)

  datatype State<C(==)> = State(
    left: map<C, int>,
    job: map<C, Job<C>>,
    pending: seq<C>,
    all: seq<C>,
    stopped: bool,
    interrupted: bool,
    errorsLeft: int,
    waited: nat,
    main: Main<C>,
    disk: Disk)

  datatype Label<C(==)> =
    | SeedOne
    | SeedStop
    | Snapshot
    | Leave
    | WaitOne
    | EndBatch
    | Gather(late: bool)
    | Begin(c: C)
    | Read(c: C, path: Path)
    | Write(c: C, path: Path)
    | Reuse(c: C)
    | Succeed(c: C)
    | Fail(c: C, garbage: Disk)
    | Settle(c: C)
    | Release(c: C, d: C)
    | Push(c: C)
    | Finish(c: C, late: bool)
    | Interrupt

  ghost function Start<C>(p: Plan<C>, cfg: Config, disk: Disk): State<C>
  {
    State(
      map c | c in p.deps :: |p.deps[c]|,
      map c | c in p.deps :: NotPushed,
      [], [], false, false, cfg.skipErrors, 0,
      if p.order == [] then Returned(Normal) else Seeding(0),
      disk)
  }

  ghost predicate Sized<C>(p: Plan<C>, s: State<C>)
  {
    && s.job.Keys == s.left.Keys == p.deps.Keys == p.dependents.Keys == p.actions.Keys
    && (forall i | 0 <= i < |p.order| :: p.order[i] in p.deps)
    && (s.main.Seeding? ==> s.main.k <= |p.order|)
    && (s.main.Waiting? ==> s.main.k <= |s.main.batch| && forall c | c in s.main.batch :: c in p.deps)
    && (forall c | c in s.all :: c in p.deps)
    && (forall c | c in s.pending :: c in p.deps)
  }

  // ---- the calling thread ----

  ghost predicate SeedsOne<C>(p: Plan<C>, s: State<C>, s': State<C>)
    requires Sized(p, s)
  {
    && s.main.Seeding? && s.main.k < |p.order| && p.deps[p.order[s.main.k]] == {}
    && var c := p.order[s.main.k];
    s' == s.(job := s.job[c := Queued], pending := s.pending + [c], all := s.all + [c], main := Seeding(s.main.k + 1))
  }

  ghost predicate StopsSeeding<C>(p: Plan<C>, s: State<C>, s': State<C>)
    requires Sized(p, s)
  {
    && s.main.Seeding? && (s.main.k < |p.order| ==> p.deps[p.order[s.main.k]] != {})
    && s' == s.(main := if s.pending == [] then Returned(NoCommandsWithoutDependencies) else Choosing)
  }

  ghost predicate TakesSnapshot<C>(p: Plan<C>, s: State<C>, s': State<C>)
  {
    s.main.Choosing? && s.waited != |p.order| && s' == s.(main := Waiting(s.pending, 0), pending := [])
  }

  ghost predicate LeavesLoop<C>(p: Plan<C>, s: State<C>, s': State<C>)
  {
    s.main.Choosing? && s.waited == |p.order| && s' == s.(main := Leaving)
  }

  ghost predicate WaitsForOne<C>(p: Plan<C>, s: State<C>, s': State<C>)
    requires Sized(p, s)
  {
    && s.main.Waiting? && s.main.k < |s.main.batch| && s.job[s.main.batch[s.main.k]].Done?
    && s' == s.(main := Waiting(s.main.batch, s.main.k + 1), waited := s.waited + 1)
  }

  ghost predicate EndsBatch<C>(s: State<C>, s': State<C>)
  {
    && s.main.Waiting? && s.main.k == |s.main.batch|
    && s' == s.(main := if s.stopped || s.main.batch == [] || s.interrupted then Leaving else Choosing)
  }

  ghost predicate Gathers<C>(p: Plan<C>, cfg: Config, s: State<C>, late: bool, s': State<C>)
    requires Sized(p, s)
  {
    s.main.Leaving? && (late ==> cfg.timeLimit) && s' == s.(main := Returned(Report(p, cfg, s, late)))
  }

  /** What execute reports once the loop has been left. */
  ghost function Report<C>(p: Plan<C>, cfg: Config, s: State<C>, late: bool): Result
    requires Sized(p, s)
  {
    if cfg.throwOnErrors && exists c :: c in s.all && s.job[c] == Done(Threw) then CommandsFailed
    else if s.waited == |p.order| then Normal
    else if late && s.stopped then TimeLimitExceeded
    else if s.interrupted then Interrupted
    else NotAllSteps
  }

  // ---- the task of command c ----

  ghost predicate Begins<C>(s: State<C>, c: C, s': State<C>)
  {
    && c in s.job && s.job[c].Queued?
    && s' == s.(job := s.job[c := if s.stopped || s.interrupted then Done(Skipped) else Running(map[], {})])
  }

  /** The outputs of `c` hold what `c` makes of its inputs as they are. */
  ghost predicate UpToDate<C>(p: Plan<C>, disk: Disk, c: C)
    requires c in p.actions
  {
    var a := p.actions[c];
    forall q | q in a.outputs :: Get(disk, q) == Some(a.run(ViewOf(disk, a.inputs), q))
  }

  /** A command that is not outdated ends without running. */
  ghost predicate Reuses<C>(p: Plan<C>, s: State<C>, c: C, s': State<C>)
    requires Sized(p, s)
  {
    && c in s.job && s.job[c] == Running(map[], {}) && UpToDate(p, s.disk, c)
    && s' == s.(job := s.job[c := Releasing(true, p.dependents[c])])
  }

  ghost predicate Reads<C>(p: Plan<C>, s: State<C>, c: C, q: Path, s': State<C>)
    requires Sized(p, s)
  {
    && c in s.job && s.job[c].Running? && q in p.actions[c].inputs && q !in s.job[c].view
    && s' == s.(job := s.job[c := Running(s.job[c].view[q := Get(s.disk, q)], s.job[c].written)])
  }

  ghost predicate Writes<C>(p: Plan<C>, s: State<C>, c: C, q: Path, s': State<C>)
    requires Sized(p, s)
  {
    && c in s.job && s.job[c].Running? && s.job[c].view.Keys == p.actions[c].inputs
    && q in p.actions[c].outputs && q !in s.job[c].written
    && s' == s.(job := s.job[c := Running(s.job[c].view, s.job[c].written + {q})],
                disk := s.disk[q := p.actions[c].run(s.job[c].view, q)])
  }

  ghost predicate Succeeds<C>(p: Plan<C>, s: State<C>, c: C, s': State<C>)
    requires Sized(p, s)
  {
    && c in s.job && s.job[c].Running? && s.job[c].view.Keys == p.actions[c].inputs
    && s.job[c].written == p.actions[c].outputs
    && s' == s.(job := s.job[c := Releasing(true, p.dependents[c])])
  }

  /** A failing command may leave anything in its outputs. */
  ghost predicate Fails<C>(p: Plan<C>, s: State<C>, c: C, garbage: Disk, s': State<C>)
    requires Sized(p, s)
  {
    && c in s.job && s.job[c].Running? && garbage.Keys <= p.actions[c].outputs
    && s' == s.(job := s.job[c := Failing(s.errorsLeft - 1)], errorsLeft := s.errorsLeft - 1, disk := s.disk + garbage)
  }

  ghost predicate Settles<C>(p: Plan<C>, cfg: Config, s: State<C>, c: C, s': State<C>)
    requires Sized(p, s)
  {
    && c in s.job && s.job[c].Failing?
    && s' == s.(stopped := s.stopped || s.job[c].errorsLeft < 1,
                job := s.job[c := if cfg.throwOnErrors then Done(Threw) else Releasing(false, p.dependents[c])])
  }

  /** One atomic decrement of one dependent. */
  ghost predicate Releases<C>(s: State<C>, c: C, d: C, s': State<C>)
  {
    && c in s.job && s.job[c].Releasing? && d in s.job[c].todo && d in s.left
    && s' == s.(left := s.left[d := s.left[d] - 1],
                job := s.job[c := if s.left[d] == 1 then Pushing(s.job[c].ok, s.job[c].todo - {d}, d)
                                  else Releasing(s.job[c].ok, s.job[c].todo - {d})])
  }

  /** Under the mutex, which the calling thread holds while it seeds. */
  ghost predicate PushesNext<C>(s: State<C>, c: C, s': State<C>)
  {
    && c in s.job && s.job[c].Pushing? && s.job[c].next in s.job && !s.main.Seeding?
    && s' == s.(job := s.job[c := Releasing(s.job[c].ok, s.job[c].todo)][s.job[c].next := Queued],
                pending := s.pending + [s.job[c].next], all := s.all + [s.job[c].next])
  }

  ghost predicate Finishes<C>(cfg: Config, s: State<C>, c: C, late: bool, s': State<C>)
  {
    && c in s.job && s.job[c].Releasing? && s.job[c].todo == {} && (late ==> cfg.timeLimit)
    && s' == s.(job := s.job[c := Done(if s.job[c].ok then Succeeded else Tolerated)], stopped := s.stopped || late)
  }

  /** Begin, read, write, reuse, succeed, fail, settle, finish. */
  ghost predicate Continues<C>(l: Label<C>)
  {
    l.Begin? || l.Read? || l.Write? || l.Reuse? || l.Succeed? || l.Fail? || l.Settle? || l.Finish?
  }

  /** Snapshot, leave, wait, end of batch, gather. */
  ghost predicate Loops<C>(l: Label<C>)
  {
    l.Snapshot? || l.Leave? || l.WaitOne? || l.EndBatch? || l.Gather?
  }

  /** The task of a command goes on. */
  ghost predicate TaskNext<C>(p: Plan<C>, cfg: Config, s: State<C>, l: Label<C>, s': State<C>)
    requires Sized(p, s)
  {
    match l
    case Begin(c) => Begins(s, c, s')
    case Read(c, q) => Reads(p, s, c, q, s')
    case Write(c, q) => Writes(p, s, c, q, s')
    case Reuse(c) => Reuses(p, s, c, s')
    case Succeed(c) => Succeeds(p, s, c, s')
    case Fail(c, garbage) => Fails(p, s, c, garbage, s')
    case Settle(c) => Settles(p, cfg, s, c, s')
    case Finish(c, late) => Finishes(cfg, s, c, late, s')
    case _ => false
  }

  /** The calling thread goes on in or behind its loop. */
  ghost predicate LoopNext<C>(p: Plan<C>, cfg: Config, s: State<C>, l: Label<C>, s': State<C>)
    requires Sized(p, s)
  {
    match l
    case Snapshot => TakesSnapshot(p, s, s')
    case Leave => LeavesLoop(p, s, s')
    case WaitOne => WaitsForOne(p, s, s')
    case EndBatch => EndsBatch(s, s')
    case Gather(late) => Gathers(p, cfg, s, late, s')
    case _ => false
  }

  /** A command is seeded, released or pushed, or somebody interrupts. */
  ghost predicate PushNext<C>(p: Plan<C>, s: State<C>, l: Label<C>, s': State<C>)
    requires Sized(p, s)
  {
    match l
    case SeedOne => SeedsOne(p, s, s')
    case SeedStop => StopsSeeding(p, s, s')
    case Release(c, d) => Releases(s, c, d, s')
    case Push(c) => PushesNext(s, c, s')
    case Interrupt => !s.interrupted && s' == s.(interrupted := true)
    case _ => false
  }

  ghost predicate Next<C>(p: Plan<C>, cfg: Config, s: State<C>, l: Label<C>, s': State<C>)
    requires Sized(p, s)
  {
    if Continues(l) then TaskNext(p, cfg, s, l, s')
    else if Loops(l) then LoopNext(p, cfg, s, l, s')
    else PushNext(p, s, l, s')
  }

  /** The dependents of `b` that the task of `b` has not decremented yet. */
  ghost function Owed<C>(p: Plan<C>, j: Job<C>, b: C): set<C>
    requires b in p.dependents
  {
    match j
    case Releasing(_, todo) => todo
    case Pushing(_, todo, _) => todo
    case Done(Succeeded) => {}
    case Done(Tolerated) => {}
    case _ => p.dependents[b]
  }

  /** The task has run its command to an end that lets dependents go. */
  ghost predicate Released<C>(j: Job<C>)
  {
    j.Releasing? || j.Pushing? || j == Done(Succeeded) || j == Done(Tolerated)
  }

  /** The command of the task ran without error. */
  ghost predicate RanOk<C>(j: Job<C>)
  {
    (j.Releasing? && j.ok) || (j.Pushing? && j.ok) || j == Done(Succeeded)
  }

  ghost predicate Failed<C>(j: Job<C>)
  {
    j.Failing? || (j.Releasing? && !j.ok) || (j.Pushing? && !j.ok) || j == Done(Threw) || j == Done(Tolerated)
  }

  /** The dependencies of `d` that have still to do their decrement on `d`. */
  ghost function Waits<C>(p: Plan<C>, job: map<C, Job<C>>, d: C): set<C>
    requires Linked(p) && job.Keys == p.deps.Keys && d in p.deps
  {
    set b | b in p.deps[d] && d in Owed(p, job[b], b)
  }

  /** How far a task has come; no step takes a task back. */
  ghost function Stage<C>(j: Job<C>): nat
  {
    match j
    case NotPushed => 0
    case Queued => 1
    case Running(_, _) => 2
    case Failing(_) => 3
    case Releasing(_, _) => 4
    case Pushing(_, _, _) => 4
    case Done(_) => 5
  }

  // ---- the invariant ----

  ghost predicate Counters<C>(p: Plan<C>, left: map<C, int>, job: map<C, Job<C>>)
    requires Linked(p) && left.Keys == job.Keys == p.deps.Keys
  {
    && (forall b, d {:trigger d in Owed(p, job[b], b)} | b in p.deps && d in Owed(p, job[b], b) :: d in p.dependents[b])
    && (forall d {:trigger Waits(p, job, d)} | d in p.deps :: left[d] == |Waits(p, job, d)|)
  }

  /** The dependent, if any, whose counter this task has brought to zero and
      that it is about to push. */
  ghost function Aim<C>(j: Job<C>): set<C>
  {
    if j.Pushing? then {j.next} else {}
  }

  ghost function Aimers<C>(p: Plan<C>, job: map<C, Job<C>>, d: C): set<C>
    requires job.Keys == p.deps.Keys
  {
    set c | c in p.deps && d in Aim(job[c])
  }

  /** A counter at zero belongs to a command that was pushed, or that exactly one
      task is about to push; nothing is pushed before. */
  ghost predicate Pushers<C>(p: Plan<C>, left: map<C, int>, job: map<C, Job<C>>)
    requires left.Keys == job.Keys == p.deps.Keys == p.dependents.Keys
  {
    && (forall c, d {:trigger d in Aim(job[c])} | c in p.deps && d in Aim(job[c]) :: d in p.dependents[c])
    && (forall d | d in p.deps && job[d] != NotPushed :: left[d] == 0)
    && (forall d {:trigger Aimers(p, job, d)} | d in p.deps ::
          |Aimers(p, job, d)| == if p.deps[d] != {} && left[d] == 0 && job[d] == NotPushed then 1 else 0)
  }

  /** The commands without dependencies are pushed in order before the loop. */
  ghost predicate Seeded<C>(p: Plan<C>, s: State<C>)
    requires Linked(p) && Sized(p, s)
  {
    match s.main
    case Seeding(k) =>
      && s.all == s.pending == p.order[..k] && s.waited == 0
      && (forall i | 0 <= i < k :: p.deps[p.order[i]] == {})
      && p.order != []
    case _ => forall d | d in p.deps && p.deps[d] == {} :: s.job[d] != NotPushed
  }

  /** The number of futures waited for, and where every pushed one is. */
  ghost predicate Queue<C>(p: Plan<C>, s: State<C>)
    requires Linked(p) && Sized(p, s)
  {
    && NoDuplicates(s.all)
    && (forall c | c in p.deps :: s.job[c] != NotPushed <==> c in s.all)
    && s.waited <= |s.all|
    && (forall i | 0 <= i < s.waited :: s.job[s.all[i]].Done?)
    && (match s.main
        case Seeding(_) => true
        case Choosing => s.all[s.waited..] == s.pending
        case Waiting(batch, k) =>
          && k <= s.waited && s.all[s.waited - k..] == batch + s.pending
          && s.waited - k != |p.order|
          && (batch == [] ==> s.pending == [])
        case Leaving => s.all[s.waited..] == s.pending
        case Returned(r) => s.all[s.waited..] == s.pending)
  }

  ghost function FailedSet<C>(s: State<C>): set<C>
  {
    set c | c in s.job && Failed(s.job[c])
  }

  ghost function Threshold(cfg: Config): int
  {
    if cfg.skipErrors > 1 then cfg.skipErrors else 1
  }

  /** Every failure is counted, and the plan stops from failure number
      max(1, skip_errors) on. */
  ghost predicate Errors<C>(p: Plan<C>, cfg: Config, s: State<C>)
    requires Sized(p, s)
  {
    && s.errorsLeft == cfg.skipErrors - |FailedSet(s)|
    && (forall c | c in p.deps && s.job[c].Failing? :: s.errorsLeft <= s.job[c].errorsLeft < cfg.skipErrors)
    && (s.stopped ==> |FailedSet(s)| >= Threshold(cfg) || cfg.timeLimit)
    && (|FailedSet(s)| >= Threshold(cfg) ==>
          s.stopped || exists c :: c in p.deps && s.job[c].Failing? && s.job[c].errorsLeft < 1)
  }

  ghost predicate Outcomes<C>(p: Plan<C>, cfg: Config, s: State<C>)
    requires Sized(p, s)
  {
    && (cfg.throwOnErrors ==> forall c | c in p.deps :: Released(s.job[c]) ==> RanOk(s.job[c]))
    && (!cfg.throwOnErrors ==> forall c | c in p.deps :: s.job[c] != Done(Threw))
    && (forall c | c in p.deps && s.job[c] == Done(Skipped) :: s.stopped || s.interrupted)
  }

  ghost predicate InBounds<C>(p: Plan<C>, s: State<C>)
    requires Sized(p, s)
  {
    forall c | c in p.deps && s.job[c].Running? ::
      s.job[c].view.Keys <= p.actions[c].inputs && s.job[c].written <= p.actions[c].outputs
  }

  /** What execute's result says about the state it was computed in; tasks that
      have been waited for do not change any more. */
  ghost predicate Reported<C>(p: Plan<C>, cfg: Config, s: State<C>)
    requires Linked(p) && Sized(p, s)
  {
    match s.main
    case Returned(Normal) =>
      && s.waited == |p.order|
      && (forall c | c in p.deps :: s.job[c].Done?)
      && (cfg.throwOnErrors ==> forall c | c in p.deps :: s.job[c] != Done(Threw))
    case Returned(CommandsFailed) => cfg.throwOnErrors && exists c :: c in p.deps && s.job[c] == Done(Threw)
    case Returned(TimeLimitExceeded) => cfg.timeLimit && s.waited != |p.order|
    case Returned(Interrupted) => s.interrupted && s.waited != |p.order|
    case Returned(NotAllSteps) => s.waited != |p.order| && (s.stopped || s.interrupted || Stuck(p, cfg, s))
    case Returned(NoCommandsWithoutDependencies) => false
    case Leaving => s.waited != |p.order| ==> s.stopped || s.interrupted || Stuck(p, cfg, s)
    case _ => true
  }

  /** Everything that was pushed has ended, and it was not everything. */
  ghost predicate Stuck<C>(p: Plan<C>, cfg: Config, s: State<C>)
    requires Sized(p, s)
  {
    s.waited == |s.all| < |p.order| && forall c | c in s.all :: s.job[c].Done?
  }

  ghost predicate Inv<C>(p: Plan<C>, cfg: Config, s: State<C>)
  {
    && WellFormed(p) && Sized(p, s)
    && Counters(p, s.left, s.job) && Pushers(p, s.left, s.job) && Seeded(p, s) && Queue(p, s)
    && Errors(p, cfg, s) && Outcomes(p, cfg, s) && Reported(p, cfg, s) && InBounds(p, s)
  }
}
