/** Builds that decide by file times which commands to skip: any number of builds one
    after the other, complete or not, with changes to the files in between.  A command
    that is found not outdated is up to date, so that what is proved about builds that
    decide by contents holds for these. */
module TimedBuild {
  import opened Common
  import opened Bytes
  import opened Graphs
  import opened Scheduler
  import opened SchedulerSafety
  import opened SchedulerTheorems
  import opened ParallelBuild
  import opened FT = FileTimes
  import opened IncrementalCommands

  type Stat = FT.Disk
  type Actions<!C> = map<C, Action>

  /** A build under way: the executor, the times on the disk and those the session has
      seen, a time no earlier than all of these, and all times ever recorded for a command. */
  datatype Timed<C(==)> = Timed(run: State<C>, stat: Stat, seen: Times, clock: Time, past: set<(C, Time)>)

  function FilesOf(a: Action): set<Path>
  {
    a.inputs + a.outputs
  }

  /** The outputs hold what the command makes of its inputs as they are. */
  ghost predicate Makes(a: Action, disk: Scheduler.Disk)
  {
    forall q | q in a.outputs :: Get(disk, q) == Some(a.run(ViewOf(disk, a.inputs), q))
  }

  /** A file is as it was, or it is gone, or it has a later time than all before. */
  ghost predicate Stamped(before: Scheduler.Disk, stat: Stat, clock: Time, after: Scheduler.Disk, stat': Stat, clock': Time)
  {
    && clock <= clock'
    && forall q | IsRegular(stat', q) ::
         || (IsRegular(stat, q) && stat'[q] == stat[q] && Get(after, q) == Get(before, q))
         || clock < stat'[q].time <= clock'
  }

  /** The session keeps what it has seen or looks again. */
  ghost predicate Looks(seen: Times, stat: Stat, seen': Times)
  {
    && seen.Keys <= seen'.Keys
    && forall q | q in seen' :: (q in seen && seen'[q].time == seen[q].time) || seen'[q].time == DiskTime(stat, q)
  }

  /** By some time ever recorded for it, the command is not outdated. */
  ghost predicate NotOutdated<C>(p: Plan<C>, t: Timed<C>, c: C)
    requires c in p.actions
  {
    exists r :: r in t.past && r.0 == c && !AnyNewer(t.seen, t.stat, FilesOf(p.actions[c]), r.1)
  }

  ghost predicate Skips<C>(p: Plan<C>, t: Timed<C>, c: C, s': State<C>)
    requires Sized(p, t.run)
  {
    && c in t.run.job && t.run.job[c] == Running(map[], {}) && NotOutdated(p, t, c)
    && s' == t.run.(job := t.run.job[c := Releasing(true, p.dependents[c])])
  }

  /** The files whose times a step changes. */
  ghost function Touched<C>(p: Plan<C>, l: Label<C>): set<Path>
  {
    match l
    case Write(_, q) => {q}
    case Fail(c, _) => if c in p.actions then p.actions[c].outputs else {}
    case _ => {}
  }

  ghost predicate OnlyTouched<C>(p: Plan<C>, l: Label<C>, stat: Stat, stat': Stat)
  {
    forall q | q !in Touched(p, l) :: (q in stat' <==> q in stat) && (q in stat ==> stat'[q] == stat[q])
  }

  /** A command that succeeds looks at its outputs and records some time. */
  ghost predicate Records<C>(p: Plan<C>, l: Label<C>, t: Timed<C>, t': Timed<C>)
  {
    if l.Succeed? then
      && (exists m | m <= t'.clock :: t'.past == t.past + {(l.c, m)})
      && (l.c in p.actions ==>
            forall q | q in p.actions[l.c].outputs :: q in t'.seen && t'.seen[q].time == DiskTime(t'.stat, q))
    else t'.past == t.past
  }

  ghost predicate TimedNext<C>(p: Plan<C>, cfg: Config, t: Timed<C>, l: Label<C>, t': Timed<C>)
    requires Sized(p, t.run)
  {
    && (if l.Reuse? then Skips(p, t, l.c, t'.run) else Next(p, cfg, t.run, l, t'.run))
    && Stamped(t.run.disk, t.stat, t.clock, t'.run.disk, t'.stat, t'.clock)
    && OnlyTouched(p, l, t.stat, t'.stat)
    && Looks(t.seen, t'.stat, t'.seen)
    && Records(p, l, t, t')
  }

  // ---- recorded times can be trusted ----

  /** Whenever all files of a command are no newer than a time recorded for it, its
      outputs are what it makes of its inputs. */
  ghost predicate Trusted<C>(actions: Actions<C>, disk: Scheduler.Disk, stat: Stat, past: set<(C, Time)>)
  {
    forall r | r in past && r.0 in actions && AllCurrent(stat, FilesOf(actions[r.0]), r.1) :: Makes(actions[r.0], disk)
  }

  /** No time is later than the clock, and nothing was seen later than it is. */
  ghost predicate Timely<C>(t: Timed<C>)
  {
    && (forall r | r in t.past :: r.1 <= t.clock)
    && (forall q | IsRegular(t.stat, q) :: t.stat[q].time <= t.clock)
    && (forall q | q in t.seen :: t.seen[q].time <= t.clock)
    && (forall q | q in t.seen && IsRegular(t.stat, q) :: t.seen[q].time <= t.stat[q].time)
  }

  lemma OldFilesAreUnchanged(a: Action, before: Scheduler.Disk, stat: Stat, clock: Time,
                             after: Scheduler.Disk, stat': Stat, clock': Time, m: Time)
    requires Stamped(before, stat, clock, after, stat', clock') && m <= clock && AllCurrent(stat', FilesOf(a), m)
    ensures AllCurrent(stat, FilesOf(a), m)
    ensures Makes(a, before) ==> Makes(a, after)
  {
    assert forall q | q in FilesOf(a) :: Get(after, q) == Get(before, q);
    assert ViewOf(after, a.inputs) == ViewOf(before, a.inputs);
  }

  /** Whatever happens to the files, as long as it leaves its mark on their times. */
  lemma TrustedStays<C>(actions: Actions<C>, before: Scheduler.Disk, stat: Stat, clock: Time,
                        after: Scheduler.Disk, stat': Stat, clock': Time, past: set<(C, Time)>)
    requires Stamped(before, stat, clock, after, stat', clock') && Trusted(actions, before, stat, past)
    requires forall r | r in past :: r.1 <= clock
    ensures Trusted(actions, after, stat', past)
  {
    forall r | r in past && r.0 in actions && AllCurrent(stat', FilesOf(actions[r.0]), r.1)
      ensures Makes(actions[r.0], after)
    {
      OldFilesAreUnchanged(actions[r.0], before, stat, clock, after, stat', clock', r.1);
    }
  }

  lemma TimelyStays<C>(t: Timed<C>, t': Timed<C>)
    requires Timely(t) && Stamped(t.run.disk, t.stat, t.clock, t'.run.disk, t'.stat, t'.clock)
    requires Looks(t.seen, t'.stat, t'.seen)
    requires forall r | r in t'.past :: r in t.past || r.1 <= t'.clock
    ensures Timely(t')
  {
  }

  // ---- what the session has seen ----

  /** The command has written some of its outputs and will not have them looked at, or
      has not yet. */
  ghost predicate Unsettled<C>(j: Job<C>)
  {
    (j.Running? && j.written != {}) || Failed(j)
  }

  ghost predicate WriterUnsettled<C>(p: Plan<C>, s: State<C>, q: Path)
    requires Sized(p, s)
  {
    exists g :: g in p.actions && q in p.actions[g].outputs && Unsettled(s.job[g])
  }

  /** What was seen is what is there, but for outputs of commands that are not settled. */
  ghost predicate Accurate<C>(p: Plan<C>, t: Timed<C>)
    requires Sized(p, t.run)
  {
    forall q | q in t.seen :: t.seen[q].time == DiskTime(t.stat, q) || WriterUnsettled(p, t.run, q)
  }

  lemma UnsettledRunning<C>(p: Plan<C>, s: State<C>, l: Label<C>, s': State<C>)
    requires Sized(p, s) && Sized(p, s') && (l.Read? || l.Write? || l.Fail?) && l.c in p.deps && Unsettled(s.job[l.c])
    requires match l
             case Read(c, q) => Reads(p, s, c, q, s')
             case Write(c, q) => Writes(p, s, c, q, s')
             case Fail(c, garbage) => Fails(p, s, c, garbage, s')
             case _ => false
    ensures Unsettled(s'.job[l.c])
  {
  }

  lemma UnsettledTask<C>(p: Plan<C>, cfg: Config, s: State<C>, l: Label<C>, s': State<C>)
    requires Sized(p, s) && TaskNext(p, cfg, s, l, s') && Sized(p, s')
    requires l.c in p.deps && Unsettled(s.job[l.c]) && !l.Succeed?
    ensures Unsettled(s'.job[l.c])
  {
    if l.Read? || l.Write? || l.Fail? {
      UnsettledRunning(p, s, l, s');
    } else {
      ContinuingTask(p, cfg, s, l, s');
    }
  }

  lemma UnsettledStays<C>(p: Plan<C>, cfg: Config, s: State<C>, l: Label<C>, s': State<C>, g: C)
    requires Inv(p, cfg, s) && Next(p, cfg, s, l, s') && Sized(p, s')
    requires g in p.deps && Unsettled(s.job[g]) && l != Succeed(g)
    ensures Unsettled(s'.job[g])
  {
    if Continues(l) {
      ContinuingTask(p, cfg, s, l, s');
      if g == l.c { UnsettledTask(p, cfg, s, l, s'); }
    } else if Loops(l) {
      LoopingMain(p, cfg, s, l, s');
    } else {
      PushedIsNew(p, cfg, s, l, s');
      GentlePushing(p, s, l, s');
      GentleKeepsUnsettled(s, s', g);
    }
  }

  lemma GentleKeepsUnsettled<C>(s: State<C>, s': State<C>, g: C)
    requires Gentle(s, s') && g in s.job && Unsettled(s.job[g])
    ensures Unsettled(s'.job[g])
  {
  }

  lemma TouchedIsUnsettled<C>(p: Plan<C>, cfg: Config, s: State<C>, l: Label<C>, s': State<C>, q: Path)
    requires Sized(p, s) && Next(p, cfg, s, l, s') && Sized(p, s') && q in Touched(p, l)
    ensures WriterUnsettled(p, s', q)
  {
    assert l.c in p.actions && q in p.actions[l.c].outputs && Unsettled(s'.job[l.c]);
  }

  lemma WriterStays<C>(p: Plan<C>, cfg: Config, s: State<C>, l: Label<C>, s': State<C>, q: Path)
    requires Inv(p, cfg, s) && Next(p, cfg, s, l, s') && Sized(p, s') && WriterUnsettled(p, s, q)
    ensures WriterUnsettled(p, s', q) || (l.Succeed? && l.c in p.actions && q in p.actions[l.c].outputs)
  {
    var g :| g in p.actions && q in p.actions[g].outputs && Unsettled(s.job[g]);
    if l != Succeed(g) {
      UnsettledStays(p, cfg, s, l, s', g);
    }
  }

  lemma SeenStaysAccurate<C>(p: Plan<C>, t: Timed<C>, l: Label<C>, t': Timed<C>, q: Path)
    requires OnlyTouched(p, l, t.stat, t'.stat) && Looks(t.seen, t'.stat, t'.seen) && Records(p, l, t, t')
    requires q in t'.seen && t'.seen[q].time != DiskTime(t'.stat, q) && q !in Touched(p, l)
    ensures q in t.seen && t.seen[q].time != DiskTime(t.stat, q)
    ensures l.Succeed? && l.c in p.actions ==> q !in p.actions[l.c].outputs
  {
    assert DiskTime(t'.stat, q) == DiskTime(t.stat, q);
  }

  lemma AccurateStays<C>(p: Plan<C>, cfg: Config, t: Timed<C>, l: Label<C>, t': Timed<C>)
    requires Inv(p, cfg, t.run) && Next(p, cfg, t.run, l, t'.run) && Sized(p, t'.run) && Accurate(p, t)
    requires OnlyTouched(p, l, t.stat, t'.stat) && Looks(t.seen, t'.stat, t'.seen) && Records(p, l, t, t')
    ensures Accurate(p, t')
  {
    forall q | q in t'.seen && t'.seen[q].time != DiskTime(t'.stat, q)
      ensures WriterUnsettled(p, t'.run, q)
    {
      FileStaysAccurate(p, cfg, t, l, t', q);
    }
  }

  lemma FileStaysAccurate<C>(p: Plan<C>, cfg: Config, t: Timed<C>, l: Label<C>, t': Timed<C>, q: Path)
    requires Inv(p, cfg, t.run) && Next(p, cfg, t.run, l, t'.run) && Sized(p, t'.run) && Accurate(p, t)
    requires OnlyTouched(p, l, t.stat, t'.stat) && Looks(t.seen, t'.stat, t'.seen) && Records(p, l, t, t')
    requires q in t'.seen && t'.seen[q].time != DiskTime(t'.stat, q)
    ensures WriterUnsettled(p, t'.run, q)
  {
    if q in Touched(p, l) {
      TouchedIsUnsettled(p, cfg, t.run, l, t'.run, q);
    } else {
      SeenStaysAccurate(p, t, l, t', q);
      WriterStays(p, cfg, t.run, l, t'.run, q);
    }
  }

  lemma OkIsSettled<C>(j: Job<C>)
    requires RanOk(j)
    ensures !Unsettled(j)
  {
  }

  lemma NotStartedIsSettled<C>(j: Job<C>)
    requires j == Running(map[], {})
    ensures !Unsettled(j)
  {
  }

  lemma DependencyIsSettled<C>(p: Plan<C>, cfg: Config, s: State<C>, c: C, g: C)
    requires Inv(p, cfg, s) && cfg.throwOnErrors && c in p.deps && g in p.deps[c] && s.job[c] != NotPushed
    ensures g in p.deps && !Unsettled(s.job[g])
  {
    DependenciesRanBefore(p, cfg, s, c, g);
    OkIsSettled(s.job[g]);
  }

  lemma WriterIsDependency<C>(p: Plan<C>, c: C, q: Path, g: C)
    requires Linked(p) && FilesOrdered(p) && c in p.deps && q in FilesOf(p.actions[c])
    requires g in p.actions && q in p.actions[g].outputs
    ensures g in p.deps[c] || g == c
  {
  }

  lemma WriterIsSettled<C>(p: Plan<C>, cfg: Config, s: State<C>, c: C, q: Path, g: C)
    requires Inv(p, cfg, s) && FilesOrdered(p) && cfg.throwOnErrors
    requires c in p.deps && s.job[c] == Running(map[], {}) && q in FilesOf(p.actions[c])
    requires g in p.actions && q in p.actions[g].outputs
    ensures !Unsettled(s.job[g])
  {
    WriterIsDependency(p, c, q, g);
    if g == c {
      NotStartedIsSettled(s.job[c]);
    } else {
      DependencyIsSettled(p, cfg, s, c, g);
    }
  }

  /** When a command decides, the writers of its files are settled. */
  lemma FilesAreSettled<C>(p: Plan<C>, cfg: Config, s: State<C>, c: C, q: Path)
    requires Inv(p, cfg, s) && FilesOrdered(p) && cfg.throwOnErrors
    requires c in p.deps && s.job[c] == Running(map[], {}) && q in FilesOf(p.actions[c])
    ensures !WriterUnsettled(p, s, q)
  {
    forall g | g in p.actions && q in p.actions[g].outputs
      ensures !Unsettled(s.job[g])
    {
      WriterIsSettled(p, cfg, s, c, q, g);
    }
  }

  lemma SeenTimeIsDiskTime<C>(t: Timed<C>, q: Path)
    requires Timely(t) && (q in t.seen ==> t.seen[q].time == DiskTime(t.stat, q))
    ensures LookTime(t.seen, t.stat, q) == DiskTime(t.stat, q)
  {
    if q !in t.seen { FirstLookIsDiskTime(t.stat, q); }
  }

  // ---- a command that is not outdated is up to date ----

  /** The invariant: `start` are the files the build has begun with. */
  ghost predicate Good<C>(actions: Actions<C>, p: Plan<C>, cfg: Config, start: Scheduler.Disk, t: Timed<C>)
  {
    && Inv(p, cfg, t.run) && FilesOrdered(p) && cfg.throwOnErrors
    && (forall c | c in p.actions :: c in actions && actions[c] == p.actions[c])
    && Contents(p, start, t.run)
    && Trusted(actions, t.run.disk, t.stat, t.past) && Timely(t) && Accurate(p, t)
  }

  lemma FileDecides<C>(p: Plan<C>, cfg: Config, t: Timed<C>, c: C, q: Path, m: Time)
    requires Inv(p, cfg, t.run) && FilesOrdered(p) && cfg.throwOnErrors && Timely(t) && Accurate(p, t)
    requires c in p.deps && t.run.job[c] == Running(map[], {}) && q in FilesOf(p.actions[c])
    ensures Newer(LookTime(t.seen, t.stat, q), m) <==> !Current(t.stat, q, m)
  {
    FilesAreSettled(p, cfg, t.run, c, q);
    SeenTimeIsDiskTime(t, q);
  }

  lemma DecidesByDisk<C>(actions: Actions<C>, p: Plan<C>, cfg: Config, start: Scheduler.Disk, t: Timed<C>, c: C, m: Time)
    requires Good(actions, p, cfg, start, t) && c in p.deps && t.run.job[c] == Running(map[], {})
    ensures AnyNewer(t.seen, t.stat, FilesOf(p.actions[c]), m) <==> !AllCurrent(t.stat, FilesOf(p.actions[c]), m)
  {
    forall q | q in FilesOf(p.actions[c])
      ensures Newer(LookTime(t.seen, t.stat, q), m) <==> !Current(t.stat, q, m)
    {
      FileDecides(p, cfg, t, c, q, m);
    }
  }

  /** What a session has seen before makes no difference to a decision. */
  lemma NotOutdatedIff<C>(actions: Actions<C>, p: Plan<C>, cfg: Config, start: Scheduler.Disk, t: Timed<C>, c: C)
    requires Good(actions, p, cfg, start, t) && c in p.deps && t.run.job[c] == Running(map[], {})
    ensures NotOutdated(p, t, c)
            <==> exists r :: r in t.past && r.0 == c && AllCurrent(t.stat, FilesOf(p.actions[c]), r.1)
  {
    forall r | r in t.past && r.0 == c
      ensures AnyNewer(t.seen, t.stat, FilesOf(p.actions[c]), r.1) <==> !AllCurrent(t.stat, FilesOf(p.actions[c]), r.1)
    {
      DecidesByDisk(actions, p, cfg, start, t, c, r.1);
    }
  }

  lemma SkippedIsUpToDate<C>(actions: Actions<C>, p: Plan<C>, cfg: Config, start: Scheduler.Disk, t: Timed<C>, c: C)
    requires Good(actions, p, cfg, start, t)
    requires c in p.deps && t.run.job[c] == Running(map[], {}) && NotOutdated(p, t, c)
    ensures UpToDate(p, t.run.disk, c)
  {
    NotOutdatedIff(actions, p, cfg, start, t, c);
    assert Makes(actions[c], t.run.disk);
  }

  /** So every step of a build that decides by times is one of a build that decides by
      contents. */
  lemma TimedStepIsStep<C>(actions: Actions<C>, p: Plan<C>, cfg: Config, start: Scheduler.Disk,
                           t: Timed<C>, l: Label<C>, t': Timed<C>)
    requires Good(actions, p, cfg, start, t) && TimedNext(p, cfg, t, l, t')
    ensures Next(p, cfg, t.run, l, t'.run)
  {
    if l.Reuse? {
      SkippedIsUpToDate(actions, p, cfg, start, t, l.c);
      assert Reuses(p, t.run, l.c, t'.run);
    }
  }

  lemma TimesStep<C>(actions: Actions<C>, p: Plan<C>, cfg: Config, start: Scheduler.Disk,
                     t: Timed<C>, l: Label<C>, t': Timed<C>)
    requires Trusted(actions, t.run.disk, t.stat, t.past) && Timely(t)
    requires Stamped(t.run.disk, t.stat, t.clock, t'.run.disk, t'.stat, t'.clock)
    requires Looks(t.seen, t'.stat, t'.seen) && Records(p, l, t, t')
    requires Sized(p, t.run) && Next(p, cfg, t.run, l, t'.run) && Sized(p, t'.run) && Contents(p, start, t'.run)
    requires forall c | c in p.actions :: c in actions && actions[c] == p.actions[c]
    ensures Trusted(actions, t'.run.disk, t'.stat, t'.past) && Timely(t')
  {
    TimelyStays(t, t');
    TrustedStays(actions, t.run.disk, t.stat, t.clock, t'.run.disk, t'.stat, t'.clock, t.past);
    NewTimeIsTrusted(actions, p, cfg, start, t, l, t');
  }

  lemma GoodStep<C>(actions: Actions<C>, p: Plan<C>, cfg: Config, start: Scheduler.Disk,
                    t: Timed<C>, l: Label<C>, t': Timed<C>)
    requires Good(actions, p, cfg, start, t) && TimedNext(p, cfg, t, l, t')
    ensures Good(actions, p, cfg, start, t')
  {
    TimedStepIsStep(actions, p, cfg, start, t, l, t');
    InvariantStep(p, cfg, t.run, l, t'.run);
    ContentsStep(p, cfg, start, t.run, l, t'.run);
    AccurateStays(p, cfg, t, l, t');
    TimesStep(actions, p, cfg, start, t, l, t');
  }

  lemma NewTimeIsTrusted<C>(actions: Actions<C>, p: Plan<C>, cfg: Config, start: Scheduler.Disk,
                            t: Timed<C>, l: Label<C>, t': Timed<C>)
    requires Sized(p, t.run) && Next(p, cfg, t.run, l, t'.run) && Sized(p, t'.run) && Contents(p, start, t'.run)
    requires forall c | c in p.actions :: c in actions && actions[c] == p.actions[c]
    requires Trusted(actions, t'.run.disk, t'.stat, t.past) && Records(p, l, t, t')
    ensures Trusted(actions, t'.run.disk, t'.stat, t'.past)
  {
    if l.Succeed? {
      assert RanOk(t'.run.job[l.c]);
      assert UpToDate(p, t'.run.disk, l.c);
      assert Makes(actions[l.c], t'.run.disk);
    }
  }

  // ---- one build after the other ----

  /** `start` are the files the build has begun with. */
  datatype Era<C(==)> = Era(plan: Plan<C>, cfg: Config, start: Scheduler.Disk, now: Timed<C>)

  datatype Turn<C(==)> = Step(l: Label<C>) | NewBuild

  ghost predicate CanBuild<C>(actions: Actions<C>, p: Plan<C>, cfg: Config)
  {
    && WellFormed(p) && FilesOrdered(p) && cfg.throwOnErrors
    && forall c | c in p.actions :: c in actions && actions[c] == p.actions[c]
  }

  /** A build is given up or has returned; files are changed or removed, and another build,
      of the same or of other commands, begins in a new session. */
  ghost predicate BeginsAfter<C>(actions: Actions<C>, e: Era<C>, e': Era<C>)
  {
    && CanBuild(actions, e'.plan, e'.cfg) && e'.now.run == Start(e'.plan, e'.cfg, e'.start)
    && Stamped(e.now.run.disk, e.now.stat, e.now.clock, e'.start, e'.now.stat, e'.now.clock)
    && e'.now.seen == map[] && e'.now.past == e.now.past
  }

  ghost predicate TurnsTo<C>(actions: Actions<C>, e: Era<C>, turn: Turn<C>, e': Era<C>)
  {
    match turn
    case Step(l) => e' == e.(now := e'.now) && Sized(e.plan, e.now.run) && TimedNext(e.plan, e.cfg, e.now, l, e'.now)
    case NewBuild => BeginsAfter(actions, e, e')
  }

  ghost predicate TurnAt<C>(actions: Actions<C>, eras: seq<Era<C>>, turns: seq<Turn<C>>, i: nat)
    requires i < |turns| && |eras| == |turns| + 1
  {
    TurnsTo(actions, eras[i], turns[i], eras[i + 1])
  }

  /** Before the first build nothing is recorded. */
  ghost predicate IsHistory<C>(actions: Actions<C>, eras: seq<Era<C>>, turns: seq<Turn<C>>)
  {
    && |eras| == |turns| + 1
    && CanBuild(actions, eras[0].plan, eras[0].cfg)
    && eras[0].now.run == Start(eras[0].plan, eras[0].cfg, eras[0].start)
    && eras[0].now.past == {} && eras[0].now.seen == map[] && Timely(eras[0].now)
    && forall i {:trigger TurnAt(actions, eras, turns, i)} | 0 <= i < |turns| :: TurnAt(actions, eras, turns, i)
  }

  ghost predicate GoodEra<C>(actions: Actions<C>, e: Era<C>)
  {
    Good(actions, e.plan, e.cfg, e.start, e.now)
  }

  lemma BeginningIsGood<C>(actions: Actions<C>, e: Era<C>)
    requires CanBuild(actions, e.plan, e.cfg) && e.now.run == Start(e.plan, e.cfg, e.start)
    requires e.now.seen == map[] && Timely(e.now) && Trusted(actions, e.start, e.now.stat, e.now.past)
    ensures GoodEra(actions, e)
  {
    StartHasInvariant(e.plan, e.cfg, e.start);
    StartHasContents(e.plan, e.cfg, e.start);
  }

  lemma NewBuildIsGood<C>(actions: Actions<C>, e: Era<C>, e': Era<C>)
    requires Timely(e.now) && Trusted(actions, e.now.run.disk, e.now.stat, e.now.past) && BeginsAfter(actions, e, e')
    ensures GoodEra(actions, e')
  {
    TrustedStays(actions, e.now.run.disk, e.now.stat, e.now.clock, e'.start, e'.now.stat, e'.now.clock, e.now.past);
    assert Looks(map[], e'.now.stat, e'.now.seen);
    BeginningIsGood(actions, e');
  }

  lemma TurnKeepsGood<C>(actions: Actions<C>, e: Era<C>, turn: Turn<C>, e': Era<C>)
    requires GoodEra(actions, e) && TurnsTo(actions, e, turn, e')
    ensures GoodEra(actions, e')
  {
    match turn
    case Step(l) => GoodStep(actions, e.plan, e.cfg, e.start, e.now, l, e'.now);
    case NewBuild => NewBuildIsGood(actions, e, e');
  }

  lemma FirstIsGood<C>(actions: Actions<C>, eras: seq<Era<C>>, turns: seq<Turn<C>>)
    requires IsHistory(actions, eras, turns)
    ensures GoodEra(actions, eras[0])
  {
    BeginningIsGood(actions, eras[0]);
  }

  lemma NextIsGood<C>(actions: Actions<C>, eras: seq<Era<C>>, turns: seq<Turn<C>>, n: nat)
    requires IsHistory(actions, eras, turns) && 0 < n <= |turns| && GoodAt(actions, eras, n - 1)
    ensures GoodAt(actions, eras, n)
  {
    assert TurnAt(actions, eras, turns, n - 1);
    TurnKeepsGood(actions, eras[n - 1], turns[n - 1], eras[n]);
  }

  ghost predicate GoodAt<C>(actions: Actions<C>, eras: seq<Era<C>>, n: nat)
    requires n < |eras|
  {
    GoodEra(actions, eras[n])
  }

  lemma {:induction false} HistoryKeepsGood<C>(actions: Actions<C>, eras: seq<Era<C>>, turns: seq<Turn<C>>, n: nat)
    requires IsHistory(actions, eras, turns) && n <= |turns|
    ensures GoodAt(actions, eras, n)
  {
    if n == 0 {
      FirstIsGood(actions, eras, turns);
    } else {
      HistoryKeepsGood(actions, eras, turns, n - 1);
      NextIsGood(actions, eras, turns, n);
    }
  }

  /** Whenever a command is about to decide and is not outdated, it is up to date. */
  lemma NotOutdatedIsUpToDate<C>(actions: Actions<C>, eras: seq<Era<C>>, turns: seq<Turn<C>>, n: nat, c: C)
    requires IsHistory(actions, eras, turns) && n <= |turns|
    requires var e := eras[n];
             c in e.plan.actions && c in e.now.run.job && e.now.run.job[c] == Running(map[], {})
             && NotOutdated(e.plan, e.now, c)
    ensures UpToDate(eras[n].plan, eras[n].now.run.disk, c)
  {
    var e := eras[n];
    HistoryKeepsGood(actions, eras, turns, n);
    SkippedIsUpToDate(actions, e.plan, e.cfg, e.start, e.now, c);
  }

  /** The turns from `a` to `b` are steps of one build that `a` begins. */
  ghost predicate OneBuild<C>(eras: seq<Era<C>>, turns: seq<Turn<C>>, a: nat, b: nat)
    requires |eras| == |turns| + 1
  {
    && a <= b <= |turns| && eras[a].now.run == Start(eras[a].plan, eras[a].cfg, eras[a].start)
    && forall i | a <= i < b :: turns[i].Step?
  }

  ghost function RunOf<C>(eras: seq<Era<C>>, a: nat, b: nat): seq<State<C>>
    requires a <= b < |eras|
  {
    seq(b - a + 1, i requires 0 <= i <= b - a => eras[a + i].now.run)
  }

  ghost function LabelsOf<C>(turns: seq<Turn<C>>, a: nat, b: nat): seq<Label<C>>
    requires a <= b <= |turns| && forall i | a <= i < b :: turns[i].Step?
  {
    seq(b - a, i requires 0 <= i < b - a => turns[a + i].l)
  }

  lemma {:induction false} SamePlan<C>(actions: Actions<C>, eras: seq<Era<C>>, turns: seq<Turn<C>>, a: nat, b: nat)
    requires IsHistory(actions, eras, turns) && OneBuild(eras, turns, a, b)
    ensures eras[b].plan == eras[a].plan && eras[b].cfg == eras[a].cfg && eras[b].start == eras[a].start
  {
    if a < b {
      SamePlan(actions, eras, turns, a, b - 1);
      assert TurnAt(actions, eras, turns, b - 1);
    }
  }

  lemma StepFollows<C>(actions: Actions<C>, eras: seq<Era<C>>, turns: seq<Turn<C>>, a: nat, b: nat, i: nat)
    requires IsHistory(actions, eras, turns) && OneBuild(eras, turns, a, b) && a <= i < b
    ensures Follows(eras[a].plan, eras[a].cfg, eras[i].now.run, turns[i].l, eras[i + 1].now.run)
  {
    SamePlan(actions, eras, turns, a, i);
    HistoryKeepsGood(actions, eras, turns, i);
    assert TurnAt(actions, eras, turns, i);
    TimedStepIsStep(actions, eras[i].plan, eras[i].cfg, eras[i].start, eras[i].now, turns[i].l, eras[i + 1].now);
  }

  lemma OneStepMore<C>(p: Plan<C>, cfg: Config, states: seq<State<C>>, labels: seq<Label<C>>, l: Label<C>, s': State<C>)
    requires Steps(p, cfg, states, labels) && Follows(p, cfg, states[|labels|], l, s')
    ensures Steps(p, cfg, states + [s'], labels + [l])
  {
    var more, with := states + [s'], labels + [l];
    forall i | 0 < i < |more|
      ensures FollowsAt(p, cfg, more, with, i)
    {
      if i < |states| {
        assert FollowsAt(p, cfg, states, labels, i);
        assert more[i - 1] == states[i - 1] && more[i] == states[i] && with[i - 1] == labels[i - 1];
      }
    }
  }

  lemma BuildStepsOn<C>(actions: Actions<C>, eras: seq<Era<C>>, turns: seq<Turn<C>>, a: nat, b: nat)
    requires IsHistory(actions, eras, turns) && a < b && OneBuild(eras, turns, a, b)
    requires Steps(eras[a].plan, eras[a].cfg, RunOf(eras, a, b - 1), LabelsOf(turns, a, b - 1))
    ensures Steps(eras[a].plan, eras[a].cfg, RunOf(eras, a, b), LabelsOf(turns, a, b))
  {
    StepFollows(actions, eras, turns, a, b, b - 1);
    OneStepMore(eras[a].plan, eras[a].cfg, RunOf(eras, a, b - 1), LabelsOf(turns, a, b - 1), turns[b - 1].l, eras[b].now.run);
    assert RunOf(eras, a, b) == RunOf(eras, a, b - 1) + [eras[b].now.run];
    assert LabelsOf(turns, a, b) == LabelsOf(turns, a, b - 1) + [turns[b - 1].l];
  }

  lemma {:induction false} BuildSteps<C>(actions: Actions<C>, eras: seq<Era<C>>, turns: seq<Turn<C>>, a: nat, b: nat)
    requires IsHistory(actions, eras, turns) && OneBuild(eras, turns, a, b)
    ensures Steps(eras[a].plan, eras[a].cfg, RunOf(eras, a, b), LabelsOf(turns, a, b))
  {
    if a < b {
      BuildSteps(actions, eras, turns, a, b - 1);
      BuildStepsOn(actions, eras, turns, a, b);
    }
  }

  /** Each build of the history is a run of the executor that decides by contents, so
      everything proved about runs holds for it. */
  lemma BuildIsRun<C>(actions: Actions<C>, eras: seq<Era<C>>, turns: seq<Turn<C>>, a: nat, b: nat)
    requires IsHistory(actions, eras, turns) && OneBuild(eras, turns, a, b)
    ensures IsRun(eras[a].plan, eras[a].cfg, eras[a].start, RunOf(eras, a, b), LabelsOf(turns, a, b))
  {
    BuildSteps(actions, eras, turns, a, b);
  }

  /** An incremental build is as good as one from scratch: whatever builds and changes came
      before, when every command of a build has run or was skipped the files are exactly
      those the sequential build makes of what the build began with. */
  lemma IncrementalEqualsClean<C>(actions: Actions<C>, eras: seq<Era<C>>, turns: seq<Turn<C>>, n: nat, t: seq<C>)
    requires IsHistory(actions, eras, turns) && n <= |turns| && IsTopological(eras[n].plan.deps, t)
    requires Linked(eras[n].plan)
    requires eras[n].now.run.job == map c | c in eras[n].plan.deps :: Done(Succeeded)
    ensures forall i | 0 <= i < |t| :: t[i] in eras[n].plan.actions
    ensures eras[n].now.run.disk == Sequential(eras[n].plan, t, eras[n].start)
  {
    var e := eras[n];
    HistoryKeepsGood(actions, eras, turns, n);
    TopologicalIsIn(e.plan, t);
    CompleteStateIsSequential(e.plan, e.cfg, e.now.run, t, e.start);
  }
}
