/** That the sessions and commands of the rest of the model do what TimedBuild asks of a
    build that decides by file times. */
module TimedDecisions {
  import opened Common
  import opened Bytes
  import opened CommandDb
  import opened CommandStorages
  import opened Sessions
  import opened FT = FileTimes
  import opened IncrementalCommands
  import opened NullBuild
  import Scheduler
  import TimedBuild

  /** Where the record of a command gives back its implicit inputs, a command that its
      storage does not find outdated may be skipped. */
  lemma RecordDecides<C>(
      hash: PathHash, ss: seq<Session>, es: seq<Event>, i: nat, n: nat, k: Word, m: Time,
      implicit: set<Path>, recalled: set<Path>, declared: set<Path>,
      p: Scheduler.Plan<C>, t: TimedBuild.Timed<C>, c: C)
    requires CompletedAt(hash, ss, es, i, k, m, implicit, recalled) && NO_PATH !in implicit && i < n <= |es|
    requires LeadsTo(hash, ss[i + 1].store, implicit)
    requires c in p.actions && p.actions[c].inputs == declared + implicit && (c, m) in t.past
    requires Outdated(ss[n].store, k, declared, p.actions[c].outputs, t.seen, t.stat) == Some(false)
    ensures TimedBuild.NotOutdated(p, t, c)
  {
    var a := p.actions[c];
    RunRemembers(hash, ss, es, i, k, m, implicit, recalled, n);
    RunKeepsSound(hash, ss, es, i + 1);
    RecalledIff(hash, ss[i + 1].store, implicit, recalled);
    assert declared + a.outputs + implicit == TimedBuild.FilesOf(a);
    assert (c, m) in t.past && (c, m).0 == c && (c, m).1 == m;
  }

  /** What was seen is no later than what is there. */
  predicate SeenBelow(v: Times, stat: FT.Disk)
  {
    forall q | q in v && IsRegular(stat, q) :: v[q].time <= stat[q].time
  }

  /** Deciding only looks. */
  lemma DecidingLooks(v: Times, w: Times, stat: FT.Disk, ps: set<Path>)
    requires SeenBelow(v, stat) && LookedAt(v, w, stat, ps)
    ensures TimedBuild.Looks(v, stat, w) && SeenBelow(w, stat)
  {
  }

  lemma RegisteringLooks(v: Times, stat: FT.Disk, ps: set<Path>)
    requires SeenBelow(v, stat)
    ensures TimedBuild.Looks(v, stat, AllRegistered(v, stat, ps)) && SeenBelow(AllRegistered(v, stat, ps), stat)
  {
  }

  lemma RecheckingLooks(v: Times, stat: FT.Disk, ps: set<Path>)
    requires SeenBelow(v, stat)
    ensures var w := AllRechecked(v, stat, ps);
            && TimedBuild.Looks(v, stat, w) && SeenBelow(w, stat)
            && forall q | q in ps :: q in w && w[q].time == DiskTime(stat, q)
  {
  }

  lemma FindingLooks(v: Times, stat: FT.Disk, ps: set<Path>)
    requires SeenBelow(v, stat)
    ensures TimedBuild.Looks(v, stat, AllFoundAgain(v, stat, ps)) && SeenBelow(AllFoundAgain(v, stat, ps), stat)
  {
  }

  /** What afterCommand does to the times a session has seen is looking, and afterwards
      the outputs' times are those on the disk. */
  lemma AfterCommandLooks(v: Times, stat: FT.Disk, inputs: set<Path>, outputs: set<Path>, implicit: set<Path>)
    requires SeenBelow(v, stat)
    ensures var w := AllFoundAgain(AllRechecked(AllRegistered(v, stat, inputs), stat, outputs), stat, implicit);
            && TimedBuild.Looks(v, stat, w)
            && forall q | q in outputs :: q in w && w[q].time == DiskTime(stat, q)
  {
    var registered := AllRegistered(v, stat, inputs);
    var rechecked := AllRechecked(registered, stat, outputs);
    RegisteringLooks(v, stat, inputs);
    RecheckingLooks(registered, stat, outputs);
    FindingLooks(rechecked, stat, implicit);
  }

  /** The time it records is no later than what there is. */
  lemma RecordedTimeIsTimely(v: Times, stat: FT.Disk, clock: Time, m0: Time, inputs: set<Path>, outputs: set<Path>)
    requires m0 <= clock && (forall q | q in v :: v[q].time <= clock)
    requires forall q | IsRegular(stat, q) :: stat[q].time <= clock
    ensures Latest(m0, InputTimes(v, stat, inputs) + OutputTimes(v, stat, outputs)) <= clock
  {
  }
}
