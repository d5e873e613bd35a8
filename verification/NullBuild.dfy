/** When a command runs again in a later session. */
module NullBuild {
  import opened Common
  import opened Bytes
  import opened FrameStreams
  import opened CommandDb
  import opened CommandStorages
  import opened DatabaseRoundTrip
  import opened Sessions
  import opened FileTimes
  import opened IncrementalCommands

  lemma FirstLook(disk: Disk, ps: set<Path>, m: Time)
    ensures AnyNewer(map[], disk, ps, m) <==> !forall p | p in ps :: Current(disk, p, m)
  {
    forall p | p in ps
      ensures Newer(LookTime(map[], disk, p), m) <==> !Current(disk, p, m)
    {
      FirstLookIsDiskTime(disk, p);
    }
  }

  /** The decision at the start of a session: the command runs exactly if something it
      depends on is not a regular file no newer than its time. */
  ghost predicate Right(s: Store, k: Word, m: Time, inputs: set<Path>, outputs: set<Path>, implicit: set<Path>)
  {
    forall disk :: Outdated(s, k, inputs, outputs, map[], disk) == Some(!AllCurrent(disk, inputs + outputs + implicit, m))
  }

  lemma DecidesByRecalled(s: Store, k: Word, m: Time, recalled: set<Path>, inputs: set<Path>, outputs: set<Path>)
    requires Recalls(s, k, m, recalled)
    ensures Right(s, k, m, inputs, outputs, recalled)
  {
    forall disk
      ensures Outdated(s, k, inputs, outputs, map[], disk) == Some(!AllCurrent(disk, inputs + outputs + recalled, m))
    {
      FirstLook(disk, inputs + outputs + recalled, m);
    }
  }

  lemma TellingDisk(ps: set<Path>, qs: set<Path>, m: Time)
    requires m != MISSING && ps != qs
    ensures exists disk :: AllCurrent(disk, ps, m) != AllCurrent(disk, qs, m)
  {
    var p :| p in ps + qs && !(p in ps && p in qs);
    var disk: Disk := map q | q in ps + qs && q != p :: Regular(m);
    assert !Current(disk, p, m);
    assert p in qs ==> AllCurrent(disk, ps, m);
    assert p in ps ==> AllCurrent(disk, qs, m);
  }

  /** The decision is right for every state of the disk exactly if the files of the
      command are the ones recalled; a command without a time runs if it has any file. */
  lemma RightIff(s: Store, k: Word, m: Time, recalled: set<Path>, inputs: set<Path>, outputs: set<Path>, implicit: set<Path>)
    requires Recalls(s, k, m, recalled)
    ensures Right(s, k, m, inputs, outputs, implicit)
            <==> if m != MISSING then inputs + outputs + recalled == inputs + outputs + implicit
                 else inputs + outputs + recalled == {} <==> inputs + outputs + implicit == {}
  {
    var got, all := inputs + outputs + recalled, inputs + outputs + implicit;
    DecidesByRecalled(s, k, m, recalled, inputs, outputs);
    if m == MISSING {
      assert forall disk, ps :: AllCurrent(disk, ps, m) <==> ps == {};
      assert Outdated(s, k, inputs, outputs, map[], map[]) == Some(got != {});
    } else if got != all {
      TellingDisk(got, all, m);
    }
  }

  lemma TableLeadsToRecalled(hash: PathHash, s: Store, hs: set<Word>, recalled: set<Path>)
    requires WellFormed(hash, s) && Resolve(s, hs) == Some(recalled)
    ensures LeadsTo(hash, s, recalled)
  {
    forall f | f in recalled
      ensures hash(f) in s.byHash && s.byHash[hash(f)] == f
    {
    }
  }

  lemma RecalledIff(hash: PathHash, s: Store, implicit: set<Path>, recalled: set<Path>)
    requires WellFormed(hash, s) && NO_PATH !in implicit && Resolve(s, HashesOf(hash, implicit)) == Some(recalled)
    ensures LeadsTo(hash, s, implicit) <==> recalled == implicit
    ensures LeadsTo(hash, s, implicit) <==> implicit <= recalled
  {
    ResolvedIff(hash, s, implicit);
    TableLeadsToRecalled(hash, s, HashesOf(hash, implicit), recalled);
  }

  /** The decision about a completed command at any point `n` of a run that leaves it
      alone, in the same session or a later one.  It is right for every state of the disk
      exactly if, on completion, the table led from the hash of each implicit input to
      that input.  Where it did not, one that is not listed as input or output as well
      is overlooked. */
  lemma NullBuildIff(
      hash: PathHash, ss: seq<Session>, es: seq<Event>, i: nat, k: Word, m: Time,
      implicit: set<Path>, recalled: set<Path>, n: nat, inputs: set<Path>, outputs: set<Path>)
    requires CompletedAt(hash, ss, es, i, k, m, implicit, recalled) && NO_PATH !in implicit && i < n <= |es|
    ensures LeadsTo(hash, ss[i + 1].store, implicit) ==> Right(ss[n].store, k, m, inputs, outputs, implicit)
    ensures m != MISSING && implicit !! inputs + outputs ==>
              (Right(ss[n].store, k, m, inputs, outputs, implicit) <==> LeadsTo(hash, ss[i + 1].store, implicit))
  {
    RunRemembers(hash, ss, es, i, k, m, implicit, recalled, n);
    RunKeepsSound(hash, ss, es, i + 1);
    RecalledIff(hash, ss[i + 1].store, implicit, recalled);
    RightIff(ss[n].store, k, m, recalled, inputs, outputs, implicit);
  }

  /** When `m` is what afterCommand took: the command is outdated only because a file is
      missing, or an input is newer by now than anything it was compared with.  For an
      implicit input that may be so from the start, as afterCommand does not look at it. */
  lemma RightAfterTheRun(
      hash: PathHash, ss: seq<Session>, es: seq<Event>, i: nat, k: Word, m: Time,
      implicit: set<Path>, recalled: set<Path>, n: nat, inputs: set<Path>, outputs: set<Path>,
      disk: Disk, m0: Time, v: Times)
    requires CompletedAt(hash, ss, es, i, k, m, implicit, recalled) && NO_PATH !in implicit && i < n <= |es|
    requires LeadsTo(hash, ss[i + 1].store, implicit)
    requires m == Latest(m0, InputTimes(v, disk, inputs) + OutputTimes(v, disk, outputs))
    ensures Outdated(ss[n].store, k, inputs, outputs, map[], disk)
            == Some((exists p | p in inputs + outputs + implicit :: DiskTime(disk, p) == MISSING)
                    || (exists p | p in inputs + implicit :: DiskTime(disk, p) > m))
  {
    NullBuildIff(hash, ss, es, i, k, m, implicit, recalled, n, inputs, outputs);
    forall p | p in outputs
      ensures DiskTime(disk, p) <= m
    {
      assert OutputTime(v, disk, p) in InputTimes(v, disk, inputs) + OutputTimes(v, disk, outputs);
    }
    forall p | p in inputs + outputs + implicit
      ensures Current(disk, p, m) <==> DiskTime(disk, p) != MISSING && DiskTime(disk, p) <= m
    {
    }
  }

  /** A command that was looked up but never completed: a second look in the same session
      finds a record without a time, so it is outdated exactly if it has any file. */
  lemma LookedUpOnly(s: Store, k: Word, inputs: set<Path>, outputs: set<Path>, v: Times, disk: Disk)
    requires k !in s.records
    ensures Outdated(s, k, inputs, outputs, v, disk) == Some(true)
    ensures Outdated(s.(records := s.records[k := NewRecord]), k, inputs, outputs, v, disk)
            == Some(inputs + outputs != {})
  {
    var t := s.(records := s.records[k := NewRecord]);
    assert Resolve(t, {}).value == {};
    assert inputs + outputs + {} == inputs + outputs;
    assert forall p | p in inputs + outputs :: Newer(LookTime(v, disk, p), MISSING);
  }

  /** A command that no session completed, or whose hash is zero, is outdated again at the
      start of every session, whatever else was saved. */
  lemma NeverCompletedIsOutdated(
      hash: PathHash, ss: seq<Session>, es: seq<Event>, k: Word, n: nat,
      inputs: set<Path>, outputs: set<Path>, disk: Disk)
    requires IsRun(hash, ss, es) && Sound(hash, ss[0]) && NeverWritten(ss[0], k)
    requires forall i | 0 <= i < |es| :: NotWrittenBy(es[i], k)
    requires 0 < n <= |es| && (es[n - 1].Reopen? || es[n - 1].Recover?)
    ensures Outdated(ss[n].store, k, inputs, outputs, map[], disk) == Some(true)
  {
    RunNeverWrites(hash, ss, es, k, n);
  }

  lemma Unaffected(s: Store, k: Word, m: Time, recalled: set<Path>, f: Path, inputs: set<Path>, outputs: set<Path>,
                   disk: Disk, later: Disk)
    requires Recalls(s, k, m, recalled) && f !in inputs + outputs + recalled
    requires later.Keys + {f} == disk.Keys + {f} && forall p | p in disk && p != f :: later[p] == disk[p]
    ensures Outdated(s, k, inputs, outputs, map[], later) == Outdated(s, k, inputs, outputs, map[], disk)
  {
    DecidesByRecalled(s, k, m, recalled, inputs, outputs);
    assert forall p | p in inputs + outputs + recalled :: Current(later, p, m) <==> Current(disk, p, m);
  }

  /** An implicit input that the table did not lead to on completion, because its hash was
      taken by another path or by the empty path a load leaves for a file it does not
      find, is forgotten: in that session and all later ones no change of it makes the
      command outdated any more. */
  lemma UnknownInputIsForgotten(
      hash: PathHash, ss: seq<Session>, es: seq<Event>, i: nat, k: Word, m: Time,
      implicit: set<Path>, recalled: set<Path>, n: nat, f: Path,
      inputs: set<Path>, outputs: set<Path>, disk: Disk, later: Disk)
    requires CompletedAt(hash, ss, es, i, k, m, implicit, recalled) && i < n <= |es|
    requires f in implicit && f !in inputs + outputs && !LeadsTo(hash, ss[i + 1].store, {f})
    requires later.Keys + {f} == disk.Keys + {f} && forall p | p in disk && p != f :: later[p] == disk[p]
    ensures Outdated(ss[n].store, k, inputs, outputs, map[], later) == Outdated(ss[n].store, k, inputs, outputs, map[], disk)
  {
    RunRemembers(hash, ss, es, i, k, m, implicit, recalled, n);
    RunKeepsSound(hash, ss, es, i + 1);
    TableLeadsToRecalled(hash, ss[i + 1].store, HashesOf(hash, implicit), recalled);
    Unaffected(ss[n].store, k, m, recalled, f, inputs, outputs, disk, later);
  }

  /** Such a completion is reached: a load finds a record without the file of its implicit
      input `f`, and then a command that has `f` as well is completed. */
  lemma InputMayBeUnknown(hash: PathHash, f: Path, r: Word, k: Word, m: Time)
    returns (ss: seq<Session>, es: seq<Event>, recalled: set<Path>)
    requires k != 0
    ensures |es| == 2 && |ss| == 3 && ss[0] == Opened(hash, [], [])
    ensures CompletedAt(hash, ss, es, 1, k, m, {f}, recalled)
    ensures f != NO_PATH ==> !LeadsTo(hash, ss[2].store, {f})
  {
    var raw := Raw(r, m, [hash(f)]);
    var found := Opened(hash, [], [raw]);
    var before := found.store;
    var record := if k in before.records then before.records[k] else NewRecord;
    var completed := before.(records := before.records[k := Record(k, m, HashesOf(hash, {f}))], pending := [k]);
    var after := found.(store := completed, changed := true);
    assert AddRecords(EmptyStore, [raw]) == AddRecord(EmptyStore, raw);
    assert hash(f) in before.byHash && before.byHash[hash(f)] == NO_PATH;
    var filled := before.(records := before.records[k := record.(hash := k, mtime := m)]);
    assert ImplicitInputsSet(hash, filled, k, {f}, completed.(pending := before.pending));
    ss, es := [Opened(hash, [], []), found, after], [Recover([], [raw]), Complete(k, m, {f})];
    assert Step(hash, ss[0], es[0], ss[1]) && Step(hash, ss[1], es[1], ss[2]);
    OpenedIsSound(hash, [], []);
    OpenedIsSound(hash, [], [raw]);
    CompletionIsRecalled(hash, found, after, k, m, {f});
    recalled := Resolve(after.store, HashesOf(hash, {f})).value;
  }
}
