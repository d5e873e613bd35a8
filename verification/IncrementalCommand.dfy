/** A command's decision whether to run, and what it remembers after a run
    (command.cpp:224-289 and 565-630). */
module IncrementalCommands {
  import opened Common
  import opened Bytes
  import opened FrameStreams
  import opened CommandDb
  import opened CommandStorages
  import opened CommandStorageObjects
  import opened FileTimes

  /** The time a check of `p` compares, in a session that has seen `v`. */
  function LookTime(v: Times, disk: Disk, p: Path): Time
  {
    Refreshed(SeenOf(v, p), disk, p).time
  }

  /** Some of the files is missing or newer than `mtime`. */
  ghost predicate AnyNewer(v: Times, disk: Disk, ps: set<Path>, mtime: Time)
  {
    exists p | p in ps :: Newer(LookTime(v, disk, p), mtime)
  }

  /** From `v` to `w` some files have been looked at and nothing else has happened. */
  ghost predicate LookedAt(v: Times, w: Times, disk: Disk, ps: set<Path>)
  {
    && v.Keys <= w.Keys <= v.Keys + ps
    && forall p | p in w :: w[p] == Refreshed(SeenOf(v, p), disk, p) || (p in v && w[p] == v[p])
  }

  lemma LooksTheSame(v: Times, w: Times, disk: Disk, ps: set<Path>, qs: set<Path>, mtime: Time)
    requires LookedAt(v, w, disk, ps)
    ensures AnyNewer(w, disk, qs, mtime) <==> AnyNewer(v, disk, qs, mtime)
  {
    forall p | p in qs
      ensures LookTime(w, disk, p) == LookTime(v, disk, p)
    {
    }
  }

  lemma LookedAtTwice(u: Times, v: Times, w: Times, disk: Disk, ps: set<Path>, qs: set<Path>)
    requires LookedAt(u, v, disk, ps) && LookedAt(v, w, disk, qs)
    ensures LookedAt(u, w, disk, ps + qs)
  {
  }

  lemma LookOnce(u: Times, v: Times, disk: Disk, ps: set<Path>, p: Path)
    requires LookedAt(u, v, disk, ps) && p in ps
    ensures LookedAt(u, Looked(v, disk, p), disk, ps)
    ensures Looked(v, disk, p)[p].time == LookTime(u, disk, p)
  {
  }

  /** The time afterCommand takes from an input: what is known, or a first look. */
  function InputTime(v: Times, disk: Disk, p: Path): Time
  {
    if p in v then v[p].time else DiskTime(disk, p)
  }

  /** The time it takes from an output: looked at again, never earlier than known. */
  function OutputTime(v: Times, disk: Disk, p: Path): Time
  {
    if !IsRegular(disk, p) then MISSING
    else if p in v && v[p].time > disk[p].time then v[p].time
    else disk[p].time
  }

  /** The latest of `m0` and `ts`. */
  ghost function Latest(m0: Time, ts: set<Time>): (m: Time)
    ensures m0 <= m && (forall t | t in ts :: t <= m) && (m == m0 || m in ts)
  {
    if ts == {} then m0
    else
      var t :| t in ts;
      assert forall u | u in ts :: u == t || u in ts - {t};
      Max(t, Latest(m0, ts - {t}))
  }

  lemma LatestWith(m0: Time, ts: set<Time>, t: Time)
    ensures Latest(m0, ts + {t}) == Max(Latest(m0, ts), t)
  {
    var m := Latest(m0, ts + {t});
    assert m == m0 || m in ts || m == t;
  }

  lemma LatestOfBoth(m0: Time, ts: set<Time>, us: set<Time>)
    ensures Latest(Latest(m0, ts), us) == Latest(m0, ts + us)
  {
    var first, m := Latest(m0, ts), Latest(m0, ts + us);
    var second := Latest(first, us);
    assert first == m0 || first in ts + us;
    assert second == first || second in ts + us;
    assert m == m0 || m in ts || m in us;
  }

  function Max(a: Time, b: Time): Time
  {
    if a < b then b else a
  }

  function InputTimes(v: Times, disk: Disk, ps: set<Path>): set<Time>
  {
    set p | p in ps :: InputTime(v, disk, p)
  }

  function OutputTimes(v: Times, disk: Disk, ps: set<Path>): set<Time>
  {
    set p | p in ps :: OutputTime(v, disk, p)
  }

  /** What is seen after registering the inputs. */
  function AllRegistered(v: Times, disk: Disk, ps: set<Path>): Times
  {
    map p | p in v.Keys + ps :: if p in v then v[p] else Refreshed(Unseen, disk, p)
  }

  lemma RegisterOnce(v: Times, disk: Disk, ps: set<Path>, p: Path)
    ensures Registered(AllRegistered(v, disk, ps), disk, p) == AllRegistered(v, disk, ps + {p})
    ensures SeenOf(AllRegistered(v, disk, ps + {p}), p).time == InputTime(v, disk, p)
  {
  }

  lemma LatestInput(m0: Time, v: Times, disk: Disk, ps: set<Path>, p: Path)
    ensures Latest(m0, InputTimes(v, disk, ps + {p})) == Max(Latest(m0, InputTimes(v, disk, ps)), InputTime(v, disk, p))
  {
    LatestWith(m0, InputTimes(v, disk, ps), InputTime(v, disk, p));
    assert InputTimes(v, disk, ps + {p}) == InputTimes(v, disk, ps) + {InputTime(v, disk, p)};
  }

  lemma LatestOutput(m0: Time, v: Times, disk: Disk, ps: set<Path>, p: Path)
    ensures Latest(m0, OutputTimes(v, disk, ps + {p})) == Max(Latest(m0, OutputTimes(v, disk, ps)), OutputTime(v, disk, p))
  {
    LatestWith(m0, OutputTimes(v, disk, ps), OutputTime(v, disk, p));
    assert OutputTimes(v, disk, ps + {p}) == OutputTimes(v, disk, ps) + {OutputTime(v, disk, p)};
  }

  /** What is seen after looking at the outputs again. */
  function AllRechecked(v: Times, disk: Disk, ps: set<Path>): Times
  {
    map p | p in v.Keys + ps :: if p in ps then Rechecked(v, disk, p)[p] else v[p]
  }

  lemma RecheckOnce(v: Times, disk: Disk, ps: set<Path>, p: Path)
    requires p !in ps
    ensures Rechecked(AllRechecked(v, disk, ps), disk, p) == AllRechecked(v, disk, ps + {p})
    ensures SeenOf(AllRechecked(v, disk, ps + {p}), p).time == OutputTime(v, disk, p)
  {
  }

  function AllFoundAgain(v: Times, disk: Disk, ps: set<Path>): Times
  {
    map p | p in v.Keys + ps :: if p in ps then FoundAgain(v, disk, p)[p] else v[p]
  }

  lemma FindOnce(v: Times, disk: Disk, ps: set<Path>, p: Path)
    requires p !in ps
    ensures FoundAgain(AllFoundAgain(v, disk, ps), disk, p) == AllFoundAgain(v, disk, ps + {p})
  {
  }

  /** What the session knows of the implicit inputs when afterCommand is done: one that was
      missing or unknown has the time it has on the disk, a known one keeps its time
      unless it is an output, and none that is on the disk counts as missing. */
  predicate KnowsImplicitInputs(v: Times, w: Times, disk: Disk, outputs: set<Path>, implicit: set<Path>)
  {
    forall p | p in implicit ::
      && p in w
      && (p !in v || v[p].time == MISSING ==> w[p].time == DiskTime(disk, p))
      && (p in v && v[p].time != MISSING && p !in outputs ==> w[p].time == v[p].time)
      && (DiskTime(disk, p) != MISSING ==> w[p].time != MISSING)
  }

  lemma ImplicitInputsAreKnown(v: Times, disk: Disk, inputs: set<Path>, outputs: set<Path>, implicit: set<Path>)
    ensures KnowsImplicitInputs(
              v, AllFoundAgain(AllRechecked(AllRegistered(v, disk, inputs), disk, outputs), disk, implicit),
              disk, outputs, implicit)
  {
    var rechecked := AllRechecked(AllRegistered(v, disk, inputs), disk, outputs);
    forall p | p in implicit
      ensures AllFoundAgain(rechecked, disk, implicit)[p].time
              == if p in rechecked && rechecked[p].time != MISSING then rechecked[p].time else DiskTime(disk, p)
    {
      FoundAgainFinds(rechecked, disk, p);
    }
  }

  /** Registering the inputs first makes no difference to the times of the outputs. */
  lemma OutputsAfterInputs(v: Times, disk: Disk, inputs: set<Path>, outputs: set<Path>)
    ensures OutputTimes(AllRegistered(v, disk, inputs), disk, outputs) == OutputTimes(v, disk, outputs)
  {
    forall p | p in outputs
      ensures OutputTime(AllRegistered(v, disk, inputs), disk, p) == OutputTime(v, disk, p)
    {
    }
  }

  /** Whether a command whose record is in `s` has to run; None where it throws. */
  ghost function Outdated(s: Store, k: Word, inputs: set<Path>, outputs: set<Path>, v: Times, disk: Disk): Option<bool>
  {
    if k !in s.records then Some(true)
    else
      match Resolve(s, s.records[k].implicitInputs)
      case None => None
      case Some(implicit) => Some(AnyNewer(v, disk, inputs + outputs + implicit, s.records[k].mtime))
  }

  class Command {
    const key: Word
    const inputs: set<Path>
    const outputs: set<Path>
    const always: bool
    const files: FileStorage
    const storage: CommandStorage?
    var implicitInputs: set<Path>
    var mtime: Time

    constructor (key: Word, inputs: set<Path>, outputs: set<Path>, always: bool, files: FileStorage, storage: CommandStorage?)
      ensures this.key == key && this.inputs == inputs && this.outputs == outputs && this.always == always
      ensures this.files == files && this.storage == storage && implicitInputs == {} && mtime == MISSING
    {
      this.key, this.inputs, this.outputs, this.always := key, inputs, outputs, always;
      this.files, this.storage, implicitInputs, mtime := files, storage, {}, MISSING;
    }

    /** std::any_of over one set of files, in the order of the hash set. */
    method AnyIsNewer(disk: Disk, ps: set<Path>) returns (r: bool)
      requires files.Valid()
      modifies files, files.data
      ensures files.Valid() && fresh(files.data - old(files.data))
      ensures LookedAt(old(files.View()), files.View(), disk, ps)
      ensures r <==> AnyNewer(old(files.View()), disk, ps, mtime)
    {
      var todo := ps;
      ghost var before := files.View();
      while todo != {}
        invariant todo <= ps
        invariant files.Valid() && fresh(files.data - old(files.data))
        invariant LookedAt(before, files.View(), disk, ps)
        invariant forall p | p in ps - todo :: !Newer(LookTime(before, disk, p), mtime)
      {
        var p :| p in todo;
        LookOnce(before, files.View(), disk, ps, p);
        r := files.IsChangedSince(disk, p, mtime);
        if r { return; }
        todo := todo - {p};
      }
      r := false;
    }

    method IsTimeChanged(disk: Disk) returns (r: bool)
      requires files.Valid()
      modifies files, files.data
      ensures files.Valid() && fresh(files.data - old(files.data))
      ensures LookedAt(old(files.View()), files.View(), disk, inputs + outputs + implicitInputs)
      ensures r <==> AnyNewer(old(files.View()), disk, inputs + outputs + implicitInputs, mtime)
    {
      ghost var v0 := files.View();
      r := AnyIsNewer(disk, inputs);
      if r { return; }
      ghost var v1 := files.View();
      r := AnyIsNewer(disk, outputs);
      LooksTheSame(v0, v1, disk, inputs, outputs, mtime);
      LookedAtTwice(v0, v1, files.View(), disk, inputs, outputs);
      if r { return; }
      ghost var v2 := files.View();
      r := AnyIsNewer(disk, implicitInputs);
      LooksTheSame(v0, v2, disk, inputs + outputs, implicitInputs, mtime);
      LookedAtTwice(v0, v2, files.View(), disk, inputs + outputs, implicitInputs);
    }

    /** Takes over what the storage remembers: `found` is false for a new command, and
        `ok` where looking up the implicit inputs throws. */
    method Recall(storage: CommandStorage) returns (found: bool, ok: bool)
      modifies `mtime, `implicitInputs, storage
      ensures found <==> key in old(storage.records)
      ensures storage.changed == old(storage.changed)
      ensures storage.View()
              == if found then old(storage.View())
                 else old(storage.View()).(records := old(storage.records)[key := NewRecord])
      ensures ok <==> found ==> Resolve(old(storage.View()), old(storage.records)[key].implicitInputs).Some?
      ensures found ==> mtime == old(storage.records)[key].mtime
      ensures found && ok ==> Some(implicitInputs) == Resolve(old(storage.View()), old(storage.records)[key].implicitInputs)
    {
      var isNew := storage.Insert(key);
      found, ok := !isNew, true;
      if found {
        mtime := storage.records[key].mtime;
        var implicit := storage.GetImplicitInputs(storage.records[key].implicitInputs);
        ok := implicit.Some?;
        if ok { implicitInputs := implicit.value; }
      }
    }

    /** None where looking up the implicit inputs throws. */
    method IsOutdated(disk: Disk) returns (r: Option<bool>)
      requires files.Valid()
      modifies `mtime, `implicitInputs, files, files.data, storage
      ensures files.Valid() && fresh(files.data - old(files.data))
      ensures LookedAt(old(files.View()), files.View(), disk, inputs + outputs + implicitInputs)
      ensures always || storage == null ==> r == Some(true)
      ensures !always && storage != null ==>
                r == Outdated(old(storage.View()), key, inputs, outputs, old(files.View()), disk)
      ensures storage != null ==>
                && storage.changed == old(storage.changed)
                && storage.View()
                   == if always || key in old(storage.records) then old(storage.View())
                      else old(storage.View()).(records := old(storage.records)[key := NewRecord])
      ensures !always && storage != null && key in old(storage.records) && r.Some? ==>
                && mtime == old(storage.records)[key].mtime
                && Some(implicitInputs) == Resolve(old(storage.View()), old(storage.records)[key].implicitInputs)
    {
      if always || storage == null { return Some(true); }
      var found, ok := Recall(storage);
      if !found { return Some(true); }
      if !ok { return None; }
      var changed := IsTimeChanged(disk);
      r := Some(changed);
    }

    /** Registers the inputs; `mtime` becomes the latest time. */
    method TakeInputTimes(disk: Disk)
      requires files.Valid()
      modifies `mtime, files
      ensures files.Valid() && fresh(files.data - old(files.data))
      ensures files.View() == AllRegistered(old(files.View()), disk, inputs)
      ensures mtime == Latest(old(mtime), InputTimes(old(files.View()), disk, inputs))
    {
      var todo, latest := inputs, mtime;
      ghost var before, m, done: set<Path> := files.View(), mtime, {};
      while todo != {}
        invariant todo !! done && todo + done == inputs
        invariant files.Valid() && fresh(files.data - old(files.data))
        invariant files.View() == AllRegistered(before, disk, done)
        invariant latest == Latest(m, InputTimes(before, disk, done))
      {
        var p :| p in todo;
        RegisterOnce(before, disk, done, p);
        LatestInput(m, before, disk, done, p);
        var t := files.KnownTime(disk, p);
        latest := Max(latest, t);
        todo, done := todo - {p}, done + {p};
      }
      assert done == inputs;
      mtime := latest;
    }

    /** Looks at the outputs again; `ok` is false at the first one that does not exist. */
    method TakeOutputTimes(disk: Disk, m: Time) returns (ok: bool, latest: Time)
      requires files.Valid()
      modifies files, files.data
      ensures files.Valid() && fresh(files.data - old(files.data))
      ensures ok <==> outputs <= disk.Keys
      ensures ok ==> files.View() == AllRechecked(old(files.View()), disk, outputs)
      ensures ok ==> latest == Latest(m, OutputTimes(old(files.View()), disk, outputs))
    {
      var todo := outputs;
      latest := m;
      ghost var before, done: set<Path> := files.View(), {};
      while todo != {}
        invariant todo !! done && todo + done == outputs && done <= disk.Keys
        invariant files.Valid() && fresh(files.data - old(files.data))
        invariant files.View() == AllRechecked(before, disk, done)
        invariant latest == Latest(m, OutputTimes(before, disk, done))
      {
        var p :| p in todo;
        RecheckOnce(before, disk, done, p);
        LatestOutput(m, before, disk, done, p);
        var t := files.RecheckedTime(disk, p);
        if p !in disk { return false, latest; }
        latest := Max(latest, t);
        todo, done := todo - {p}, done + {p};
      }
      assert done == outputs;
      ok := true;
    }

    /** Looks again at the implicit inputs that were missing when they were registered. */
    method RecheckImplicitInputs(disk: Disk)
      requires files.Valid()
      modifies files, files.data
      ensures files.Valid() && fresh(files.data - old(files.data))
      ensures files.View() == AllFoundAgain(old(files.View()), disk, implicitInputs)
    {
      var todo := implicitInputs;
      ghost var before, done: set<Path> := files.View(), {};
      while todo != {}
        invariant todo !! done && todo + done == implicitInputs
        invariant files.Valid() && fresh(files.data - old(files.data))
        invariant files.View() == AllFoundAgain(before, disk, done)
      {
        var p :| p in todo;
        FindOnce(before, disk, done, p);
        files.FindAgain(disk, p);
        todo, done := todo - {p}, done + {p};
      }
      assert done == implicitInputs;
    }

    /** `ok` is false where an output was not created; nothing is remembered then. */
    method AfterCommand(disk: Disk) returns (ok: bool)
      requires files.Valid()
      modifies `mtime, files, files.data, storage
      ensures files.Valid() && fresh(files.data - old(files.data))
      ensures ok <==> outputs <= disk.Keys
      ensures ok ==>
                mtime == Latest(old(mtime), InputTimes(old(files.View()), disk, inputs)
                                            + OutputTimes(old(files.View()), disk, outputs))
      ensures storage != null && !ok ==> storage.View() == old(storage.View()) && storage.changed == old(storage.changed)
      ensures storage != null && ok ==>
                && CommandCompleted(storage.hash, old(storage.View()), key, mtime, implicitInputs, storage.View())
                && storage.changed
                && files.View() == AllFoundAgain(AllRechecked(AllRegistered(old(files.View()), disk, inputs), disk, outputs),
                                                 disk, implicitInputs)
                && KnowsImplicitInputs(old(files.View()), files.View(), disk, outputs, implicitInputs)
    {
      ImplicitInputsAreKnown(files.View(), disk, inputs, outputs, implicitInputs);
      ok := TakeTimes(disk);
      if ok && storage != null {
        RecheckImplicitInputs(disk);
        Remember(storage);
      }
    }

    method TakeTimes(disk: Disk) returns (ok: bool)
      requires files.Valid()
      modifies `mtime, files, files.data
      ensures files.Valid() && fresh(files.data - old(files.data))
      ensures ok <==> outputs <= disk.Keys
      ensures ok ==>
                && files.View() == AllRechecked(AllRegistered(old(files.View()), disk, inputs), disk, outputs)
                && mtime == Latest(old(mtime), InputTimes(old(files.View()), disk, inputs)
                                               + OutputTimes(old(files.View()), disk, outputs))
    {
      ghost var before, m := files.View(), mtime;
      TakeInputTimes(disk);
      OutputsAfterInputs(before, disk, inputs, outputs);
      LatestOfBoth(m, InputTimes(before, disk, inputs), OutputTimes(before, disk, outputs));
      ok, mtime := TakeOutputTimes(disk, mtime);
    }

    method Remember(storage: CommandStorage)
      modifies storage
      ensures CommandCompleted(storage.hash, old(storage.View()), key, mtime, implicitInputs, storage.View())
      ensures storage.changed
    {
      var _ := storage.Insert(key);
      storage.records := storage.records[key := storage.records[key].(hash := key, mtime := mtime)];
      storage.SetImplicitInputs(key, implicitInputs);
      storage.AsyncCommandLog(key);
    }
  }
}
