/** The command database in memory (command_storage.cpp): records by command hash,
    the known files, and the table from path hashes to paths. */
module CommandStorages {
  import opened Common
  import opened Bytes
  import opened FrameStreams
  import opened CommandDb

  type PathHash = Path -> Word

  datatype Record = Record(hash: Word, mtime: Time, implicitInputs: set<Word>)

  const NewRecord := Record(0, MISSING, {})

  /** `pending` are the records the log executor has not handled yet. */
  datatype Store = Store(records: map<Word, Record>, files: set<Path>, byHash: map<Word, Path>, pending: seq<Word>)

  const EmptyStore := Store(map[], {}, map[], [])

  /** Every stored hash leads to a path with that hash, or to the empty path a load
      leaves where a file is unknown; implicit inputs are in the table, and after the
      log executor has run their paths are known files. */
  ghost predicate WellFormed(hash: PathHash, s: Store)
  {
    && (forall h | h in s.byHash :: s.byHash[h] == NO_PATH || hash(s.byHash[h]) == h)
    && (forall k, h | k in s.records && h in s.records[k].implicitInputs ::
          h in s.byHash && (s.byHash[h] == NO_PATH || s.byHash[h] in s.files || k in s.pending))
    && (forall k | k in s.records :: s.records[k].hash == k || s.records[k] == NewRecord)
    && (forall k | k in s.pending :: k in s.records)
  }

  /** No table entry holds the empty path. */
  predicate NoUnknowns(s: Store)
  {
    forall h | h in s.byHash :: s.byHash[h] != NO_PATH
  }

  // ---- implicit inputs ----

  /** getImplicitInputs; None where it throws. */
  function Resolve(s: Store, hs: set<Word>): Option<set<Path>>
  {
    if forall h | h in hs :: h in s.byHash then
      Some(set h | h in hs && h in s.byHash && s.byHash[h] != NO_PATH :: s.byHash[h])
    else None
  }

  function HashesOf(hash: PathHash, files: set<Path>): set<Word>
  {
    set f | f in files :: hash(f)
  }

  /** setImplicitInputs: a table entry that is there already stays. */
  ghost predicate ImplicitInputsSet(hash: PathHash, s: Store, k: Word, files: set<Path>, t: Store)
    requires k in s.records
  {
    && t.records == s.records[k := s.records[k].(implicitInputs := HashesOf(hash, files))]
    && t.files == s.files && t.pending == s.pending
    && t.byHash.Keys == s.byHash.Keys + HashesOf(hash, files)
    && (forall h | h in s.byHash :: t.byHash[h] == s.byHash[h])
    && (forall h | h in t.byHash && h !in s.byHash :: t.byHash[h] in files && hash(t.byHash[h]) == h)
  }

  /** The table leads from each file's hash back to the file. */
  ghost predicate LeadsTo(hash: PathHash, s: Store, files: set<Path>)
  {
    forall f | f in files :: hash(f) in s.byHash && s.byHash[hash(f)] == f
  }

  lemma ResolvedIff(hash: PathHash, s: Store, files: set<Path>)
    requires forall h | h in s.byHash :: s.byHash[h] == NO_PATH || hash(s.byHash[h]) == h
    requires NO_PATH !in files && HashesOf(hash, files) <= s.byHash.Keys
    ensures Resolve(s, HashesOf(hash, files)) == Some(files) <==> LeadsTo(hash, s, files)
  {
    var hs := HashesOf(hash, files);
    var got := Resolve(s, hs).value;
    if got == files {
      forall f | f in files
        ensures hash(f) in s.byHash && s.byHash[hash(f)] == f
      {
        assert f in got;
      }
    }
    if LeadsTo(hash, s, files) {
      forall f | f in files
        ensures f in got
      {
        assert hash(f) in hs;
      }
    }
  }

  /** Setting implicit inputs and getting them gives them back exactly when no other
      path sits in the table under one of their hashes and no two of them share one. */
  lemma SetThenGet(hash: PathHash, s: Store, k: Word, files: set<Path>, t: Store)
    requires WellFormed(hash, s)
    requires k in s.records && ImplicitInputsSet(hash, s, k, files, t) && NO_PATH !in files
    ensures Resolve(t, t.records[k].implicitInputs) == Some(files)
            <==> (forall f | f in files :: hash(f) in s.byHash ==> s.byHash[hash(f)] == f)
                 && (forall f, g | f in files && g in files :: hash(f) == hash(g) ==> f == g)
  {
    ResolvedIff(hash, t, files);
  }

  // ---- what every operation keeps ----

  lemma InsertKeeps(hash: PathHash, s: Store, k: Word)
    requires WellFormed(hash, s) && k !in s.records
    ensures WellFormed(hash, s.(records := s.records[k := NewRecord]))
  {
  }

  /** The end of afterCommand: the record is filled in and queued for the log. */
  ghost predicate CommandCompleted(hash: PathHash, s: Store, k: Word, mtime: Time, files: set<Path>, t: Store)
  {
    var r := if k in s.records then s.records[k] else NewRecord;
    var filled := s.(records := s.records[k := r.(hash := k, mtime := mtime)]);
    && t.pending == s.pending + [k]
    && ImplicitInputsSet(hash, filled, k, files, t.(pending := s.pending))
  }

  lemma CompletionKeeps(hash: PathHash, s: Store, k: Word, mtime: Time, files: set<Path>, t: Store)
    requires WellFormed(hash, s) && CommandCompleted(hash, s, k, mtime, files, t)
    ensures WellFormed(hash, t)
    ensures NoUnknowns(s) && NO_PATH !in files ==> NoUnknowns(t)
    ensures t.records.Keys == s.records.Keys + {k}
    ensures t.records[k] == Record(k, mtime, HashesOf(hash, files))
  {
    forall h | h in HashesOf(hash, files)
      ensures h in t.byHash
    {
    }
    forall j | j in t.pending
      ensures j in t.records
    {
      if j !in s.pending { assert j == k; }
    }
  }

  /** The log executor handles the next record. */
  function Logged(s: Store): Store
    requires s.pending != [] && s.pending[0] in s.records
  {
    var got := Resolve(s, s.records[s.pending[0]].implicitInputs);
    s.(pending := s.pending[1..], files := if got.Some? then s.files + got.value else s.files)
  }

  lemma LogKeeps(hash: PathHash, s: Store)
    requires WellFormed(hash, s) && s.pending != []
    ensures s.pending[0] in s.records
    ensures Resolve(s, s.records[s.pending[0]].implicitInputs).Some?
    ensures WellFormed(hash, Logged(s))
    ensures NO_PATH !in s.files ==> NO_PATH !in Logged(s).files
  {
    var k := s.pending[0];
    var got := Resolve(s, s.records[k].implicitInputs).value;
    assert s.pending == [k] + s.pending[1..];
    forall h | h in s.records[k].implicitInputs && s.byHash[h] != NO_PATH
      ensures s.byHash[h] in got
    {
    }
  }

  // ---- saving ----

  /** What a save writes for the implicit inputs: the hash of the path in the table. */
  function Rehashed(hash: PathHash, s: Store, hs: set<Word>): set<Word>
  {
    set h | h in hs && h in s.byHash :: hash(s.byHash[h])
  }

  /** Everything is small enough for its size to be a size_t. */
  ghost predicate InMemory(s: Store)
  {
    && (forall p | p in s.files :: PathFits(p))
    && (forall k | k in s.records :: 24 + 8 * |s.records[k].implicitInputs| < WORD)
  }

  ghost predicate RecordSaved(hash: PathHash, s: Store, k: Word, x: Option<Raw>)
  {
    && k in s.records
    && (x.None? <==> s.records[k].hash == 0)
    && (x.Some? ==>
          && Fits(x.value)
          && x.value.hash == s.records[k].hash && x.value.mtime == s.records[k].mtime
          && Elements(x.value.inputs) == Rehashed(hash, s, s.records[k].implicitInputs))
  }

  /** `xs` is what was written for the records under `ks`, in that order. */
  ghost predicate RecordsSaved(hash: PathHash, s: Store, ks: seq<Word>, xs: seq<Option<Raw>>)
  {
    && |ks| == |xs|
    && (forall i, j | 0 <= i < j < |ks| :: ks[i] != ks[j])
    && (forall i | 0 <= i < |xs| :: RecordSaved(hash, s, ks[i], xs[i]))
  }

  ghost predicate PathsSaved(ps: seq<Path>)
  {
    forall i | 0 <= i < |ps| :: PathFits(ps[i])
  }

  // ---- loading ----

  function AddPath(hash: PathHash, s: Store, p: Path): Store
  {
    s.(files := s.files + {p}, byHash := s.byHash[hash(p) := p])
  }

  function AddPaths(hash: PathHash, s: Store, ps: seq<Path>): Store
    decreases |ps|
  {
    if ps == [] then s else AddPaths(hash, AddPath(hash, s, ps[0]), ps[1..])
  }

  /** The table after looking up `inputs` in it: an unknown hash gets the empty path. */
  function LookedUp(table: map<Word, Path>, inputs: seq<Word>): map<Word, Path>
  {
    map h | h in table.Keys + Elements(inputs) :: if h in table then table[h] else NO_PATH
  }

  function Known(table: map<Word, Path>, inputs: seq<Word>): set<Word>
  {
    set h | h in inputs && h in table && table[h] != NO_PATH
  }

  lemma LookedUpAppend(table: map<Word, Path>, inputs: seq<Word>, h: Word)
    ensures LookedUp(table, inputs + [h])
            == if h in LookedUp(table, inputs) then LookedUp(table, inputs) else LookedUp(table, inputs)[h := NO_PATH]
    ensures Known(table, inputs + [h])
            == if h in table && table[h] != NO_PATH then Known(table, inputs) + {h} else Known(table, inputs)
  {
    assert Elements(inputs + [h]) == Elements(inputs) + {h};
  }

  function AddRecord(s: Store, r: Raw): Store
  {
    var known := Known(s.byHash, r.inputs);
    var all := if r.hash in s.records then s.records[r.hash].implicitInputs + known else known;
    s.(byHash := LookedUp(s.byHash, r.inputs), records := s.records[r.hash := Record(r.hash, r.mtime, all)])
  }

  function AddRecords(s: Store, rs: seq<Raw>): Store
    decreases |rs|
  {
    if rs == [] then s else AddRecords(AddRecord(s, rs[0]), rs[1..])
  }

  lemma {:induction false} AddPathsAdds(hash: PathHash, s: Store, ps: seq<Path>)
    ensures var t := AddPaths(hash, s, ps);
            && t.records == s.records && t.pending == s.pending && t.files == s.files + Elements(ps)
            && s.byHash.Keys <= t.byHash.Keys
            && (forall p | p in ps :: hash(p) in t.byHash)
            && (forall h | h in t.byHash ::
                  if exists p :: p in ps && hash(p) == h then t.byHash[h] in ps && hash(t.byHash[h]) == h
                  else h in s.byHash && t.byHash[h] == s.byHash[h])
    decreases |ps|
  {
    if ps != [] {
      AddPathsAdds(hash, AddPath(hash, s, ps[0]), ps[1..]);
      assert ps == [ps[0]] + ps[1..];
    }
  }

  /** Where several paths have one hash, the table leads to the last of them. */
  lemma {:induction false} LastPathWins(hash: PathHash, s: Store, ps: seq<Path>, i: nat)
    requires i < |ps| && forall j | i < j < |ps| :: hash(ps[j]) != hash(ps[i])
    ensures hash(ps[i]) in AddPaths(hash, s, ps).byHash && AddPaths(hash, s, ps).byHash[hash(ps[i])] == ps[i]
    decreases |ps|
  {
    if i > 0 {
      LastPathWins(hash, AddPath(hash, s, ps[0]), ps[1..], i - 1);
    } else {
      AddPathsAdds(hash, AddPath(hash, s, ps[0]), ps[1..]);
      assert forall p | p in ps[1..] :: hash(p) != hash(ps[0]) by {
        forall p | p in ps[1..]
          ensures hash(p) != hash(ps[0])
        {
          var j :| 0 <= j < |ps[1..]| && ps[1..][j] == p;
          assert ps[j + 1] == p;
        }
      }
    }
  }

  ghost predicate DistinctRaws(rs: seq<Raw>)
  {
    forall i, j | 0 <= i < j < |rs| :: rs[i].hash != rs[j].hash
  }

  /** Loading records adds nothing to the table but empty paths for unknown inputs. */
  lemma {:induction false} TableAfter(s: Store, rs: seq<Raw>)
    ensures var t := AddRecords(s, rs);
            && t.files == s.files && t.pending == s.pending
            && s.byHash.Keys <= t.byHash.Keys
            && (forall h | h in t.byHash :: t.byHash[h] == if h in s.byHash then s.byHash[h] else NO_PATH)
            && (forall h | h in t.byHash && h !in s.byHash :: exists r :: r in rs && h in r.inputs)
    ensures forall r, h | r in rs && h in r.inputs :: h in AddRecords(s, rs).byHash
    decreases |rs|
  {
    if rs != [] {
      TableAfter(AddRecord(s, rs[0]), rs[1..]);
      assert rs == [rs[0]] + rs[1..];
    }
  }

  function RawHashes(rs: seq<Raw>): set<Word>
  {
    set r | r in rs :: r.hash
  }

  function Restored(s: Store, r: Raw): Record
  {
    Record(r.hash, r.mtime, Known(s.byHash, r.inputs))
  }

  lemma RestoredLater(s: Store, first: Raw, r: Raw)
    ensures Restored(AddRecord(s, first), r) == Restored(s, r)
  {
    assert Known(AddRecord(s, first).byHash, r.inputs) == Known(s.byHash, r.inputs);
  }

  lemma RawHashesSplit(rs: seq<Raw>)
    requires DistinctRaws(rs) && rs != []
    ensures rs[0].hash !in RawHashes(rs[1..]) && RawHashes(rs) == {rs[0].hash} + RawHashes(rs[1..])
  {
    assert rs == [rs[0]] + rs[1..];
  }

  /** Distinct new records are all there afterwards, as they were written. */
  lemma {:induction false} RecordsAfter(s: Store, rs: seq<Raw>)
    requires DistinctRaws(rs) && RawHashes(rs) !! s.records.Keys
    ensures AddRecords(s, rs).records.Keys == s.records.Keys + RawHashes(rs)
    ensures forall k | k in s.records :: AddRecords(s, rs).records[k] == s.records[k]
    ensures forall r | r in rs :: AddRecords(s, rs).records[r.hash] == Restored(s, r)
    decreases |rs|
  {
    if rs != [] {
      RawHashesSplit(rs);
      RecordsAfter(AddRecord(s, rs[0]), rs[1..]);
      forall r | r in rs[1..]
        ensures Restored(AddRecord(s, rs[0]), r) == Restored(s, r)
      {
        RestoredLater(s, rs[0], r);
      }
      assert rs == [rs[0]] + rs[1..];
    }
  }

  // ---- several records of one command ----

  /** The inputs that loading `rs` adds to the record under `k`. */
  function KnownOf(table: map<Word, Path>, rs: seq<Raw>, k: Word): set<Word>
  {
    set i, h | 0 <= i < |rs| && rs[i].hash == k && h in Known(table, rs[i].inputs) :: h
  }

  lemma KnownOfSplit(s: Store, rs: seq<Raw>, k: Word)
    requires rs != []
    ensures KnownOf(s.byHash, rs, k)
            == (if rs[0].hash == k then Known(s.byHash, rs[0].inputs) else {})
               + KnownOf(AddRecord(s, rs[0]).byHash, rs[1..], k)
  {
    forall r
      ensures Known(AddRecord(s, rs[0]).byHash, r) == Known(s.byHash, r)
    {
    }
    forall h | h in KnownOf(s.byHash, rs, k)
      ensures h in (if rs[0].hash == k then Known(s.byHash, rs[0].inputs) else {})
                   + KnownOf(AddRecord(s, rs[0]).byHash, rs[1..], k)
    {
      var i :| 0 <= i < |rs| && rs[i].hash == k && h in Known(s.byHash, rs[i].inputs);
      if i > 0 { assert rs[1..][i - 1] == rs[i]; }
    }
  }

  /** Loading keeps what a command's record has, adds all known inputs of all records of the
      command in the file, and takes the time of the last of these. */
  lemma {:induction false} RecordsAccumulate(s: Store, rs: seq<Raw>, k: Word)
    requires k in s.records || k in RawHashes(rs)
    ensures var t := AddRecords(s, rs);
            && k in t.records
            && t.records[k].implicitInputs
               == (if k in s.records then s.records[k].implicitInputs else {}) + KnownOf(s.byHash, rs, k)
            && (k !in RawHashes(rs) ==> t.records[k].mtime == s.records[k].mtime && t.records[k].hash == s.records[k].hash)
            && (forall i | 0 <= i < |rs| && rs[i].hash == k && (forall j | i < j < |rs| :: rs[j].hash != k) ::
                  t.records[k].mtime == rs[i].mtime && t.records[k].hash == k)
    decreases |rs|
  {
    if rs != [] {
      var u, rest := AddRecord(s, rs[0]), rs[1..];
      assert rs == [rs[0]] + rest;
      KnownOfSplit(s, rs, k);
      if k in u.records || k in RawHashes(rest) {
        RecordsAccumulate(u, rest, k);
      }
      forall i | 0 <= i < |rs| && rs[i].hash == k && (forall j | i < j < |rs| :: rs[j].hash != k)
        ensures AddRecords(s, rs).records[k].mtime == rs[i].mtime && AddRecords(s, rs).records[k].hash == k
      {
        if i > 0 {
          assert rest[i - 1] == rs[i] && forall j | i - 1 < j < |rest| :: rest[j] == rs[j + 1];
        } else {
          assert forall j | 0 <= j < |rest| :: rest[j] == rs[j + 1];
        }
      }
    }
  }

  // ---- the log executor to its end ----

  /** The storage when the log executor has nothing left to do. */
  ghost function Drained(hash: PathHash, s: Store): Store
    requires WellFormed(hash, s)
    decreases |s.pending|
  {
    if s.pending == [] then s
    else
      LogKeeps(hash, s);
      Drained(hash, Logged(s))
  }

  /** It handles every record and leaves records and table alone; then every implicit input
      with a path is a known file. */
  lemma {:induction false} LogDrains(hash: PathHash, s: Store)
    requires WellFormed(hash, s)
    ensures var t := Drained(hash, s);
            && t.pending == [] && t.records == s.records && t.byHash == s.byHash && s.files <= t.files
            && (forall k, h | k in t.records && h in t.records[k].implicitInputs ::
                  h in t.byHash && (t.byHash[h] == NO_PATH || t.byHash[h] in t.files))
            && (forall p | p in t.files :: p in s.files || exists h :: h in s.byHash && s.byHash[h] == p != NO_PATH)
    decreases |s.pending|
  {
    if s.pending != [] {
      LogKeeps(hash, s);
      LogDrains(hash, Logged(s));
    }
  }
}
