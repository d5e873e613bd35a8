/** What is left of a command storage after it has been saved and loaded again. */
module DatabaseRoundTrip {
  import opened Common
  import opened Bytes
  import opened FrameStreams
  import opened CommandDb
  import opened CommandStorages

  /** The storage a session starts with: the files table first, then the records. */
  function Reloaded(hash: PathHash, ps: seq<Path>, rs: seq<Raw>): Store
  {
    AddRecords(AddPaths(hash, EmptyStore, ps), rs)
  }

  /** The save wrote all of `s`: every file, every record. */
  ghost predicate Saved(hash: PathHash, s: Store, ps: seq<Path>, ks: seq<Word>, xs: seq<Option<Raw>>)
  {
    && s.pending == [] && Elements(ps) == s.files
    && RecordsSaved(hash, s, ks, xs) && Elements(ks) == s.records.Keys
  }

  function Completed(s: Store): set<Word>
  {
    set k | k in s.records && s.records[k].hash != 0
  }

  /** The raw record agrees with the record in the storage. */
  ghost predicate Agrees(hash: PathHash, s: Store, r: Raw)
  {
    && r.hash in s.records && s.records[r.hash].hash == r.hash && r.mtime == s.records[r.hash].mtime
    && Elements(r.inputs) == Rehashed(hash, s, s.records[r.hash].implicitInputs)
  }

  function HashesWritten(s: Store, ks: seq<Word>): set<Word>
    requires forall k | k in ks :: k in s.records
  {
    set k | k in ks && s.records[k].hash != 0
  }

  lemma {:induction false} PresentRecords(hash: PathHash, s: Store, ks: seq<Word>, xs: seq<Option<Raw>>)
    requires WellFormed(hash, s) && RecordsSaved(hash, s, ks, xs)
    ensures forall k | k in ks :: k in s.records
    ensures RawHashes(Present(xs)) == HashesWritten(s, ks)
    ensures DistinctRaws(Present(xs))
    ensures forall r | r in Present(xs) :: Agrees(hash, s, r)
    decreases |xs|
  {
    if xs != [] {
      var k, x, rest := ks[0], xs[0], Present(xs[1..]);
      assert RecordSaved(hash, s, k, x);
      PresentRecords(hash, s, ks[1..], xs[1..]);
      assert ks == [k] + ks[1..];
      if x.Some? {
        assert Present(xs) == [x.value] + rest;
        assert RawHashes(Present(xs)) == {k} + RawHashes(rest);
        assert k !in RawHashes(rest);
        forall j | 0 <= j < |rest|
          ensures rest[j].hash in RawHashes(rest)
        {
        }
      } else {
        assert Present(xs) == rest;
      }
    }
  }

  /** The hashes under which one of the files is found again. */
  function Findable(hash: PathHash, s: Store, files: set<Path>, hs: set<Word>): set<Word>
  {
    Rehashed(hash, s, hs) * HashesOf(hash, files)
  }

  lemma FilesBack(hash: PathHash, ps: seq<Path>, rs: seq<Raw>)
    requires NO_PATH !in ps
    ensures var t := Reloaded(hash, ps, rs);
            && t.files == Elements(ps) && t.pending == []
            && (forall h | h in t.byHash :: t.byHash[h] == NO_PATH || hash(t.byHash[h]) == h)
            && (forall h | h in t.byHash && t.byHash[h] != NO_PATH :: t.byHash[h] in t.files)
            && (forall h | h in HashesOf(hash, t.files) :: h in t.byHash && t.byHash[h] != NO_PATH)
  {
    AddPathsAdds(hash, EmptyStore, ps);
    TableAfter(AddPaths(hash, EmptyStore, ps), rs);
  }

  /** Loading whatever came back of the two files, which after a cut is the first
      paths and the first records: each record that was complete has its time and those
      implicit inputs whose paths came back too. */
  lemma LoadedParts(hash: PathHash, s: Store, ps: seq<Path>, ks: seq<Word>, xs: seq<Option<Raw>>)
    requires WellFormed(hash, s) && RecordsSaved(hash, s, ks, xs) && NO_PATH !in ps
    ensures forall k | k in ks :: k in s.records
    ensures var t := Reloaded(hash, ps, Present(xs));
            && t.files == Elements(ps) && t.pending == []
            && t.records.Keys == HashesWritten(s, ks)
            && (forall k | k in t.records ::
                  t.records[k]
                  == Record(k, s.records[k].mtime, Findable(hash, s, Elements(ps), s.records[k].implicitInputs)))
  {
    var rs := Present(xs);
    var files := AddPaths(hash, EmptyStore, ps);
    FilesBack(hash, ps, rs);
    AddPathsAdds(hash, EmptyStore, ps);
    PresentRecords(hash, s, ks, xs);
    RecordsAfter(files, rs);
    forall r | r in rs
      ensures Restored(files, r)
              == Record(r.hash, s.records[r.hash].mtime,
                        Findable(hash, s, Elements(ps), s.records[r.hash].implicitInputs))
    {
      assert Agrees(hash, s, r);
      assert Known(files.byHash, r.inputs) == Findable(hash, s, Elements(ps), s.records[r.hash].implicitInputs);
    }
  }

  /** Load after save: all files, and exactly the completed records. */
  lemma SaveThenLoad(hash: PathHash, s: Store, ps: seq<Path>, ks: seq<Word>, xs: seq<Option<Raw>>)
    requires WellFormed(hash, s) && Saved(hash, s, ps, ks, xs) && NO_PATH !in s.files
    ensures var t := Reloaded(hash, ps, Present(xs));
            && t.files == s.files && t.pending == []
            && t.records.Keys == Completed(s)
            && (forall k | k in t.records ::
                  t.records[k]
                  == Record(k, s.records[k].mtime, Findable(hash, s, s.files, s.records[k].implicitInputs)))
  {
    LoadedParts(hash, s, ps, ks, xs);
    assert HashesWritten(s, ks) == Completed(s);
  }

  /** Whatever the two files hold, a storage that starts with them is well formed. */
  lemma ReloadedIsWellFormed(hash: PathHash, ps: seq<Path>, rs: seq<Raw>)
    ensures WellFormed(hash, Reloaded(hash, ps, rs)) && Reloaded(hash, ps, rs).files == Elements(ps)
    ensures Reloaded(hash, ps, rs).records.Keys == RawHashes(rs)
  {
    AddPathsAdds(hash, EmptyStore, ps);
    RecordsKeep(hash, AddPaths(hash, EmptyStore, ps), rs);
  }

  /** Well formed, and every path in the table is a known file. */
  ghost predicate TableIsKnown(hash: PathHash, s: Store)
  {
    WellFormed(hash, s) && forall h | h in s.byHash :: s.byHash[h] == NO_PATH || s.byHash[h] in s.files
  }

  lemma RecordKeeps(hash: PathHash, s: Store, r: Raw)
    requires TableIsKnown(hash, s)
    ensures TableIsKnown(hash, AddRecord(s, r))
  {
    assert forall h | h in Known(s.byHash, r.inputs) :: h in AddRecord(s, r).byHash;
  }

  lemma {:induction false} RecordsKeep(hash: PathHash, s: Store, rs: seq<Raw>)
    requires TableIsKnown(hash, s)
    ensures TableIsKnown(hash, AddRecords(s, rs)) && AddRecords(s, rs).files == s.files
    ensures AddRecords(s, rs).records.Keys == s.records.Keys + RawHashes(rs)
    decreases |rs|
  {
    if rs != [] {
      RecordKeeps(hash, s, rs[0]);
      RecordsKeep(hash, AddRecord(s, rs[0]), rs[1..]);
      assert rs == [rs[0]] + rs[1..];
      assert RawHashes(rs) == {rs[0].hash} + RawHashes(rs[1..]);
    }
  }

  /** No other known file has the hash of one of `files`. */
  ghost predicate NoCollisions(hash: PathHash, files: set<Path>, known: set<Path>)
  {
    forall f, g | f in files && g in known && hash(f) == hash(g) :: f == g
  }

  /** The implicit inputs a command is given back are the same after save and load,
      unless another known file has the hash of one of them or of the empty path. */
  lemma RecalledAfterReload(hash: PathHash, s: Store, ps: seq<Path>, ks: seq<Word>, xs: seq<Option<Raw>>,
                            k: Word, recalled: set<Path>)
    requires WellFormed(hash, s) && Saved(hash, s, ps, ks, xs) && NO_PATH !in s.files
    requires k in Completed(s) && Resolve(s, s.records[k].implicitInputs) == Some(recalled)
    requires NoCollisions(hash, recalled + {NO_PATH}, s.files)
    ensures var t := Reloaded(hash, ps, Present(xs));
            && k in t.records && t.records[k].hash == k && t.records[k].mtime == s.records[k].mtime
            && Resolve(t, t.records[k].implicitInputs) == Some(recalled)
  {
    var t := Reloaded(hash, ps, Present(xs));
    SaveThenLoad(hash, s, ps, ks, xs);
    FilesAreFound(hash, ps, Present(xs));
    SameRecalled(hash, s, t, s.records[k].implicitInputs, recalled);
  }

  /** The table leads from the hash of a known file to a known file of that hash. */
  ghost predicate FilesFound(hash: PathHash, t: Store)
  {
    forall f | f in t.files :: hash(f) in t.byHash && t.byHash[hash(f)] in t.files && hash(t.byHash[hash(f)]) == hash(f)
  }

  lemma FilesAreFound(hash: PathHash, ps: seq<Path>, rs: seq<Raw>)
    requires NO_PATH !in ps
    ensures FilesFound(hash, Reloaded(hash, ps, rs))
  {
    FilesBack(hash, ps, rs);
    var t := Reloaded(hash, ps, rs);
    forall f | f in t.files
      ensures hash(f) in HashesOf(hash, t.files)
    {
    }
  }

  lemma SameRecalled(hash: PathHash, s: Store, t: Store, hs: set<Word>, recalled: set<Path>)
    requires forall h | h in s.byHash && s.byHash[h] != NO_PATH :: hash(s.byHash[h]) == h
    requires forall h | h in hs && h in s.byHash && s.byHash[h] != NO_PATH :: s.byHash[h] in s.files
    requires Resolve(s, hs) == Some(recalled) && NoCollisions(hash, recalled + {NO_PATH}, s.files)
    requires t.files == s.files && NO_PATH !in t.files && FilesFound(hash, t)
    ensures Resolve(t, Findable(hash, s, s.files, hs)) == Some(recalled)
  {
    var back := Findable(hash, s, s.files, hs);
    forall h | h in back
      ensures h in t.byHash && t.byHash[h] in recalled
    {
      var g :| g in hs && g in s.byHash && hash(s.byHash[g]) == h;
      assert s.byHash[g] in recalled + {NO_PATH};
    }
    forall f | f in recalled
      ensures hash(f) in back && t.byHash[hash(f)] == f
    {
      var g :| g in hs && g in s.byHash && s.byHash[g] == f;
      assert f in s.files;
    }
    assert NO_PATH !in recalled;
    assert Resolve(t, back).value == recalled;
  }

  lemma NoUnknownsBack(hash: PathHash, s: Store, ps: seq<Path>, ks: seq<Word>, xs: seq<Option<Raw>>)
    requires WellFormed(hash, s) && Saved(hash, s, ps, ks, xs) && NO_PATH !in s.files && NoUnknowns(s)
    ensures NoUnknowns(Reloaded(hash, ps, Present(xs)))
  {
    var rs, files := Present(xs), AddPaths(hash, EmptyStore, ps);
    AddPathsAdds(hash, EmptyStore, ps);
    PresentRecords(hash, s, ks, xs);
    TableAfter(files, rs);
    forall r | r in rs
      ensures Elements(r.inputs) <= files.byHash.Keys
    {
      InputsAreKnown(hash, s, ps, r);
    }
    assert NoUnknowns(files);
    forall i, h | 0 <= i < |rs| && h in rs[i].inputs
      ensures h in files.byHash
    {
      assert h in Elements(rs[i].inputs);
    }
  }

  lemma InputsAreKnown(hash: PathHash, s: Store, ps: seq<Path>, r: Raw)
    requires WellFormed(hash, s) && s.pending == [] && Elements(ps) == s.files && NoUnknowns(s) && Agrees(hash, s, r)
    ensures Elements(r.inputs) <= AddPaths(hash, EmptyStore, ps).byHash.Keys
  {
    AddPathsAdds(hash, EmptyStore, ps);
    assert forall h | h in s.records[r.hash].implicitInputs :: s.byHash[h] in Elements(ps);
  }

  /** Without unknown files nothing about a completed record is lost, and the new
      storage has no unknown files either. */
  lemma NothingIsLost(hash: PathHash, s: Store, ps: seq<Path>, ks: seq<Word>, xs: seq<Option<Raw>>)
    requires WellFormed(hash, s) && Saved(hash, s, ps, ks, xs) && NO_PATH !in s.files && NoUnknowns(s)
    ensures var t := Reloaded(hash, ps, Present(xs));
            t.records == (map k | k in s.records && s.records[k].hash != 0 :: s.records[k]) && NoUnknowns(t)
  {
    SaveThenLoad(hash, s, ps, ks, xs);
    NoUnknownsBack(hash, s, ps, ks, xs);
    forall k | k in s.records
      ensures Findable(hash, s, s.files, s.records[k].implicitInputs) == s.records[k].implicitInputs
    {
      AllFindable(hash, s, k);
    }
  }

  lemma AllFindable(hash: PathHash, s: Store, k: Word)
    requires WellFormed(hash, s) && s.pending == [] && NoUnknowns(s) && k in s.records
    ensures Findable(hash, s, s.files, s.records[k].implicitInputs) == s.records[k].implicitInputs
  {
    assert Rehashed(hash, s, s.records[k].implicitInputs) == s.records[k].implicitInputs;
  }

  /** In general the implicit inputs with an unknown file are dropped, and no others. */
  lemma UnknownsAreLost(hash: PathHash, s: Store, ps: seq<Path>, ks: seq<Word>, xs: seq<Option<Raw>>, k: Word)
    requires WellFormed(hash, s) && Saved(hash, s, ps, ks, xs) && NO_PATH !in s.files
    requires k in Completed(s) && hash(NO_PATH) !in HashesOf(hash, s.files)
    ensures k in Reloaded(hash, ps, Present(xs)).records
    ensures Reloaded(hash, ps, Present(xs)).records[k].implicitInputs
            == set h | h in s.records[k].implicitInputs && s.byHash[h] != NO_PATH
  {
    SaveThenLoad(hash, s, ps, ks, xs);
    KnownAreFindable(hash, s, s.records[k].implicitInputs);
  }

  lemma KnownAreFindable(hash: PathHash, s: Store, hs: set<Word>)
    requires forall h | h in hs ::
               h in s.byHash && (s.byHash[h] == NO_PATH || (hash(s.byHash[h]) == h && s.byHash[h] in s.files))
    requires hash(NO_PATH) !in HashesOf(hash, s.files)
    ensures Findable(hash, s, s.files, hs) == set h | h in hs && s.byHash[h] != NO_PATH
  {
  }
}
