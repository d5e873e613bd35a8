/** The command storage and its two files on disk, as they change
    (command_storage.cpp:69-133, 140-262, 306-343 and 403-426). */
module CommandStorageObjects {
  import opened Common
  import opened Bytes
  import opened FrameStreams
  import opened CommandDb
  import opened CommandStorages
  import opened DatabaseRoundTrip
  import opened Sessions

  /** commands.bin and commands.bin.files, where they exist. */
  class Database {
    var commands: Option<seq<Byte>>
    var files: Option<seq<Byte>>

    constructor ()
      ensures commands == None && files == None
    {
      commands, files := None, None;
    }
  }

  function Contents(file: Option<seq<Byte>>): seq<Byte>
  {
    if file.Some? then file.value else []
  }

  /** A file cut off after `n` bytes; a missing file stays missing. */
  function CutOff(file: Option<seq<Byte>>, n: nat): Option<seq<Byte>>
    requires n <= |Contents(file)|
  {
    if file.Some? then Some(file.value[..n]) else None
  }

  /** The bytes in front of the cut stay, no others do, and no file appears or disappears. */
  lemma CutOffKeeps(file: Option<seq<Byte>>, n: nat)
    requires n <= |Contents(file)|
    ensures Contents(CutOff(file, n)) == Contents(file)[..n] && |Contents(CutOff(file, n))| == n
    ensures CutOff(file, n).Some? <==> file.Some?
  {
  }

  class CommandStorage {
    const hash: PathHash
    var records: map<Word, Record>
    var fileStorage: set<Path>
    var fileStorageByHash: map<Word, Path>
    /** The queue of the log executor. */
    var pending: seq<Word>
    var changed: bool
    var saved: bool

    ghost function View(): Store
      reads this
    {
      Store(records, fileStorage, fileStorageByHash, pending)
    }

    constructor (hash: PathHash)
      ensures this.hash == hash && View() == EmptyStore && !changed && !saved
    {
      this.hash := hash;
      records, fileStorage, fileStorageByHash, pending, changed, saved := map[], {}, map[], [], false, false;
    }

    method Insert(k: Word) returns (isNew: bool)
      modifies this
      ensures isNew <==> k !in old(records)
      ensures changed == old(changed)
      ensures View() == if isNew then old(View()).(records := old(records)[k := NewRecord]) else old(View())
    {
      isNew := k !in records;
      if isNew { records := records[k := NewRecord]; }
    }

    method GetImplicitInputs(hs: set<Word>) returns (r: Option<set<Path>>)
      ensures r == Resolve(View(), hs)
    {
      var files, todo := {}, hs;
      while todo != {}
        invariant todo <= hs
        invariant forall h | h in hs - todo :: h in fileStorageByHash
        invariant files == set h | h in hs - todo && fileStorageByHash[h] != NO_PATH :: fileStorageByHash[h]
      {
        var h :| h in todo;
        if h !in fileStorageByHash { return None; }
        if fileStorageByHash[h] != NO_PATH { files := files + {fileStorageByHash[h]}; }
        todo := todo - {h};
      }
      assert files == Resolve(View(), hs).value;
      return Some(files);
    }

    method SetImplicitInputs(k: Word, files: set<Path>)
      requires k in records
      modifies this
      ensures changed == old(changed)
      ensures ImplicitInputsSet(hash, old(View()), k, files, View())
    {
      var hs, todo := {}, files;
      while todo != {}
        invariant todo <= files && hs == HashesOf(hash, files - todo)
        invariant records == old(records) && fileStorage == old(fileStorage) && pending == old(pending) && changed == old(changed)
        invariant fileStorageByHash.Keys == old(fileStorageByHash).Keys + hs
        invariant forall h | h in old(fileStorageByHash) :: fileStorageByHash[h] == old(fileStorageByHash)[h]
        invariant forall h | h in fileStorageByHash && h !in old(fileStorageByHash) ::
                    fileStorageByHash[h] in files && hash(fileStorageByHash[h]) == h
      {
        var f :| f in todo;
        var h := hash(f);
        hs := hs + {h};
        if h !in fileStorageByHash { fileStorageByHash := fileStorageByHash[h := f]; }
        todo := todo - {f};
      }
      assert files - todo == files;
      records := records[k := records[k].(implicitInputs := hs)];
    }

    method AsyncCommandLog(k: Word)
      requires k in records
      modifies this
      ensures View() == old(View()).(pending := old(pending) + [k]) && changed
    {
      changed := true;
      pending := pending + [k];
    }

    /** The log executor handles its next record; `ok` is false where it throws. */
    method RunLog() returns (ok: bool)
      requires pending != [] && pending[0] in records
      modifies this
      ensures ok <==> Resolve(old(View()), old(records)[old(pending)[0]].implicitInputs).Some?
      ensures View() == Logged(old(View())) && changed == old(changed)
    {
      var got := GetImplicitInputs(records[pending[0]].implicitInputs);
      pending := pending[1..];
      ok := got.Some?;
      if ok { fileStorage := fileStorage + got.value; }
    }

    /** The loop of FileDb::write over the implicit inputs; None where it throws. */
    method WriteInputs(hs: set<Word>) returns (v: Option<seq<Byte>>, ghost inputs: seq<Word>)
      ensures v.Some? <==> hs <= fileStorageByHash.Keys
      ensures v.Some? ==> v.value == Words(inputs) && |inputs| == |hs| && Elements(inputs) == Rehashed(hash, View(), hs)
    {
      inputs := [];
      var b, todo := [], hs;
      while todo != {}
        invariant todo <= hs && |inputs| == |hs| - |todo| && b == Words(inputs)
        invariant hs - todo <= fileStorageByHash.Keys
        invariant Elements(inputs) == Rehashed(hash, View(), hs - todo)
      {
        var h :| h in todo;
        if h !in fileStorageByHash { return None, inputs; }
        var w := hash(fileStorageByHash[h]);
        WordsAppend(inputs, w);
        b := b + WordBytes(w);
        assert hs - (todo - {h}) == hs - todo + {h};
        assert Elements(inputs + [w]) == Elements(inputs) + {w};
        inputs := inputs + [w];
        todo := todo - {h};
      }
      assert hs - todo == hs;
      v := Some(b);
    }

    /** FileDb::write; None where it throws.  `x` is what was written. */
    method Write(r: Record) returns (v: Option<seq<Byte>>, ghost x: Option<Raw>)
      requires 24 + 8 * |r.implicitInputs| < WORD
      ensures v.Some? <==> r.hash == 0 || r.implicitInputs <= fileStorageByHash.Keys
      ensures x.Some? ==> Fits(x.value)
      ensures v.Some? ==> v.value == RecordPayload(x) && (x.None? <==> r.hash == 0)
      ensures v.Some? && x.Some? ==>
                && x.value.hash == r.hash && x.value.mtime == r.mtime
                && Elements(x.value.inputs) == Rehashed(hash, View(), r.implicitInputs)
    {
      x := None;
      if r.hash == 0 { return Some([]), x; }
      ghost var inputs;
      v, inputs := WriteInputs(r.implicitInputs);
      if v.Some? {
        x := Some(Raw(r.hash, r.mtime, inputs));
        v := Some(WordBytes(r.hash) + TimeBytes(r.mtime) + WordBytes(|r.implicitInputs|) + v.value);
      }
    }

    method SaveFiles(db: Database) returns (ghost ps: seq<Path>)
      requires InMemory(View())
      modifies db
      ensures db.commands == old(db.commands)
      ensures PathsSaved(ps) && Elements(ps) == fileStorage
      ensures db.files == if ps == [] then old(db.files) else Some(FilesFile(ps))
    {
      ps := [];
      var b, todo := [], fileStorage;
      while todo != {}
        invariant todo <= fileStorage && Elements(ps) == fileStorage - todo && (ps == [] <==> todo == fileStorage)
        invariant PathsSaved(ps) && b == FilesFile(ps)
        invariant db.commands == old(db.commands) && db.files == old(db.files)
      {
        var p :| p in todo;
        FilesFileAppend(ps, p);
        assert Elements(ps + [p]) == Elements(ps) + {p};
        b := b + Frame(PrintPath(p));
        ps := ps + [p];
        todo := todo - {p};
      }
      if b != [] { db.files := Some(b); }
    }

    /** `ok` is false where writing a record throws; the file is then left as it was. */
    method SaveCommands(db: Database) returns (ok: bool, ghost ks: seq<Word>, ghost xs: seq<Option<Raw>>)
      requires InMemory(View())
      modifies db
      ensures db.files == old(db.files)
      ensures ok <==> forall k | k in records && records[k].hash != 0 :: records[k].implicitInputs <= fileStorageByHash.Keys
      ensures RecordsSaved(hash, View(), ks, xs)
      ensures ok ==> Elements(ks) == records.Keys
      ensures db.commands == if ok && xs != [] then Some(CommandsFile(xs)) else old(db.commands)
    {
      ks, xs := [], [];
      var b, todo := [], records.Keys;
      while todo != {}
        invariant todo <= records.Keys && Elements(ks) == records.Keys - todo
        invariant RecordsSaved(hash, View(), ks, xs) && b == CommandsFile(xs) && (b == [] <==> xs == [])
        invariant forall k | k in ks && records[k].hash != 0 :: records[k].implicitInputs <= fileStorageByHash.Keys
        invariant db.commands == old(db.commands) && db.files == old(db.files)
      {
        var k :| k in todo;
        var v;
        ghost var x;
        v, x := Write(records[k]);
        if v.None? { return false, ks, xs; }
        CommandsFileAppend(xs, x);
        assert Elements(ks + [k]) == Elements(ks) + {k};
        b := b + Frame(v.value);
        ks, xs := ks + [k], xs + [x];
        todo := todo - {k};
      }
      assert records.Keys - todo == records.Keys;
      if b != [] { db.commands := Some(b); }
      ok := true;
    }

    /** save(): nothing unless something was logged, and nothing the second time.  An
        empty table leaves the old file. */
    method Save(db: Database)
      returns (ok: bool, ghost ps: seq<Path>, ghost ks: seq<Word>, ghost xs: seq<Option<Raw>>)
      requires InMemory(View()) && WellFormed(hash, View()) && pending == []
      modifies db, `saved
      ensures ok && saved == (changed || old(saved)) && View() == old(View())
      ensures !changed || old(saved) ==> db.files == old(db.files) && db.commands == old(db.commands)
      ensures changed && !old(saved) ==>
                && DatabaseRoundTrip.Saved(hash, View(), ps, ks, xs) && PathsSaved(ps)
                && db.files == (if ps == [] then old(db.files) else Some(FilesFile(ps)))
                && db.commands == (if xs == [] then old(db.commands) else Some(CommandsFile(xs)))
    {
      ok, ps, ks, xs := true, [], [], [];
      if changed && !saved {
        ps := SaveFiles(db);
        ok, ks, xs := SaveCommands(db);
        saved := true;
      }
    }

    /** load(), into the storage as it is. */
    method Load(db: Database) returns (ok: bool)
      modifies this, db
      ensures var r, q := FrameStreams.Load(ParsePath, Contents(old(db.files))),
                          FrameStreams.Load(ParseRecord, Contents(old(db.commands)));
              && (ok <==> r.Loaded? && q.Loaded?)
              && (ok ==>
                    && r.kept <= |Contents(old(db.files))| && q.kept <= |Contents(old(db.commands))|
                    && changed == old(changed) && saved == old(saved)
                    && View() == AddRecords(AddPaths(hash, old(View()), r.items), q.items)
                    && db.files == CutOff(old(db.files), r.kept) && db.commands == CutOff(old(db.commands), q.kept))
    {
      ok := LoadFiles(db);
      if ok { ok := LoadCommands(db); }
    }

    method LoadFiles(db: Database) returns (ok: bool)
      modifies this, db
      ensures db.commands == old(db.commands) && changed == old(changed) && saved == old(saved)
      ensures var r := FrameStreams.Load(ParsePath, Contents(old(db.files)));
              && (ok <==> r.Loaded?)
              && (ok ==>
                    && r.kept <= |Contents(old(db.files))| && db.files == CutOff(old(db.files), r.kept)
                    && View() == AddPaths(hash, old(View()), r.items))
    {
      var paths, kept;
      ok, paths, kept := ReadStream(ParsePath, Contents(db.files));
      if !ok { return; }
      db.files := CutOff(db.files, kept);
      for i := 0 to |paths|
        invariant db.commands == old(db.commands) && db.files == CutOff(old(db.files), kept)
        invariant changed == old(changed) && saved == old(saved)
        invariant AddPaths(hash, View(), paths[i..]) == AddPaths(hash, old(View()), paths)
      {
        assert paths[i..][1..] == paths[i + 1..];
        AddLoadedFile(paths[i]);
      }
    }

    method LoadCommands(db: Database) returns (ok: bool)
      modifies this, db
      ensures db.files == old(db.files) && changed == old(changed) && saved == old(saved)
      ensures var r := FrameStreams.Load(ParseRecord, Contents(old(db.commands)));
              && (ok <==> r.Loaded?)
              && (ok ==>
                    && r.kept <= |Contents(old(db.commands))| && db.commands == CutOff(old(db.commands), r.kept)
                    && View() == AddRecords(old(View()), r.items))
    {
      var raws, kept;
      ok, raws, kept := ReadStream(ParseRecord, Contents(db.commands));
      if !ok { return; }
      db.commands := CutOff(db.commands, kept);
      for i := 0 to |raws|
        invariant db.files == old(db.files) && db.commands == CutOff(old(db.commands), kept)
        invariant changed == old(changed) && saved == old(saved)
        invariant AddRecords(View(), raws[i..]) == AddRecords(old(View()), raws)
      {
        assert raws[i..][1..] == raws[i + 1..];
        AddLoadedRecord(raws[i]);
      }
    }

    method AddLoadedFile(p: Path)
      modifies this
      ensures View() == AddPath(hash, old(View()), p) && changed == old(changed) && saved == old(saved)
    {
      fileStorage := fileStorage + {p};
      fileStorageByHash := fileStorageByHash[hash(p) := p];
    }

    method AddLoadedRecord(r: Raw)
      modifies this
      ensures View() == AddRecord(old(View()), r) && changed == old(changed) && saved == old(saved)
    {
      var table, known := fileStorageByHash, {};
      for i := 0 to |r.inputs|
        invariant View() == old(View()) && changed == old(changed) && saved == old(saved)
        invariant table == LookedUp(old(fileStorageByHash), r.inputs[..i])
        invariant known == Known(old(fileStorageByHash), r.inputs[..i])
      {
        var h := r.inputs[i];
        LookedUpAppend(old(fileStorageByHash), r.inputs[..i], h);
        assert r.inputs[..i + 1] == r.inputs[..i] + [h];
        if h !in table { table := table[h := NO_PATH]; }
        if table[h] != NO_PATH { known := known + {h}; }
      }
      assert r.inputs[..|r.inputs|] == r.inputs;
      fileStorageByHash := table;
      var inputs := if r.hash in records then records[r.hash].implicitInputs + known else known;
      records := records[r.hash := Record(r.hash, r.mtime, inputs)];
    }
  }

  /** The two files load as `ps` and `rs`, to their ends. */
  ghost predicate Holds(files: Option<seq<Byte>>, commands: Option<seq<Byte>>, ps: seq<Path>, rs: seq<Raw>)
  {
    && FrameStreams.Load(ParsePath, Contents(files)) == Loaded(ps, |Contents(files)|)
    && FrameStreams.Load(ParseRecord, Contents(commands)) == Loaded(rs, |Contents(commands)|)
  }

  lemma SavedHolds(hash: PathHash, s: Session, files: Option<seq<Byte>>, commands: Option<seq<Byte>>,
                   ps: seq<Path>, ks: seq<Word>, xs: seq<Option<Raw>>)
    requires Sound(hash, s) && Holds(files, commands, s.ps, s.rs)
    requires DatabaseRoundTrip.Saved(hash, s.store, ps, ks, xs) && PathsSaved(ps)
    ensures Holds(if ps == [] then files else Some(FilesFile(ps)), if xs == [] then commands else Some(CommandsFile(xs)),
                  ps, Present(xs))
  {
    if s.ps != [] { assert s.ps[0] in Elements(s.ps) && s.ps[0] in ps; }
    if s.rs != [] { assert s.rs[0].hash in RawHashes(s.rs) && s.rs[0].hash in ks; }
    if ps != [] { FilesFileLoads(ps); }
    if xs != [] { CommandsFileLoads(xs); }
  }

  /** The session of a storage and the files it was loaded from. */
  ghost function SessionOf(s: CommandStorage, ps: seq<Path>, rs: seq<Raw>): Session
    reads s
  {
    Session(s.View(), s.changed, ps, rs)
  }

  lemma CutAtTheEnd(file: Option<seq<Byte>>)
    ensures CutOff(file, |Contents(file)|) == file
  {
    if file.Some? { assert file.value[..|file.value|] == file.value; }
  }

  /** A new storage over the two files. */
  method Open(hash: PathHash, db: Database, ghost ps: seq<Path>, ghost rs: seq<Raw>) returns (t: CommandStorage)
    requires Holds(db.files, db.commands, ps, rs)
    modifies db
    ensures fresh(t) && t.hash == hash && !t.saved
    ensures db.files == old(db.files) && db.commands == old(db.commands)
    ensures SessionOf(t, ps, rs) == Opened(hash, ps, rs)
  {
    ghost var files, commands := db.files, db.commands;
    CutAtTheEnd(files);
    CutAtTheEnd(commands);
    t := new CommandStorage(hash);
    assert t.View() == EmptyStore;
    var ok := t.Load(db);
    assert ok && db.files == files && db.commands == commands;
  }

  /** The end of a session and the start of the next one, over whatever the two files held
      before: it is the step between sessions that the lemmas of Sessions speak about. */
  method SaveAndReopen(s: CommandStorage, db: Database, ghost ps0: seq<Path>, ghost rs0: seq<Raw>)
    returns (t: CommandStorage, ghost ps: seq<Path>, ghost ks: seq<Word>, ghost xs: seq<Option<Raw>>)
    requires InMemory(s.View()) && s.pending == [] && !s.saved
    requires Sound(s.hash, SessionOf(s, ps0, rs0)) && Holds(db.files, db.commands, ps0, rs0)
    modifies db, s`saved
    ensures fresh(t) && t.hash == s.hash && !t.saved
    ensures var ps', rs' := if s.changed then ps else ps0, if s.changed then Present(xs) else rs0;
            && Holds(db.files, db.commands, ps', rs')
            && Step(s.hash, old(SessionOf(s, ps0, rs0)), Reopen(ps, ks, xs), SessionOf(t, ps', rs'))
  {
    var ok;
    ghost var session, files, commands := SessionOf(s, ps0, rs0), db.files, db.commands;
    ok, ps, ks, xs := s.Save(db);
    if s.changed {
      SavedHolds(s.hash, session, files, commands, ps, ks, xs);
      t := Open(s.hash, db, ps, Present(xs));
    } else {
      t := Open(s.hash, db, ps0, rs0);
    }
  }
}
