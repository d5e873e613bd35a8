/** The command database over a whole session and from one session to the next: the
    storage together with what its two files hold. */
module Sessions {
  import opened Common
  import opened Bytes
  import opened FrameStreams
  import opened CommandDb
  import opened CommandStorages
  import opened DatabaseRoundTrip

  /** `ps` and `rs` are what a load of the two files would find. */
  datatype Session = Session(store: Store, changed: bool, ps: seq<Path>, rs: seq<Raw>)

  datatype Event =
    /** the first look at a command */
    | Insert(k: Word)
    /** the end of afterCommand */
    | Complete(k: Word, mtime: Time, implicit: set<Path>)
    /** the log executor handles its next record */
    | Log
    /** the session ends, saving `ps` and the records `xs` under `ks`, and the next one starts */
    | Reopen(ps: seq<Path>, ks: seq<Word>, xs: seq<Option<Raw>>)
    /** the session ends otherwise, and the next one finds these, in files cut short, say */
    | Recover(ps: seq<Path>, rs: seq<Raw>)

  function Opened(hash: PathHash, ps: seq<Path>, rs: seq<Raw>): Session
  {
    Session(Reloaded(hash, ps, rs), false, ps, rs)
  }

  /** A session that logged nothing saves nothing. */
  ghost predicate Reopens(hash: PathHash, s: Session, ps: seq<Path>, ks: seq<Word>, xs: seq<Option<Raw>>, t: Session)
  {
    && s.store.pending == []
    && if s.changed then Saved(hash, s.store, ps, ks, xs) && t == Opened(hash, ps, Present(xs))
       else t == Opened(hash, s.ps, s.rs)
  }

  ghost predicate Step(hash: PathHash, s: Session, e: Event, t: Session)
  {
    match e
    case Insert(k) =>
      k !in s.store.records && t == s.(store := s.store.(records := s.store.records[k := NewRecord]))
    case Complete(k, m, implicit) =>
      CommandCompleted(hash, s.store, k, m, implicit, t.store) && t == s.(store := t.store, changed := true)
    case Log =>
      s.store.pending != [] && s.store.pending[0] in s.store.records && t == s.(store := Logged(s.store))
    case Reopen(ps, ks, xs) => Reopens(hash, s, ps, ks, xs, t)
    case Recover(ps, rs) => NO_PATH !in ps && t == Opened(hash, ps, rs)
  }

  ghost predicate IsRun(hash: PathHash, ss: seq<Session>, es: seq<Event>)
  {
    |ss| == |es| + 1 && forall i | 0 <= i < |es| :: Step(hash, ss[i], es[i], ss[i + 1])
  }

  // ---- what holds all the time ----

  /** The storage is well formed and has at least what its files hold. */
  ghost predicate Sound(hash: PathHash, s: Session)
  {
    && WellFormed(hash, s.store) && NO_PATH !in s.store.files
    && Elements(s.ps) <= s.store.files && RawHashes(s.rs) <= s.store.records.Keys
  }

  lemma OpenedIsSound(hash: PathHash, ps: seq<Path>, rs: seq<Raw>)
    requires NO_PATH !in ps
    ensures Sound(hash, Opened(hash, ps, rs))
  {
    ReloadedIsWellFormed(hash, ps, rs);
  }

  lemma StepKeepsSound(hash: PathHash, s: Session, e: Event, t: Session)
    requires Sound(hash, s) && Step(hash, s, e, t)
    ensures Sound(hash, t)
  {
    match e
    case Insert(k) => InsertKeeps(hash, s.store, k);
    case Complete(k, m, implicit) => CompletionKeeps(hash, s.store, k, m, implicit, t.store);
    case Log => LogKeeps(hash, s.store);
    case Reopen(ps, ks, xs) =>
      assert NO_PATH !in Elements(s.ps);
      if s.changed {
        assert NO_PATH !in Elements(ps);
        OpenedIsSound(hash, ps, Present(xs));
      } else {
        OpenedIsSound(hash, s.ps, s.rs);
      }
    case Recover(ps, rs) => OpenedIsSound(hash, ps, rs);
  }

  /** Along every run of any number of sessions, whatever they found in their files. */
  lemma {:induction false} RunKeepsSound(hash: PathHash, ss: seq<Session>, es: seq<Event>, n: nat)
    requires IsRun(hash, ss, es) && Sound(hash, ss[0]) && n <= |es|
    ensures Sound(hash, ss[n])
  {
    if n > 0 {
      RunKeepsSound(hash, ss, es, n - 1);
      StepKeepsSound(hash, ss[n - 1], es[n - 1], ss[n]);
    }
  }

  // ---- what a completed command is given back ----

  /** The storage has the command with this time and gives back these implicit inputs. */
  ghost predicate Recalls(s: Store, k: Word, m: Time, recalled: set<Path>)
  {
    && k in s.records && s.records[k].hash == k && s.records[k].mtime == m
    && Resolve(s, s.records[k].implicitInputs) == Some(recalled)
  }

  /** ... and so will the next session.  `saved` says that the files have the record even
      if this session ends without saving. */
  ghost predicate Remembers(hash: PathHash, s: Session, k: Word, m: Time, recalled: set<Path>, saved: bool)
  {
    && Recalls(s.store, k, m, recalled)
    && (saved || !s.changed ==> Recalls(Reloaded(hash, s.ps, s.rs), k, m, recalled))
  }

  /** The session ends without saving, and the files are as they were. */
  ghost predicate Killed(s: Session, e: Event)
  {
    e == Recover(s.ps, s.rs)
  }

  /** Nothing happens to the command, no session is killed before the first save, no files
      are lost, and where files are saved none collides with what is recalled or with the
      empty path. */
  ghost predicate Leaves(hash: PathHash, s: Session, e: Event, k: Word, recalled: set<Path>, saved: bool)
  {
    match e
    case Insert(_) => true
    case Complete(j, _, _) => j != k
    case Log => true
    case Reopen(_, _, _) => s.changed ==> NoCollisions(hash, recalled + {NO_PATH}, s.store.files)
    case Recover(_, _) => saved && Killed(s, e)
  }

  lemma GrowingTable(s: Store, t: Store, hs: set<Word>)
    requires Resolve(s, hs).Some?
    requires s.byHash.Keys <= t.byHash.Keys && forall h | h in s.byHash :: t.byHash[h] == s.byHash[h]
    ensures Resolve(t, hs) == Resolve(s, hs)
  {
    assert Resolve(t, hs).value == Resolve(s, hs).value;
  }

  lemma StepRemembers(hash: PathHash, s: Session, e: Event, t: Session, k: Word, m: Time, recalled: set<Path>, saved: bool)
    requires Sound(hash, s) && Step(hash, s, e, t) && k != 0
    requires Remembers(hash, s, k, m, recalled, saved) && Leaves(hash, s, e, k, recalled, saved)
    ensures Remembers(hash, t, k, m, recalled, saved || e.Reopen?)
  {
    if e.Reopen? {
      if s.changed {
        RecalledAfterReload(hash, s.store, e.ps, e.ks, e.xs, k, recalled);
      }
    } else if !e.Recover? {
      GrowingTable(s.store, t.store, s.store.records[k].implicitInputs);
    }
  }

  lemma CompletionIsRecalled(hash: PathHash, s: Session, t: Session, k: Word, m: Time, implicit: set<Path>)
    requires Sound(hash, s) && Step(hash, s, Complete(k, m, implicit), t)
    ensures Resolve(t.store, HashesOf(hash, implicit)).Some?
    ensures Remembers(hash, t, k, m, Resolve(t.store, HashesOf(hash, implicit)).value, false)
  {
    CompletionKeeps(hash, s.store, k, m, implicit, t.store);
  }

  /** A session that ended between the events `i` and `j` has saved. */
  ghost predicate SavedBetween(es: seq<Event>, i: nat, j: nat)
    requires j <= |es|
  {
    exists l :: i < l < j && es[l].Reopen?
  }

  /** Event `i` completes the command, and what was recalled then is left alone. */
  ghost predicate CompletedAt(hash: PathHash, ss: seq<Session>, es: seq<Event>, i: nat, k: Word, m: Time,
                              implicit: set<Path>, recalled: set<Path>)
  {
    && IsRun(hash, ss, es) && Sound(hash, ss[0])
    && i < |es| && es[i] == Complete(k, m, implicit) && k != 0
    && Resolve(ss[i + 1].store, HashesOf(hash, implicit)) == Some(recalled)
    && (forall j | i < j < |es| :: Leaves(hash, ss[j], es[j], k, recalled, SavedBetween(es, i, j)))
  }

  lemma CompletedRemembers(hash: PathHash, ss: seq<Session>, es: seq<Event>, i: nat, k: Word, m: Time,
                           implicit: set<Path>, recalled: set<Path>)
    requires CompletedAt(hash, ss, es, i, k, m, implicit, recalled)
    ensures Remembers(hash, ss[i + 1], k, m, recalled, false)
  {
    RunKeepsSound(hash, ss, es, i);
    assert Step(hash, ss[i], es[i], ss[i + 1]);
    CompletionIsRecalled(hash, ss[i], ss[i + 1], k, m, implicit);
  }

  lemma LaterRemembers(hash: PathHash, ss: seq<Session>, es: seq<Event>, i: nat, k: Word, m: Time,
                       implicit: set<Path>, recalled: set<Path>, j: nat)
    requires CompletedAt(hash, ss, es, i, k, m, implicit, recalled) && i < j < |es|
    requires Remembers(hash, ss[j], k, m, recalled, SavedBetween(es, i, j))
    ensures Remembers(hash, ss[j + 1], k, m, recalled, SavedBetween(es, i, j + 1))
  {
    RunKeepsSound(hash, ss, es, j);
    StepRemembers(hash, ss[j], es[j], ss[j + 1], k, m, recalled, SavedBetween(es, i, j));
    assert SavedBetween(es, i, j + 1) <==> SavedBetween(es, i, j) || es[j].Reopen?;
  }

  /** What is recalled right after the completion is recalled in every later session. */
  lemma {:induction false} RunRemembers(hash: PathHash, ss: seq<Session>, es: seq<Event>, i: nat, k: Word, m: Time,
                                        implicit: set<Path>, recalled: set<Path>, n: nat)
    requires CompletedAt(hash, ss, es, i, k, m, implicit, recalled) && i < n <= |es|
    ensures Remembers(hash, ss[n], k, m, recalled, SavedBetween(es, i, n))
  {
    if n == i + 1 {
      CompletedRemembers(hash, ss, es, i, k, m, implicit, recalled);
    } else {
      RunRemembers(hash, ss, es, i, k, m, implicit, recalled, n - 1);
      LaterRemembers(hash, ss, es, i, k, m, implicit, recalled, n - 1);
    }
  }

  // ---- commands that were never completed ----

  /** No record of the command was ever completed, or its hash is zero. */
  ghost predicate NeverWritten(s: Session, k: Word)
  {
    && (k in s.store.records ==> s.store.records[k] == NewRecord || k == 0)
    && k !in RawHashes(s.rs)
  }

  ghost predicate NotWrittenBy(e: Event, k: Word)
  {
    (e.Complete? ==> e.k != k || k == 0) && (e.Recover? ==> k !in RawHashes(e.rs))
  }

  lemma StepNeverWrites(hash: PathHash, s: Session, e: Event, t: Session, k: Word)
    requires Sound(hash, s) && Step(hash, s, e, t) && NeverWritten(s, k) && NotWrittenBy(e, k)
    ensures NeverWritten(t, k)
    ensures e.Reopen? || e.Recover? ==> k !in t.store.records
  {
    match e
    case Reopen(ps, ks, xs) =>
      if s.changed {
        PresentRecords(hash, s.store, ks, xs);
        ReloadedIsWellFormed(hash, ps, Present(xs));
      } else {
        ReloadedIsWellFormed(hash, s.ps, s.rs);
      }
    case Recover(ps, rs) => ReloadedIsWellFormed(hash, ps, rs);
    case _ =>
  }

  lemma {:induction false} RunNeverWrites(hash: PathHash, ss: seq<Session>, es: seq<Event>, k: Word, n: nat)
    requires IsRun(hash, ss, es) && Sound(hash, ss[0]) && NeverWritten(ss[0], k) && n <= |es|
    requires forall i | 0 <= i < |es| :: NotWrittenBy(es[i], k)
    ensures NeverWritten(ss[n], k)
    ensures n > 0 && (es[n - 1].Reopen? || es[n - 1].Recover?) ==> k !in ss[n].store.records
  {
    if n > 0 {
      RunKeepsSound(hash, ss, es, n - 1);
      RunNeverWrites(hash, ss, es, k, n - 1);
      StepNeverWrites(hash, ss[n - 1], es[n - 1], ss[n], k);
    }
  }
}
