/** A parallel build leaves the files that running the commands one by one
    leaves: for every interleaving of `execute` and every topological order. */
module ParallelBuild {
  import opened Common
  import opened Graphs
  import opened Scheduler
  import opened SchedulerSafety
  import opened SchedulerTheorems

  // ---- one command after the other ----

  ghost function Execute<C>(p: Plan<C>, c: C, disk: Disk): Disk
    requires c in p.actions
  {
    disk + map q | q in p.actions[c].outputs :: p.actions[c].run(ViewOf(disk, p.actions[c].inputs), q)
  }

  ghost function Sequential<C>(p: Plan<C>, order: seq<C>, disk: Disk): Disk
    requires forall i | 0 <= i < |order| :: order[i] in p.actions
  {
    if order == [] then disk
    else var n := |order| - 1; Execute(p, order[n], Sequential(p, order[..n], disk))
  }

  ghost predicate IsOutput<C>(p: Plan<C>, q: Path)
  {
    exists c :: c in p.actions && q in p.actions[c].outputs
  }

  /** `made` agrees with `disk` on every file that no command writes. */
  ghost predicate SourcesKept<C>(p: Plan<C>, disk: Disk, made: Disk)
  {
    forall q :: !IsOutput(p, q) ==> Get(made, q) == Get(disk, q)
  }

  /** Looking at files that did not change. */
  lemma UpToDateFramed<C>(p: Plan<C>, before: Disk, after: Disk, c: C)
    requires c in p.actions && UpToDate(p, before, c)
    requires forall q | q in p.actions[c].inputs || q in p.actions[c].outputs :: Get(after, q) == Get(before, q)
    ensures UpToDate(p, after, c)
  {
    assert ViewOf(after, p.actions[c].inputs) == ViewOf(before, p.actions[c].inputs);
  }

  /** In a topological order a command writes nothing that it or an earlier
      command reads, and nothing that an earlier command writes. */
  lemma LaterWritesElsewhere<C>(p: Plan<C>, t: seq<C>, i: nat, k: nat, q: Path)
    requires Linked(p) && FilesOrdered(p) && IsTopological(p.deps, t) && i <= k < |t|
    requires t[i] in p.deps && t[k] in p.deps && q in p.actions[t[k]].outputs
    ensures q !in p.actions[t[i]].inputs
    ensures i < k ==> q !in p.actions[t[i]].outputs
  {
    forall m | 0 <= m < i
      ensures t[..i][m] != t[k]
    {
      assert t[..i][m] == t[m];
    }
    assert t[k] !in p.deps[t[i]];
  }

  ghost predicate AllIn<C>(p: Plan<C>, t: seq<C>)
  {
    forall i | 0 <= i < |t| :: t[i] in p.actions
  }

  lemma TopologicalIsIn<C>(p: Plan<C>, t: seq<C>)
    requires Linked(p) && IsTopological(p.deps, t)
    ensures AllIn(p, t)
  {
    forall i | 0 <= i < |t|
      ensures t[i] in p.actions
    {
      assert t[i] in Elements(t);
    }
  }

  lemma ExecuteKeeps<C>(p: Plan<C>, c: C, disk: Disk, q: Path)
    requires c in p.actions && q !in p.actions[c].outputs
    ensures Get(Execute(p, c, disk), q) == Get(disk, q)
  {
  }

  lemma ExecuteMakesUpToDate<C>(p: Plan<C>, c: C, disk: Disk)
    requires c in p.actions && p.actions[c].inputs !! p.actions[c].outputs
    ensures UpToDate(p, Execute(p, c, disk), c)
  {
    forall q | q in p.actions[c].inputs
      ensures Get(Execute(p, c, disk), q) == Get(disk, q)
    {
      ExecuteKeeps(p, c, disk, q);
    }
    assert ViewOf(Execute(p, c, disk), p.actions[c].inputs) == ViewOf(disk, p.actions[c].inputs);
  }

  lemma SequentialUnfolds<C>(p: Plan<C>, t: seq<C>, disk: Disk, k: nat)
    requires AllIn(p, t) && 0 < k <= |t|
    ensures Sequential(p, t[..k], disk) == Execute(p, t[k - 1], Sequential(p, t[..k - 1], disk))
  {
    assert t[..k][..k - 1] == t[..k - 1];
  }

  lemma LaterKeepsUpToDate<C>(p: Plan<C>, t: seq<C>, before: Disk, i: nat, k: nat)
    requires Linked(p) && FilesOrdered(p) && IsTopological(p.deps, t) && AllIn(p, t) && i < k < |t|
    requires UpToDate(p, before, t[i])
    ensures UpToDate(p, Execute(p, t[k], before), t[i])
  {
    forall q | q in p.actions[t[i]].inputs || q in p.actions[t[i]].outputs
      ensures Get(Execute(p, t[k], before), q) == Get(before, q)
    {
      if q in p.actions[t[k]].outputs { LaterWritesElsewhere(p, t, i, k, q); }
      ExecuteKeeps(p, t[k], before, q);
    }
    UpToDateFramed(p, before, Execute(p, t[k], before), t[i]);
  }

  lemma ReadsNotOwnOutputs<C>(p: Plan<C>, t: seq<C>, k: nat)
    requires Linked(p) && FilesOrdered(p) && IsTopological(p.deps, t) && AllIn(p, t) && k < |t|
    ensures p.actions[t[k]].inputs !! p.actions[t[k]].outputs
  {
    forall q | q in p.actions[t[k]].outputs
      ensures q !in p.actions[t[k]].inputs
    {
      LaterWritesElsewhere(p, t, k, k, q);
    }
  }

  /** After the first k commands these are up to date. */
  lemma {:induction false} SequentialPrefix<C>(p: Plan<C>, t: seq<C>, disk: Disk, k: nat, i: nat)
    requires Linked(p) && FilesOrdered(p) && IsTopological(p.deps, t) && AllIn(p, t) && i < k <= |t|
    ensures UpToDate(p, Sequential(p, t[..k], disk), t[i])
  {
    SequentialUnfolds(p, t, disk, k);
    var before := Sequential(p, t[..k - 1], disk);
    if i == k - 1 {
      ReadsNotOwnOutputs(p, t, i);
      ExecuteMakesUpToDate(p, t[i], before);
    } else {
      SequentialPrefix(p, t, disk, k - 1, i);
      LaterKeepsUpToDate(p, t, before, i, k - 1);
    }
  }

  lemma {:induction false} SequentialKeepsSources<C>(p: Plan<C>, order: seq<C>, disk: Disk)
    requires AllIn(p, order)
    ensures SourcesKept(p, disk, Sequential(p, order, disk))
  {
    if order != [] {
      var n := |order| - 1;
      SequentialKeepsSources(p, order[..n], disk);
      forall q | !IsOutput(p, q)
        ensures Get(Sequential(p, order, disk), q) == Get(disk, q)
      {
        ExecuteKeeps(p, order[n], Sequential(p, order[..n], disk), q);
      }
    }
  }

  /** Two disks that agree on sources and are up to date for a set of commands
      closed under dependencies agree on what those commands write. */
  lemma {:induction false} UpToDateAgree<C>(p: Plan<C>, t: seq<C>, disk: Disk, a: Disk, b: Disk, ok: set<C>, k: nat, q: Path)
    requires Linked(p) && FilesOrdered(p) && IsTopological(p.deps, t) && AllIn(p, t) && k < |t|
    requires SourcesKept(p, disk, a) && SourcesKept(p, disk, b)
    requires ok <= p.deps.Keys && forall c | c in ok :: p.deps[c] <= ok && UpToDate(p, a, c) && UpToDate(p, b, c)
    requires t[k] in ok && q in p.actions[t[k]].outputs
    ensures Get(a, q) == Get(b, q)
    decreases k
  {
    var c := t[k];
    forall r | r in p.actions[c].inputs
      ensures Get(a, r) == Get(b, r)
    {
      if IsOutput(p, r) {
        var g :| g in p.actions && r in p.actions[g].outputs;
        assert g in p.deps[c] && g in t[..k];
        var m :| 0 <= m < k && t[m] == g;
        UpToDateAgree(p, t, disk, a, b, ok, m, r);
      }
    }
    assert ViewOf(a, p.actions[c].inputs) == ViewOf(b, p.actions[c].inputs);
  }

  // ---- what every reachable state keeps about files ----

  ghost predicate ViewHolds<C>(p: Plan<C>, s: State<C>, c: C)
    requires Sized(p, s) && c in p.deps
  {
    var j := s.job[c];
    j.Running? ==>
      && (forall q | q in j.view :: j.view[q] == Get(s.disk, q))
      && (forall q | q in j.written :: Get(s.disk, q) == Some(p.actions[c].run(j.view, q)))
      && (j.written != {} ==> j.view.Keys == p.actions[c].inputs)
  }

  ghost predicate Contents<C>(p: Plan<C>, disk: Disk, s: State<C>)
    requires Sized(p, s)
  {
    && (forall c | c in p.deps :: ViewHolds(p, s, c))
    && (forall c | c in p.deps && RanOk(s.job[c]) :: UpToDate(p, s.disk, c))
    && SourcesKept(p, disk, s.disk)
  }

  /** Nobody who has started reads what a running command writes, not even
      that command itself. */
  lemma RunningIsUnread<C>(p: Plan<C>, s: State<C>, c: C, q: Path, reader: C)
    requires Linked(p) && FilesOrdered(p) && Sized(p, s) && Counters(p, s.left, s.job) && Pushers(p, s.left, s.job)
    requires c in p.deps && s.job[c].Running? && q in p.actions[c].outputs
    requires reader in p.deps && s.job[reader] != NotPushed
    ensures q !in p.actions[reader].inputs
    ensures reader != c ==> q !in p.actions[reader].outputs
  {
    if q in p.actions[reader].inputs {
      PushedIsNotOwed(p, s.left, s.job, c, reader);
      assert false;
    }
  }

  /** The disk changes in outputs of the running command `c` only. */
  ghost predicate ChangesOnly<C>(p: Plan<C>, c: C, before: Disk, after: Disk)
    requires c in p.actions
  {
    forall q | q !in p.actions[c].outputs :: Get(after, q) == Get(before, q)
  }

  lemma OthersKeepContents<C>(p: Plan<C>, s: State<C>, s': State<C>, c: C, e: C)
    requires Linked(p) && FilesOrdered(p) && Sized(p, s) && Sized(p, s') && Counters(p, s.left, s.job) && Pushers(p, s.left, s.job)
    requires c in p.deps && s.job[c].Running? && ChangesOnly(p, c, s.disk, s'.disk)
    requires e in p.deps && e != c && s'.job[e] == s.job[e]
    requires s.job[e].Running? ==> s.job[e].view.Keys <= p.actions[e].inputs && s.job[e].written <= p.actions[e].outputs
    requires ViewHolds(p, s, e) && (RanOk(s.job[e]) ==> UpToDate(p, s.disk, e))
    ensures ViewHolds(p, s', e) && (RanOk(s'.job[e]) ==> UpToDate(p, s'.disk, e))
  {
    if s.job[e] != NotPushed {
      forall q | q in p.actions[e].inputs || q in p.actions[e].outputs
        ensures Get(s'.disk, q) == Get(s.disk, q)
      {
        if q in p.actions[c].outputs { RunningIsUnread(p, s, c, q, e); }
      }
      if RanOk(s.job[e]) { UpToDateFramed(p, s.disk, s'.disk, e); }
    }
  }

  lemma ContentsWhileRunning<C>(p: Plan<C>, disk: Disk, s: State<C>, s': State<C>, c: C)
    requires Linked(p) && FilesOrdered(p) && Sized(p, s) && Sized(p, s') && Counters(p, s.left, s.job) && Pushers(p, s.left, s.job)
    requires InBounds(p, s) && Contents(p, disk, s) && c in p.deps && s.job[c].Running?
    requires s'.job == s.job[c := s'.job[c]] && !RanOk(s'.job[c]) && ViewHolds(p, s', c)
    requires ChangesOnly(p, c, s.disk, s'.disk)
    ensures Contents(p, disk, s')
  {
    forall q | !IsOutput(p, q)
      ensures Get(s'.disk, q) == Get(disk, q)
    {
      assert q !in p.actions[c].outputs;
    }
    forall e | e in p.deps
      ensures ViewHolds(p, s', e)
      ensures RanOk(s'.job[e]) ==> UpToDate(p, s'.disk, e)
    {
      if e != c { OthersKeepContents(p, s, s', c, e); }
    }
  }

  lemma ContentsRead<C>(p: Plan<C>, disk: Disk, s: State<C>, c: C, q: Path, s': State<C>)
    requires Sized(p, s) && Sized(p, s') && Contents(p, disk, s) && Reads(p, s, c, q, s')
    ensures Contents(p, disk, s')
  {
    forall e | e in p.deps
      ensures ViewHolds(p, s', e) && (RanOk(s'.job[e]) ==> UpToDate(p, s'.disk, e))
    {
      assert ViewHolds(p, s, e);
      assert e != c ==> s'.job[e] == s.job[e];
    }
  }

  lemma WriteKeepsView<C>(p: Plan<C>, s: State<C>, c: C, q: Path, s': State<C>)
    requires Linked(p) && FilesOrdered(p) && Sized(p, s) && Sized(p, s') && Counters(p, s.left, s.job) && Pushers(p, s.left, s.job)
    requires Writes(p, s, c, q, s') && ViewHolds(p, s, c)
    ensures ViewHolds(p, s', c) && ChangesOnly(p, c, s.disk, s'.disk)
  {
    RunningIsUnread(p, s, c, q, c);
  }

  lemma ContentsWrite<C>(p: Plan<C>, disk: Disk, s: State<C>, c: C, q: Path, s': State<C>)
    requires Linked(p) && FilesOrdered(p) && Sized(p, s) && Sized(p, s') && Counters(p, s.left, s.job) && Pushers(p, s.left, s.job)
    requires InBounds(p, s) && Contents(p, disk, s) && Writes(p, s, c, q, s')
    ensures Contents(p, disk, s')
  {
    WriteKeepsView(p, s, c, q, s');
    ContentsWhileRunning(p, disk, s, s', c);
  }

  lemma ContentsFail<C>(p: Plan<C>, disk: Disk, s: State<C>, c: C, garbage: Disk, s': State<C>)
    requires Linked(p) && FilesOrdered(p) && Sized(p, s) && Sized(p, s') && Counters(p, s.left, s.job) && Pushers(p, s.left, s.job)
    requires InBounds(p, s) && Contents(p, disk, s) && Fails(p, s, c, garbage, s')
    ensures Contents(p, disk, s')
  {
    ContentsWhileRunning(p, disk, s, s', c);
  }

  lemma ContentsSucceed<C>(p: Plan<C>, disk: Disk, s: State<C>, c: C, s': State<C>)
    requires Sized(p, s) && Sized(p, s') && Contents(p, disk, s) && Succeeds(p, s, c, s')
    ensures Contents(p, disk, s')
  {
    assert ViewHolds(p, s, c);
    assert s.job[c].view == ViewOf(s.disk, p.actions[c].inputs);
    assert UpToDate(p, s.disk, c);
    assert forall e | e in p.deps && e != c :: s'.job[e] == s.job[e] && ViewHolds(p, s, e);
  }

  lemma ContentsReuse<C>(p: Plan<C>, disk: Disk, s: State<C>, c: C, s': State<C>)
    requires Sized(p, s) && Sized(p, s') && Contents(p, disk, s) && Reuses(p, s, c, s')
    ensures Contents(p, disk, s')
  {
    assert forall e | e in p.deps && e != c :: s'.job[e] == s.job[e] && ViewHolds(p, s, e);
  }

  /** Nothing is read, written or completed. */
  lemma ContentsSame<C>(p: Plan<C>, disk: Disk, s: State<C>, s': State<C>)
    requires Sized(p, s) && Sized(p, s') && Contents(p, disk, s) && s'.disk == s.disk
    requires forall c | c in p.deps :: RanOk(s'.job[c]) ==> RanOk(s.job[c])
    requires forall c | c in p.deps && s'.job[c].Running? :: s'.job[c] == s.job[c] || s'.job[c] == Running(map[], {})
    ensures Contents(p, disk, s')
  {
    assert forall c | c in p.deps :: ViewHolds(p, s, c);
  }

  lemma ContentsWritten<C>(p: Plan<C>, cfg: Config, disk: Disk, s: State<C>, l: Label<C>, s': State<C>)
    requires Linked(p) && FilesOrdered(p) && Sized(p, s) && Sized(p, s') && Counters(p, s.left, s.job) && Pushers(p, s.left, s.job)
    requires InBounds(p, s) && Contents(p, disk, s) && TaskNext(p, cfg, s, l, s') && (l.Write? || l.Fail?)
    ensures Contents(p, disk, s')
  {
    match l
    case Write(c, q) => ContentsWrite(p, disk, s, c, q, s');
    case Fail(c, garbage) => ContentsFail(p, disk, s, c, garbage, s');
  }

  lemma ContentsOnTheWay<C>(p: Plan<C>, cfg: Config, disk: Disk, s: State<C>, l: Label<C>, s': State<C>)
    requires Sized(p, s) && Sized(p, s') && Contents(p, disk, s) && TaskNext(p, cfg, s, l, s')
    requires l.Read? || l.Reuse? || l.Succeed?
    ensures Contents(p, disk, s')
  {
    match l
    case Read(c, q) => ContentsRead(p, disk, s, c, q, s');
    case Reuse(c) => ContentsReuse(p, disk, s, c, s');
    case Succeed(c) => ContentsSucceed(p, disk, s, c, s');
  }

  lemma ContentsStep<C>(p: Plan<C>, cfg: Config, disk: Disk, s: State<C>, l: Label<C>, s': State<C>)
    requires Inv(p, cfg, s) && FilesOrdered(p) && Contents(p, disk, s) && Next(p, cfg, s, l, s') && Sized(p, s')
    ensures Contents(p, disk, s')
  {
    if l.Write? || l.Fail? {
      ContentsWritten(p, cfg, disk, s, l, s');
    } else if l.Read? || l.Reuse? || l.Succeed? {
      ContentsOnTheWay(p, cfg, disk, s, l, s');
    } else {
      ContentsElse(p, cfg, disk, s, l, s');
    }
  }

  lemma ContentsElse<C>(p: Plan<C>, cfg: Config, disk: Disk, s: State<C>, l: Label<C>, s': State<C>)
    requires Sized(p, s) && Sized(p, s') && Contents(p, disk, s) && Next(p, cfg, s, l, s')
    requires !l.Read? && !l.Write? && !l.Fail? && !l.Reuse? && !l.Succeed?
    ensures Contents(p, disk, s')
  {
    OtherStepsKeepFiles(p, cfg, s, l, s');
    ContentsSame(p, disk, s, s');
  }

  lemma OtherStepsKeepFiles<C>(p: Plan<C>, cfg: Config, s: State<C>, l: Label<C>, s': State<C>)
    requires Sized(p, s) && Sized(p, s') && Next(p, cfg, s, l, s')
    requires !l.Read? && !l.Write? && !l.Fail? && !l.Reuse? && !l.Succeed?
    ensures s'.disk == s.disk
    ensures forall c | c in p.deps :: RanOk(s'.job[c]) ==> RanOk(s.job[c])
    ensures forall c | c in p.deps && s'.job[c].Running? :: s'.job[c] == s.job[c] || s'.job[c] == Running(map[], {})
  {
    if Continues(l) {
      ContinuingTask(p, cfg, s, l, s');
      assert s'.disk == s.disk;
      assert RanOk(s'.job[l.c]) ==> RanOk(s.job[l.c]);
      assert s'.job[l.c].Running? ==> s'.job[l.c] == Running(map[], {});
    } else if Loops(l) {
      LoopingMain(p, cfg, s, l, s');
      LoopsKeepDisk(p, cfg, s, l, s');
    } else {
      PushingKeepsFiles(p, cfg, s, l, s');
    }
  }

  lemma LoopsKeepDisk<C>(p: Plan<C>, cfg: Config, s: State<C>, l: Label<C>, s': State<C>)
    requires Sized(p, s) && LoopNext(p, cfg, s, l, s')
    ensures s'.disk == s.disk
  {
  }

  lemma PushingKeepsFiles<C>(p: Plan<C>, cfg: Config, s: State<C>, l: Label<C>, s': State<C>)
    requires Sized(p, s) && Sized(p, s') && PushNext(p, s, l, s')
    ensures s'.disk == s.disk
    ensures forall c | c in p.deps :: RanOk(s'.job[c]) ==> RanOk(s.job[c])
    ensures forall c | c in p.deps && s'.job[c].Running? :: s'.job[c] == s.job[c]
  {
    match l
    case Release(c, d) => assert s'.job == s.job[c := s'.job[c]];
    case Push(c) => assert s'.job == s.job[c := s'.job[c]][s.job[c].next := Queued];
    case _ =>
  }

  ghost predicate ContentsAt<C>(p: Plan<C>, disk: Disk, states: seq<State<C>>, i: nat)
    requires i < |states|
  {
    Sized(p, states[i]) && Contents(p, disk, states[i])
  }

  lemma ContentsFollow<C>(p: Plan<C>, cfg: Config, disk: Disk, states: seq<State<C>>, labels: seq<Label<C>>, i: nat)
    requires 0 < i < |states| == |labels| + 1 && Linked(p) && FilesOrdered(p)
    requires InvAt(p, cfg, states, i - 1) && FollowsAt(p, cfg, states, labels, i) && ContentsAt(p, disk, states, i - 1)
    ensures ContentsAt(p, disk, states, i)
  {
    SizedStep(p, cfg, states[i - 1], labels[i - 1], states[i]);
    ContentsStep(p, cfg, disk, states[i - 1], labels[i - 1], states[i]);
  }

  lemma {:induction false} ContentsAlong<C>(p: Plan<C>, cfg: Config, disk: Disk, states: seq<State<C>>, labels: seq<Label<C>>, i: nat)
    requires Steps(p, cfg, states, labels) && AlwaysInv(p, cfg, states) && Linked(p) && FilesOrdered(p) && i < |states|
    requires ContentsAt(p, disk, states, 0)
    ensures ContentsAt(p, disk, states, i)
  {
    if i > 0 {
      ContentsAlong(p, cfg, disk, states, labels, i - 1);
      ContentsNext(p, cfg, disk, states, labels, i);
    }
  }

  lemma ContentsNext<C>(p: Plan<C>, cfg: Config, disk: Disk, states: seq<State<C>>, labels: seq<Label<C>>, i: nat)
    requires Steps(p, cfg, states, labels) && AlwaysInv(p, cfg, states) && Linked(p) && FilesOrdered(p) && 0 < i < |states|
    requires ContentsAt(p, disk, states, i - 1)
    ensures ContentsAt(p, disk, states, i)
  {
    assert InvAt(p, cfg, states, i - 1) && FollowsAt(p, cfg, states, labels, i);
    ContentsFollow(p, cfg, disk, states, labels, i);
  }

  lemma StartHasContents<C>(p: Plan<C>, cfg: Config, disk: Disk)
    requires Sized(p, Start(p, cfg, disk))
    ensures Contents(p, disk, Start(p, cfg, disk))
  {
  }

  lemma RunKeepsContents<C>(p: Plan<C>, cfg: Config, disk: Disk, states: seq<State<C>>, labels: seq<Label<C>>, i: nat)
    requires WellFormed(p) && FilesOrdered(p) && IsRun(p, cfg, disk, states, labels) && i < |states|
    ensures InvAt(p, cfg, states, i) && ContentsAt(p, disk, states, i)
  {
    RunKeepsInvariant(p, cfg, disk, states, labels);
    assert InvAt(p, cfg, states, 0) && InvAt(p, cfg, states, i);
    StartHasContents(p, cfg, disk);
    ContentsAlong(p, cfg, disk, states, labels, i);
  }

  // ---- parallel equals sequential ----

  lemma SequentialMakes<C>(p: Plan<C>, t: seq<C>, disk: Disk)
    requires Linked(p) && FilesOrdered(p) && IsTopological(p.deps, t) && AllIn(p, t)
    ensures SourcesKept(p, disk, Sequential(p, t, disk))
    ensures forall c | c in p.deps :: UpToDate(p, Sequential(p, t, disk), c)
  {
    SequentialKeepsSources(p, t, disk);
    assert t[..|t|] == t;
    forall c | c in p.deps
      ensures UpToDate(p, Sequential(p, t, disk), c)
    {
      assert c in Elements(t);
      var i :| 0 <= i < |t| && t[i] == c;
      SequentialPrefix(p, t, disk, |t|, i);
    }
  }

  lemma OkDependency<C>(p: Plan<C>, cfg: Config, s: State<C>, e: C, b: C)
    requires Inv(p, cfg, s) && (cfg.throwOnErrors || FailedSet(s) == {})
    requires e in p.deps && RanOk(s.job[e]) && b in p.deps[e]
    ensures b in p.deps && RanOk(s.job[b])
  {
    DependenciesRanBefore(p, cfg, s, e, b);
    assert Failed(s.job[b]) ==> b in FailedSet(s);
  }

  /** The commands that ran without error are closed under dependencies. */
  lemma OkCommands<C>(p: Plan<C>, cfg: Config, s: State<C>) returns (ok: set<C>)
    requires Inv(p, cfg, s) && (cfg.throwOnErrors || FailedSet(s) == {})
    ensures ok == set e | e in p.deps && RanOk(s.job[e])
    ensures forall e | e in ok :: p.deps[e] <= ok
  {
    ok := set e | e in p.deps && RanOk(s.job[e]);
    forall e, b | e in ok && b in p.deps[e]
      ensures b in ok
    {
      OkDependency(p, cfg, s, e, b);
    }
  }

  lemma OkCommandsAgree<C>(p: Plan<C>, cfg: Config, s: State<C>, t: seq<C>, disk: Disk, c: C, q: Path)
    requires Inv(p, cfg, s) && FilesOrdered(p) && Contents(p, disk, s) && IsTopological(p.deps, t) && AllIn(p, t)
    requires cfg.throwOnErrors || FailedSet(s) == {}
    requires c in p.deps && RanOk(s.job[c]) && q in p.actions[c].outputs
    ensures Get(s.disk, q) == Get(Sequential(p, t, disk), q)
  {
    var ok := OkCommands(p, cfg, s);
    SequentialMakes(p, t, disk);
    assert c in Elements(t);
    var k :| 0 <= k < |t| && t[k] == c;
    UpToDateAgree(p, t, disk, s.disk, Sequential(p, t, disk), ok, k, q);
  }

  /** At every moment of every run, also one with failures (as long as they are
      thrown), what a command that ran without error has written is what the
      sequential build would have written. */
  lemma FinishedOutputsAreFinal<C>(p: Plan<C>, cfg: Config, disk: Disk, states: seq<State<C>>, labels: seq<Label<C>>,
                                   t: seq<C>, i: nat, c: C, q: Path)
    requires WellFormed(p) && FilesOrdered(p) && IsRun(p, cfg, disk, states, labels) && i < |states|
    requires IsTopological(p.deps, t) && cfg.throwOnErrors
    requires c in p.deps && c in states[i].job && RanOk(states[i].job[c]) && q in p.actions[c].outputs
    ensures Get(states[i].disk, q) == Get(Sequential(p, t, disk), q)
  {
    TopologicalIsIn(p, t);
    RunKeepsContents(p, cfg, disk, states, labels, i);
    OkCommandsAgree(p, cfg, states[i], t, disk, c, q);
  }

  lemma SameFilesSameDisk(a: Disk, b: Disk)
    requires forall q :: Get(a, q) == Get(b, q)
    ensures a == b
  {
    forall q
      ensures q in a <==> q in b
      ensures q in a ==> a[q] == b[q]
    {
      assert Get(a, q) == Get(b, q);
    }
  }

  lemma CompleteStateIsSequential<C>(p: Plan<C>, cfg: Config, s: State<C>, t: seq<C>, disk: Disk)
    requires Inv(p, cfg, s) && FilesOrdered(p) && Contents(p, disk, s) && IsTopological(p.deps, t) && AllIn(p, t)
    requires forall c | c in p.deps :: s.job[c] == Done(Succeeded)
    ensures s.disk == Sequential(p, t, disk)
  {
    assert FailedSet(s) == {};
    SequentialMakes(p, t, disk);
    forall q
      ensures Get(s.disk, q) == Get(Sequential(p, t, disk), q)
    {
      if IsOutput(p, q) {
        var c :| c in p.actions && q in p.actions[c].outputs;
        OkCommandsAgree(p, cfg, s, t, disk, c, q);
      }
    }
    SameFilesSameDisk(s.disk, Sequential(p, t, disk));
  }

  /** Parallel equals sequential: a run in which every command ran without error
      leaves exactly the files of the sequential build, in any topological order. */
  lemma ParallelEqualsSequential<C>(p: Plan<C>, cfg: Config, disk: Disk, states: seq<State<C>>, labels: seq<Label<C>>, t: seq<C>)
    requires WellFormed(p) && FilesOrdered(p) && IsRun(p, cfg, disk, states, labels) && IsTopological(p.deps, t)
    requires states[|labels|].job == map c | c in p.deps :: Done(Succeeded)
    ensures states[|labels|].disk == Sequential(p, t, disk)
  {
    TopologicalIsIn(p, t);
    RunKeepsContents(p, cfg, disk, states, labels, |labels|);
    CompleteStateIsSequential(p, cfg, states[|labels|], t, disk);
  }
}
