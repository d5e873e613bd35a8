/** Several threads ask at once whether one file has changed: the compare-and-swap in
    FileData::refresh and the retry loop in File::isChanged (file.cpp:102-152) as a
    transition system.  Some of the threads mark the file unrefreshed first, as
    afterCommand does (command.cpp:585).  The file itself does not change meanwhile. */
module RefreshProtocol {
  import opened Common
  import opened Bytes
  import opened FileTimes

  /** Where a thread is: about to mark the file unrefreshed, in the loop, about to try the swap, after winning it, after
      writing the time, out of the loop, or done with what it has read. */
  datatype Thread = Resetting | Looping | Trying | Won | Written(changed: bool) | Out | Answered(changed: bool, time: Time)

  datatype State<T(==)> = State(data: Seen, threads: map<T, Thread>)

  datatype Label<T(==)> = Reset(t: T) | Check(t: T) | Swap(t: T) | WriteTime(t: T) | Publish(t: T) | Answer(t: T)

  ghost predicate Next<T>(disk: Disk, p: Path, s: State<T>, l: Label<T>, s': State<T>)
  {
    && l.t in s.threads
    && match l
       case Reset(t) =>
         && s.threads[t] == Resetting
         && s' == State(s.data.(refreshed := Unrefreshed), s.threads[t := Looping])
       case Check(t) =>
         && s.threads[t] == Looping
         && s' == s.(threads := s.threads[t := if IsSettled(s.data) then Out else Trying])
       case Swap(t) =>
         && s.threads[t] == Trying
         && s' == if s.data.refreshed.Unrefreshed?
                  then State(s.data.(refreshed := InProcess), s.threads[t := Won])
                  else s.(threads := s.threads[t := Looping])
       case WriteTime(t) =>
         && s.threads[t] == Won
         && s' == if !IsRegular(disk, p) then State(s.data.(time := MISSING), s.threads[t := Written(true)])
                  else if disk[p].time > s.data.time
                  then State(s.data.(time := disk[p].time), s.threads[t := Written(true)])
                  else s.(threads := s.threads[t := Written(false)])
       case Publish(t) =>
         && s.threads[t].Written?
         && s' == State(s.data.(refreshed := if s.threads[t].changed then Changed else NotChanged), s.threads[t := Looping])
       case Answer(t) =>
         && s.threads[t] == Out
         && s' == s.(threads := s.threads[t := Answered(s.data.refreshed.Changed?, s.data.time)])
  }

  predicate IsSettled(d: Seen)
  {
    d.refreshed.NotChanged? || d.refreshed.Changed?
  }

  /** Nobody refreshes yet. */
  ghost predicate Starts<T>(before: Seen, s: State<T>)
  {
    && s.data == before && !before.refreshed.InProcess?
    && forall t | t in s.threads :: s.threads[t].Looping? || s.threads[t].Resetting?
  }

  ghost predicate NobodyResets<T>(s: State<T>)
  {
    forall t | t in s.threads :: s.threads[t] != Resetting
  }

  ghost predicate Refreshing(t: Thread)
  {
    t.Won? || t.Written?
  }

  /** Without resets: while nobody has published, the data is as before but for what the one refreshing
      thread has written; afterwards it is the result of one refresh, and so is every
      answer. */
  ghost predicate Inv<T>(disk: Disk, p: Path, before: Seen, s: State<T>)
  {
    var after := Refreshed(before, disk, p);
    && !before.refreshed.InProcess?
    && (s.data.refreshed.Unrefreshed? ==> s.data == before && forall t | t in s.threads :: !Refreshing(s.threads[t]))
    && (IsSettled(s.data) ==> s.data == after && forall t | t in s.threads :: !Refreshing(s.threads[t]))
    && (forall t, u | t in s.threads && u in s.threads && Refreshing(s.threads[t]) && Refreshing(s.threads[u]) :: t == u)
    && (s.data.refreshed.InProcess? ==>
          before.refreshed.Unrefreshed? && exists t :: t in s.threads && Refreshing(s.threads[t]))
    && (forall t | t in s.threads ::
          match s.threads[t]
          case Resetting => false
          case Won => s.data.time == before.time
          case Written(changed) => after == Seen(s.data.time, if changed then Changed else NotChanged)
          case Out => IsSettled(s.data)
          case Answered(changed, time) => IsSettled(s.data) && time == after.time && changed == after.refreshed.Changed?
          case _ => true)
  }

  lemma InvariantHolds<T>(disk: Disk, p: Path, before: Seen, s: State<T>, l: Label<T>, s': State<T>)
    requires Inv(disk, p, before, s) && Next(disk, p, s, l, s')
    ensures Inv(disk, p, before, s')
  {
    if s'.data.refreshed.InProcess? {
      if s.data.refreshed.InProcess? {
        var t :| t in s.threads && Refreshing(s.threads[t]);
        assert Refreshing(s'.threads[t]);
      } else {
        assert Refreshing(s'.threads[l.t]);
      }
    }
  }

  ghost predicate IsRun<T>(disk: Disk, p: Path, states: seq<State<T>>, labels: seq<Label<T>>)
  {
    && |states| == |labels| + 1
    && forall i | 0 <= i < |labels| :: Next(disk, p, states[i], labels[i], states[i + 1])
  }

  lemma {:induction false} RunKeeps<T>(disk: Disk, p: Path, before: Seen, states: seq<State<T>>, labels: seq<Label<T>>, i: nat)
    requires IsRun(disk, p, states, labels) && Starts(before, states[0]) && NobodyResets(states[0]) && i < |states|
    ensures Inv(disk, p, before, states[i])
  {
    if i > 0 {
      RunKeeps(disk, p, before, states, labels, i - 1);
      InvariantHolds(disk, p, before, states[i - 1], labels[i - 1], states[i - 1 + 1]);
    }
  }

  /** In every interleaving without resets, all threads get the answer of one refresh alone. */
  lemma AllAnswersAgree<T>(disk: Disk, p: Path, before: Seen, states: seq<State<T>>, labels: seq<Label<T>>, i: nat, t: T)
    requires IsRun(disk, p, states, labels) && Starts(before, states[0]) && NobodyResets(states[0]) && i < |states|
    requires t in states[i].threads && states[i].threads[t].Answered?
    ensures var after := Refreshed(before, disk, p);
            states[i].threads[t] == Answered(after.refreshed.Changed?, after.time)
  {
    RunKeeps(disk, p, before, states, labels, i);
  }

  /** The time is then written at most once. */
  lemma WritesAtMostOnce<T>(disk: Disk, p: Path, before: Seen, states: seq<State<T>>, labels: seq<Label<T>>, i: nat, k: nat)
    requires IsRun(disk, p, states, labels) && Starts(before, states[0]) && NobodyResets(states[0])
    requires i < k < |labels| && labels[i].WriteTime?
    ensures !labels[k].WriteTime?
  {
    RunKeeps(disk, p, before, states, labels, i);
    assert Next(disk, p, states[i], labels[i], states[i + 1]);
    WrittenStays(disk, p, before, states, labels, i + 1, k);
    assert Next(disk, p, states[k], labels[k], states[k + 1]);
  }

  ghost predicate NobodyWon<T>(s: State<T>)
  {
    !s.data.refreshed.Unrefreshed? && forall t | t in s.threads :: s.threads[t] != Won
  }

  lemma {:induction false} WrittenStays<T>(disk: Disk, p: Path, before: Seen, states: seq<State<T>>, labels: seq<Label<T>>, i: nat, k: nat)
    requires IsRun(disk, p, states, labels) && Starts(before, states[0]) && NobodyResets(states[0])
    requires i <= k < |states| && NobodyWon(states[i])
    ensures NobodyWon(states[k])
    decreases k
  {
    if i < k {
      RunKeeps(disk, p, before, states, labels, k - 1);
      WrittenStays(disk, p, before, states, labels, i, k - 1);
      assert Next(disk, p, states[k - 1], labels[k - 1], states[k - 1 + 1]);
    }
  }

  // ---- with resets ----

  /** The time of one more look. */
  function LookAgain(disk: Disk, p: Path, before: Seen): Time
  {
    Refreshed(before.(refreshed := Unrefreshed), disk, p).time
  }

  ghost predicate ResetHappened<T>(s0: State<T>, s: State<T>)
  {
    exists t :: t in s0.threads && t in s.threads && s0.threads[t].Resetting? && !s.threads[t].Resetting?
  }

  /** The threads that cannot do with what was known before. */
  ghost predicate LooksAgain<T>(before: Seen, s0: State<T>, t: T)
  {
    before.refreshed.Unrefreshed? || (t in s0.threads && s0.threads[t].Resetting?)
  }

  /** Several threads may then refresh at once, but they write the same time. */
  ghost predicate ResetInv<T>(disk: Disk, p: Path, before: Seen, s0: State<T>, s: State<T>)
  {
    var again := LookAgain(disk, p, before);
    && s.threads.Keys == s0.threads.Keys
    && (s.data.time == before.time || s.data.time == again)
    && (s.data.refreshed.InProcess? ==> exists t :: t in s.threads && Refreshing(s.threads[t]))
    && ((before.refreshed.Unrefreshed? || ResetHappened(s0, s)) && IsSettled(s.data) ==> s.data.time == again)
    && (forall t | t in s.threads && s.threads[t].Written? :: s.data.time == again)
    && (forall t | t in s.threads && LooksAgain(before, s0, t) ::
          match s.threads[t]
          case Out => s.data.time == again
          case Answered(_, time) => time == again
          case _ => true)
  }

  lemma ResetInvHolds<T>(disk: Disk, p: Path, before: Seen, s0: State<T>, s: State<T>, l: Label<T>, s': State<T>)
    requires ResetInv(disk, p, before, s0, s) && Next(disk, p, s, l, s')
    ensures ResetInv(disk, p, before, s0, s')
  {
    if s'.data.refreshed.InProcess? {
      if s.data.refreshed.InProcess? {
        var t :| t in s.threads && Refreshing(s.threads[t]);
        assert Refreshing(s'.threads[t]);
      } else {
        assert Refreshing(s'.threads[l.t]);
      }
    }
  }

  lemma {:induction false} ResetRunKeeps<T>(disk: Disk, p: Path, before: Seen, states: seq<State<T>>, labels: seq<Label<T>>, i: nat)
    requires IsRun(disk, p, states, labels) && Starts(before, states[0]) && i < |states|
    ensures ResetInv(disk, p, before, states[0], states[i])
  {
    if i > 0 {
      ResetRunKeeps(disk, p, before, states, labels, i - 1);
      ResetInvHolds(disk, p, before, states[0], states[i - 1], labels[i - 1], states[i - 1 + 1]);
    }
  }

  /** In every interleaving, a thread that marked the file unrefreshed gets the time of a
      new look, whatever the other threads do; and so does every thread if nobody had
      looked before. */
  lemma ResetGetsNewTime<T>(disk: Disk, p: Path, before: Seen, states: seq<State<T>>, labels: seq<Label<T>>, i: nat, t: T)
    requires IsRun(disk, p, states, labels) && Starts(before, states[0]) && i < |states|
    requires t in states[i].threads && states[i].threads[t].Answered? && LooksAgain(before, states[0], t)
    ensures states[i].threads[t].time == LookAgain(disk, p, before)
  {
    ResetRunKeeps(disk, p, before, states, labels, i);
  }

  // ---- when resets change an answer ----

  ghost predicate MayReach<T(!new)>(disk: Disk, p: Path, s0: State<T>, s: State<T>)
  {
    exists states, labels :: IsRun(disk, p, states, labels) && states[0] == s0 && states[|labels|] == s
  }

  lemma ReachMore<T(!new)>(disk: Disk, p: Path, s0: State<T>, s: State<T>, l: Label<T>, s': State<T>)
    requires MayReach(disk, p, s0, s) && Next(disk, p, s, l, s')
    ensures MayReach(disk, p, s0, s')
  {
    var states, labels :| IsRun(disk, p, states, labels) && states[0] == s0 && states[|labels|] == s;
    var longer, more := states + [s'], labels + [l];
    forall i | 0 <= i < |more|
      ensures Next(disk, p, longer[i], more[i], longer[i + 1])
    {
      if i < |labels| { assert Next(disk, p, states[i], labels[i], states[i + 1]); }
    }
    assert IsRun(disk, p, longer, more) && longer[0] == s0 && longer[|more|] == s';
  }

  lemma ReachStart<T(!new)>(disk: Disk, p: Path, s0: State<T>)
    ensures MayReach(disk, p, s0, s0)
  {
    var states, labels: seq<Label<T>> := [s0], [];
    assert IsRun(disk, p, states, labels) && states[0] == s0 && states[|labels|] == s0;
  }

  /** Some run from `s0` ends with this answer of `t`. */
  ghost predicate MayAnswer<T(!new)>(disk: Disk, p: Path, s0: State<T>, t: T, answer: Thread)
  {
    exists s :: MayReach(disk, p, s0, s) && t in s.threads && s.threads[t] == answer && answer.Answered?
  }

  /** A thread goes once round the loop, refreshes, and leaves it. */
  lemma RefreshesAlone<T(!new)>(disk: Disk, p: Path, s0: State<T>, s: State<T>, t: T)
    requires MayReach(disk, p, s0, s) && t in s.threads && s.threads[t] == Looping && s.data.refreshed.Unrefreshed?
    ensures MayReach(disk, p, s0, State(Refreshed(s.data, disk, p), s.threads[t := Out]))
  {
    var after := Refreshed(s.data, disk, p);
    var trying := s.(threads := s.threads[t := Trying]);
    var won := State(s.data.(refreshed := InProcess), s.threads[t := Won]);
    var written := State(Seen(after.time, InProcess), s.threads[t := Written(after.refreshed.Changed?)]);
    var looping := State(after, s.threads[t := Looping]);
    ReachMore(disk, p, s0, s, Check(t), trying);
    assert trying.threads[t := Won] == won.threads;
    ReachMore(disk, p, s0, trying, Swap(t), won);
    assert won.threads[t := written.threads[t]] == written.threads;
    ReachMore(disk, p, s0, won, WriteTime(t), written);
    assert written.threads[t := Looping] == looping.threads;
    ReachMore(disk, p, s0, written, Publish(t), looping);
    assert looping.threads[t := Out] == s.threads[t := Out];
    ReachMore(disk, p, s0, looping, Check(t), State(after, s.threads[t := Out]));
  }

  lemma MayLeaveLoop<T(!new)>(disk: Disk, p: Path, s0: State<T>, s: State<T>, t: T)
    requires MayReach(disk, p, s0, s) && t in s.threads && s.threads[t] == Looping && !s.data.refreshed.InProcess?
    ensures MayReach(disk, p, s0, State(Refreshed(s.data, disk, p), s.threads[t := Out]))
  {
    if s.data.refreshed.Unrefreshed? {
      RefreshesAlone(disk, p, s0, s, t);
    } else {
      ReachMore(disk, p, s0, s, Check(t), s.(threads := s.threads[t := Out]));
    }
  }

  /** A change is hidden from a thread by a reset between its last look at the state and
      its answer. */
  lemma ResetHidesChange<T(!new)>(disk: Disk, p: Path, before: Seen, s0: State<T>, t: T, u: T)
    requires Starts(before, s0) && t in s0.threads && u in s0.threads && s0.threads[t].Looping? && s0.threads[u].Resetting?
    ensures MayAnswer(disk, p, s0, t, Answered(false, Refreshed(before, disk, p).time))
  {
    var after := Refreshed(before, disk, p);
    var out := State(after, s0.threads[t := Out]);
    var reset := State(after.(refreshed := Unrefreshed), out.threads[u := Looping]);
    var answered := reset.(threads := reset.threads[t := Answered(false, after.time)]);
    ReachStart(disk, p, s0);
    MayLeaveLoop(disk, p, s0, s0, t);
    ReachMore(disk, p, s0, out, Reset(u), reset);
    ReachMore(disk, p, s0, reset, Answer(t), answered);
  }

  /** A reset before a thread looks makes it tell what a new look finds. */
  lemma ResetShowsChange<T(!new)>(disk: Disk, p: Path, before: Seen, s0: State<T>, t: T, u: T)
    requires Starts(before, s0) && t in s0.threads && u in s0.threads && s0.threads[t].Looping? && s0.threads[u].Resetting?
    ensures var again := Refreshed(before.(refreshed := Unrefreshed), disk, p);
            MayAnswer(disk, p, s0, t, Answered(again.refreshed.Changed?, again.time))
  {
    var again := Refreshed(before.(refreshed := Unrefreshed), disk, p);
    var reset := State(before.(refreshed := Unrefreshed), s0.threads[u := Looping]);
    var out := State(again, reset.threads[t := Out]);
    ReachStart(disk, p, s0);
    ReachMore(disk, p, s0, s0, Reset(u), reset);
    MayLeaveLoop(disk, p, s0, reset, t);
    ReachMore(disk, p, s0, out, Answer(t),
              out.(threads := out.threads[t := Answered(again.refreshed.Changed?, again.time)]));
  }

  /** Nothing that a look could find differs from what is known. */
  predicate NothingNew(disk: Disk, p: Path, before: Seen)
  {
    var after := Refreshed(before, disk, p);
    after.refreshed.NotChanged? && IsRegular(disk, p) && disk[p].time <= after.time
  }

  ghost predicate QuietInv<T>(before: Seen, s: State<T>)
  {
    && s.data.time == before.time && !s.data.refreshed.Changed?
    && forall t | t in s.threads ::
         s.threads[t] != Written(true) && (s.threads[t].Answered? ==> s.threads[t] == Answered(false, before.time))
  }

  lemma {:induction false} QuietRunKeeps<T>(disk: Disk, p: Path, before: Seen, states: seq<State<T>>, labels: seq<Label<T>>, i: nat)
    requires IsRun(disk, p, states, labels) && Starts(before, states[0]) && NothingNew(disk, p, before) && i < |states|
    ensures QuietInv(before, states[i])
  {
    if i > 0 {
      QuietRunKeeps(disk, p, before, states, labels, i - 1);
      assert Next(disk, p, states[i - 1], labels[i - 1], states[i - 1 + 1]);
    }
  }

  /** Every answer `t` can get is that of a single refresh. */
  ghost predicate AnswersAreOneRefresh<T(!new)>(disk: Disk, p: Path, before: Seen, s0: State<T>, t: T)
  {
    var after := Refreshed(before, disk, p);
    forall answer | MayAnswer(disk, p, s0, t, answer) :: answer == Answered(after.refreshed.Changed?, after.time)
  }

  /** A thread that does not reset gets the answer of a single refresh in every
      interleaving exactly if nobody resets or there is nothing new to find. */
  lemma AnswersAgreeIff<T(!new)>(disk: Disk, p: Path, before: Seen, s0: State<T>, t: T)
    requires Starts(before, s0) && t in s0.threads && s0.threads[t].Looping?
    ensures AnswersAreOneRefresh(disk, p, before, s0, t) <==> NobodyResets(s0) || NothingNew(disk, p, before)
  {
    var after := Refreshed(before, disk, p);
    if NobodyResets(s0) || NothingNew(disk, p, before) {
      forall answer | MayAnswer(disk, p, s0, t, answer)
        ensures answer == Answered(after.refreshed.Changed?, after.time)
      {
        SafeAnswer(disk, p, before, s0, t, answer);
      }
    } else {
      var u :| u in s0.threads && s0.threads[u] == Resetting;
      ResetHidesChange(disk, p, before, s0, t, u);
      ResetShowsChange(disk, p, before, s0, t, u);
    }
  }

  lemma SafeAnswer<T(!new)>(disk: Disk, p: Path, before: Seen, s0: State<T>, t: T, answer: Thread)
    requires Starts(before, s0) && MayAnswer(disk, p, s0, t, answer)
    requires NobodyResets(s0) || NothingNew(disk, p, before)
    ensures var after := Refreshed(before, disk, p); answer == Answered(after.refreshed.Changed?, after.time)
  {
    var s :| MayReach(disk, p, s0, s) && t in s.threads && s.threads[t] == answer;
    var states, labels :| IsRun(disk, p, states, labels) && states[0] == s0 && states[|labels|] == s;
    if NobodyResets(s0) {
      AllAnswersAgree(disk, p, before, states, labels, |labels|, t);
    } else {
      QuietRunKeeps(disk, p, before, states, labels, |labels|);
    }
  }

  // ---- progress ----

  /** Until all have answered some thread can go on, and not only round the loop. */
  lemma SomebodyGoesOn<T>(disk: Disk, p: Path, before: Seen, s0: State<T>, s: State<T>) returns (l: Label<T>, s': State<T>)
    requires ResetInv(disk, p, before, s0, s)
    requires exists t :: t in s.threads && !s.threads[t].Answered?
    ensures Next(disk, p, s, l, s')
    ensures s.data.refreshed.InProcess? ==> l.WriteTime? || l.Publish?
  {
    var t :| t in s.threads && !s.threads[t].Answered?;
    if s.data.refreshed.InProcess? {
      t :| t in s.threads && Refreshing(s.threads[t]);
    }
    match s.threads[t]
    case Resetting => l, s' := Reset(t), State(s.data.(refreshed := Unrefreshed), s.threads[t := Looping]);
    case Looping => l, s' := Check(t), s.(threads := s.threads[t := if IsSettled(s.data) then Out else Trying]);
    case Trying =>
      l := Swap(t);
      s' := if s.data.refreshed.Unrefreshed? then State(s.data.(refreshed := InProcess), s.threads[t := Won])
            else s.(threads := s.threads[t := Looping]);
    case Won =>
      l := WriteTime(t);
      s' := if !IsRegular(disk, p) then State(s.data.(time := MISSING), s.threads[t := Written(true)])
            else if disk[p].time > s.data.time then State(s.data.(time := disk[p].time), s.threads[t := Written(true)])
            else s.(threads := s.threads[t := Written(false)]);
    case Written(changed) =>
      l := Publish(t);
      s' := State(s.data.(refreshed := if changed then Changed else NotChanged), s.threads[t := Looping]);
    case Out => l, s' := Answer(t), s.(threads := s.threads[t := Answered(s.data.refreshed.Changed?, s.data.time)]);
  }
}
