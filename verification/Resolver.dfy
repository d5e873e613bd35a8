/** Selecting a package version across storages, and the cache in front of it
    (src/sw/support/resolver.cpp, src/sw/manager/storage.cpp:458-498). */
module Resolvers {
  import opened Common

  /** A branch, or a number with its place in the order of version numbers. */
  datatype Version = Number(rank: int, release: bool) | Branch(name: string) {
    predicate IsRelease() { Number? && release }

    /** Branches count as pre-releases (version.cpp:82-92). */
    predicate IsPreRelease() { !IsRelease() }
  }

  /** operator< of versions, for a number on the right: a branch is below every number
      (version.cpp:138-149). */
  predicate Less(a: Version, b: Version)
    requires b.Number?
  {
    a.Branch? || a.rank < b.rank
  }

  /** A branch, or a union of intervals of numbers. */
  datatype Range = BranchRange(name: string) | NumberRange(pairs: seq<(int, int)>)

  predicate Contains(range: Range, v: Version)
  {
    match range
    case BranchRange(name) => v == Branch(name)
    case NumberRange(pairs) => v.Number? && exists i | 0 <= i < |pairs| :: pairs[i].0 <= v.rank <= pairs[i].1
  }

  /** The ends of an interval belong to it, and nothing outside any interval is in range. */
  lemma RangeHasItsEnds(pairs: seq<(int, int)>, rank: int, release: bool)
    ensures forall i | 0 <= i < |pairs| && pairs[i].0 <= pairs[i].1 ::
              Contains(NumberRange(pairs), Number(pairs[i].0, release)) && Contains(NumberRange(pairs), Number(pairs[i].1, release))
    ensures (forall i | 0 <= i < |pairs| :: rank < pairs[i].0 || rank > pairs[i].1) ==>
              !Contains(NumberRange(pairs), Number(rank, release))
  {
  }

  datatype Name = Name(path: string, range: Range)

  // ---- which version is selected ----

  /** setPackage replaces the version `r` by `v`. */
  predicate Replaces(r: Version, v: Version)
  {
    v.Number? && (v.IsRelease() || !r.IsRelease()) && ((r.IsPreRelease() && v.IsRelease()) || Less(r, v))
  }

  function Select(r: Option<Version>, v: Version): Option<Version>
  {
    if r.None? || Replaces(r.value, v) then Some(v) else r
  }

  /** The versions a request is offered, one after another. */
  function Offered(range: Range, r: Option<Version>, vs: seq<Version>): Option<Version>
  {
    if vs == [] then r
    else
      var s := Offered(range, r, vs[..|vs| - 1]);
      var v := vs[|vs| - 1];
      if Contains(range, v) then Select(s, v) else s
  }

  /** The greatest version in range: releases before pre-releases, then by number. */
  ghost predicate IsBest(range: Range, vs: set<Version>, best: Option<Version>)
  {
    && (best.None? <==> forall v | v in vs :: !Contains(range, v))
    && (best.Some? ==>
          && best.value in vs && Contains(range, best.value)
          && forall v | v in vs && Contains(range, v) :: v == best.value || Replaces(v, best.value))
  }

  lemma BestIsUnique(range: Range, vs: set<Version>, a: Option<Version>, b: Option<Version>)
    requires IsBest(range, vs, a) && IsBest(range, vs, b)
    ensures a == b
  {
  }

  lemma {:induction false} BestExists(range: Range, vs: seq<Version>)
    ensures IsBest(range, Elements(vs), Offered(range, None, vs))
  {
    if vs != [] {
      var front, v := vs[..|vs| - 1], vs[|vs| - 1];
      BestExists(range, front);
      assert vs == front + [v];
      assert Elements(vs) == Elements(front) + {v};
    }
  }

  /** A result that is nothing only where no candidate is in range; otherwise it is a
      candidate in range, a number if there is any, a release if there is any, and of
      these the greatest. */
  ghost predicate IsGreatest(range: Range, vs: set<Version>, best: Option<Version>)
  {
    match best
    case None => forall v | v in vs :: !Contains(range, v)
    case Some(b) =>
      && b in vs && Contains(range, b)
      && (forall v | v in vs && Contains(range, v) && v.Number? ::
            b.Number? && (v.release ==> b.release) && (v.release == b.release ==> v.rank <= b.rank))
  }

  /** Which version takes the place of which. */
  lemma ReplacesIff(r: Version, v: Version)
    ensures Replaces(r, v)
            <==> v.Number? && (r.Branch? || (v.release && !r.release) || (v.release == r.release && r.rank < v.rank))
  {
  }

  /** The result has got better, and is another one. */
  predicate Advances(r: Option<Version>, s: Option<Version>)
  {
    s.Some? && (r.None? || Replaces(r.value, s.value))
  }

  lemma AdvancesFurther(r: Option<Version>, s: Option<Version>, t: Option<Version>)
    ensures Advances(r, s) ==> r != s
    ensures Advances(r, s) && Advances(s, t) ==> Advances(r, t)
  {
  }

  lemma BestIsGreatest(range: Range, vs: set<Version>, best: Option<Version>)
    requires IsBest(range, vs, best)
    ensures IsGreatest(range, vs, best)
  {
    if best.Some? {
      forall v | v in vs && Contains(range, v) && v.Number?
        ensures best.value.Number? && (v.release ==> best.value.release)
        ensures v.release == best.value.release ==> v.rank <= best.value.rank
      {
        if v != best.value { ReplacesIff(v, best.value); }
      }
    }
  }

  /** What a request with the result `r` has after being offered versions the best of
      which is `best`. */
  function Settled(r: Option<Version>, best: Option<Version>): Option<Version>
  {
    if best.None? then r else Select(r, best.value)
  }

  /** Only the best version matters, whatever the request had before. */
  lemma {:induction false} OfferedIsSettled(range: Range, r: Option<Version>, vs: seq<Version>)
    ensures Offered(range, r, vs) == Settled(r, Offered(range, None, vs))
  {
    if vs != [] {
      var front := vs[..|vs| - 1];
      OfferedIsSettled(range, r, front);
      BestExists(range, front);
      BestExists(range, vs);
    }
  }

  /** The order of the candidates, and how often each is offered, make no difference. */
  lemma OrderDoesNotMatter(range: Range, r: Option<Version>, vs: seq<Version>, ws: seq<Version>)
    requires Elements(vs) == Elements(ws)
    ensures Offered(range, r, vs) == Offered(range, r, ws)
  {
    BestExists(range, vs);
    BestExists(range, ws);
    BestIsUnique(range, Elements(vs), Offered(range, None, vs), Offered(range, None, ws));
    OfferedIsSettled(range, r, vs);
    OfferedIsSettled(range, r, ws);
  }

  lemma OfferedAppend(range: Range, r: Option<Version>, vs: seq<Version>, ws: seq<Version>)
    ensures Offered(range, r, vs + ws) == Offered(range, Offered(range, r, vs), ws)
    decreases |ws|
  {
    if ws == [] {
      assert vs + ws == vs;
    } else {
      var front := ws[..|ws| - 1];
      assert (vs + ws)[..|vs + ws| - 1] == vs + front;
      OfferedAppend(range, r, vs, front);
    }
  }

  // ---- requests and storages ----

  class ResolveRequest {
    const u: Name
    /** settings.getHash(): all that storages and the cache see of the settings. */
    const settingsHash: nat
    var r: Option<Version>

    constructor (u: Name, settingsHash: nat)
      ensures this.u == u && this.settingsHash == settingsHash && r == None
    {
      this.u, this.settingsHash, r := u, settingsHash, None;
    }

    /** ResolveRequestResult::setPackage. */
    method SetBest(v: Version) returns (accepted: bool)
      modifies this
      ensures r == Select(old(r), v)
      ensures accepted <==>
              || old(r).None?
              || (v.Number? && (old(r).value.Branch? || (v.release && !old(r).value.release)
                                || (v.release == old(r).value.release && old(r).value.rank < v.rank)))
    {
      if r.Some? { ReplacesIff(r.value, v); }
      if r.None? {
        r := Some(v);
        return true;
      }
      if v.Branch? { return false; }
      if r.value.IsPreRelease() && v.IsRelease() {
        r := Some(v);
        return true;
      }
      if r.value.IsRelease() && v.IsPreRelease() { return false; }
      if Less(r.value, v) {
        r := Some(v);
        return true;
      }
      return false;
    }

    method SetPackage(v: Version) returns (accepted: bool)
      modifies this
      ensures r == if Contains(u.range, v) then Select(old(r), v) else old(r)
      ensures accepted ==> r == Some(v) && Contains(u.range, v) && Advances(old(r), r)
      ensures !accepted ==> r == old(r)
    {
      if !Contains(u.range, v) { return false; }
      accepted := SetBest(v);
    }
  }

  /** A storage offers the rows of its database. */
  class Storage {
    const rows: map<(string, nat), seq<Version>>

    constructor (rows: map<(string, nat), seq<Version>>)
      ensures this.rows == rows
    {
      this.rows := rows;
    }

    function Rows(path: string, settingsHash: nat): seq<Version>
    {
      if (path, settingsHash) in rows then rows[(path, settingsHash)] else []
    }

    /** True if some row was accepted. */
    method Resolve(rr: ResolveRequest) returns (resolved: bool)
      modifies rr
      ensures rr.r == Offered(rr.u.range, old(rr.r), Rows(rr.u.path, rr.settingsHash))
      ensures resolved ==> rr.r.Some? && Contains(rr.u.range, rr.r.value)
      ensures resolved <==> rr.r != old(rr.r)
    {
      var vs := Rows(rr.u.path, rr.settingsHash);
      resolved := false;
      for i := 0 to |vs|
        invariant rr.r == Offered(rr.u.range, old(rr.r), vs[..i])
        invariant resolved ==> rr.r.Some? && Contains(rr.u.range, rr.r.value) && Advances(old(rr.r), rr.r)
        invariant !resolved ==> rr.r == old(rr.r)
      {
        assert vs[..i + 1][..i] == vs[..i];
        ghost var r := rr.r;
        var accepted := rr.SetPackage(vs[i]);
        AdvancesFurther(old(rr.r), r, rr.r);
        resolved := resolved || accepted;
      }
      assert vs[..|vs|] == vs;
    }
  }

  function AllRows(storages: seq<Storage>, path: string, settingsHash: nat): seq<Version>
  {
    if storages == [] then []
    else storages[0].Rows(path, settingsHash) + AllRows(storages[1..], path, settingsHash)
  }

  /** With a branch in range, further versions are not accepted. */
  lemma {:induction false} BranchStays(range: Range, b: Version, vs: seq<Version>)
    requires b.Branch? && Contains(range, b)
    ensures Offered(range, Some(b), vs) == Some(b)
  {
    if vs != [] {
      BranchStays(range, b, vs[..|vs| - 1]);
    }
  }

  /** The answer without a cache. */
  function Best(storages: seq<Storage>, u: Name, settingsHash: nat): Option<Version>
  {
    Offered(u.range, None, AllRows(storages, u.path, settingsHash))
  }

  /** Everything that any storage has under the name. */
  function Candidates(storages: seq<Storage>, path: string, settingsHash: nat): set<Version>
  {
    set i, v | 0 <= i < |storages| && v in storages[i].Rows(path, settingsHash) :: v
  }

  lemma {:induction false} AllRowsAreCandidates(storages: seq<Storage>, path: string, settingsHash: nat)
    ensures Elements(AllRows(storages, path, settingsHash)) == Candidates(storages, path, settingsHash)
  {
    if storages != [] {
      var first, rest := storages[0].Rows(path, settingsHash), AllRows(storages[1..], path, settingsHash);
      AllRowsAreCandidates(storages[1..], path, settingsHash);
      forall v
        ensures v in first + rest <==> v in Candidates(storages, path, settingsHash)
      {
        assert v in rest <==> v in Elements(rest);
        if i :| 0 <= i < |storages| && v in storages[i].Rows(path, settingsHash) {
          if i > 0 { assert v in storages[1..][i - 1].Rows(path, settingsHash); }
        }
        if i :| 0 <= i < |storages[1..]| && v in storages[1..][i].Rows(path, settingsHash) {
          assert v in storages[i + 1].Rows(path, settingsHash);
        }
      }
    }
  }

  /** The answer is the greatest of all that the storages have. */
  lemma BestOfAll(storages: seq<Storage>, u: Name, settingsHash: nat)
    ensures IsGreatest(u.range, Candidates(storages, u.path, settingsHash), Best(storages, u, settingsHash))
  {
    var vs := AllRows(storages, u.path, settingsHash);
    AllRowsAreCandidates(storages, u.path, settingsHash);
    BestExists(u.range, vs);
    BestIsGreatest(u.range, Elements(vs), Offered(u.range, None, vs));
  }

  class Resolver {
    var storages: seq<Storage>

    constructor ()
      ensures storages == []
    {
      storages := [];
    }

    method AddStorage(s: Storage)
      modifies this
      ensures storages == old(storages) + [s]
    {
      storages := storages + [s];
    }

    /** The best version of all storages, against what the request had.  The loop stops
        at a branch: nothing else can be in range then. */
    method Resolve(rr: ResolveRequest) returns (resolved: bool)
      modifies rr
      ensures rr.r == Settled(old(rr.r), Best(storages, rr.u, rr.settingsHash))
      ensures resolved <==> rr.r.Some?
      ensures old(rr.r).None? ==> IsGreatest(rr.u.range, Candidates(storages, rr.u.path, rr.settingsHash), rr.r)
    {
      BestOfAll(storages, rr.u, rr.settingsHash);
      ghost var before, path, h := rr.r, rr.u.path, rr.settingsHash;
      ghost var rest := AllRows(storages, path, h);
      OfferedIsSettled(rr.u.range, before, rest);
      assert storages[0..] == storages;
      for i := 0 to |storages|
        invariant rest == AllRows(storages[i..], path, h)
        invariant Offered(rr.u.range, rr.r, rest) == Settled(before, Best(storages, rr.u, h))
      {
        assert storages[i..][1..] == storages[i + 1..];
        rest := AllRows(storages[i + 1..], path, h);
        OfferedAppend(rr.u.range, rr.r, storages[i].Rows(path, h), rest);
        var found := storages[i].Resolve(rr);
        if found && rr.r.value.Branch? {
          BranchStays(rr.u.range, rr.r.value, rest);
          return true;
        }
      }
      resolved := rr.r.Some?;
    }
  }

  // ---- the cache ----

  type Cached = map<Name, map<nat, Version>>

  predicate IsCached(c: Cached, u: Name, h: nat)
  {
    u in c && h in c[u]
  }

  /** Everything in the cache is what the storages answer. */
  ghost predicate Coherent(c: Cached, storages: seq<Storage>)
  {
    forall u, h {:trigger IsCached(c, u, h)} | IsCached(c, u, h) :: Some(c[u][h]) == Best(storages, u, h)
  }

  function Stored(c: Cached, u: Name, h: nat, v: Version): Cached
  {
    c[u := (if u in c then c[u] else map[])[h := v]]
  }

  lemma StoringKeeps(c: Cached, storages: seq<Storage>, u: Name, h: nat, v: Version)
    requires Coherent(c, storages)
    ensures Coherent(Stored(c, u, h, v), storages) <==> Some(v) == Best(storages, u, h)
  {
    var d := Stored(c, u, h, v);
    assert IsCached(d, u, h) && d[u][h] == v;
    forall w, i | IsCached(d, w, i) && (w, i) != (u, h)
      ensures IsCached(c, w, i) && d[w][i] == c[w][i]
    {
    }
  }

  /** A request with the result `r` that is offered `best` ends with `best`. */
  predicate EndsWithBest(r: Option<Version>, best: Option<Version>)
  {
    r.None? || (best.Some? && (r == best || Replaces(r.value, best.value)))
  }

  lemma EndsWithBestIff(r: Option<Version>, best: Option<Version>)
    ensures EndsWithBest(r, best) <==> Settled(r, best) == best
  {
  }

  /** Only a request that comes without a version ends with the best one whatever the
      storages have. */
  lemma OnlyNewRequests(u: Name, h: nat, r: Option<Version>)
    ensures (forall storages: seq<Storage> :: EndsWithBest(r, Best(storages, u, h))) <==> r.None?
  {
    assert Best([], u, h) == None;
  }

  class CachedStorage {
    var resolved: Cached

    constructor ()
      ensures resolved == map[]
    {
      resolved := map[];
    }

    method StorePackages(rr: ResolveRequest)
      requires rr.r.Some?
      modifies this
      ensures resolved == Stored(old(resolved), rr.u, rr.settingsHash, rr.r.value)
    {
      var forName := if rr.u in resolved then resolved[rr.u] else map[];
      resolved := resolved[rr.u := forName[rr.settingsHash := rr.r.value]];
    }

    /** True on a hit, whether or not the request accepts the stored version. */
    method Resolve(rr: ResolveRequest) returns (hit: bool)
      modifies rr
      ensures hit <==> IsCached(resolved, rr.u, rr.settingsHash)
      ensures !hit ==> rr.r == old(rr.r)
      ensures hit ==>
                var v := resolved[rr.u][rr.settingsHash];
                rr.r == if Contains(rr.u.range, v) then Select(old(rr.r), v) else old(rr.r)
    {
      hit := IsCached(resolved, rr.u, rr.settingsHash);
      if hit {
        var _ := rr.SetPackage(resolved[rr.u][rr.settingsHash]);
      }
    }

    /** An empty cache is coherent whatever the storages have by now. */
    method Clear()
      modifies this
      ensures resolved == map[]
      ensures forall storages: seq<Storage> :: Coherent(resolved, storages)
    {
      resolved := map[];
    }
  }

  class CachingResolver {
    const cache: CachedStorage
    const storages: Resolver

    constructor (cache: CachedStorage, storages: Resolver)
      ensures this.cache == cache && this.storages == storages
    {
      this.cache, this.storages := cache, storages;
    }

    /** The answer is the one without a cache, for every request.  The cache stays
        coherent exactly if the request hits it, or comes without a version or with one
        that the best version is or replaces. */
    method Resolve(rr: ResolveRequest) returns (resolved: bool)
      requires Coherent(cache.resolved, storages.storages)
      modifies rr, cache
      ensures rr.r == Settled(old(rr.r), Best(storages.storages, rr.u, rr.settingsHash))
      ensures resolved <==> rr.r.Some?
      ensures cache.resolved
              == if IsCached(old(cache.resolved), rr.u, rr.settingsHash) || !resolved then old(cache.resolved)
                 else Stored(old(cache.resolved), rr.u, rr.settingsHash, rr.r.value)
      ensures Coherent(cache.resolved, storages.storages)
              <==> IsCached(old(cache.resolved), rr.u, rr.settingsHash)
                   || EndsWithBest(old(rr.r), Best(storages.storages, rr.u, rr.settingsHash))
    {
      EndsWithBestIff(rr.r, Best(storages.storages, rr.u, rr.settingsHash));
      BestExists(rr.u.range, AllRows(storages.storages, rr.u.path, rr.settingsHash));
      resolved := cache.Resolve(rr);
      if resolved { return; }
      resolved := storages.Resolve(rr);
      if resolved {
        StoringKeeps(cache.resolved, storages.storages, rr.u, rr.settingsHash, rr.r.value);
        cache.StorePackages(rr);
      }
    }

    /** SwManagerContext::resolve: with or without the cache, the result is the same. */
    method ResolveWith(rr: ResolveRequest, useCache: bool) returns (resolved: bool)
      requires Coherent(cache.resolved, storages.storages)
      modifies rr, cache
      ensures rr.r == Settled(old(rr.r), Best(storages.storages, rr.u, rr.settingsHash))
      ensures resolved <==> rr.r.Some?
      ensures EndsWithBest(old(rr.r), Best(storages.storages, rr.u, rr.settingsHash)) ==>
                Coherent(cache.resolved, storages.storages)
    {
      if useCache {
        resolved := Resolve(rr);
      } else {
        resolved := storages.Resolve(rr);
      }
    }
  }

  /** A request that comes with a version out of its range keeps it, and it is this
      version that is stored: the next request of the same name is told it is resolved
      and has nothing, where the storages have an answer. */
  method StaleAnswer() returns (told: bool, answer: Option<Version>, without: Option<Version>)
    ensures told && answer == None && without == Some(Branch("master"))
  {
    var master := Branch("master");
    var u := Name("org.p", BranchRange("master"));
    var s := new Storage(map[("org.p", 0) := [master]]);
    var storages := new Resolver();
    storages.AddStorage(s);
    assert storages.storages[1..] == [];
    assert AllRows(storages.storages, "org.p", 0) == [master];
    BestExists(u.range, [master]);
    assert master in Elements([master]) && Contains(u.range, master);
    var cache := new CachedStorage();
    var r := new CachingResolver(cache, storages);
    var first := new ResolveRequest(u, 0);
    first.r := Some(Number(9, true));
    told := r.Resolve(first);
    var next := new ResolveRequest(u, 0);
    told := cache.Resolve(next);
    answer := next.r;
    var plain := new ResolveRequest(u, 0);
    var _ := storages.Resolve(plain);
    without := plain.r;
  }
}
