/** The two merges of package settings.  Both throw where a map meets an entry that is
    there and is no map, an explicit empty one included; apart from that they are total. */
module SettingsMerge {
  import opened Common
  import opened Settings

  function Get(m: map<Key, Setting>, k: Key): Setting
  {
    if k in m then m[k] else NoSetting
  }

  /** Neither merge of `y` into `x` throws. */
  predicate CanMerge(x: Value, y: Value)
    decreases x
  {
    x.Map? ==> y.Map? && forall k | k in x.m && k in y.m :: CanMerge(x.m[k].value, y.m[k].value)
  }

  /** mergeMissing: `y` fills in what is empty in `x`. */
  function FillIn(x: Setting, y: Setting): Setting
    decreases x
  {
    if x.value.Map? then
      if y.value.Map? then
        var m, n := x.value.m, y.value.m;
        x.(value := Map(map k | k in m.Keys + n.Keys ::
                          if k in m && k in n then FillIn(m[k], n[k]) else if k in m then m[k] else n[k]))
      else x
    else if x.value.Empty? then y
    else x
  }

  /** mergeAndAssign: `y` overrides `x`. */
  function Override(x: Setting, y: Setting): Setting
    decreases x
  {
    if x.value.Map? then
      if y.value.Map? then
        var m, n := x.value.m, y.value.m;
        x.(value := Map(map k | k in m.Keys + n.Keys ::
                          if k in m && k in n then Override(m[k], n[k]) else if k in m then m[k] else n[k]))
      else x
    else y
  }

  // ---- what the merges leave at every place of the tree ----

  /** The setting at the end of a path through nested maps. */
  function At(x: Setting, path: seq<Key>): Option<Setting>
    decreases |path|
  {
    if path == [] then Some(x)
    else if x.value.Map? && path[0] in x.value.m then At(x.value.m[path[0]], path[1..])
    else None
  }

  /** Something that is neither a map nor empty stands on the way. */
  predicate Blocked(x: Setting, path: seq<Key>)
    decreases |path|
  {
    path != [] &&
    if x.value.Map? then path[0] in x.value.m && Blocked(x.value.m[path[0]], path[1..]) else !x.value.Empty?
  }

  /** mergeMissing keeps what is there, and takes from the other side what is empty or
      missing. */
  lemma {:induction false} FillInAt(x: Setting, y: Setting, path: seq<Key>)
    requires CanMerge(x.value, y.value)
    ensures var a, b, r := At(x, path), At(y, path), At(FillIn(x, y), path);
            match (a, b)
            case (None, None) => r == None
            case (Some(_), None) => r == a
            case (None, Some(_)) => r == if Blocked(x, path) then None else b
            case (Some(s), Some(_)) =>
              if s.value.Map? then r.Some? && r.value.value.Map? && r.value.ignoreInComparison == s.ignoreInComparison
              else r == if s.value.Empty? then b else a
    decreases |path|
  {
    if path != [] && x.value.Map? {
      var k := path[0];
      if k in x.value.m && k in y.value.m { FillInAt(x.value.m[k], y.value.m[k], path[1..]); }
    }
  }

  /** mergeAndAssign takes what the other side has, and keeps what it has not. */
  lemma {:induction false} OverrideAt(x: Setting, y: Setting, path: seq<Key>)
    requires CanMerge(x.value, y.value)
    ensures var a, b, r := At(x, path), At(y, path), At(Override(x, y), path);
            match (a, b)
            case (None, None) => r == None
            case (Some(_), None) => r == a
            case (None, Some(_)) => r == b
            case (Some(s), Some(_)) =>
              if s.value.Map? then r.Some? && r.value.value.Map? && r.value.ignoreInComparison == s.ignoreInComparison
              else r == b
    decreases |path|
  {
    if path != [] && x.value.Map? {
      var k := path[0];
      if k in x.value.m && k in y.value.m { OverrideAt(x.value.m[k], y.value.m[k], path[1..]); }
    }
  }

  /** At the end of the path a map meets a setting that is there and is no map. */
  predicate ClashAt(x: Setting, y: Setting, path: seq<Key>)
  {
    At(x, path).Some? && At(y, path).Some? && At(x, path).value.value.Map? && !At(y, path).value.value.Map?
  }

  lemma {:induction false} NoClashAt(x: Setting, y: Setting, path: seq<Key>)
    requires CanMerge(x.value, y.value)
    ensures !ClashAt(x, y, path)
    decreases |path|
  {
    if path != [] && x.value.Map? && y.value.Map? && path[0] in x.value.m && path[0] in y.value.m {
      NoClashAt(x.value.m[path[0]], y.value.m[path[0]], path[1..]);
    }
  }

  lemma {:induction false} FindClash(x: Setting, y: Setting) returns (path: seq<Key>)
    requires !CanMerge(x.value, y.value)
    ensures ClashAt(x, y, path)
    decreases x
  {
    if y.value.Map? {
      var k :| k in x.value.m && k in y.value.m && !CanMerge(x.value.m[k].value, y.value.m[k].value);
      var rest := FindClash(x.value.m[k], y.value.m[k]);
      path := [k] + rest;
      assert path[1..] == rest;
    } else {
      path := [];
    }
  }

  /** The merges throw exactly if there is such a place. */
  lemma CanMergeIff(x: Setting, y: Setting)
    ensures CanMerge(x.value, y.value) <==> forall path :: !ClashAt(x, y, path)
  {
    if CanMerge(x.value, y.value) {
      forall path
        ensures !ClashAt(x, y, path)
      {
        NoClashAt(x, y, path);
      }
    } else {
      var path := FindClash(x, y);
    }
  }

  // ---- mergeMissing ----

  lemma {:induction false} FillInSelf(x: Setting)
    ensures CanMerge(x.value, x.value) && FillIn(x, x) == x
    decreases x
  {
    if x.value.Map? {
      forall k | k in x.value.m
        ensures CanMerge(x.value.m[k].value, x.value.m[k].value) && FillIn(x.value.m[k], x.value.m[k]) == x.value.m[k]
      {
        FillInSelf(x.value.m[k]);
      }
      assert FillIn(x, x).value.m == x.value.m;
    }
  }

  /** Filling in the same settings again changes nothing. */
  lemma {:induction false} FillInIsIdempotent(x: Setting, y: Setting)
    requires CanMerge(x.value, y.value)
    ensures CanMerge(FillIn(x, y).value, y.value)
    ensures FillIn(FillIn(x, y), y) == FillIn(x, y)
    decreases x
  {
    if x.value.Map? {
      var m, n, r := x.value.m, y.value.m, FillIn(x, y).value.m;
      forall k | k in r && k in n
        ensures CanMerge(r[k].value, n[k].value) && FillIn(r[k], n[k]) == r[k]
      {
        if k in m { FillInIsIdempotent(m[k], n[k]); } else { FillInSelf(n[k]); }
      }
      assert FillIn(FillIn(x, y), y).value.m == r;
    } else if x.value.Empty? {
      FillInSelf(y);
    }
  }

  /** Both groupings agree whenever neither throws. */
  lemma {:induction false} FillInIsAssociative(x: Setting, y: Setting, z: Setting)
    requires CanMerge(x.value, y.value) && CanMerge(FillIn(x, y).value, z.value)
    requires CanMerge(y.value, z.value) && CanMerge(x.value, FillIn(y, z).value)
    ensures FillIn(FillIn(x, y), z) == FillIn(x, FillIn(y, z))
    decreases x
  {
    if x.value.Map? {
      var l, m, n := x.value.m, y.value.m, z.value.m;
      var left, right := FillIn(FillIn(x, y), z), FillIn(x, FillIn(y, z));
      forall k | k in left.value.m
        ensures k in right.value.m && left.value.m[k] == right.value.m[k]
      {
        if k in l && k in m && k in n {
          assert FillIn(x, y).value.m[k] == FillIn(l[k], m[k]);
          assert FillIn(y, z).value.m[k] == FillIn(m[k], n[k]);
          FillInIsAssociative(l[k], m[k], n[k]);
        }
      }
      assert left.value.m == right.value.m;
    }
  }

  /** Where filling in from the other side agrees with overriding: an empty entry
      meets an equal one, and two maps that meet carry the same flag. */
  predicate SidesAgree(x: Setting, y: Setting)
    decreases x
  {
    if x.value.Map? && y.value.Map? then
      && x.ignoreInComparison == y.ignoreInComparison
      && forall k | k in x.value.m && k in y.value.m :: SidesAgree(x.value.m[k], y.value.m[k])
    else x.value.Empty? ==> x == y
  }

  /** A.mergeMissing(B) is B.mergeAndAssign(A) exactly under that condition. */
  lemma {:induction false} FillInMeetsOverride(x: Setting, y: Setting)
    requires CanMerge(x.value, y.value) && CanMerge(y.value, x.value)
    ensures FillIn(x, y) == Override(y, x) <==> SidesAgree(x, y)
    decreases x
  {
    if x.value.Map? {
      var m, n := x.value.m, y.value.m;
      var f, o := FillIn(x, y).value.m, Override(y, x).value.m;
      assert f.Keys == o.Keys;
      forall k | k in m && k in n
        ensures f[k] == o[k] <==> SidesAgree(m[k], n[k])
      {
        FillInMeetsOverride(m[k], n[k]);
      }
      forall k | k in f && !(k in m && k in n)
        ensures f[k] == o[k]
      {
      }
      if forall k | k in m && k in n :: SidesAgree(m[k], n[k]) {
        assert f == o;
      }
    }
  }

  /** No explicit empty entry at any depth. */
  predicate NoEmptyEntries(v: Value)
  {
    v.Map? ==> forall k | k in v.m :: !v.m[k].value.Empty? && NoEmptyEntries(v.m[k].value)
  }

  lemma {:induction false} NoEmptiesAgree(x: Setting, y: Setting)
    requires !x.value.Empty? && NoEmptyEntries(x.value) && FlagFree(x.value) && FlagFree(y.value)
    requires !x.ignoreInComparison && !y.ignoreInComparison
    ensures SidesAgree(x, y)
    decreases x
  {
    if x.value.Map? && y.value.Map? {
      forall k | k in x.value.m && k in y.value.m
        ensures SidesAgree(x.value.m[k], y.value.m[k])
      {
        NoEmptiesAgree(x.value.m[k], y.value.m[k]);
      }
    }
  }

  // ---- merges and subsets ----

  /** Filling in only adds. */
  lemma {:induction false} FillInExtends(x: Setting, y: Setting)
    requires x.value.Map? && CanMerge(x.value, y.value)
    ensures IsSubset(x.value, FillIn(x, y).value)
    decreases x
  {
    var m, n, r := x.value.m, y.value.m, FillIn(x, y).value.m;
    forall k | k in m && !m[k].value.Empty?
      ensures !r[k].value.Empty?
      ensures if m[k].value.Map? && r[k].value.Map? then IsSubset(m[k].value, r[k].value) else EqualSettings(r[k], m[k])
    {
      assert r[k] == if k in n then FillIn(m[k], n[k]) else m[k];
      if m[k].value.Map? && k in n {
        FillInExtends(m[k], n[k]);
      } else if m[k].value.Map? {
        SubsetReflexive(m[k].value);
      } else {
        EqualReflexive(m[k].value);
      }
    }
  }

  /** What overrides is all there afterwards. */
  lemma {:induction false} OverrideContains(x: Setting, y: Setting)
    requires x.value.Map? && CanMerge(x.value, y.value)
    ensures IsSubset(y.value, Override(x, y).value)
    decreases x
  {
    var m, n, r := x.value.m, y.value.m, Override(x, y).value.m;
    forall k | k in n && !n[k].value.Empty?
      ensures k in r && !r[k].value.Empty?
      ensures if n[k].value.Map? && r[k].value.Map? then IsSubset(n[k].value, r[k].value) else EqualSettings(r[k], n[k])
    {
      assert r[k] == if k in m then Override(m[k], n[k]) else n[k];
      if k in m && m[k].value.Map? {
        OverrideContains(m[k], n[k]);
      } else if n[k].value.Map? {
        SubsetReflexive(n[k].value);
      } else {
        EqualReflexive(n[k].value);
      }
    }
  }
}
