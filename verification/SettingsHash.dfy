/** The hash of package settings (settings.cpp:420-471).  It walks the keys in
    order and skips entries whose own hash is zero, as that of an empty one is. */
module SettingsHash {
  import opened Settings

  /** The hash primitives, whatever they are: how two hashes combine and how
      scalars hash. */
  datatype Hasher = Hasher(
    combine: (nat, nat) -> nat,
    bool_: bool -> nat,
    int_: int -> nat,
    double_: real -> nat,
    text: string -> nat,
    path: string -> nat,
    name: (NameKind, string) -> nat)

  // ---- keys in order ----

  ghost predicate KeyLess(a: Key, b: Key)
  {
    if b == [] then false
    else if a == [] then true
    else a[0] < b[0] || (a[0] == b[0] && KeyLess(a[1..], b[1..]))
  }

  lemma {:induction false} KeyLessTransitive(a: Key, b: Key, c: Key)
    requires KeyLess(a, b) && KeyLess(b, c)
    ensures KeyLess(a, c)
  {
    if a != [] && a[0] == b[0] && b[0] == c[0] {
      KeyLessTransitive(a[1..], b[1..], c[1..]);
    }
  }

  lemma {:induction false} KeyLessTotal(a: Key, b: Key)
    ensures !KeyLess(a, a)
    ensures !(KeyLess(a, b) && KeyLess(b, a))
    ensures a != b ==> KeyLess(a, b) || KeyLess(b, a)
  {
    if a != [] {
      KeyLessTotal(a[1..], if b != [] then b[1..] else b);
      if b != [] && a[0] == b[0] && a[1..] == b[1..] {
        assert a == [a[0]] + a[1..] && b == [b[0]] + b[1..];
      }
    }
  }

  ghost predicate IsFirst(k: Key, ks: set<Key>)
  {
    k in ks && forall j | j in ks && j != k :: KeyLess(k, j)
  }

  lemma {:induction false} FirstExists(ks: set<Key>)
    requires ks != {}
    ensures exists k :: IsFirst(k, ks)
  {
    var i :| i in ks;
    if ks == {i} {
      assert IsFirst(i, ks);
    } else {
      var rest := ks - {i};
      assert ks == rest + {i};
      FirstExists(rest);
      var j :| IsFirst(j, rest);
      KeyLessTotal(i, j);
      if KeyLess(j, i) {
        assert IsFirst(j, ks);
      } else {
        forall l | l in ks && l != i
          ensures KeyLess(i, l)
        {
          if l != j { KeyLessTransitive(i, j, l); }
        }
        assert IsFirst(i, ks);
      }
    }
  }

  ghost function First(ks: set<Key>): (k: Key)
    requires ks != {}
    ensures IsFirst(k, ks)
  {
    FirstExists(ks);
    var k :| IsFirst(k, ks);
    k
  }

  // ---- the hash ----

  ghost function Hash(h: Hasher, v: Value): nat
    decreases v, 2
  {
    match v
    case Empty => 0
    case Null => h.combine(0, 0)
    case Bool(b) => h.combine(0, h.bool_(b))
    case Int(i) => h.combine(0, h.int_(i))
    case Double(d) => h.combine(0, h.double_(d))
    case Text(s) => h.combine(0, h.text(s))
    case Path(p) => h.path(p)
    case Array(a) => HashElements(h, v, |a|)
    case Map(m) => h.combine(0, HashEntries(h, v, m.Keys, 0))
    case Name(kind, name) => h.combine(0, h.name(kind, CanonicalName(kind, name)))
  }

  ghost function HashElements(h: Hasher, v: Value, n: nat): nat
    requires v.Array? && n <= |v.a|
    decreases v, 1, n
  {
    if n == 0 then 0 else h.combine(HashElements(h, v, n - 1), Hash(h, v.a[n - 1].value))
  }

  /** The entries under `ks`, smallest key first, starting from `acc`. */
  ghost function HashEntries(h: Hasher, v: Value, ks: set<Key>, acc: nat): nat
    requires v.Map? && ks <= v.m.Keys
    decreases v, 1, |ks|
  {
    if ks == {} then acc
    else
      var k := First(ks);
      var e := Hash(h, v.m[k].value);
      HashEntries(h, v, ks - {k},
                  if v.m[k].ignoreInComparison || e == 0 then acc else h.combine(h.combine(acc, h.text(k)), e))
  }

  /** PackageSettings::getHash. */
  ghost function HashSettings(h: Hasher, v: Value): nat
    requires v.Map?
  {
    HashEntries(h, v, v.m.Keys, 0)
  }

  ghost function Relevant(h: Hasher, v: Value, ks: set<Key>): set<Key>
    requires v.Map? && ks <= v.m.Keys
  {
    set k | k in ks && !v.m[k].ignoreInComparison && Hash(h, v.m[k].value) != 0
  }

  lemma FirstOfSubset(k: Key, ks: set<Key>, sub: set<Key>)
    requires IsFirst(k, ks) && k in sub && sub <= ks
    ensures sub != {} && First(sub) == k
  {
    var f := First(sub);
    KeyLessTotal(f, k);
  }

  /** Skipped entries do not influence the hash. */
  lemma {:induction false} OnlyRelevantCount(h: Hasher, v: Value, ks: set<Key>, acc: nat)
    requires v.Map? && ks <= v.m.Keys
    ensures HashEntries(h, v, ks, acc) == HashEntries(h, v, Relevant(h, v, ks), acc)
    decreases |ks|
  {
    if ks != {} {
      var k := First(ks);
      var e := Hash(h, v.m[k].value);
      if v.m[k].ignoreInComparison || e == 0 {
        assert Relevant(h, v, ks - {k}) == Relevant(h, v, ks);
        OnlyRelevantCount(h, v, ks - {k}, acc);
      } else {
        FirstOfSubset(k, ks, Relevant(h, v, ks));
        assert Relevant(h, v, ks - {k}) == Relevant(h, v, ks) - {k};
        OnlyRelevantCount(h, v, ks - {k}, h.combine(h.combine(acc, h.text(k)), e));
      }
    }
  }

  /** Entries with the same keys and the same hashes fold to the same hash. */
  lemma {:induction false} SameEntriesSameHash(h: Hasher, x: Value, y: Value, ks: set<Key>, acc: nat)
    requires x.Map? && y.Map? && ks <= x.m.Keys && ks <= y.m.Keys
    requires forall k | k in ks :: Hash(h, x.m[k].value) == Hash(h, y.m[k].value)
    requires forall k | k in ks :: !x.m[k].ignoreInComparison && !y.m[k].ignoreInComparison
    ensures HashEntries(h, x, ks, acc) == HashEntries(h, y, ks, acc)
    decreases |ks|
  {
    if ks != {} {
      var k := First(ks);
      var e := Hash(h, x.m[k].value);
      SameEntriesSameHash(h, x, y, ks - {k}, if e == 0 then acc else h.combine(h.combine(acc, h.text(k)), e));
    }
  }

  lemma {:induction false} SameElementsSameHash(h: Hasher, x: Value, y: Value, n: nat)
    requires x.Array? && y.Array? && n <= |x.a| == |y.a|
    requires forall i | 0 <= i < |x.a| :: Hash(h, x.a[i].value) == Hash(h, y.a[i].value)
    ensures HashElements(h, x, n) == HashElements(h, y, n)
    decreases n
  {
    if n > 0 {
      SameElementsSameHash(h, x, y, n - 1);
    }
  }

  /** Equal settings have equal hashes, whatever the primitives are. */
  lemma {:induction false} EqualMeansEqualHash(h: Hasher, x: Value, y: Value)
    requires FlagFree(x) && FlagFree(y) && Equal(x, y)
    ensures Hash(h, x) == Hash(h, y)
    ensures x.Map? ==> HashSettings(h, x) == HashSettings(h, y)
    decreases x
  {
    match (x, y)
    case (Array(a), Array(b)) =>
      forall i | 0 <= i < |a|
        ensures Hash(h, a[i].value) == Hash(h, b[i].value)
      {
        EqualMeansEqualHash(h, a[i].value, b[i].value);
      }
      SameElementsSameHash(h, x, y, |a|);
    case (Map(m), Map(n)) =>
      forall k | k in m && k in n
        ensures Hash(h, m[k].value) == Hash(h, n[k].value)
      {
        EqualMeansEqualHash(h, m[k].value, n[k].value);
      }
      EqualEntries(h, x, y);
    case _ =>
  }

  lemma EqualEntries(h: Hasher, x: Value, y: Value)
    requires x.Map? && y.Map? && FlagFree(x) && FlagFree(y) && Equal(x, y)
    requires forall k | k in x.m && k in y.m :: Hash(h, x.m[k].value) == Hash(h, y.m[k].value)
    ensures HashSettings(h, x) == HashSettings(h, y)
  {
    var both := Relevant(h, x, x.m.Keys);
    assert both == Relevant(h, y, y.m.Keys);
    OnlyRelevantCount(h, x, x.m.Keys, 0);
    OnlyRelevantCount(h, y, y.m.Keys, 0);
    SameEntriesSameHash(h, x, y, both, 0);
  }

  // ---- what the hash tells apart ----

  /** Combining loses nothing. */
  ghost predicate Lossless(h: Hasher)
  {
    forall a, b, c, d | h.combine(a, b) == h.combine(c, d) :: a == c && b == d
  }

  lemma {:induction false} ElementsTell(h: Hasher, x: Value, y: Value, n: nat)
    requires Lossless(h) && x.Array? && y.Array? && n <= |x.a| == |y.a|
    requires HashElements(h, x, n) == HashElements(h, y, n)
    ensures forall i | 0 <= i < n :: Hash(h, x.a[i].value) == Hash(h, y.a[i].value)
    decreases n
  {
    if n > 0 {
      ElementsTell(h, x, y, n - 1);
    }
  }

  lemma {:induction false} EntriesTell(h: Hasher, x: Value, y: Value, ks: set<Key>, acc: nat, acc': nat)
    requires Lossless(h) && x.Map? && y.Map? && ks <= x.m.Keys && ks <= y.m.Keys
    requires Relevant(h, x, ks) == ks == Relevant(h, y, ks)
    requires HashEntries(h, x, ks, acc) == HashEntries(h, y, ks, acc')
    ensures acc == acc' && forall k | k in ks :: Hash(h, x.m[k].value) == Hash(h, y.m[k].value)
    decreases |ks|
  {
    if ks != {} {
      var k := First(ks);
      var e, f := Hash(h, x.m[k].value), Hash(h, y.m[k].value);
      assert k in Relevant(h, x, ks) && k in Relevant(h, y, ks);
      assert Relevant(h, x, ks - {k}) == Relevant(h, x, ks) - {k} && Relevant(h, y, ks - {k}) == Relevant(h, y, ks) - {k};
      EntriesTell(h, x, y, ks - {k}, h.combine(h.combine(acc, h.text(k)), e), h.combine(h.combine(acc', h.text(k)), f));
      assert h.combine(acc, h.text(k)) == h.combine(acc', h.text(k)) && e == f;
    }
  }

  /** If combining loses nothing, settings with the same relevant keys have the same hash
      exactly if all relevant entries have, and arrays of the same length exactly if all
      elements have. */
  lemma HashTells(h: Hasher, x: Value, y: Value)
    requires Lossless(h)
    ensures x.Map? && y.Map? && Relevant(h, x, x.m.Keys) == Relevant(h, y, y.m.Keys) ==>
              (HashSettings(h, x) == HashSettings(h, y)
               <==> forall k | k in Relevant(h, x, x.m.Keys) :: Hash(h, x.m[k].value) == Hash(h, y.m[k].value))
    ensures x.Array? && y.Array? && |x.a| == |y.a| ==>
              (Hash(h, x) == Hash(h, y) <==> forall i | 0 <= i < |x.a| :: Hash(h, x.a[i].value) == Hash(h, y.a[i].value))
  {
    if x.Map? && y.Map? && Relevant(h, x, x.m.Keys) == Relevant(h, y, y.m.Keys) {
      var ks := Relevant(h, x, x.m.Keys);
      assert Relevant(h, x, ks) == ks == Relevant(h, y, ks);
      OnlyRelevantCount(h, x, x.m.Keys, 0);
      OnlyRelevantCount(h, y, y.m.Keys, 0);
      if HashSettings(h, x) == HashSettings(h, y) {
        EntriesTell(h, x, y, ks, 0, 0);
      } else if forall k | k in ks :: Hash(h, x.m[k].value) == Hash(h, y.m[k].value) {
        SameEntriesSameHash(h, x, y, ks, 0);
      }
    }
    if x.Array? && y.Array? && |x.a| == |y.a| {
      if Hash(h, x) == Hash(h, y) {
        ElementsTell(h, x, y, |x.a|);
      } else if forall i | 0 <= i < |x.a| :: Hash(h, x.a[i].value) == Hash(h, y.a[i].value) {
        SameElementsSameHash(h, x, y, |x.a|);
      }
    }
  }

  /** ... and scalars of a kind exactly if the primitives have; a nested map has the hash of
      its entries, combined once more. */
  lemma ScalarsTell(h: Hasher, b: bool, c: bool, i: int, j: int, d: real, e: real, s: string, t: string, kind: NameKind)
    requires Lossless(h)
    ensures Hash(h, Bool(b)) == Hash(h, Bool(c)) <==> h.bool_(b) == h.bool_(c)
    ensures Hash(h, Int(i)) == Hash(h, Int(j)) <==> h.int_(i) == h.int_(j)
    ensures Hash(h, Double(d)) == Hash(h, Double(e)) <==> h.double_(d) == h.double_(e)
    ensures Hash(h, Text(s)) == Hash(h, Text(t)) <==> h.text(s) == h.text(t)
    ensures Hash(h, Path(s)) == Hash(h, Path(t)) <==> h.path(s) == h.path(t)
    ensures Hash(h, Name(kind, s)) == Hash(h, Name(kind, t))
            <==> h.name(kind, CanonicalName(kind, s)) == h.name(kind, CanonicalName(kind, t))
  {
  }

  lemma MapsTell(h: Hasher, x: Value, y: Value)
    requires Lossless(h) && x.Map? && y.Map?
    ensures Hash(h, x) == Hash(h, y) <==> HashSettings(h, x) == HashSettings(h, y)
  {
  }

  /** The key counts as well as the entry. */
  lemma KeysTell(h: Hasher, x: Value, y: Value, k: Key, l: Key)
    requires Lossless(h) && x.Map? && y.Map?
    requires k in x.m && l in y.m && Relevant(h, x, x.m.Keys) == {k} && Relevant(h, y, y.m.Keys) == {l}
    ensures HashSettings(h, x) == HashSettings(h, y)
            <==> h.text(k) == h.text(l) && Hash(h, x.m[k].value) == Hash(h, y.m[l].value)
  {
    OnlyRelevantCount(h, x, x.m.Keys, 0);
    OnlyRelevantCount(h, y, y.m.Keys, 0);
    OneEntry(h, x, k);
    OneEntry(h, y, l);
  }

  lemma OneEntry(h: Hasher, x: Value, k: Key)
    requires x.Map? && k in x.m && Relevant(h, x, x.m.Keys) == {k}
    ensures HashEntries(h, x, {k}, 0) == h.combine(h.combine(0, h.text(k)), Hash(h, x.m[k].value))
  {
    assert First({k}) == k;
    assert k in Relevant(h, x, x.m.Keys);
    assert {k} - {k} == {};
  }
}
