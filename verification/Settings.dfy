/** Package settings (src/sw/support/settings.cpp): a tree of maps, arrays and
    scalars with its own equality, subset test and two merges. */
module Settings {
  type Key = string

  /** The kinds of names a setting can hold, in the order of the variant. */
  datatype NameKind = PackagePathName | VersionName | PackageNameName | VersionRangeName | UnresolvedName

  datatype Value =
    | Empty
    | Null
    | Bool(b: bool)
    | Int(i: int)
    | Double(d: real)
    | Text(s: string)
    | Path(p: string)
    | Array(a: seq<Setting>)
    | Map(m: map<Key, Setting>)
    | Name(kind: NameKind, name: string)

  datatype Setting = Setting(value: Value, ignoreInComparison: bool)

  const NoSetting := Setting(Empty, false)

  // ---- equality ----

  function LowerChar(c: char): char
  {
    if 'A' <= c <= 'Z' then c - 'A' + 'a' else c
  }

  function Lower(s: string): string
  {
    seq(|s|, i requires 0 <= i < |s| => LowerChar(s[i]))
  }

  /** Package paths are compared without case. */
  function CanonicalName(kind: NameKind, name: string): string
  {
    if kind.PackagePathName? then Lower(name) else name
  }

  /** Two characters are the same in lower case exactly if they are the same letter, or the
      same character. */
  lemma LowerIsByLetter(c: char, d: char)
    ensures LowerChar(c) == LowerChar(d)
            <==> c == d || (65 <= c as int <= 90 && d as int == c as int + 32) || (65 <= d as int <= 90 && c as int == d as int + 32)
  {
  }

  /** Of the names only package paths are compared without case. */
  lemma NamesEqualIff(k: NameKind, l: NameKind, a: string, b: string)
    ensures Equal(Name(k, a), Name(l, b))
            <==> k == l && (a == b || (k.PackagePathName? && |a| == |b| && forall i | 0 <= i < |a| :: LowerChar(a[i]) == LowerChar(b[i])))
  {
    SameLowerIff(a, b);
  }

  lemma SameLowerIff(a: string, b: string)
    ensures Lower(a) == Lower(b) <==> |a| == |b| && forall i | 0 <= i < |a| :: LowerChar(a[i]) == LowerChar(b[i])
  {
    assert |Lower(a)| == |a| && |Lower(b)| == |b|;
    if Lower(a) == Lower(b) {
      forall i | 0 <= i < |a|
        ensures LowerChar(a[i]) == LowerChar(b[i])
      {
        assert Lower(a)[i] == Lower(b)[i];
      }
    }
  }

  /** operator== of the variants; the ignore flag is looked at on the left side
      of two settings, and on both sides of two maps. */
  predicate Equal(x: Value, y: Value)
    decreases x
  {
    match (x, y)
    case (Array(a), Array(b)) =>
      |a| == |b| && forall i | 0 <= i < |a| :: a[i].ignoreInComparison || Equal(a[i].value, b[i].value)
    case (Map(m), Map(n)) =>
      && (forall k | k in n && !n[k].ignoreInComparison ::
            if k in m then m[k].ignoreInComparison || Equal(m[k].value, n[k].value) else n[k].value.Empty?)
      && (forall k | k in m && !m[k].ignoreInComparison && k !in n :: m[k].value.Empty?)
    case (Name(kx, nx), Name(ky, ny)) => kx == ky && CanonicalName(kx, nx) == CanonicalName(ky, ny)
    case _ => !x.Array? && !x.Map? && x == y
  }

  predicate EqualSettings(x: Setting, y: Setting)
  {
    x.ignoreInComparison || Equal(x.value, y.value)
  }

  /** No ignore flag anywhere in the tree. */
  predicate FlagFree(v: Value)
  {
    match v
    case Array(a) => forall i | 0 <= i < |a| :: !a[i].ignoreInComparison && FlagFree(a[i].value)
    case Map(m) => forall k | k in m :: !m[k].ignoreInComparison && FlagFree(m[k].value)
    case _ => true
  }

  lemma {:induction false} EqualReflexive(x: Value)
    ensures Equal(x, x)
  {
    match x
    case Array(a) =>
      forall i | 0 <= i < |a|
        ensures Equal(a[i].value, a[i].value)
      {
        EqualReflexive(a[i].value);
      }
    case Map(m) =>
      forall k | k in m
        ensures Equal(m[k].value, m[k].value)
      {
        EqualReflexive(m[k].value);
      }
    case _ =>
  }

  lemma {:induction false} EqualSymmetric(x: Value, y: Value)
    requires FlagFree(x) && FlagFree(y) && Equal(x, y)
    ensures Equal(y, x)
    decreases x
  {
    match (x, y)
    case (Array(a), Array(b)) =>
      forall i | 0 <= i < |a|
        ensures Equal(b[i].value, a[i].value)
      {
        EqualSymmetric(a[i].value, b[i].value);
      }
    case (Map(m), Map(n)) =>
      forall k | k in m && k in n
        ensures Equal(n[k].value, m[k].value)
      {
        EqualSymmetric(m[k].value, n[k].value);
      }
    case _ =>
  }

  lemma EmptyEqualsEmptyOnly(x: Value, y: Value)
    requires Equal(x, y)
    ensures x.Empty? <==> y.Empty?
    ensures x.Map? <==> y.Map?
  {
  }

  lemma {:induction false} EqualTransitive(x: Value, y: Value, z: Value)
    requires FlagFree(x) && FlagFree(y) && FlagFree(z) && Equal(x, y) && Equal(y, z)
    ensures Equal(x, z)
    decreases x
  {
    match (x, y, z)
    case (Array(a), Array(b), Array(c)) =>
      forall i | 0 <= i < |a|
        ensures Equal(a[i].value, c[i].value)
      {
        EqualTransitive(a[i].value, b[i].value, c[i].value);
      }
    case (Map(l), Map(m), Map(n)) =>
      forall k | k in l && k in n
        ensures Equal(l[k].value, n[k].value)
      {
        if k in m {
          EqualTransitive(l[k].value, m[k].value, n[k].value);
        }
      }
      forall k | k in m
        ensures k in l && k !in n ==> l[k].value.Empty?
        ensures k in n && k !in l ==> n[k].value.Empty?
      {
        if k in l { EmptyEqualsEmptyOnly(l[k].value, m[k].value); }
        if k in n { EmptyEqualsEmptyOnly(m[k].value, n[k].value); }
      }
    case _ =>
  }

  /** An explicit empty entry counts as missing. */
  lemma EmptyEqualsMissing(m: map<Key, Setting>, k: Key)
    requires k !in m
    ensures Equal(Map(m), Map(m[k := NoSetting])) && Equal(Map(m[k := NoSetting]), Map(m))
  {
    forall j | j in m
      ensures Equal(m[j].value, m[j].value)
    {
      EqualReflexive(m[j].value);
    }
  }

  // ---- what equality means ----

  /** The tree without its explicit empty entries, with canonical names. */
  function Normal(v: Value): Value
  {
    match v
    case Array(a) => Array(seq(|a|, i requires 0 <= i < |a| => Setting(Normal(a[i].value), false)))
    case Map(m) => Map(map k | k in m && !m[k].value.Empty? :: Setting(Normal(m[k].value), false))
    case Name(kind, name) => Name(kind, CanonicalName(kind, name))
    case _ => v
  }

  lemma NormalIsEmptyOnlyFor(v: Value)
    ensures Normal(v).Empty? <==> v.Empty?
  {
  }

  /** Without ignore flags, two trees are equal exactly if they are the same but for
      explicit empty entries and the case of package paths. */
  lemma {:induction false} EqualIff(x: Value, y: Value)
    requires FlagFree(x) && FlagFree(y)
    ensures Equal(x, y) <==> Normal(x) == Normal(y)
    decreases x
  {
    match (x, y)
    case (Array(a), Array(b)) =>
      forall i | 0 <= i < |a| && i < |b|
        ensures Equal(a[i].value, b[i].value) <==> Normal(a[i].value) == Normal(b[i].value)
      {
        EqualIff(a[i].value, b[i].value);
      }
      EqualArraysIff(a, b);
    case (Map(m), Map(n)) =>
      forall k | k in m && k in n
        ensures Equal(m[k].value, n[k].value) <==> Normal(m[k].value) == Normal(n[k].value)
      {
        EqualIff(m[k].value, n[k].value);
      }
      EqualMapsIff(m, n);
    case _ =>
  }

  lemma EqualArraysIff(a: seq<Setting>, b: seq<Setting>)
    requires FlagFree(Array(a)) && FlagFree(Array(b))
    requires forall i | 0 <= i < |a| && i < |b| :: Equal(a[i].value, b[i].value) <==> Normal(a[i].value) == Normal(b[i].value)
    ensures Equal(Array(a), Array(b)) <==> Normal(Array(a)) == Normal(Array(b))
  {
    var c, d := Normal(Array(a)).a, Normal(Array(b)).a;
    assert |c| == |a| && |d| == |b|;
    if |a| == |b| {
      assert c == d <==> forall i | 0 <= i < |a| :: c[i] == d[i];
      assert forall i | 0 <= i < |a| :: c[i] == d[i] <==> Equal(a[i].value, b[i].value);
    }
  }

  lemma EqualMapsIff(m: map<Key, Setting>, n: map<Key, Setting>)
    requires FlagFree(Map(m)) && FlagFree(Map(n))
    requires forall k | k in m && k in n :: Equal(m[k].value, n[k].value) <==> Normal(m[k].value) == Normal(n[k].value)
    ensures Equal(Map(m), Map(n)) <==> Normal(Map(m)) == Normal(Map(n))
  {
    var c, d := Normal(Map(m)).m, Normal(Map(n)).m;
    if Equal(Map(m), Map(n)) {
      forall k | k in m && k in n
        ensures m[k].value.Empty? <==> n[k].value.Empty?
      {
        EmptyEqualsEmptyOnly(m[k].value, n[k].value);
      }
      assert c == d;
    } else if c == d {
      forall k | k in m && k in n
        ensures Equal(m[k].value, n[k].value)
      {
        assert k in c <==> k in d;
        if k in c { assert c[k].value == d[k].value; }
      }
      assert forall k | k in m && k !in n :: k !in c;
      assert forall k | k in n && k !in m :: k !in d;
    }
  }

  ghost function Without(m: map<Key, Setting>, ks: set<Key>): map<Key, Setting>
  {
    map k | k in m && k !in ks :: m[k]
  }

  /** A key whose entry carries the flag on either side does not count. */
  lemma FlaggedKeysDoNotCount(m: map<Key, Setting>, n: map<Key, Setting>, ks: set<Key>)
    requires forall k | k in ks :: (k in m && m[k].ignoreInComparison) || (k in n && n[k].ignoreInComparison)
    ensures Equal(Map(m), Map(n)) <==> Equal(Map(Without(m, ks)), Map(Without(n, ks)))
  {
    var c, d := Without(m, ks), Without(n, ks);
    forall k | k in m || k in n
      ensures k !in ks ==> (k in c <==> k in m) && (k in d <==> k in n)
      ensures k in ks ==> k !in c && k !in d
    {
    }
  }

  /** In arrays the flag counts on the left side only. */
  lemma FlaggedElementsDoNotCount(a: seq<Setting>, b: seq<Setting>)
    ensures Equal(Array(a), Array(b))
            <==> |a| == |b| && forall i | 0 <= i < |a| && !a[i].ignoreInComparison :: Equal(a[i].value, b[i].value)
  {
  }

  // ---- subset ----

  predicate IsSubset(x: Value, y: Value)
    requires x.Map? && y.Map?
    decreases x
  {
    forall k | k in x.m && !x.m[k].value.Empty? && !x.m[k].ignoreInComparison ::
      k in y.m && !y.m[k].value.Empty? &&
      if x.m[k].value.Map? && y.m[k].value.Map? then IsSubset(x.m[k].value, y.m[k].value)
      else EqualSettings(y.m[k], x.m[k])
  }

  /** Flagged entries on the left are not asked for, and one on the right that is there
      answers for anything but a map by a map. */
  lemma FlaggedAreSubset(m: map<Key, Setting>, n: map<Key, Setting>, ks: set<Key>)
    requires forall k | k in ks && k in m ::
               || m[k].ignoreInComparison || m[k].value.Empty?
               || (k in n && n[k].ignoreInComparison && !n[k].value.Empty? && !(m[k].value.Map? && n[k].value.Map?))
    ensures IsSubset(Map(m), Map(n)) <==> IsSubset(Map(Without(m, ks)), Map(n))
  {
    var c := Without(m, ks);
    assert forall k | k in m && k !in ks :: k in c && c[k] == m[k];
  }

  /** On trees without ignore flags, equality is being a subset both ways. */
  lemma {:induction false} EqualIffMutualSubset(x: Value, y: Value)
    requires x.Map? && y.Map? && FlagFree(x) && FlagFree(y)
    ensures Equal(x, y) <==> IsSubset(x, y) && IsSubset(y, x)
    decreases x
  {
    forall k | k in x.m && k in y.m
      ensures x.m[k].value.Map? && y.m[k].value.Map? ==>
                (Equal(x.m[k].value, y.m[k].value) <==>
                 IsSubset(x.m[k].value, y.m[k].value) && IsSubset(y.m[k].value, x.m[k].value))
      ensures Equal(x.m[k].value, y.m[k].value) <==> Equal(y.m[k].value, x.m[k].value)
    {
      if x.m[k].value.Map? && y.m[k].value.Map? {
        EqualIffMutualSubset(x.m[k].value, y.m[k].value);
      }
      if Equal(x.m[k].value, y.m[k].value) { EqualSymmetric(x.m[k].value, y.m[k].value); }
      if Equal(y.m[k].value, x.m[k].value) { EqualSymmetric(y.m[k].value, x.m[k].value); }
    }
  }

  /** Ignore flags included. */
  lemma {:induction false} SubsetReflexive(x: Value)
    requires x.Map?
    ensures IsSubset(x, x)
    decreases x
  {
    forall k | k in x.m
      ensures x.m[k].value.Map? ==> IsSubset(x.m[k].value, x.m[k].value)
      ensures Equal(x.m[k].value, x.m[k].value)
    {
      EqualReflexive(x.m[k].value);
      if x.m[k].value.Map? { SubsetReflexive(x.m[k].value); }
    }
  }

  lemma {:induction false} SubsetTransitive(x: Value, y: Value, z: Value)
    requires x.Map? && y.Map? && z.Map? && FlagFree(x) && FlagFree(y) && FlagFree(z)
    requires IsSubset(x, y) && IsSubset(y, z)
    ensures IsSubset(x, z)
    decreases x
  {
    forall k | k in x.m && !x.m[k].value.Empty?
      ensures k in z.m && !z.m[k].value.Empty?
      ensures if x.m[k].value.Map? && z.m[k].value.Map? then IsSubset(x.m[k].value, z.m[k].value)
              else Equal(z.m[k].value, x.m[k].value)
    {
      var a, b, c := x.m[k].value, y.m[k].value, z.m[k].value;
      if a.Map? && b.Map? && c.Map? {
        SubsetTransitive(a, b, c);
      } else if !a.Map? && !b.Map? {
        EqualTransitive(c, b, a);
      }
    }
  }
}
