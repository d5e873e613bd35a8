/** Package paths: dotted names compared without case (src/sw/support/package_path.cpp
    and .h; the namespaces are those of package_path.inl). */
module PackagePaths {
  import opened Common

  type Element = string
  type PackagePath = seq<Element>

  const NAMESPACES: seq<string> := ["loc", "org", "pub", "com", "pvt"]

  const MAX_LENGTH := 4096

  function Lower(c: char): char
  {
    if 'A' <= c <= 'Z' then c - 'A' + 'a' else c
  }

  /** Two characters are the same in lower case exactly if they are the same letter, or the
      same character. */
  lemma LowerIsByLetter(c: char, d: char)
    ensures Lower(c) == Lower(d)
            <==> c == d || (65 <= c as int <= 90 && d as int == c as int + 32) || (65 <= d as int <= 90 && c as int == d as int + 32)
  {
  }

  // ---- parsing and printing ----

  predicate IsSymbol(c: char)
  {
    'a' <= c <= 'z' || 'A' <= c <= 'Z' || '0' <= c <= '9' || c == '.' || c == '_'
  }

  predicate IsValid(s: string)
  {
    |s| <= MAX_LENGTH && forall i | 0 <= i < |s| :: IsSymbol(s[i])
  }

  /** Letters, digits, the dot and the underscore, up to 4096 of them. */
  lemma ValidIff(s: string)
    ensures IsValid(s)
            <==> |s| <= 4096 && forall i | 0 <= i < |s| ::
                   var c := s[i] as int; 48 <= c <= 57 || 65 <= c <= 90 || 97 <= c <= 122 || c == 46 || c == 95
  {
  }

  predicate NoDots(s: string)
  {
    '.' !in s
  }

  /** The parts between the dots. */
  function Split(s: string): (p: PackagePath)
    ensures p != []
  {
    if s == "" then [""]
    else if s[0] == '.' then [""] + Split(s[1..])
    else
      var p := Split(s[1..]);
      [[s[0]] + p[0]] + p[1..]
  }

  function Elements(s: string): PackagePath
  {
    if s == "" then [] else Split(s)
  }

  function Join(p: PackagePath, delim: string): string
  {
    if p == [] then "" else if |p| == 1 then p[0] else p[0] + delim + Join(p[1..], delim)
  }

  lemma {:induction false} SplitAtDot(s: string, k: nat)
    requires k < |s| && s[k] == '.' && NoDots(s[..k])
    ensures Split(s) == [s[..k]] + Split(s[k + 1..])
  {
    if k > 0 {
      assert s[0] == s[..k][0] && s[1..][..k - 1] == s[..k][1..];
      SplitAtDot(s[1..], k - 1);
      assert s[1..][k..] == s[k + 1..];
      assert s[..k] == [s[0]] + s[1..][..k - 1];
    }
  }

  lemma SplitFrom(s: string, from: nat, k: nat)
    requires from <= k < |s| && s[k] == '.' && NoDots(s[from..k])
    ensures Split(s[from..]) == [s[from..k]] + Split(s[k + 1..])
  {
    assert s[from..][..k - from] == s[from..k] && s[from..][k - from + 1..] == s[k + 1..];
    SplitAtDot(s[from..], k - from);
  }

  lemma {:induction false} SplitWithoutDots(s: string)
    requires NoDots(s)
    ensures Split(s) == [s]
  {
    if s != "" {
      SplitWithoutDots(s[1..]);
      assert s == [s[0]] + s[1..];
    }
  }

  /** Parsing and printing give back every string. */
  lemma {:induction false} JoinSplit(s: string)
    ensures Join(Split(s), ".") == s
  {
    if s != "" {
      JoinSplit(s[1..]);
      var p := Split(s[1..]);
      if s[0] != '.' {
        assert Split(s)[1..] == p[1..];
        if |p| > 1 {
          assert [s[0]] + (p[0] + "." + Join(p[1..], ".")) == [s[0]] + p[0] + "." + Join(p[1..], ".");
        }
      }
    }
  }

  lemma {:induction false} SplitJoin(p: PackagePath)
    requires p != [] && forall i | 0 <= i < |p| :: NoDots(p[i])
    ensures Split(Join(p, ".")) == p
  {
    if |p| == 1 {
      SplitWithoutDots(p[0]);
    } else {
      var s := Join(p, ".");
      assert s[..|p[0]|] == p[0] && s[|p[0]|] == '.' && s[|p[0]| + 1..] == Join(p[1..], ".");
      SplitAtDot(s, |p[0]|);
      SplitJoin(p[1..]);
    }
  }

  /** The parts of a parsed path have no dots, and a path is not one empty part. */
  lemma {:induction false} SplitHasNoDots(s: string)
    ensures forall i | 0 <= i < |Split(s)| :: NoDots(Split(s)[i])
  {
    if s != "" {
      SplitHasNoDots(s[1..]);
    }
  }

  /** Printing and parsing give back exactly the paths a string can be parsed to. */
  lemma JoinThenElements(p: PackagePath)
    ensures Elements(Join(p, ".")) == p <==> p != [""] && forall i | 0 <= i < |p| :: NoDots(p[i])
  {
    var s := Join(p, ".");
    SplitHasNoDots(s);
    if p != [] && p != [""] && forall i | 0 <= i < |p| :: NoDots(p[i]) {
      SplitJoin(p);
    }
  }

  lemma CutAtDot(data: PackagePath, s: string, prev: nat, i: nat)
    requires prev <= i < |s| && s[i] == '.' && NoDots(s[prev..i]) && data + Split(s[prev..]) == Split(s)
    ensures data + [s[prev..i]] + Split(s[i + 1..]) == Split(s)
  {
    SplitFrom(s, prev, i);
    assert data + ([s[prev..i]] + Split(s[i + 1..])) == data + [s[prev..i]] + Split(s[i + 1..]);
  }

  lemma NoDotsYet(s: string, prev: nat, i: nat)
    requires prev <= i < |s| && s[i] != '.' && NoDots(s[prev..i])
    ensures NoDots(s[prev..i + 1])
  {
    assert s[prev..i + 1] == s[prev..i] + [s[i]];
  }

  /** The constructor with a check of the symbols; `ok` is false where it throws. */
  method ParseChecked(s: string) returns (ok: bool, data: PackagePath)
    ensures ok <==> forall i | 0 <= i < |s| :: IsSymbol(s[i])
    ensures ok ==> data == Elements(s)
  {
    data := [];
    var prev := 0;
    for i := 0 to |s|
      invariant prev <= i && forall j | 0 <= j < i :: IsSymbol(s[j])
      invariant NoDots(s[prev..i])
      invariant data + Split(s[prev..]) == Split(s)
    {
      if !IsSymbol(s[i]) { return false, data; }
      if s[i] == '.' {
        CutAtDot(data, s, prev, i);
        data := data + [s[prev..i]];
        prev := i + 1;
      } else {
        NoDotsYet(s, prev, i);
      }
    }
    assert s[prev..|s|] == s[prev..];
    SplitWithoutDots(s[prev..]);
    if s != "" { data := data + [s[prev..]]; }
    ok := true;
  }

  /** The parsing constructor; None where it throws. */
  method Parse(s: string) returns (r: Option<PackagePath>)
    ensures r == if IsValid(s) then Some(Elements(s)) else None
  {
    var ok, data := ParseChecked(s);
    return if !ok || |s| > MAX_LENGTH then None else Some(data);
  }

  method ToString(p: PackagePath, delim: string) returns (s: string)
    ensures s == Join(p, delim)
  {
    s := "";
    if p == [] { return; }
    assert p[0..] == p;
    for i := 0 to |p|
      invariant s + Join(p[i..], delim) == if i < |p| then Join(p, delim) else Join(p, delim) + delim
    {
      assert p[i..][1..] == p[i + 1..];
      assert s + (p[i] + delim + Join(p[i + 1..], delim)) == s + (p[i] + delim) + Join(p[i + 1..], delim);
      assert s + (p[i] + delim) + "" == s + p[i] + delim;
      s := s + (p[i] + delim);
    }
    assert s + "" == s;
    s := s[..|s| - |delim|];
  }

  // ---- equality and order ----

  /** The comparison boost::iequals and operator== make of two elements. */
  predicate SameElement(s: Element, t: Element)
  {
    |s| == |t| && forall i | 0 <= i < |s| :: Lower(s[i]) == Lower(t[i])
  }

  /** operator==. */
  predicate Same(p: PackagePath, q: PackagePath)
  {
    |p| == |q| && forall i | 0 <= i < |p| :: SameElement(p[i], q[i])
  }

  /** std::lexicographical_compare of two elements. */
  predicate ElementLess(s: Element, t: Element)
  {
    if t == "" then false
    else if s == "" then true
    else if Lower(s[0]) < Lower(t[0]) then true
    else if Lower(t[0]) < Lower(s[0]) then false
    else ElementLess(s[1..], t[1..])
  }

  /** std::lexicographical_compare of two paths. */
  predicate ElementsLess(p: PackagePath, q: PackagePath)
  {
    if q == [] then false
    else if p == [] then true
    else if ElementLess(p[0], q[0]) then true
    else if ElementLess(q[0], p[0]) then false
    else ElementsLess(p[1..], q[1..])
  }

  /** The namespaces from number `k` on decide: the first one listed comes first. */
  predicate NamespaceLess(s: Element, t: Element, k: nat)
    requires k <= |NAMESPACES|
    decreases |NAMESPACES| - k
  {
    if k == |NAMESPACES| then false
    else if SameElement(s, NAMESPACES[k]) then true
    else if SameElement(t, NAMESPACES[k]) then false
    else NamespaceLess(s, t, k + 1)
  }

  /** operator<. */
  predicate Less(p: PackagePath, q: PackagePath)
  {
    if p == [] && q == [] then false
    else if p == [] then true
    else if q == [] then false
    else if SameElement(p[0], q[0]) then ElementsLess(p, q)
    else NamespaceLess(p[0], q[0], 0)
  }

  predicate IsListed(s: Element)
  {
    exists k | 0 <= k < |NAMESPACES| :: SameElement(s, NAMESPACES[k])
  }

  /** Elements are totally ordered up to case. */
  lemma {:induction false} ElementTrichotomy(s: Element, t: Element)
    ensures SameElement(s, t) <==> !ElementLess(s, t) && !ElementLess(t, s)
    ensures !(ElementLess(s, t) && ElementLess(t, s))
    decreases |s|
  {
    if s != "" && t != "" {
      ElementTrichotomy(s[1..], t[1..]);
      assert SameElement(s, t) <==> Lower(s[0]) == Lower(t[0]) && SameElement(s[1..], t[1..]) by {
        if Lower(s[0]) == Lower(t[0]) && SameElement(s[1..], t[1..]) {
          forall i | 0 <= i < |s|
            ensures Lower(s[i]) == Lower(t[i])
          {
            if i > 0 { assert Lower(s[1..][i - 1]) == Lower(t[1..][i - 1]); }
          }
        }
      }
    }
  }

  lemma {:induction false} ElementTransitive(s: Element, t: Element, u: Element)
    ensures ElementLess(s, t) && ElementLess(t, u) ==> ElementLess(s, u)
    ensures SameElement(s, t) ==> (ElementLess(t, u) <==> ElementLess(s, u)) && (ElementLess(u, t) <==> ElementLess(u, s))
    decreases |s|
  {
    if s != "" && t != "" && u != "" {
      ElementTransitive(s[1..], t[1..], u[1..]);
    }
  }

  lemma {:induction false} ElementsTrichotomy(p: PackagePath, q: PackagePath)
    ensures Same(p, q) <==> !ElementsLess(p, q) && !ElementsLess(q, p)
    ensures !(ElementsLess(p, q) && ElementsLess(q, p))
    decreases |p|
  {
    if p != [] && q != [] {
      ElementTrichotomy(p[0], q[0]);
      ElementsTrichotomy(p[1..], q[1..]);
      assert Same(p, q) <==> SameElement(p[0], q[0]) && Same(p[1..], q[1..]) by {
        if SameElement(p[0], q[0]) && Same(p[1..], q[1..]) {
          forall i | 0 <= i < |p|
            ensures SameElement(p[i], q[i])
          {
            if i > 0 { assert SameElement(p[1..][i - 1], q[1..][i - 1]); }
          }
        }
      }
    }
  }

  lemma {:induction false} ElementsTransitive(p: PackagePath, q: PackagePath, r: PackagePath)
    requires ElementsLess(p, q) && ElementsLess(q, r)
    ensures ElementsLess(p, r)
    decreases |p|
  {
    if p != [] {
      ElementTrichotomy(p[0], q[0]);
      ElementTrichotomy(q[0], r[0]);
      ElementTrichotomy(p[0], r[0]);
      ElementTransitive(p[0], q[0], r[0]);
      ElementTransitive(r[0], q[0], p[0]);
      ElementTransitive(q[0], r[0], p[0]);
      if SameElement(p[0], q[0]) && SameElement(q[0], r[0]) {
        ElementsTransitive(p[1..], q[1..], r[1..]);
      }
    }
  }

  /** The place of an element in the list of namespaces; behind it if it is not there. */
  function Rank(s: Element, k: nat): (n: nat)
    requires k <= |NAMESPACES|
    ensures k <= n <= |NAMESPACES|
    ensures n < |NAMESPACES| ==> SameElement(s, NAMESPACES[n])
    ensures forall i | k <= i < n :: !SameElement(s, NAMESPACES[i])
    decreases |NAMESPACES| - k
  {
    if k == |NAMESPACES| then k else if SameElement(s, NAMESPACES[k]) then k else Rank(s, k + 1)
  }

  lemma SameElementsSameRank(s: Element, t: Element)
    requires SameElement(s, t)
    ensures Rank(s, 0) == Rank(t, 0)
  {
  }

  lemma {:induction false} NamespacesByRank(s: Element, t: Element, k: nat)
    requires k <= |NAMESPACES| && !SameElement(s, t)
    ensures NamespaceLess(s, t, k) <==> Rank(s, k) < Rank(t, k)
    decreases |NAMESPACES| - k
  {
    if k < |NAMESPACES| {
      NamespacesByRank(s, t, k + 1);
    }
  }

  /** operator< is a strict partial order on all paths. */
  lemma LessIsStrictPartialOrder(p: PackagePath, q: PackagePath, r: PackagePath)
    ensures !Less(p, p)
    ensures !(Less(p, q) && Less(q, p))
    ensures Less(p, q) && Less(q, r) ==> Less(p, r)
  {
    ElementsTrichotomy(p, p);
    ElementsTrichotomy(p, q);
    if p != [] && q != [] && !SameElement(p[0], q[0]) {
      NamespacesByRank(p[0], q[0], 0);
      NamespacesByRank(q[0], p[0], 0);
    }
    if Less(p, q) && Less(q, r) && p != [] {
      LessTransitive(p, q, r);
    }
  }

  lemma LessTransitive(p: PackagePath, q: PackagePath, r: PackagePath)
    requires p != [] && Less(p, q) && Less(q, r)
    ensures Less(p, r)
  {
    var a, b, c := p[0], q[0], r[0];
    if SameElement(a, b) { SameElementsSameRank(a, b); } else { NamespacesByRank(a, b, 0); }
    if SameElement(b, c) { SameElementsSameRank(b, c); } else { NamespacesByRank(b, c, 0); }
    if SameElement(a, c) {
      SameElementsSameRank(a, c);
      if SameElement(a, b) { ElementsTransitive(p, q, r); }
    } else {
      NamespacesByRank(a, c, 0);
    }
  }

  /** `s` and `t` are the same before place `i`, where `s` ends or has the smaller character. */
  predicate FirstDifference(s: Element, t: Element, i: nat)
  {
    && i <= |s| && i < |t|
    && (forall j | 0 <= j < i :: Lower(s[j]) == Lower(t[j]))
    && (i == |s| || Lower(s[i]) < Lower(t[i]))
  }

  /** Elements are in the order of a dictionary without case. */
  lemma {:induction false} ElementLessIff(s: Element, t: Element)
    ensures ElementLess(s, t) <==> exists i :: FirstDifference(s, t, i)
    decreases |s|
  {
    if t == "" {
    } else if s == "" {
      assert FirstDifference(s, t, 0);
    } else {
      ElementLessIff(s[1..], t[1..]);
      if Lower(s[0]) == Lower(t[0]) {
        if i: nat :| FirstDifference(s[1..], t[1..], i) {
          forall j | 0 <= j < i + 1
            ensures Lower(s[j]) == Lower(t[j])
          {
            if j > 0 { assert Lower(s[1..][j - 1]) == Lower(t[1..][j - 1]); }
          }
          assert FirstDifference(s, t, i + 1);
        }
        if i: nat :| FirstDifference(s, t, i) {
          assert i > 0;
          forall j | 0 <= j < i - 1
            ensures Lower(s[1..][j]) == Lower(t[1..][j])
          {
            assert Lower(s[j + 1]) == Lower(t[j + 1]);
          }
          assert FirstDifference(s[1..], t[1..], i - 1);
        }
      } else if Lower(s[0]) < Lower(t[0]) {
        assert FirstDifference(s, t, 0);
      }
    }
  }

  /** The paths are the same before place `i`, where `p` ends or has the smaller element. */
  predicate FirstOther(p: PackagePath, q: PackagePath, i: nat)
  {
    && i <= |p| && i < |q|
    && (forall j | 0 <= j < i :: SameElement(p[j], q[j]))
    && (i == |p| || ElementLess(p[i], q[i]))
  }

  lemma {:induction false} ElementsLessIff(p: PackagePath, q: PackagePath)
    ensures ElementsLess(p, q) <==> exists i :: FirstOther(p, q, i)
    decreases |p|
  {
    if q == [] {
    } else if p == [] {
      assert FirstOther(p, q, 0);
    } else {
      ElementTrichotomy(p[0], q[0]);
      ElementsLessIff(p[1..], q[1..]);
      if SameElement(p[0], q[0]) {
        if i: nat :| FirstOther(p[1..], q[1..], i) {
          forall j | 0 <= j < i + 1
            ensures SameElement(p[j], q[j])
          {
            if j > 0 { assert SameElement(p[1..][j - 1], q[1..][j - 1]); }
          }
          assert FirstOther(p, q, i + 1);
        }
        if i: nat :| FirstOther(p, q, i) {
          assert i > 0;
          forall j | 0 <= j < i - 1
            ensures SameElement(p[1..][j], q[1..][j])
          {
            assert SameElement(p[j + 1], q[j + 1]);
          }
          assert FirstOther(p[1..], q[1..], i - 1);
        }
      } else if ElementLess(p[0], q[0]) {
        assert FirstOther(p, q, 0);
      }
    }
  }

  /** The namespace comes before all others that `t` could be. */
  predicate ListedBefore(s: Element, t: Element)
  {
    exists k | 0 <= k < |NAMESPACES| ::
      SameElement(s, NAMESPACES[k]) && forall j | 0 <= j <= k :: !SameElement(t, NAMESPACES[j])
  }

  lemma RankLessIff(s: Element, t: Element)
    ensures Rank(s, 0) < Rank(t, 0) <==> ListedBefore(s, t)
  {
    var m, n := Rank(s, 0), Rank(t, 0);
    if m < n {
      assert SameElement(s, NAMESPACES[m]) && forall j | 0 <= j <= m :: !SameElement(t, NAMESPACES[j]);
    }
    if ListedBefore(s, t) {
      var k :| 0 <= k < |NAMESPACES| && SameElement(s, NAMESPACES[k]) && forall j | 0 <= j <= k :: !SameElement(t, NAMESPACES[j]);
      assert m <= k < n by {
        if n < |NAMESPACES| { assert SameElement(t, NAMESPACES[n]); }
      }
    }
  }

  /** What operator< compares: the empty path is first; paths with the same first element
      are in dictionary order; otherwise a listed namespace goes before those behind it in
      the list and before unlisted ones. */
  lemma LessIff(p: PackagePath, q: PackagePath)
    ensures Less(p, q)
            <==> q != [] && (p == []
                 || (SameElement(p[0], q[0]) && exists i :: FirstOther(p, q, i))
                 || (!SameElement(p[0], q[0]) && ListedBefore(p[0], q[0])))
  {
    if p != [] && q != [] {
      ElementsLessIff(p, q);
      if !SameElement(p[0], q[0]) {
        NamespacesByRank(p[0], q[0], 0);
        RankLessIff(p[0], q[0]);
      }
    }
  }

  predicate Incomparable(p: PackagePath, q: PackagePath)
  {
    !Less(p, q) && !Less(q, p)
  }

  /** Two paths are incomparable exactly if they are equal or their first elements
      differ and neither is a listed namespace. */
  lemma IncomparableIff(p: PackagePath, q: PackagePath)
    ensures Incomparable(p, q)
            <==> Same(p, q)
                 || (p != [] && q != [] && !SameElement(p[0], q[0]) && !IsListed(p[0]) && !IsListed(q[0]))
  {
    ElementsTrichotomy(p, q);
    if p != [] && q != [] && !SameElement(p[0], q[0]) {
      NamespacesByRank(p[0], q[0], 0);
      NamespacesByRank(q[0], p[0], 0);
      assert forall s: Element :: Rank(s, 0) == |NAMESPACES| <==> !IsListed(s);
    }
  }

  /** The first elements of `p` and `r` are the same, that of `q` is another one, and none of
      them is a listed namespace. */
  predicate Between(p: PackagePath, q: PackagePath, r: PackagePath)
  {
    && p != [] && q != [] && r != []
    && SameElement(p[0], r[0]) && !SameElement(p[0], q[0]) && !IsListed(p[0]) && !IsListed(q[0])
  }

  /** Incomparability fails to be transitive exactly at different paths with the same first
      element, on either side of one with another first element, all outside the listed
      namespaces. */
  lemma IncomparableIsTransitiveIff(p: PackagePath, q: PackagePath, r: PackagePath)
    ensures (Incomparable(p, q) && Incomparable(q, r) ==> Incomparable(p, r))
            <==> !(Between(p, q, r) && !Same(p, r))
  {
    IncomparableIff(p, q);
    IncomparableIff(q, r);
    IncomparableIff(p, r);
    if p != [] && q != [] && r != [] {
      SameElements(p[0], q[0], r[0]);
      SameElements(r[0], q[0], p[0]);
      SameElements(p[0], r[0], q[0]);
    }
  }

  lemma SameElements(s: Element, t: Element, u: Element)
    ensures SameElement(s, t) && SameElement(t, u) ==> SameElement(s, u)
    ensures SameElement(s, t) ==> (IsListed(s) <==> IsListed(t))
  {
    if SameElement(s, t) { SameElementsSameRank(s, t); }
  }

  /** So operator< is not a strict weak order: a path beside two comparable ones can be
      incomparable to both. */
  lemma NotAStrictWeakOrder()
    ensures var p, q, r := ["x", "a"], ["y"], ["x", "b"];
            Incomparable(p, q) && Incomparable(q, r) && Less(p, r)
  {
    var p, q, r := ["x", "a"], ["y"], ["x", "b"];
    assert Lower('x') == 'x' && Lower('y') == 'y' && Lower('a') == 'a' && Lower('b') == 'b';
    assert ElementLess("a", "b");
    IncomparableIff(p, q);
    IncomparableIff(q, r);
  }

  // ---- hash ----

  function HashElement(combine: (nat, nat) -> nat, hash: char -> nat, h: nat, s: Element): nat
    decreases |s|
  {
    if s == "" then h else HashElement(combine, hash, combine(h, hash(Lower(s[0]))), s[1..])
  }

  function HashFrom(combine: (nat, nat) -> nat, hash: char -> nat, h: nat, p: PackagePath): nat
    decreases |p|
  {
    if p == [] then h else HashFrom(combine, hash, HashElement(combine, hash, h, p[0]), p[1..])
  }

  /** The letters of all elements, one after another, in lower case. */
  function Letters(p: PackagePath): string
  {
    if p == [] then "" else seq(|p[0]|, i requires 0 <= i < |p[0]| => Lower(p[0][i])) + Letters(p[1..])
  }

  function Fold(combine: (nat, nat) -> nat, hash: char -> nat, h: nat, s: string): nat
    decreases |s|
  {
    if s == "" then h else combine(Fold(combine, hash, h, s[..|s| - 1]), hash(s[|s| - 1]))
  }

  lemma {:induction false} FoldElement(combine: (nat, nat) -> nat, hash: char -> nat, h: nat, a: string, s: Element)
    ensures HashElement(combine, hash, Fold(combine, hash, h, a), s)
            == Fold(combine, hash, h, a + seq(|s|, i requires 0 <= i < |s| => Lower(s[i])))
    decreases |s|
  {
    var lower := seq(|s|, i requires 0 <= i < |s| => Lower(s[i]));
    if s == "" {
      assert a + lower == a;
    } else {
      var b := a + [Lower(s[0])];
      var rest := seq(|s[1..]|, i requires 0 <= i < |s[1..]| => Lower(s[1..][i]));
      assert b[..|b| - 1] == a;
      FoldElement(combine, hash, h, b, s[1..]);
      assert b + rest == a + lower;
    }
  }

  lemma {:induction false} FoldFrom(combine: (nat, nat) -> nat, hash: char -> nat, h: nat, a: string, p: PackagePath)
    ensures HashFrom(combine, hash, Fold(combine, hash, h, a), p) == Fold(combine, hash, h, a + Letters(p))
    decreases |p|
  {
    if p == [] {
      assert a + Letters(p) == a;
    } else {
      var lower := seq(|p[0]|, i requires 0 <= i < |p[0]| => Lower(p[0][i]));
      FoldElement(combine, hash, h, a, p[0]);
      FoldFrom(combine, hash, h, a + lower, p[1..]);
      assert a + lower + Letters(p[1..]) == a + Letters(p);
    }
  }

  /** The hash is that of the lower-case letters in order; where elements end makes no
      difference. */
  lemma HashIsOfLetters(combine: (nat, nat) -> nat, hash: char -> nat, p: PackagePath)
    ensures HashFrom(combine, hash, 0, p) == Fold(combine, hash, 0, Letters(p))
  {
    FoldFrom(combine, hash, 0, "", p);
    assert "" + Letters(p) == Letters(p);
  }

  /** getHash. */
  method GetHash(combine: (nat, nat) -> nat, hash: char -> nat, p: PackagePath) returns (h: nat)
    ensures h == HashFrom(combine, hash, 0, p)
  {
    h := 0;
    for i := 0 to |p|
      invariant HashFrom(combine, hash, h, p[i..]) == HashFrom(combine, hash, 0, p)
    {
      ghost var before := h;
      for j := 0 to |p[i]|
        invariant HashElement(combine, hash, h, p[i][j..]) == HashElement(combine, hash, before, p[i])
      {
        h := combine(h, hash(Lower(p[i][j])));
        assert p[i][j..][1..] == p[i][j + 1..];
      }
      assert p[i..][1..] == p[i + 1..];
    }
  }

  lemma {:induction false} SameElementsSameHash(combine: (nat, nat) -> nat, hash: char -> nat, h: nat, s: Element, t: Element)
    requires SameElement(s, t)
    ensures HashElement(combine, hash, h, s) == HashElement(combine, hash, h, t)
    decreases |s|
  {
    if s != "" {
      SameElementsSameHash(combine, hash, combine(h, hash(Lower(s[0]))), s[1..], t[1..]);
    }
  }

  /** Equal paths have equal hashes. */
  lemma {:induction false} SamePathsSameHash(combine: (nat, nat) -> nat, hash: char -> nat, h: nat, p: PackagePath, q: PackagePath)
    requires Same(p, q)
    ensures HashFrom(combine, hash, h, p) == HashFrom(combine, hash, h, q)
    decreases |p|
  {
    if p != [] {
      SameElementsSameHash(combine, hash, h, p[0], q[0]);
      SamePathsSameHash(combine, hash, HashElement(combine, hash, h, p[0]), p[1..], q[1..]);
    }
  }

  // ---- parts ----

  /** isRootOf, which does look at case. */
  predicate IsRootOf(p: PackagePath, q: PackagePath)
  {
    |p| < |q| && forall i | 0 <= i < |p| :: p[i] == q[i]
  }

  function Parent(p: PackagePath): PackagePath
  {
    if p == [] then [] else p[..|p| - 1]
  }

  /** back: what follows the root, nothing where it is not the root.  The loop that
      then looks for a difference in the root cannot find one. */
  function Back(p: PackagePath, root: PackagePath): (r: PackagePath)
    ensures if IsRootOf(root, p) then root + r == p else r == []
  {
    if IsRootOf(root, p) then p[|p| - (|p| - |root|)..] else []
  }

  /** hasSameParent: the walk up to the common root comes down to the first elements. */
  method HasSameParent(p: PackagePath, q: PackagePath) returns (r: bool)
    ensures r <==> p != [] && q != [] && (Same(p, q) || (|p| > 1 && |q| > 1 && p[0] == q[0]))
  {
    if p == [] || q == [] { return false; }
    if Same(p, q) { return true; }
    var up := p;
    while up != []
      invariant up <= p
      invariant |p| > 1 && |q| > 1 && p[0] == q[0] ==> up != []
    {
      if IsRootOf(up, p) && IsRootOf(up, q) { return true; }
      up := Parent(up);
    }
    r := false;
  }
}
