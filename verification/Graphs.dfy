/** Finite directed graphs given as "node -> nodes it points at", as the
    execution plan sees them: an edge to a node outside the graph is ignored. */
module Graphs {
  import opened Common

  ghost predicate IsPath<T>(g: map<T, set<T>>, older p: seq<T>)
  {
    && p != []
    && (forall i | 0 <= i < |p| :: p[i] in g)
    && (forall i | 0 <= i < |p| - 1 :: p[i + 1] in g[p[i]])
  }

  /** A path that visits some node twice, that is, one that contains a cycle. */
  ghost predicate Repeats<T>(p: seq<T>)
  {
    exists i, j :: 0 <= i < j < |p| && p[i] == p[j]
  }

  /** Some cycle can be reached from `c`. */
  ghost predicate ReachesCycle<T>(g: map<T, set<T>>, c: T)
  {
    exists p: seq<T> :: IsPath(g, p) && p[0] == c && Repeats(p)
  }

  ghost predicate Acyclic<T>(g: map<T, set<T>>)
  {
    forall c | c in g :: !ReachesCycle(g, c)
  }

  ghost predicate NoDuplicates<T>(s: seq<T>)
  {
    forall i, j | 0 <= i < j < |s| :: s[i] != s[j]
  }

  /** Every node of `order` comes after the nodes of the graph it points at. */
  ghost predicate DependenciesFirst<T>(g: map<T, set<T>>, order: seq<T>)
  {
    && (forall k | 0 <= k < |order| :: order[k] in g)
    && (forall k, d {:trigger d in g[order[k]]} | 0 <= k < |order| && d in g[order[k]] && d in g :: d in order[..k])
  }

  /** A topological order of the whole graph. */
  ghost predicate IsTopological<T>(g: map<T, set<T>>, order: seq<T>)
  {
    && NoDuplicates(order)
    && Elements(order) == g.Keys
    && DependenciesFirst(g, order)
  }

  lemma AppendFresh<T>(s: seq<T>, x: T)
    requires NoDuplicates(s) && x !in s
    ensures NoDuplicates(s + [x]) && Elements(s + [x]) == Elements(s) + {x}
  {
    assert forall y :: y in s + [x] <==> y in s || y == x;
  }

  lemma AppendReady<T>(g: map<T, set<T>>, order: seq<T>, x: T)
    requires DependenciesFirst(g, order)
    requires x in g && forall d | d in g[x] && d in g :: d in order
    ensures DependenciesFirst(g, order + [x])
  {
    var more := order + [x];
    forall k, d | 0 <= k < |more| && more[k] in g && d in g[more[k]] && d in g
      ensures d in more[..k]
    {
      assert more[..k] == order[..k];
      if k < |order| { assert d in g[order[k]]; }
    }
  }

  lemma CardinalityOfElements<T>(s: seq<T>)
    requires NoDuplicates(s)
    ensures |Elements(s)| == |s|
  {
    if s == [] {
    } else {
      var n := |s| - 1;
      CardinalityOfElements(s[..n]);
      assert Elements(s) == Elements(s[..n]) + {s[n]};
      assert s[n] !in Elements(s[..n]);
    }
  }

  lemma SubsetCardinality<T>(a: set<T>, b: set<T>)
    requires a <= b
    ensures |a| <= |b|
    ensures |a| == |b| ==> a == b
  {
    if a == {} {
      if |b| == 0 { assert b == {}; }
    } else {
      var x :| x in a;
      SubsetCardinality(a - {x}, b - {x});
      assert a == a - {x} + {x} && b == b - {x} + {x};
    }
  }

  /** Pigeonhole: a path longer than the graph is large visits a node twice. */
  lemma LongPathRepeats<T>(g: map<T, set<T>>, p: seq<T>)
    requires IsPath(g, p) && |p| > |g|
    ensures Repeats(p)
  {
    if !Repeats(p) {
      assert NoDuplicates(p);
      CardinalityOfElements(p);
      SubsetCardinality(Elements(p), g.Keys);
      assert false;
    }
  }

  /** From a node of a set in which every node points back into the set there
      is a path of any length. */
  lemma StuckPath<T>(g: map<T, set<T>>, stuck: set<T>, c: T, n: nat) returns (p: seq<T>)
    requires stuck <= g.Keys && c in stuck
    requires forall u | u in stuck :: g[u] * stuck != {}
    ensures IsPath(g, p) && p[0] == c && |p| == n + 1
    ensures forall x | x in p :: x in stuck
  {
    p := [c];
    while |p| < n + 1
      invariant IsPath(g, p) && p[0] == c && |p| <= n + 1
      invariant forall x | x in p :: x in stuck
    {
      var u := p[|p| - 1];
      assert u in stuck;
      var d :| d in g[u] * stuck;
      p := p + [d];
    }
  }

  /** Nodes that a sweep can never eliminate reach a cycle. */
  lemma StuckReachesCycle<T>(g: map<T, set<T>>, stuck: set<T>, c: T)
    requires stuck <= g.Keys && c in stuck
    requires forall u | u in stuck :: g[u] * stuck != {}
    ensures ReachesCycle(g, c)
  {
    var p := StuckPath(g, stuck, c, |g|);
    LongPathRepeats(g, p);
  }

  /** A path that starts inside a prefix of a dependencies-first order stays
      strictly to the left of where it was. */
  lemma PathDescends<T>(g: map<T, set<T>>, order: seq<T>, p: seq<T>, k: nat, i: nat, j: nat)
    requires NoDuplicates(order) && DependenciesFirst(g, order)
    requires IsPath(g, p) && i < j < |p|
    requires k < |order| && order[k] == p[i]
    ensures p[j] in order[..k]
    decreases j - i
  {
    assert p[i + 1] in g[p[i]];
    assert p[i + 1] in order[..k];
    if i + 1 < j {
      var m :| 0 <= m < k && order[m] == p[i + 1];
      PathDescends(g, order, p, m, i + 1, j);
      assert order[..m] <= order[..k];
    }
  }

  /** Nodes listed in a dependencies-first order reach no cycle. */
  lemma OrderedReachesNoCycle<T>(g: map<T, set<T>>, order: seq<T>, c: T)
    requires NoDuplicates(order) && DependenciesFirst(g, order)
    requires c in order
    ensures !ReachesCycle(g, c)
  {
    forall p: seq<T> | IsPath(g, p) && p[0] == c
      ensures !Repeats(p)
    {
      forall i, j | 0 <= i < j < |p|
        ensures p[i] != p[j]
      {
        var k0 :| 0 <= k0 < |order| && order[k0] == p[0];
        if i > 0 { PathDescends(g, order, p, k0, 0, i); }
        var k :| 0 <= k < |order| && order[k] == p[i];
        PathDescends(g, order, p, k, i, j);
      }
    }
  }

  /** A topological order exists only for an acyclic graph. */
  lemma TopologicalIsAcyclic<T>(g: map<T, set<T>>, order: seq<T>)
    requires IsTopological(g, order)
    ensures Acyclic(g)
  {
    forall c | c in g
      ensures !ReachesCycle(g, c)
    {
      assert c in Elements(order);
      OrderedReachesNoCycle(g, order, c);
    }
  }

  lemma OccursOnce<T>(s: seq<T>, x: T)
    requires NoDuplicates(s)
    ensures multiset(s)[x] <= 1
  {
    if k :| 0 <= k < |s| && s[k] == x {
      assert s == s[..k] + [x] + s[k + 1..];
      assert x !in s[..k] && x !in s[k + 1..];
    }
  }

  /** Rearranging a vector without duplicates. */
  lemma Rearranged<T>(a: seq<T>, b: seq<T>)
    requires multiset(a) == multiset(b) && NoDuplicates(a)
    ensures NoDuplicates(b) && Elements(a) == Elements(b) && |a| == |b|
  {
    forall i, j | 0 <= i < j < |b|
      ensures b[i] != b[j]
    {
      if b[i] == b[j] {
        assert b == b[..j] + b[j..];
        assert b[i] in b[..j] && b[j] in b[j..];
        OccursOnce(a, b[i]);
        assert false;
      }
    }
    assert forall x :: x in a <==> x in multiset(a);
    assert forall x :: x in b <==> x in multiset(b);
    assert |multiset(a)| == |a| && |multiset(b)| == |b|;
  }
}
