/** Bipartite graphs, their matchings, and the two facts that make a search
    which visits every left node only once end with a maximum matching. */
module BipartiteGraphs {
  import opened SetCounting

  type Edge = (nat, nat)

  /** Left nodes are the elements, right nodes the matchers. */
  datatype Graph = Graph(lhs: nat, rhs: nat, edges: set<Edge>) {
    ghost predicate Valid() {
      forall e :: e in edges ==> e.0 < lhs && e.1 < rhs
    }

    /** The graph without the left nodes n, n+1, ... */
    ghost function Below(n: nat): Graph {
      Graph(lhs, rhs, set e | e in edges && e.0 < n)
    }
  }

  /** Two edges that share an end are the same edge. */
  ghost predicate Independent(m: set<Edge>) {
    forall e, f :: e in m && f in m && (e.0 == f.0 || e.1 == f.1) ==> e == f
  }

  ghost predicate IsMatching(g: Graph, m: set<Edge>) {
    m <= g.edges && Independent(m)
  }

  ghost predicate IsMaximum(g: Graph, m: set<Edge>) {
    IsMatching(g, m) && forall n :: IsMatching(g, n) ==> |n| <= |m|
  }

  ghost function Rights(m: set<Edge>): set<nat> {
    set e | e in m :: e.1
  }

  ghost function Lefts(m: set<Edge>): set<nat> {
    set e | e in m :: e.0
  }

  lemma {:induction false} RightsCount(m: set<Edge>)
    requires Independent(m)
    ensures |Rights(m)| == |m|
  {
    if m != {} {
      var e :| e in m;
      RightsCount(m - {e});
      assert Rights(m) == Rights(m - {e}) + {e.1};
    }
  }

  /** A matching has at most one edge per right node in s. */
  lemma InsideCount(m: set<Edge>, s: set<nat>)
    requires Independent(m)
    ensures |set e | e in m && e.1 in s| <= |s|
    ensures s <= Rights(m) ==> |set e | e in m && e.1 in s| == |s|
  {
    var inside := set e | e in m && e.1 in s;
    RightsCount(inside);
    SubsetCount(Rights(inside), s);
    if s <= Rights(m) {
      assert s == Rights(inside);
    }
  }

  /** Exchange: the edges of n that end outside s, and those of m that end in s. */
  lemma ExchangeIsMatching(g: Graph, i: nat, m: set<Edge>, s: set<nat>, n: set<Edge>, outside: set<Edge>, kept: set<Edge>)
    requires IsMatching(g.Below(i), m) && IsMatching(g.Below(i + 1), n)
    requires IsDeadEnd(g, i, m, s)
    requires outside == set e | e in n && e.1 !in s
    requires kept == set e | e in m && e.1 in s
    ensures outside !! kept && IsMatching(g.Below(i), outside + kept)
  {
    forall e | e in outside
      ensures e in g.Below(i).edges
    {
      assert e in g.Below(i + 1).edges;
    }
    forall e, f | e in outside && f in kept
      ensures e.0 != f.0 && e.1 != f.1
    {
      assert f in m && f.1 in s && e in g.edges;
    }
  }

  /** What a failed search from left node i leaves behind: a set s of right nodes, all
      matched, such that node i and the partners of s see nothing outside s. */
  ghost predicate IsDeadEnd(g: Graph, i: nat, m: set<Edge>, s: set<nat>) {
    && s <= Rights(m)
    && (forall e :: e in g.edges && e.0 == i ==> e.1 in s)
    && (forall e, f :: e in m && e.1 in s && f in g.edges && f.0 == e.0 ==> f.1 in s)
  }

  /** x is a matching without left node i that is no smaller than n. */
  lemma Exchange(g: Graph, i: nat, m: set<Edge>, s: set<nat>, n: set<Edge>) returns (x: set<Edge>)
    requires IsMatching(g.Below(i), m) && IsMatching(g.Below(i + 1), n)
    requires IsDeadEnd(g, i, m, s)
    ensures IsMatching(g.Below(i), x) && |n| <= |x|
  {
    var outside := set e | e in n && e.1 !in s;
    var inside := set e | e in n && e.1 in s;
    var kept := set e | e in m && e.1 in s;
    ExchangeIsMatching(g, i, m, s, n, outside, kept);
    x := outside + kept;
    InsideCount(n, s);
    InsideCount(m, s);
    assert n == outside + inside;
    assert |n| == |outside| + |inside|;
  }

  /** Every matching that uses left node i can be exchanged for one at least as large that
      does not, so a failed search never has to be repeated. */
  lemma DeadEndKeepsMaximum(g: Graph, i: nat, m: set<Edge>, s: set<nat>)
    requires IsMaximum(g.Below(i), m)
    requires IsDeadEnd(g, i, m, s)
    ensures IsMaximum(g.Below(i + 1), m)
  {
    assert g.Below(i).edges <= g.Below(i + 1).edges;
    forall n: set<Edge> | IsMatching(g.Below(i + 1), n)
      ensures |n| <= |m|
    {
      var x := Exchange(g, i, m, s, n);
    }
  }

  lemma OneMoreBound(g: Graph, i: nat, m: set<Edge>, n: set<Edge>)
    requires IsMaximum(g.Below(i), m) && IsMatching(g.Below(i + 1), n)
    ensures |n| <= |m| + 1
  {
    var rest := set e | e in n && e.0 != i;
    assert IsMatching(g.Below(i), rest);
    if e :| e in n && e.0 == i {
      assert n == rest + {e};
    } else {
      assert n == rest;
    }
  }

  /** One more left node raises the optimum by at most one. */
  lemma OneMoreIsMaximum(g: Graph, i: nat, m: set<Edge>, m': set<Edge>)
    requires IsMaximum(g.Below(i), m)
    requires IsMatching(g.Below(i + 1), m') && |m'| == |m| + 1
    ensures IsMaximum(g.Below(i + 1), m')
  {
    forall n: set<Edge> | IsMatching(g.Below(i + 1), n)
      ensures |n| <= |m'|
    {
      OneMoreBound(g, i, m, n);
    }
  }
}
