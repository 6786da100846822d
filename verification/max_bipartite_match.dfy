/** Maximum bipartite matching by augmenting paths, every left node tried once. */
module MaxBipartiteMatching {
  import opened SetCounting
  import opened BipartiteGraphs
  import opened MatchMatrices

  /** Marks a node without partner. */
  const UNUSED: int := -1

  /** left and right refer to each other along edges of g, except that right node `hole`
      (when there is one) has no left node pointing to it, whatever right says of it. */
  ghost predicate Linked(g: Graph, left: seq<int>, right: seq<int>, hole: int) {
    && |left| == g.lhs && |right| == g.rhs
    && (forall l :: 0 <= l < |left| && left[l] != UNUSED ==>
          && 0 <= left[l] < |right| && left[l] != hole
          && right[left[l]] == l
          && (l, left[l]) in g.edges)
    && (forall r :: 0 <= r < |right| && r != hole && right[r] != UNUSED ==>
          0 <= right[r] < |left| && left[right[r]] == r)
  }

  /** The matching held in left. */
  ghost function Pairs(left: seq<int>): set<Edge> {
    set l: nat | l < |left| && left[l] >= 0 :: (l, left[l])
  }

  ghost predicate SeenAll(seen: seq<bool>, g: Graph, l: int) {
    forall r: nat :: r < |seen| && l >= 0 && (l, r) in g.edges ==> seen[r]
  }

  ghost function Unseen(seen: seq<bool>): set<nat> {
    set r: nat | r < |seen| && !seen[r]
  }

  /** Every right node in `now` but not in `before` is matched, to a left node whose
      neighbours are all in `now`. */
  ghost predicate DeadEnds(g: Graph, right: seq<int>, before: seq<bool>, now: seq<bool>) {
    && |before| == |now| == |right| == g.rhs
    && (forall r :: 0 <= r < |now| && before[r] ==> now[r])
    && (forall r :: 0 <= r < |now| && now[r] && !before[r] ==>
          right[r] != UNUSED && SeenAll(now, g, right[r]))
  }

  /** A path from ilhs to an unmatched right node has been flipped: ilhs is matched, every
      other left node is matched exactly when it was before, the partners seen before the
      search are kept, and only the right node that ilhs gave up is left dangling. */
  ghost predicate Augmented(g: Graph, left: seq<int>, seen: seq<bool>, left': seq<int>, right': seq<int>, ilhs: nat) {
    && |left| == |left'| && |seen| == |right'| && ilhs < |left|
    && Linked(g, left', right', left[ilhs])
    && left'[ilhs] != UNUSED
    && (forall l :: 0 <= l < |left| && l != ilhs ==> (left'[l] == UNUSED <==> left[l] == UNUSED))
    && (forall l :: 0 <= l < |left| && l != ilhs && 0 <= left[l] < |seen| && seen[left[l]] ==> left'[l] == left[l])
  }

  lemma PairsMatch(g: Graph, left: seq<int>, right: seq<int>)
    requires g.Valid() && Linked(g, left, right, UNUSED)
    ensures IsMatching(g, Pairs(left))
  {
  }

  /** One step of the search succeeds: right node irhs is free, or its partner has been
      moved elsewhere. Linking ilhs to irhs then augments the matching. */
  lemma LinkAugments(g: Graph, left: seq<int>, right: seq<int>, before: seq<bool>, now: seq<bool>,
                     left': seq<int>, right': seq<int>, ilhs: nat, irhs: nat)
    requires Linked(g, left, right, UNUSED) && ilhs < |left| && irhs < |right|
    requires |before| == |now| == |right| && forall r :: 0 <= r < |now| && before[r] ==> now[r]
    requires left[ilhs] == UNUSED || before[left[ilhs]]
    requires (ilhs, irhs) in g.edges && !now[irhs]
    requires if right[irhs] == UNUSED then left' == left && right' == right
             else Augmented(g, left, now[irhs := true], left', right', right[irhs])
    ensures |left'| == |left| && |right'| == |right|
    ensures Augmented(g, left, before, left'[ilhs := irhs], right'[irhs := ilhs], ilhs)
  {
  }

  lemma DeadEndsGrow(g: Graph, right: seq<int>, before: seq<bool>, now: seq<bool>, later: seq<bool>, irhs: nat)
    requires DeadEnds(g, right, before, now) && irhs < |now| && right[irhs] != UNUSED
    requires DeadEnds(g, right, now[irhs := true], later) && SeenAll(later, g, right[irhs])
    ensures DeadEnds(g, right, before, later)
  {
    forall r | 0 <= r < |later| && later[r] && !before[r]
      ensures right[r] != UNUSED && SeenAll(later, g, right[r])
    {
      if now[r] {
        assert SeenAll(now, g, right[r]);
      }
    }
  }

  lemma FewerUnseen(before: seq<bool>, now: seq<bool>, irhs: nat)
    requires |before| == |now| && irhs < |now| && !now[irhs]
    requires forall r :: 0 <= r < |now| && before[r] ==> now[r]
    ensures Unseen(now[irhs := true]) < Unseen(before)
  {
    assert irhs in Unseen(before) && irhs !in Unseen(now[irhs := true]);
  }

  lemma OneMorePair(before: seq<int>, after: seq<int>, ilhs: nat)
    requires |before| == |after| && ilhs < |before|
    requires before[ilhs] < 0 <= after[ilhs]
    requires forall l :: 0 <= l < |before| && l != ilhs ==> (before[l] >= 0 <==> after[l] >= 0)
    ensures |Pairs(after)| == |Pairs(before)| + 1
  {
    LeftsOfPairs(before);
    LeftsOfPairs(after);
    assert MatchedLefts(after) == MatchedLefts(before) + {ilhs};
  }

  ghost function MatchedLefts(left: seq<int>): set<nat> {
    set l: nat | l < |left| && left[l] >= 0
  }

  lemma LeftsOfPairs(left: seq<int>)
    ensures |Pairs(left)| == |MatchedLefts(left)|
  {
    LeftsCount(Pairs(left));
    assert Lefts(Pairs(left)) == MatchedLefts(left) by {
      forall l: nat | l in MatchedLefts(left)
        ensures l in Lefts(Pairs(left))
      {
        assert (l, left[l]) in Pairs(left);
      }
    }
  }

  lemma {:induction false} LeftsCount(m: set<Edge>)
    requires forall e, f :: e in m && f in m && e.0 == f.0 ==> e == f
    ensures |Lefts(m)| == |m|
  {
    if m != {} {
      var e :| e in m;
      LeftsCount(m - {e});
      assert Lefts(m) == Lefts(m - {e}) + {e.0};
    }
  }

  /** The search from ilhs failed with everything unseen at its start. */
  lemma FailureIsDeadEnd(g: Graph, left: seq<int>, right: seq<int>, seen: seq<bool>, ilhs: nat)
    requires g.Valid() && Linked(g, left, right, UNUSED)
    requires DeadEnds(g, right, seq(|right|, _ => false), seen) && SeenAll(seen, g, ilhs)
    ensures IsDeadEnd(g, ilhs, Pairs(left), set r: nat | r < |seen| && seen[r])
  {
    forall r: nat | r < |seen| && seen[r]
      ensures r in Rights(Pairs(left))
    {
      assert (right[r], left[right[r]]) in Pairs(left);
    }
    forall e, f | e in Pairs(left) && seen[e.1] && f in g.edges && f.0 == e.0
      ensures seen[f.1]
    {
      assert SeenAll(seen, g, right[e.1]);
    }
  }

  /** One round of Compute keeps the matching maximum for the left nodes tried so far. */
  lemma RoundKeepsMaximum(g: Graph, left: seq<int>, right: seq<int>, left': seq<int>, right': seq<int>,
                          seen: seq<bool>, ilhs: nat, found: bool)
    requires g.Valid() && Linked(g, left, right, UNUSED) && ilhs < g.lhs
    requires forall l :: ilhs <= l < |left| ==> left[l] == UNUSED
    requires IsMaximum(g.Below(ilhs), Pairs(left))
    requires found ==> Augmented(g, left, seq(|right|, _ => false), left', right', ilhs)
    requires !found ==> left' == left && DeadEnds(g, right, seq(|right|, _ => false), seen) && SeenAll(seen, g, ilhs)
    ensures IsMaximum(g.Below(ilhs + 1), Pairs(left'))
  {
    if found {
      PairsMatch(g, left', right');
      OneMorePair(left, left', ilhs);
      assert Pairs(left') <= g.Below(ilhs + 1).edges;
      OneMoreIsMaximum(g, ilhs, Pairs(left), Pairs(left'));
    } else {
      FailureIsDeadEnd(g, left, right, seen, ilhs);
      DeadEndKeepsMaximum(g, ilhs, Pairs(left), set r: nat | r < |seen| && seen[r]);
    }
  }

  class MaxBipartiteMatchState {
    const graph: MatchMatrix
    const left: array<int>
    const right: array<int>

    ghost predicate Valid()
      reads graph.matched, left, right
    {
      && graph.Valid()
      && left != right
      && Linked(graph.AsGraph(), left[..], right[..], UNUSED)
    }

    constructor (graph: MatchMatrix)
      requires graph.Valid()
      ensures Valid() && fresh(left) && fresh(right)
      ensures this.graph == graph
      ensures left[..] == seq(graph.numElements, _ => UNUSED)
    {
      this.graph := graph;
      left := new int[graph.numElements](_ => UNUSED);
      right := new int[graph.numMatchers](_ => UNUSED);
    }

    /** Looks for a free right node along alternating edges, starting at left node ilhs, and makes
        the edges on the way swap roles if there is one. Otherwise only `seen` has changed, and
        what was newly seen is a dead end. */
    method TryAugment(ilhs: nat, seen: array<bool>) returns (found: bool)
      requires Valid() && ilhs < left.Length
      requires seen != graph.matched && seen.Length == right.Length
      requires left[ilhs] == UNUSED || seen[left[ilhs]]
      modifies left, right, seen
      ensures found ==> Augmented(graph.AsGraph(), old(left[..]), old(seen[..]), left[..], right[..], ilhs)
      ensures !found ==> left[..] == old(left[..]) && right[..] == old(right[..])
      ensures !found ==> SeenAll(seen[..], graph.AsGraph(), ilhs)
      ensures !found ==> DeadEnds(graph.AsGraph(), right[..], old(seen[..]), seen[..])
      decreases Unseen(seen[..])
    {
      ghost var g, left0, right0, seen0 := graph.AsGraph(), left[..], right[..], seen[..];
      for irhs := 0 to graph.numMatchers
        invariant left[..] == left0 && right[..] == right0
        invariant DeadEnds(g, right0, seen0, seen[..])
        invariant forall r: nat :: r < irhs && (ilhs, r) in g.edges ==> seen[r]
      {
        if seen[irhs] {
          continue;
        }
        if !graph.HasEdge(ilhs, irhs) {
          continue;
        }
        ghost var now := seen[..];
        seen[irhs] := true;
        assert seen[..] == now[irhs := true];
        FewerUnseen(seen0, now, irhs);
        var free := right[irhs] == UNUSED;
        if !free {
          free := TryAugment(right[irhs], seen);
        }
        if free {
          ghost var left1, right1 := left[..], right[..];
          left[ilhs] := irhs;
          right[irhs] := ilhs;
          assert left[..] == left1[ilhs := irhs] && right[..] == right1[irhs := ilhs];
          LinkAugments(g, left0, right0, seen0, now, left1, right1, ilhs, irhs);
          return true;
        }
        DeadEndsGrow(g, right0, seen0, now, seen[..], irhs);
      }
      return false;
    }

    /** The edges of a maximum matching, in the order of their left ends. */
    method Compute() returns (result: seq<Edge>)
      requires Valid() && left[..] == seq(graph.numElements, _ => UNUSED)
      modifies left, right
      ensures IsMaximum(graph.AsGraph(), set e | e in result)
      ensures forall i, j :: 0 <= i < j < |result| ==> result[i].0 < result[j].0
    {
      ghost var g := graph.AsGraph();
      assert g.Below(0).edges == {};
      assert Pairs(left[..]) == {};
      for ilhs := 0 to graph.numElements
        invariant Valid() && g == graph.AsGraph()
        invariant forall l :: ilhs <= l < left.Length ==> left[l] == UNUSED
        invariant IsMaximum(g.Below(ilhs), Pairs(left[..]))
      {
        // The check in the loop head never fires.
        assert left[ilhs] == UNUSED;
        Round(ilhs);
      }
      assert g.Below(graph.numElements) == g;
      result := Collect();
    }

    /** Tries left node ilhs, the first one not tried yet. */
    method Round(ilhs: nat)
      requires Valid() && ilhs < left.Length
      requires forall l :: ilhs <= l < left.Length ==> left[l] == UNUSED
      requires IsMaximum(graph.AsGraph().Below(ilhs), Pairs(left[..]))
      modifies left, right
      ensures Valid()
      ensures forall l :: ilhs < l < left.Length ==> left[l] == UNUSED
      ensures IsMaximum(graph.AsGraph().Below(ilhs + 1), Pairs(left[..]))
    {
      ghost var g := graph.AsGraph();
      var seen := new bool[graph.numMatchers](_ => false);
      ghost var left0, right0 := left[..], right[..];
      assert seen[..] == seq(|right0|, _ => false);
      var found := TryAugment(ilhs, seen);
      RoundKeepsMaximum(g, left0, right0, left[..], right[..], seen[..], ilhs, found);
    }

    /** Lists the matched pairs. */
    method Collect() returns (result: seq<Edge>)
      requires Valid()
      ensures (set e | e in result) == Pairs(left[..])
      ensures forall i, j :: 0 <= i < j < |result| ==> result[i].0 < result[j].0
    {
      result := [];
      for ilhs := 0 to left.Length
        invariant forall e :: e in result <==> e in Pairs(left[..]) && e.0 < ilhs
        invariant forall i, j :: 0 <= i < j < |result| ==> result[i].0 < result[j].0
      {
        if left[ilhs] != UNUSED {
          result := result + [(ilhs, left[ilhs])];
        }
      }
    }
  }

  method FindMaxBipartiteMatching(g: MatchMatrix) returns (result: seq<Edge>)
    requires g.Valid()
    ensures IsMaximum(g.AsGraph(), set e | e in result)
    ensures |result| == |set e | e in result|
  {
    var state := new MaxBipartiteMatchState(g);
    result := state.Compute();
    DistinctCount(result);
  }

  lemma {:induction false} DistinctCount(s: seq<Edge>)
    requires forall i, j :: 0 <= i < j < |s| ==> s[i].0 < s[j].0
    ensures |set e | e in s| == |s|
  {
    if s != [] {
      var n := |s| - 1;
      DistinctCount(s[..n]);
      assert (set e | e in s) == (set e | e in s[..n]) + {s[n]};
    }
  }

  /** Every matcher gets an element of its own that it accepts. */
  ghost predicate IsPairing(g: Graph, element: seq<nat>) {
    && |element| == g.rhs
    && (forall j :: 0 <= j < |element| ==> (element[j], j) in g.edges)
    && (forall i, j :: 0 <= i < j < |element| ==> element[i] != element[j])
  }

  method FindPairing(matrix: MatchMatrix) returns (result: bool)
    requires matrix.Valid()
    ensures result <==> exists element :: IsPairing(matrix.AsGraph(), element)
  {
    var matches := FindMaxBipartiteMatching(matrix);
    result := |matches| == matrix.numMatchers;
    PerfectMatchingIsPairing(matrix.AsGraph(), set e | e in matches);
  }

  lemma PerfectMatchingIsPairing(g: Graph, m: set<Edge>)
    requires g.Valid() && IsMaximum(g, m)
    ensures |m| == g.rhs <==> exists element :: IsPairing(g, element)
  {
    RightsCount(m);
    RightsAmong(g, m);
    if |m| == g.rhs {
      FullSubset(Rights(m), UpTo(g.rhs));
      var element := PairingOf(g, m, g.rhs);
      assert IsPairing(g, element);
    }
    if element :| IsPairing(g, element) {
      PairingIsMatching(g, element);
      SubsetCount(Rights(m), UpTo(g.rhs));
    }
  }

  lemma RightsAmong(g: Graph, m: set<Edge>)
    requires g.Valid() && IsMatching(g, m)
    ensures Rights(m) <= UpTo(g.rhs)
  {
  }

  ghost function EdgesOf(element: seq<nat>): set<Edge> {
    set j: nat | j < |element| :: (element[j], j)
  }

  lemma RightsOfPairing(element: seq<nat>)
    ensures Rights(EdgesOf(element)) == UpTo(|element|)
  {
    forall j | j in UpTo(|element|)
      ensures j in Rights(EdgesOf(element))
    {
      assert (element[j], j) in EdgesOf(element);
    }
  }

  lemma PairingIsMatching(g: Graph, element: seq<nat>)
    requires g.Valid() && IsPairing(g, element)
    ensures IsMatching(g, EdgesOf(element)) && |EdgesOf(element)| == g.rhs
  {
    RightsOfPairing(element);
    RightsCount(EdgesOf(element));
  }

  lemma {:induction false} PairingOf(g: Graph, m: set<Edge>, n: nat) returns (element: seq<nat>)
    requires IsMatching(g, m) && forall r: nat :: r < n ==> r in Rights(m)
    ensures |element| == n
    ensures forall j :: 0 <= j < n ==> (element[j], j) in m
    ensures forall i, j :: 0 <= i < j < n ==> element[i] != element[j]
  {
    if n == 0 {
      element := [];
    } else {
      element := PairingOf(g, m, n - 1);
      assert n - 1 in Rights(m);
      var e :| e in m && e.1 == n - 1;
      element := element + [e.0];
    }
  }
}
