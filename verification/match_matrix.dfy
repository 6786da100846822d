/** The connectivity matrix handed to the matching search, and the counter that steps
    through every such matrix. */
module MatchMatrices {
  import opened BipartiteGraphs

  lemma IndexInRange(i: nat, j: nat, n: nat, m: nat)
    requires i < n && j < m
    ensures 0 <= i * m + j < n * m
  {
    assert (i + 1) * m <= n * m;
  }

  lemma {:induction false} RowsApart(i: nat, i': nat, m: nat)
    requires i < i'
    ensures i * m + m <= i' * m
  {
    assert i' * m == (i' - 1) * m + m;
    if i < i' - 1 {
      RowsApart(i, i' - 1, m);
    }
  }

  lemma {:induction false} IndexIsUnique(i: nat, j: nat, i': nat, j': nat, m: nat)
    requires j < m && j' < m && i * m + j == i' * m + j'
    ensures i == i' && j == j'
  {
    if i < i' {
      RowsApart(i, i', m);
    } else if i' < i {
      RowsApart(i', i, m);
    }
  }

  // Cells as a binary number, least significant cell first.

  function Pow2(n: nat): (p: nat)
    ensures p > 0
  {
    if n == 0 then 1 else 2 * Pow2(n - 1)
  }

  function Value(cells: seq<bool>): nat {
    if cells == [] then 0 else (if cells[0] then 1 else 0) + 2 * Value(cells[1..])
  }

  /** What NextGraph leaves in the cells. */
  function Increment(cells: seq<bool>): seq<bool> {
    if cells == [] then []
    else if cells[0] then [false] + Increment(cells[1..])
    else [true] + cells[1..]
  }

  /** The k-th matrix, starting from the empty one. */
  function Nth(n: nat, k: nat): seq<bool> {
    if k == 0 then seq(n, _ => false) else Increment(Nth(n, k - 1))
  }

  lemma {:induction false} ValueBelow(cells: seq<bool>)
    ensures Value(cells) < Pow2(|cells|)
  {
    if cells != [] {
      ValueBelow(cells[1..]);
    }
  }

  lemma {:induction false} ValueIsInjective(a: seq<bool>, b: seq<bool>)
    requires |a| == |b| && Value(a) == Value(b)
    ensures a == b
  {
    if a != [] {
      ValueIsInjective(a[1..], b[1..]);
      assert a == [a[0]] + a[1..] && b == [b[0]] + b[1..];
    }
  }

  /** Adds one to the matrix read as a number of |cells| bits, wrapping to zero. */
  lemma {:induction false} IncrementAddsOne(cells: seq<bool>)
    ensures |Increment(cells)| == |cells|
    ensures Value(Increment(cells)) == if Value(cells) + 1 == Pow2(|cells|) then 0 else Value(cells) + 1
  {
    if cells == [] {
    } else if cells[0] {
      IncrementAddsOne(cells[1..]);
      assert Increment(cells)[1..] == Increment(cells[1..]);
    } else {
      ValueBelow(cells[1..]);
      assert Increment(cells)[1..] == cells[1..];
    }
  }

  lemma {:induction false} ZeroValue(cells: seq<bool>)
    ensures Value(cells) == 0 <==> forall k :: 0 <= k < |cells| ==> !cells[k]
  {
    if cells != [] {
      ZeroValue(cells[1..]);
      assert forall k :: 0 < k < |cells| ==> cells[k] == cells[1..][k - 1];
    }
  }

  /** Counting up from the empty matrix meets every matrix, and each of the 2^n first
      steps meets a different one. */
  lemma {:induction false} CountsThroughEveryMatrix(n: nat, k: nat, cells: seq<bool>)
    requires |cells| == n && k < Pow2(n)
    ensures |Nth(n, k)| == n
    ensures Nth(n, k) == cells <==> k == Value(cells)
  {
    NthHasValue(n, k);
    if k == Value(cells) {
      ValueIsInjective(Nth(n, k), cells);
    }
  }

  lemma {:induction false} NthHasValue(n: nat, k: nat)
    requires k < Pow2(n)
    ensures |Nth(n, k)| == n && Value(Nth(n, k)) == k
  {
    if k == 0 {
      ZeroValue(Nth(n, 0));
    } else {
      NthHasValue(n, k - 1);
      IncrementAddsOne(Nth(n, k - 1));
    }
  }

  /** k ones have been cleared and the cell behind them set. */
  lemma {:induction false} IncrementStopsAt(cells: seq<bool>, k: nat)
    requires k < |cells| && !cells[k] && forall j :: 0 <= j < k ==> cells[j]
    ensures Increment(cells) == seq(k, _ => false) + [true] + cells[k + 1..]
  {
    if k > 0 {
      IncrementStopsAt(cells[1..], k - 1);
      assert seq(k, _ => false) == [false] + seq(k - 1, _ => false);
    } else {
      assert seq(0, _ => false) == [];
    }
  }

  lemma {:induction false} IncrementWraps(cells: seq<bool>)
    requires forall j :: 0 <= j < |cells| ==> cells[j]
    ensures Increment(cells) == seq(|cells|, _ => false)
  {
    if cells != [] {
      IncrementWraps(cells[1..]);
    }
  }

  class MatchMatrix {
    const numElements: nat
    const numMatchers: nat
    const matched: array<bool>

    ghost predicate Valid() {
      matched.Length == numElements * numMatchers
    }

    /** The cell of an edge; the matrix is stored row by row. */
    function SpaceIndex(ilhs: nat, irhs: nat): (k: nat)
      requires Valid() && ilhs < numElements && irhs < numMatchers
      ensures k < matched.Length
    {
      IndexInRange(ilhs, irhs, numElements, numMatchers);
      ilhs * numMatchers + irhs
    }

    ghost function AsGraph(): (g: Graph)
      requires Valid()
      reads matched
      ensures g.Valid()
    {
      Graph(numElements, numMatchers,
            set i: nat, j: nat | i < numElements && j < numMatchers && matched[SpaceIndex(i, j)] :: (i, j))
    }

    constructor (numElements: nat, numMatchers: nat)
      ensures Valid() && fresh(matched)
      ensures this.numElements == numElements && this.numMatchers == numMatchers
      ensures AsGraph().edges == {}
    {
      this.numElements := numElements;
      this.numMatchers := numMatchers;
      this.matched := new bool[numElements * numMatchers](_ => false);
    }

    function HasEdge(ilhs: nat, irhs: nat): (b: bool)
      requires Valid() && ilhs < numElements && irhs < numMatchers
      reads matched
      ensures b <==> (ilhs, irhs) in AsGraph().edges
    {
      matched[SpaceIndex(ilhs, irhs)]
    }

    method SetEdge(ilhs: nat, irhs: nat, b: bool)
      requires Valid() && ilhs < numElements && irhs < numMatchers
      modifies matched
      ensures AsGraph().edges ==
              if b then old(AsGraph().edges) + {(ilhs, irhs)} else old(AsGraph().edges) - {(ilhs, irhs)}
    {
      matched[SpaceIndex(ilhs, irhs)] := b;
      forall i: nat, j: nat | i < numElements && j < numMatchers && SpaceIndex(i, j) == SpaceIndex(ilhs, irhs)
        ensures i == ilhs && j == irhs
      {
        IndexIsUnique(i, j, ilhs, irhs, numMatchers);
      }
    }

    /** Treats the matrix as a binary number and adds one to it. */
    method NextGraph() returns (more: bool)
      requires Valid()
      modifies matched
      ensures matched[..] == Increment(old(matched[..]))
      ensures more <==> Value(matched[..]) != 0
    {
      ghost var was := matched[..];
      ZeroValue(matched[..]);
      for ilhs := 0 to numElements
        invariant 0 <= ilhs * numMatchers <= matched.Length
        invariant Cleared(was, matched[..], ilhs * numMatchers)
      {
        IndexSteps(ilhs, numElements, numMatchers);
        for irhs := 0 to numMatchers
          invariant ilhs * numMatchers + irhs <= matched.Length
          invariant Cleared(was, matched[..], ilhs * numMatchers + irhs)
        {
          var k := SpaceIndex(ilhs, irhs);
          if !matched[k] {
            matched[k] := true;
            IncrementStopsAt(was, k);
            ZeroValue(matched[..]);
            assert matched[..] == seq(k, _ => false) + [true] + was[k + 1..];
            return true;
          }
          matched[k] := false;
        }
      }
      IncrementWraps(was);
      ZeroValue(matched[..]);
      return false;
    }
  }

  /** The first k cells were set and have been cleared; the others are untouched. */
  ghost predicate Cleared(was: seq<bool>, now: seq<bool>, k: nat) {
    && k <= |was| == |now|
    && (forall j :: 0 <= j < k ==> was[j] && !now[j])
    && (forall j :: k <= j < |was| ==> now[j] == was[j])
  }

  lemma IndexSteps(i: nat, n: nat, m: nat)
    requires i < n
    ensures i * m <= n * m && (i + 1) * m == i * m + m && (i + 1) * m <= n * m
  {
  }
}
