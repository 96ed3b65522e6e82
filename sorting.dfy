/**
 * The two orderings of the handlers and the in-memory engine: the nested swap
 * loop of memory.go's ListReviews, and `sort.SliceStable` as products.go's
 * AdminList uses it, with a rank pair compared lexicographically.
 */
module Sorting {

  predicate NonIncreasing<T>(s: seq<T>, key: T -> int)
  {
    forall i, j :: 0 <= i < j < |s| ==> key(s[i]) >= key(s[j])
  }

  /**
   * For each position i, compares a[i] with every later element and swaps
   * whenever the later one has the larger key, so the largest remaining key
   * lands at i.
   */
  method ExchangeSortDesc<T>(a: array<T>, key: T -> int)
    modifies a
    ensures NonIncreasing(a[..], key)
    ensures multiset(a[..]) == multiset(old(a[..]))
  {
    var i := 0;
    while i + 1 < a.Length
      invariant 0 <= i <= a.Length
      invariant forall p, q :: 0 <= p < i && p < q < a.Length ==> key(a[p]) >= key(a[q])
      invariant multiset(a[..]) == multiset(old(a[..]))
    {
      var j := i + 1;
      while j < a.Length
        invariant i + 1 <= j <= a.Length
        invariant forall p, q :: 0 <= p < i && p < q < a.Length ==> key(a[p]) >= key(a[q])
        invariant forall q :: i < q < j ==> key(a[i]) >= key(a[q])
        invariant multiset(a[..]) == multiset(old(a[..]))
      {
        if key(a[i]) < key(a[j]) {
          a[i], a[j] := a[j], a[i];
        }
        j := j + 1;
      }
      i := i + 1;
    }
  }

  /** Lexicographic "strictly greater" on rank pairs. */
  predicate RankAbove(x: (int, int), y: (int, int))
  {
    x.0 > y.0 || (x.0 == y.0 && x.1 > y.1)
  }

  /**
   * Index i comes before index j in a stable sort by descending rank: a higher
   * rank first, and equal ranks in their original order.
   */
  predicate Precedes(ranks: seq<(int, int)>, i: int, j: int)
  {
    0 <= i < |ranks| && 0 <= j < |ranks|
    && (RankAbove(ranks[i], ranks[j]) || (ranks[i] == ranks[j] && i < j))
  }

  /** `p` lists every index of `ranks` once, in stable descending order. */
  predicate StableOrder(ranks: seq<(int, int)>, p: seq<int>)
  {
    |p| == |ranks|
    && (forall i :: 0 <= i < |p| ==> 0 <= p[i] < |ranks|)
    && (forall x :: 0 <= x < |ranks| ==> x in p)
    && (forall i, j :: 0 <= i < j < |p| ==> Precedes(ranks, p[i], p[j]))
  }

  /** `p` lists the indices 0..k-1 of `ranks` once each, in stable descending order. */
  predicate SortedUpTo(ranks: seq<(int, int)>, p: seq<int>, k: int)
  {
    0 <= k <= |ranks| && |p| == k
    && (forall x :: 0 <= x < k ==> x in p)
    && (forall i :: 0 <= i < |p| ==> 0 <= p[i] < k)
    && (forall i, j :: 0 <= i < j < |p| ==> Precedes(ranks, p[i], p[j]))
  }

  /**
   * sort.SliceStable by descending rank, computed on indices: each index is
   * inserted after every earlier one whose rank is not below its own.
   */
  method StableSortDesc(ranks: seq<(int, int)>) returns (p: seq<int>)
    ensures StableOrder(ranks, p)
  {
    p := [];
    var k := 0;
    while k < |ranks|
      invariant SortedUpTo(ranks, p, k)
    {
      var pos := 0;
      while pos < |p| && !RankAbove(ranks[k], ranks[p[pos]])
        invariant 0 <= pos <= |p|
        invariant forall i :: 0 <= i < pos ==> !RankAbove(ranks[k], ranks[p[i]])
      {
        pos := pos + 1;
      }
      InsertKeepsOrder(ranks, p, k, pos);
      p := p[..pos] + [k] + p[pos..];
      k := k + 1;
    }
  }

  lemma InsertKeepsOrder(ranks: seq<(int, int)>, p: seq<int>, k: int, pos: int)
    requires SortedUpTo(ranks, p, k) && k < |ranks| && 0 <= pos <= |p|
    requires forall i :: 0 <= i < pos ==> !RankAbove(ranks[k], ranks[p[i]])
    requires pos < |p| ==> RankAbove(ranks[k], ranks[p[pos]])
    ensures SortedUpTo(ranks, p[..pos] + [k] + p[pos..], k + 1)
  {
    var p' := p[..pos] + [k] + p[pos..];
    assert forall i :: 0 <= i < pos ==> p'[i] == p[i];
    assert p'[pos] == k;
    assert forall i :: pos < i < |p'| ==> p'[i] == p[i - 1];
    forall x | 0 <= x < k + 1
      ensures x in p'
    {
      if x < k {
        assert x in p;
        var m :| 0 <= m < |p| && p[m] == x;
        if m < pos {
          assert p'[m] == x;
        } else {
          assert p'[m + 1] == x;
        }
      }
    }
    forall i, j | 0 <= i < j < |p'|
      ensures Precedes(ranks, p'[i], p'[j])
    {
      if j == pos {
        assert !RankAbove(ranks[k], ranks[p[i]]);
      } else if i == pos {
        assert Precedes(ranks, p[pos], p[j - 1]) || pos == j - 1;
      }
    }
  }

  /** Only one sequence is in stable order, so any stable sort yields this one. */
  lemma StableOrderUnique(ranks: seq<(int, int)>, p: seq<int>, q: seq<int>)
    requires StableOrder(ranks, p) && StableOrder(ranks, q)
    ensures p == q
  {
    forall i | 0 <= i < |p|
      ensures p[i] == q[i]
    {
      SamePrefix(ranks, p, q, i + 1);
      assert p[..i + 1][i] == p[i];
    }
  }

  lemma StableOrderDistinct(ranks: seq<(int, int)>, p: seq<int>)
    requires StableOrder(ranks, p)
    ensures forall a, b :: 0 <= a < b < |p| ==> p[a] != p[b]
  {
  }

  lemma {:induction false} SamePrefix(ranks: seq<(int, int)>, p: seq<int>, q: seq<int>, n: nat)
    requires StableOrder(ranks, p) && StableOrder(ranks, q) && n <= |p|
    ensures p[..n] == q[..n]
  {
    if n > 0 {
      var i := n - 1;
      SamePrefix(ranks, p, q, i);
      assert forall m :: 0 <= m < i ==> p[m] == p[..i][m] == q[..i][m] == q[m];
      assert Precedes(ranks, p[0], p[0]) == false;
      assert p[i] in q && q[i] in p;
      var j :| 0 <= j < |q| && q[j] == p[i];
      var j' :| 0 <= j' < |p| && p[j'] == q[i];
      StableOrderDistinct(ranks, p);
      StableOrderDistinct(ranks, q);
      assert j >= i && j' >= i;
      assert j == i || j' == i;
      assert p[..n] == p[..i] + [p[i]];
      assert q[..n] == q[..i] + [q[i]];
    }
  }
}
