/**
 Ordering discovered vertices by pagerank, highest first. The ranking is a comparison
 sort with the comparator "x before y when x's pagerank is greater"; only the order
 between different pageranks is determined by it.
 */
module Ranking {
  import opened Graph

  predicate Distinct(s: seq<int>) {
    forall i, j :: 0 <= i < j < |s| ==> s[i] != s[j]
  }

  predicate AllVertices(vs: seq<Vertex>, s: seq<int>) {
    forall i :: 0 <= i < |s| ==> IsVertex(vs, s[i])
  }

  function Pagerank(vs: seq<Vertex>, v: int): real
    requires IsVertex(vs, v)
  {
    vs[v].pagerank
  }

  /** Every vertex of `s` ranks no lower than every vertex after it. */
  predicate NonIncreasing(vs: seq<Vertex>, s: seq<int>)
    requires AllVertices(vs, s)
  {
    forall i, j :: 0 <= i < j < |s| ==> Pagerank(vs, s[i]) >= Pagerank(vs, s[j])
  }

  /** The comparator `getTopNodes` sorts with, as written: `x` goes first (-1) when it
      ranks strictly higher, and after (1) in every other case, ties included. */
  function RankComparatorAsWritten(vs: seq<Vertex>, x: int, y: int): (r: int)
    requires IsVertex(vs, x) && IsVertex(vs, y)
    ensures r == -1 || r == 1
    ensures r < 0 <==> Pagerank(vs, x) > Pagerank(vs, y)
  {
    if Pagerank(vs, x) > Pagerank(vs, y) then -1 else 1
  }

  /** Two distinct vertices of equal pagerank each sort after the other, so the sign of
      the comparison does not flip when the arguments are swapped, which a Java
      `Comparator` must guarantee. */
  lemma TiesBreakComparatorContract()
    ensures var vs := [Vertex(0, 0.0, 0.0, 0.5, []), Vertex(1, 0.0, 0.0, 0.5, [])];
            RankComparatorAsWritten(vs, 0, 1) == 1 && RankComparatorAsWritten(vs, 1, 0) == 1
  {
    var vs := [Vertex(0, 0.0, 0.0, 0.5, []), Vertex(1, 0.0, 0.0, 0.5, [])];
    assert Pagerank(vs, 0) == Pagerank(vs, 1);
  }

  /** The comparator as evidently intended: higher pagerank first, ties equal. */
  function RankCompare(vs: seq<Vertex>, x: int, y: int): (r: int)
    requires IsVertex(vs, x) && IsVertex(vs, y)
    ensures r < 0 <==> Pagerank(vs, x) > Pagerank(vs, y)
    ensures r == 0 <==> Pagerank(vs, x) == Pagerank(vs, y)
    ensures r > 0 <==> Pagerank(vs, x) < Pagerank(vs, y)
  {
    if Pagerank(vs, x) > Pagerank(vs, y) then -1
    else if Pagerank(vs, x) < Pagerank(vs, y) then 1
    else 0
  }

  /** The intended comparator meets the `Comparator` contract: swapping the arguments
      flips the sign, and it is transitive. */
  lemma RankCompareIsConsistent(vs: seq<Vertex>, x: int, y: int, z: int)
    requires IsVertex(vs, x) && IsVertex(vs, y) && IsVertex(vs, z)
    ensures RankCompare(vs, x, y) == -RankCompare(vs, y, x)
    ensures RankCompare(vs, x, y) <= 0 && RankCompare(vs, y, z) <= 0 ==> RankCompare(vs, x, z) <= 0
  {
  }

  /** A list is ranked exactly when no element compares after a later one under the
      intended comparator. */
  lemma NonIncreasingIsRankOrder(vs: seq<Vertex>, s: seq<int>)
    requires AllVertices(vs, s)
    ensures NonIncreasing(vs, s) <==> forall i, j :: 0 <= i < j < |s| ==> RankCompare(vs, s[i], s[j]) <= 0
  {
  }

  /** Places `x` in the ranked list `s` just before the first vertex that does not
      compare before it. */
  function Insert(vs: seq<Vertex>, x: int, s: seq<int>): (r: seq<int>)
    requires IsVertex(vs, x) && AllVertices(vs, s) && NonIncreasing(vs, s)
    ensures multiset(r) == multiset(s) + multiset{x}
    ensures AllVertices(vs, r) && NonIncreasing(vs, r)
    ensures |r| == |s| + 1
  {
    if s == [] then [x]
    else if RankCompare(vs, s[0], x) < 0 then
      var rest := Insert(vs, x, s[1..]);
      HeadOutranks(vs, x, s, rest);
      RankedCons(vs, s[0], rest);
      [s[0]] + rest
    else
      RankedCons(vs, x, s);
      [x] + s
  }

  /** A vertex ranking no lower than every element of a ranked list may head it. */
  lemma RankedCons(vs: seq<Vertex>, h: int, t: seq<int>)
    requires IsVertex(vs, h) && AllVertices(vs, t) && NonIncreasing(vs, t)
    requires forall k :: 0 <= k < |t| ==> Pagerank(vs, h) >= Pagerank(vs, t[k])
    ensures AllVertices(vs, [h] + t) && NonIncreasing(vs, [h] + t)
  {
    var r := [h] + t;
    forall i, j | 0 <= i < j < |r|
      ensures Pagerank(vs, r[i]) >= Pagerank(vs, r[j])
    {
      assert r[j] == t[j - 1];
      if i > 0 {
        assert r[i] == t[i - 1];
      }
    }
  }

  /** The head of a ranked list outranks every element of a rearrangement of its tail
      with a lower-ranked `x` added. */
  lemma HeadOutranks(vs: seq<Vertex>, x: int, s: seq<int>, rest: seq<int>)
    requires IsVertex(vs, x) && AllVertices(vs, s) && NonIncreasing(vs, s) && s != []
    requires Pagerank(vs, s[0]) > Pagerank(vs, x)
    requires AllVertices(vs, rest) && multiset(rest) == multiset(s[1..]) + multiset{x}
    ensures multiset([s[0]] + rest) == multiset(s) + multiset{x}
    ensures forall k :: 0 <= k < |rest| ==> Pagerank(vs, s[0]) >= Pagerank(vs, rest[k])
  {
    assert s == [s[0]] + s[1..];
    forall k | 0 <= k < |rest|
      ensures Pagerank(vs, s[0]) >= Pagerank(vs, rest[k])
    {
      assert rest[k] in multiset(rest);
      if rest[k] != x {
        assert rest[k] in multiset(s[1..]);
        var m :| 0 <= m < |s[1..]| && s[1..][m] == rest[k];
        assert s[m + 1] == rest[k];
      }
    }
  }

  /** Insertion sort by pagerank, highest first. */
  function SortByPagerank(vs: seq<Vertex>, s: seq<int>): (r: seq<int>)
    requires AllVertices(vs, s)
    ensures multiset(r) == multiset(s)
    ensures AllVertices(vs, r) && NonIncreasing(vs, r)
  {
    if s == [] then []
    else
      assert s == [s[0]] + s[1..];
      Insert(vs, s[0], SortByPagerank(vs, s[1..]))
  }

  /** In a list without repetitions every element occurs once. */
  lemma {:induction false} DistinctOnce(s: seq<int>)
    requires Distinct(s)
    ensures forall x :: multiset(s)[x] <= 1
  {
    if s != [] {
      DistinctOnce(s[1..]);
      assert s == [s[0]] + s[1..];
      assert s[0] !in s[1..];
    }
  }

  /** Two equal entries of `t` make their value occur at least twice. */
  lemma RepeatCounts(t: seq<int>, i: int, j: int)
    requires 0 <= i < j < |t| && t[i] == t[j]
    ensures multiset(t)[t[i]] >= 2
  {
    assert t == t[..j] + t[j..];
    assert t[i] in t[..j];
    assert t[j..] == [t[j]] + t[j + 1..];
  }

  /** A rearrangement of a list without repetitions has none either. */
  lemma PermutationKeepsDistinct(s: seq<int>, t: seq<int>)
    requires multiset(s) == multiset(t) && Distinct(s)
    ensures Distinct(t)
  {
    DistinctOnce(s);
    forall i, j | 0 <= i < j < |t|
      ensures t[i] != t[j]
    {
      if t[i] == t[j] {
        RepeatCounts(t, i, j);
        assert false;
      }
    }
  }
}
