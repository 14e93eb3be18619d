/**
 Destination selection: a breadth-first search from the agent's vertex that stops at
 a hop limit, followed by a ranking of everything it discovered by pagerank, highest
 first, cut down to the best `topM` vertices.
 */
module Destinations {
  import opened Graph
  import opened Ranking

  /** A vertex waiting in the breadth-first queue, with its hop distance from the source. */
  datatype BfsNode = BfsNode(id: int, level: nat)

  /** If `v` is a member of `S`, it occurs in `s`. */
  ghost predicate Covers(s: seq<int>, S: set<int>, v: int) {
    v in S ==> v in s
  }

  /** Every member of `S` occurs in `s`. */
  ghost predicate Within(S: set<int>, s: seq<int>) {
    forall v :: Covers(s, S, v)
  }

  /** The vertices the search is meant to collect: those within `steps` hops of the
      source, or, when `steps` is negative and the hop limit is never met, every
      vertex reachable from it. */
  ghost predicate Candidate(vs: seq<Vertex>, source: int, steps: int, v: int) {
    if steps >= 0 then v in Ball(vs, source, steps) else Reachable(vs, source, v)
  }

  /** The ids of a list of queue entries, in order. */
  function Ids(order: seq<BfsNode>): (r: seq<int>)
    ensures |r| == |order| && forall j :: 0 <= j < |order| ==> r[j] == order[j].id
  {
    seq(|order|, j requires 0 <= j < |order| => order[j].id)
  }

  /** Entry `j` of the discovery list lies exactly `order[j].level` hops from the source. */
  ghost predicate Placed(vs: seq<Vertex>, source: int, order: seq<BfsNode>, j: int)
    requires 0 <= j < |order|
  {
    && order[j].id in Ball(vs, source, order[j].level)
    && (order[j].level > 0 ==> order[j].id !in Ball(vs, source, order[j].level - 1))
  }

  /** Entry `j` of the discovery list is in the discovered set. */
  ghost predicate Recorded(order: seq<BfsNode>, seen: set<int>, j: int)
    requires 0 <= j < |order|
  {
    order[j].id in seen
  }

  /** Entries `i` and `j` name different vertices. */
  ghost predicate Apart(order: seq<BfsNode>, i: int, j: int)
    requires 0 <= i < |order| && 0 <= j < |order|
  {
    order[i].id != order[j].id
  }

  /** Entry `i` is no further from the source than entry `j`. */
  ghost predicate Ordered(order: seq<BfsNode>, i: int, j: int)
    requires 0 <= i < |order| && 0 <= j < |order|
  {
    order[i].level <= order[j].level
  }

  /** The discovery list holds distinct vertices, starts at the source, is sorted by hop
      count (never past `steps` when that is not negative), and matches the `seen` set. */
  ghost predicate WellFormed(vs: seq<Vertex>, source: int, steps: int, order: seq<BfsNode>, seen: set<int>)
  {
    && |order| >= 1 && order[0] == BfsNode(source, 0)
    && (forall j :: 0 <= j < |order| ==> IsVertex(vs, order[j].id))
    && (forall j :: 0 <= j < |order| ==> Recorded(order, seen, j))
    && (forall i, j :: 0 <= i < j < |order| ==> Apart(order, i, j))
    && Within(seen, Ids(order))
    && (forall i, j :: 0 <= i <= j < |order| ==> Ordered(order, i, j))
    && (steps >= 0 ==> forall j :: 0 <= j < |order| ==> order[j].level <= steps)
  }

  /** Every entry lies exactly its recorded hop count away from the source. */
  ghost predicate AllPlaced(vs: seq<Vertex>, source: int, order: seq<BfsNode>) {
    forall j :: 0 <= j < |order| ==> Placed(vs, source, order, j)
  }

  /** The first `e` entries have had all their neighbours discovered. */
  ghost predicate ExpandedUpTo(vs: seq<Vertex>, order: seq<BfsNode>, seen: set<int>, e: int) {
    forall j :: 0 <= j < e && j < |order| ==> NeighboursIn(vs, order[j].id, seen)
  }

  /** What the breadth-first search knows about its discovery list `order` and its set
      `seen` of discovered ids once the first `e` entries have been expanded. */
  ghost predicate Explored(vs: seq<Vertex>, source: int, steps: int, order: seq<BfsNode>,
                           seen: set<int>, e: int)
  {
    && 0 <= e <= |order|
    && WellFormed(vs, source, steps, order, seen)
    && AllPlaced(vs, source, order)
    && ExpandedUpTo(vs, order, seen, e)
  }

  /** The queue `order[h..]` spans at most two consecutive hop counts; every vertex
      within the head's hop count is discovered and every closer one already expanded. */
  ghost predicate HeadReady(vs: seq<Vertex>, source: int, order: seq<BfsNode>, seen: set<int>, h: int)
    requires 0 <= h < |order|
  {
    && (forall j :: h <= j < |order| ==> order[j].level <= order[h].level + 1)
    && Ball(vs, source, order[h].level) <= seen
    && (order[h].level > 0 ==> Within(Ball(vs, source, order[h].level - 1), Ids(order[..h])))
  }

  /** When the head of the queue moves on from hop `L` to hop `L + 1`, every vertex
      of the L-ball has already been expanded, so the (L+1)-ball has been discovered. */
  lemma AdvanceLevel(vs: seq<Vertex>, source: int, steps: int, order: seq<BfsNode>,
                     seen: set<int>, h: int, L: nat)
    requires Explored(vs, source, steps, order, seen, h) && h < |order|
    requires Ball(vs, source, L) <= seen
    requires order[h].level == L + 1
    ensures Within(Ball(vs, source, L), Ids(order[..h]))
    ensures Ball(vs, source, L + 1) <= seen
  {
    forall v
      ensures Covers(Ids(order[..h]), Ball(vs, source, L), v)
    {
      if v in Ball(vs, source, L) {
        assert Covers(Ids(order), seen, v);
        var i :| 0 <= i < |order| && Ids(order)[i] == v;
        if i >= h {
          assert Ordered(order, h, i);
          assert Placed(vs, source, order, i);
          BallGrows(vs, source, L, order[i].level - 1);
          assert false;
        }
        assert Ids(order[..h])[i] == v;
      }
    }
    forall w | w in OneHop(vs, Ball(vs, source, L))
      ensures w in seen
    {
      var v, m :| v in Ball(vs, source, L) && 0 <= v < |vs| && 0 <= m < |vs[v].neighbours|
                  && w == vs[v].neighbours[m];
      assert Covers(Ids(order[..h]), Ball(vs, source, L), v);
      var j :| 0 <= j < h && Ids(order[..h])[j] == v;
      assert order[j].id == v;
      assert NeighboursIn(vs, order[j].id, seen);
    }
  }

  /** Recording a newly seen vertex at hop `L + 1` keeps what the search knows. */
  lemma ExploredAppend(vs: seq<Vertex>, source: int, steps: int, order: seq<BfsNode>,
                       seen: set<int>, e: int, to: int, L: nat)
    requires Explored(vs, source, steps, order, seen, e)
    requires IsVertex(vs, to) && to !in seen
    requires to in Ball(vs, source, L + 1) && to !in Ball(vs, source, L)
    requires forall j :: 0 <= j < |order| ==> order[j].level <= L + 1
    requires steps >= 0 ==> L + 1 <= steps
    ensures Explored(vs, source, steps, order + [BfsNode(to, L + 1)], seen + {to}, e)
  {
    AppendWellFormed(vs, source, steps, order, seen, to, L);
    AppendPlaced(vs, source, order, to, L);
    AppendExpanded(vs, order, seen, e, to, L);
  }

  lemma AppendWellFormed(vs: seq<Vertex>, source: int, steps: int, order: seq<BfsNode>,
                         seen: set<int>, to: int, L: nat)
    requires WellFormed(vs, source, steps, order, seen)
    requires IsVertex(vs, to) && to !in seen
    requires forall j :: 0 <= j < |order| ==> order[j].level <= L + 1
    requires steps >= 0 ==> L + 1 <= steps
    ensures WellFormed(vs, source, steps, order + [BfsNode(to, L + 1)], seen + {to})
  {
    var order', seen' := order + [BfsNode(to, L + 1)], seen + {to};
    forall j | 0 <= j < |order'|
      ensures Recorded(order', seen', j)
    {
      if j < |order| {
        assert Recorded(order, seen, j);
      }
    }
    forall i, j | 0 <= i < j < |order'|
      ensures Apart(order', i, j)
    {
      if j == |order| {
        assert Recorded(order, seen, i);
      } else {
        assert Apart(order, i, j);
      }
    }
    forall i, j | 0 <= i <= j < |order'|
      ensures Ordered(order', i, j)
    {
      if j < |order| {
        assert Ordered(order, i, j);
      }
    }
    forall v
      ensures Covers(Ids(order'), seen', v)
    {
      if v == to {
        assert Ids(order')[|order|] == to;
      } else if v in seen {
        assert Covers(Ids(order), seen, v);
        var k :| 0 <= k < |order| && Ids(order)[k] == v;
        assert Ids(order')[k] == v;
      }
    }
  }

  lemma AppendPlaced(vs: seq<Vertex>, source: int, order: seq<BfsNode>, to: int, L: nat)
    requires AllPlaced(vs, source, order)
    requires to in Ball(vs, source, L + 1) && to !in Ball(vs, source, L)
    ensures AllPlaced(vs, source, order + [BfsNode(to, L + 1)])
  {
    var order' := order + [BfsNode(to, L + 1)];
    forall j | 0 <= j < |order'|
      ensures Placed(vs, source, order', j)
    {
      if j < |order| {
        assert Placed(vs, source, order, j);
      }
    }
  }

  lemma AppendExpanded(vs: seq<Vertex>, order: seq<BfsNode>, seen: set<int>, e: int, to: int, L: nat)
    requires ExpandedUpTo(vs, order, seen, e) && e <= |order|
    ensures ExpandedUpTo(vs, order + [BfsNode(to, L + 1)], seen + {to}, e)
  {
    var order' := order + [BfsNode(to, L + 1)];
    forall j | 0 <= j < e
      ensures NeighboursIn(vs, order'[j].id, seen + {to})
    {
      assert NeighboursIn(vs, order[j].id, seen);
    }
  }

  /** Entry `j` of `order'` was appended while expanding entry `h - 1` of `order`, whose
      neighbour list is `nbrs`: it is one of those neighbours, was not discovered before
      the expansion, and lies one hop further out. */
  ghost predicate Appended(order: seq<BfsNode>, h: int, nbrs: seq<int>, seen: set<int>,
                           order': seq<BfsNode>, j: int)
    requires 1 <= h <= |order| && 0 <= j < |order'|
  {
    order'[j].id in nbrs && order'[j].id !in seen && order'[j].level == order[h - 1].level + 1
  }

  /** Part way through expanding entry `h - 1` of `order`, whose neighbour list is `nbrs`:
      the first `k` neighbours are discovered, and `order'`, `seen'` extend `order`, `seen`
      by new neighbours only, one hop further out. */
  ghost predicate ExpansionProgress(vs: seq<Vertex>, source: int, order: seq<BfsNode>, seen: set<int>,
                           h: int, nbrs: seq<int>, order': seq<BfsNode>, seen': set<int>, k: int)
  {
    && 1 <= h <= |order| <= |order'| && order'[..|order|] == order
    && 0 <= order[h - 1].id < |vs| && nbrs == vs[order[h - 1].id].neighbours && 0 <= k <= |nbrs|
    && (forall j :: 0 <= j < |order'| ==> order'[j].level <= order[h - 1].level + 1)
    && (forall m :: 0 <= m < k ==> nbrs[m] in seen')
    && Ball(vs, source, order[h - 1].level) <= seen'
    && seen <= seen' && (|order'| == |order| ==> seen' == seen)
    && (|order'| > |order| ==> order'[|order|].id in seen' - seen && IsVertex(vs, order'[|order|].id))
    && (forall j :: |order| <= j < |order'| ==> Appended(order, h, nbrs, seen, order', j))
  }

  /** Neighbour `k` is new: recording it one hop further out than entry `h - 1` keeps
      what the search knows. */
  lemma ExploredNeighbour(vs: seq<Vertex>, source: int, steps: int, order: seq<BfsNode>, seen: set<int>,
                          h: int, nbrs: seq<int>, order': seq<BfsNode>, seen': set<int>, k: int)
    requires ValidGraph(vs)
    requires Explored(vs, source, steps, order', seen', h - 1)
    requires ExpansionProgress(vs, source, order, seen, h, nbrs, order', seen', k)
    requires order[h - 1].level != steps
    requires k < |nbrs| && nbrs[k] !in seen'
    ensures Explored(vs, source, steps, order' + [BfsNode(nbrs[k], order[h - 1].level + 1)],
                     seen' + {nbrs[k]}, h - 1)
  {
    var cur := order[h - 1];
    var to := nbrs[k];
    assert order'[h - 1] == cur;
    assert Placed(vs, source, order', h - 1);
    assert IsVertex(vs, to);
    assert steps >= 0 ==> cur.level + 1 <= steps by {
      if steps >= 0 {
        assert cur.level <= steps;
      }
    }
    NeighbourInNextBall(vs, source, cur.level, cur.id, k);
    ExploredAppend(vs, source, steps, order', seen', h - 1, to, cur.level);
  }

  lemma ProgressAppend(vs: seq<Vertex>, source: int, order: seq<BfsNode>, seen: set<int>,
                       h: int, nbrs: seq<int>, order': seq<BfsNode>, seen': set<int>, k: int)
    requires ValidGraph(vs)
    requires ExpansionProgress(vs, source, order, seen, h, nbrs, order', seen', k)
    requires k < |nbrs| && nbrs[k] !in seen'
    ensures ExpansionProgress(vs, source, order, seen, h, nbrs,
                     order' + [BfsNode(nbrs[k], order[h - 1].level + 1)], seen' + {nbrs[k]}, k + 1)
  {
    var order'' := order' + [BfsNode(nbrs[k], order[h - 1].level + 1)];
    assert IsVertex(vs, nbrs[k]);
    assert order'[..|order|] == order''[..|order|];
    if |order'| > |order| {
      assert order''[|order|] == order'[|order|];
    }
    forall j | |order| <= j < |order''|
      ensures Appended(order, h, nbrs, seen, order'', j)
    {
      if j < |order'| {
        assert Appended(order, h, nbrs, seen, order', j);
      }
    }
  }

  /** One expansion step of the search: append every not-yet-seen neighbour of the
      vertex just taken off the queue, one hop further out than it. */
  method ExpandNeighbours(vs: seq<Vertex>, source: int, steps: int, order: seq<BfsNode>,
                          seen: set<int>, h: int)
    returns (order': seq<BfsNode>, seen': set<int>)
    requires ValidGraph(vs)
    requires 1 <= h <= |order| && Explored(vs, source, steps, order, seen, h - 1)
    requires HeadReady(vs, source, order, seen, h - 1)
    requires order[h - 1].level != steps
    ensures Explored(vs, source, steps, order', seen', h)
    ensures h < |order'| ==> HeadReady(vs, source, order', seen', h)
    ensures |order| <= |order'| && order'[..|order|] == order
    ensures seen <= seen' && (|order'| == |order| ==> seen' == seen)
    ensures |order'| > |order| ==> order'[|order|].id in seen' - seen && IsVertex(vs, order'[|order|].id)
    ensures forall j :: |order| <= j < |order'| ==>
              order'[j].id in vs[order[h - 1].id].neighbours && order'[j].id !in seen
              && order'[j].level == order[h - 1].level + 1
  {
    var cur := order[h - 1];
    var nbrs := vs[cur.id].neighbours;
    order', seen' := order, seen;
    var k := 0;
    assert order[..|order|] == order;
    forall j | 0 <= j < |order|
      ensures order[j].level <= cur.level + 1
    {
      if j < h - 1 {
        assert Ordered(order, j, h - 1);
      }
    }
    while k < |nbrs|
      invariant Explored(vs, source, steps, order', seen', h - 1)
      invariant ExpansionProgress(vs, source, order, seen, h, nbrs, order', seen', k)
    {
      var to := nbrs[k];
      if to !in seen' {
        ExploredNeighbour(vs, source, steps, order, seen, h, nbrs, order', seen', k);
        ProgressAppend(vs, source, order, seen, h, nbrs, order', seen', k);
        seen' := seen' + {to};
        order' := order' + [BfsNode(to, cur.level + 1)];
      }
      k := k + 1;
    }
    assert NeighboursIn(vs, order'[h - 1].id, seen');
    forall j | |order| <= j < |order'|
      ensures order'[j].id in nbrs && order'[j].id !in seen && order'[j].level == cur.level + 1
    {
      assert Appended(order, h, nbrs, seen, order', j);
    }
    CloseExpansion(vs, source, steps, order, seen, order', seen', h);
  }

  /** Once every neighbour of entry `h - 1` is discovered, that entry counts as expanded
      and the queue head `h` is ready. */
  lemma CloseExpansion(vs: seq<Vertex>, source: int, steps: int, order: seq<BfsNode>, seen: set<int>,
                       order': seq<BfsNode>, seen': set<int>, h: int)
    requires 1 <= h <= |order| <= |order'| && order'[..|order|] == order
    requires Explored(vs, source, steps, order', seen', h - 1)
    requires HeadReady(vs, source, order, seen, h - 1)
    requires forall j :: 0 <= j < |order'| ==> order'[j].level <= order[h - 1].level + 1
    requires NeighboursIn(vs, order'[h - 1].id, seen')
    requires Ball(vs, source, order[h - 1].level) <= seen'
    ensures Explored(vs, source, steps, order', seen', h)
    ensures h < |order'| ==> HeadReady(vs, source, order', seen', h)
  {
    var L := order[h - 1].level;
    assert order'[h - 1] == order[h - 1];
    if h < |order'| {
      assert order'[..h - 1] == order[..h - 1];
      assert Ordered(order', h - 1, h);
      if order'[h].level == L {
        if L > 0 {
          ghost var inner := Ball(vs, source, L - 1);
          forall v
            ensures Covers(Ids(order'[..h]), inner, v)
          {
            assert Covers(Ids(order[..h - 1]), inner, v);
            if v in Ids(order'[..h - 1]) {
              var i :| 0 <= i < h - 1 && Ids(order'[..h - 1])[i] == v;
              assert Ids(order'[..h])[i] == v;
            }
          }
        }
      } else {
        AdvanceLevel(vs, source, steps, order', seen', h, L);
      }
    }
  }

  /** The discovery phase of `getTopNodes`: a FIFO breadth-first search that records the
      source and then every newly seen vertex, and stops as soon as it takes a vertex at
      hop `steps` off the queue. The result is in discovery order. */
  method Discover(vs: seq<Vertex>, source: int, steps: int) returns (found: seq<int>)
    requires ValidGraph(vs) && IsVertex(vs, source)
    ensures |found| >= 1 && found[0] == source
    ensures Distinct(found)
    ensures forall i :: 0 <= i < |found| ==> IsVertex(vs, found[i])
    ensures forall v :: v in found <==> Candidate(vs, source, steps, v)
  {
    // `order` lists the discovered vertices in discovery order, each with its hop
    // count; the queue is `order[h..]` and `order[..h]` are already taken off it.
    var order := [BfsNode(source, 0)];
    var seen := {source};
    var h := 0;
    assert Ids(order)[0] == source;
    while h < |order|
      invariant Explored(vs, source, steps, order, seen, h)
      invariant h < |order| ==> HeadReady(vs, source, order, seen, h)
      decreases set v | 0 <= v < |vs| && v !in seen, |order| - h
    {
      var cur := order[h];
      if cur.level == steps {
        // The entry is taken off the queue and the search ends.
        break;
      }
      h := h + 1;
      ghost var seen0, size0 := seen, |order|;
      order, seen := ExpandNeighbours(vs, source, steps, order, seen, h);
      ghost var unseen0, unseen := (set v | 0 <= v < |vs| && v !in seen0), (set v | 0 <= v < |vs| && v !in seen);
      assert unseen <= unseen0;
      if |order| > size0 {
        var w := order[size0].id;
        assert w in unseen0 && w !in unseen;
      }
    }
    found := Ids(order);
    forall i, j | 0 <= i < j < |found|
      ensures found[i] != found[j]
    {
      assert Apart(order, i, j);
    }
    DiscoveredAreCandidates(vs, source, steps, order, seen, h);
  }

  /** The search ends either with the queue empty, every discovered vertex expanded, or
      with the whole `steps`-ball discovered; either way it found exactly the candidates. */
  lemma DiscoveredAreCandidates(vs: seq<Vertex>, source: int, steps: int, order: seq<BfsNode>,
                                seen: set<int>, e: int)
    requires ValidGraph(vs) && IsVertex(vs, source)
    requires Explored(vs, source, steps, order, seen, e)
    requires e == |order| || (steps >= 0 && Ball(vs, source, steps) <= seen)
    ensures forall v :: v in Ids(order) <==> Candidate(vs, source, steps, v)
  {
    forall v | v in Ids(order)
      ensures Candidate(vs, source, steps, v)
    {
      var j :| 0 <= j < |order| && Ids(order)[j] == v;
      assert Placed(vs, source, order, j);
      if steps >= 0 {
        BallGrows(vs, source, order[j].level, steps);
      }
    }
    if e == |order| {
      assert source in seen by { assert Recorded(order, seen, 0); }
      assert Closed(vs, seen) by {
        forall v | v in seen
          ensures NeighboursIn(vs, v, seen)
        {
          assert Covers(Ids(order), seen, v);
          var j :| 0 <= j < |order| && Ids(order)[j] == v;
        }
      }
      forall v | Candidate(vs, source, steps, v)
        ensures v in Ids(order)
      {
        var k: nat :| v in Ball(vs, source, k);
        ClosedHoldsBall(vs, source, seen, k);
        assert Covers(Ids(order), seen, v);
      }
    } else {
      forall v | Candidate(vs, source, steps, v)
        ensures v in Ids(order)
      {
        assert Covers(Ids(order), seen, v);
      }
    }
  }

  /** What `getTopNodes` may return for a search from `source` limited to `steps` hops:
      at most `topM` distinct candidates, highest pagerank first, fewer only when every
      candidate is kept, and no candidate left out ranks above one that is kept. */
  ghost predicate IsTopSelection(vs: seq<Vertex>, source: int, steps: int, topM: int, r: seq<int>)
  {
    && |r| <= topM
    && Distinct(r) && AllVertices(vs, r) && NonIncreasing(vs, r)
    && (forall i :: 0 <= i < |r| ==> Candidate(vs, source, steps, r[i]))
    && (|r| < topM ==> forall v :: Candidate(vs, source, steps, v) ==> v in r)
    && (forall v, i :: Candidate(vs, source, steps, v) && IsVertex(vs, v) && v !in r && 0 <= i < |r| ==>
          Pagerank(vs, v) <= Pagerank(vs, r[i]))
  }

  /** `getTopNodes`: discover the candidates, rank them by pagerank and keep the first
      `topM`. A negative `topM` makes the stream's `limit` throw, so it is excluded. */
  method TopNodes(vs: seq<Vertex>, source: int, topM: int, steps: int) returns (dests: seq<int>)
    requires ValidGraph(vs) && IsVertex(vs, source) && topM >= 0
    ensures IsTopSelection(vs, source, steps, topM, dests)
    ensures topM >= 1 ==> |dests| >= 1
  {
    var found := Discover(vs, source, steps);
    var ranked := SortByPagerank(vs, found);
    PermutationKeepsDistinct(found, ranked);
    SameMembers(found, ranked);
    assert source in ranked by {
      assert found[0] in found;
    }
    dests := if topM < |ranked| then ranked[..topM] else ranked;
    RankedPrefixIsTop(vs, source, steps, topM, ranked);
  }

  /** Cutting a ranked, repeat-free list of exactly the candidates down to its first
      `topM` entries selects the top `topM` candidates. */
  lemma RankedPrefixIsTop(vs: seq<Vertex>, source: int, steps: int, topM: int, ranked: seq<int>)
    requires topM >= 0 && AllVertices(vs, ranked) && NonIncreasing(vs, ranked) && Distinct(ranked)
    requires forall v :: v in ranked <==> Candidate(vs, source, steps, v)
    ensures IsTopSelection(vs, source, steps, topM, if topM < |ranked| then ranked[..topM] else ranked)
  {
    var dests := if topM < |ranked| then ranked[..topM] else ranked;
    assert forall k :: 0 <= k < |dests| ==> dests[k] == ranked[k];
    forall v, i | Candidate(vs, source, steps, v) && IsVertex(vs, v) && v !in dests && 0 <= i < |dests|
      ensures Pagerank(vs, v) <= Pagerank(vs, dests[i])
    {
      assert v in ranked;
      var j :| 0 <= j < |ranked| && ranked[j] == v;
      assert j >= |dests|;
    }
  }

  /** Rearranging a list keeps its members. */
  lemma SameMembers(s: seq<int>, t: seq<int>)
    requires multiset(s) == multiset(t)
    ensures forall v :: v in s <==> v in t
  {
    forall v
      ensures v in s <==> v in t
    {
      assert v in s <==> v in multiset(s);
      assert v in t <==> v in multiset(t);
    }
  }
}
