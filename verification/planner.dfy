/**
 The prefetching planner `run`: pick the destinations, then grow paths best-first from
 the agent's vertex, accepting each newly reached, not yet fetched vertex, until the
 block budget is spent or nothing is left to explore.
 */
module Planner {
  import opened Graph
  import opened Ranking
  import opened Destinations
  import opened Retarget
  import opened Nodes
  import opened Frontier

  /** The settings an instance is built with: the block budget `nBlocks`, how many
      destinations to keep (`topM`) and the hop limit of their search (`steps`), and
      whether destinations are recomputed on every call (`radar`). */
  datatype Config = Config(nBlocks: int, topM: int, steps: int, radar: bool)

  /** What an instance keeps between calls of `run`: its destinations, whether `run`
      has yet to be called, the vertices already fetched, the finished flags of the
      last call and the position reached in the random stream. */
  datatype State = State(dests: seq<int>, firstTime: bool, visited: set<int>, finished: seq<bool>, rngPos: nat)

  /** The fixed inputs of one call: the graph, the destinations, the start vertex, the
      vertices fetched before the call and the block budget. */
  datatype Call = Call(vs: seq<Vertex>, dests: seq<int>, start: int, before: set<int>, nBlocks: int)

  /** The state of the main loop: the queue, the vertices ever queued in this call
      (`localVisited`), the finished flags, the fetched vertices, the accepted nodes
      (`toReturn`) and the random stream position. */
  datatype Search = Search(frontier: seq<Node>, seen: set<int>, flags: seq<bool>,
                           visited: set<int>, accepted: seq<Node>, pos: nat)

  /** The vertices of a list of nodes, as a set. */
  function Fetched(ns: seq<Node>): set<int> {
    set k | 0 <= k < |ns| :: ns[k].u
  }

  lemma FetchedAppend(ns: seq<Node>, n: Node)
    ensures Fetched(ns + [n]) == Fetched(ns) + {n.u}
  {
    assert (ns + [n])[|ns|] == n;
    forall v | v in Fetched(ns)
      ensures v in Fetched(ns + [n])
    {
      var k :| 0 <= k < |ns| && ns[k].u == v;
      assert (ns + [n])[k] == ns[k];
    }
  }

  /** Destination `i` has been reached by an accepted node heading for it. */
  ghost predicate FinishedBy(dests: seq<int>, accepted: seq<Node>, i: int)
    requires 0 <= i < |dests|
  {
    exists k :: 0 <= k < |accepted| && accepted[k].dest == i && accepted[k].u == dests[i]
  }

  // ---------------------------------------------------------------------------
  // The loop invariant, one part per concern.

  ghost predicate Shaped(c: Call, s: Search) {
    && ValidGraph(c.vs) && IsVertex(c.vs, c.start) && AllVertices(c.vs, c.dests) && |c.dests| >= 1
    && |s.flags| == |c.dests|
    && c.start in s.seen && (forall v :: v in s.seen ==> IsVertex(c.vs, v))
  }

  /** Queue entry `j` stands on a queued vertex reachable from the start, and heads for
      a destination unless it is the start itself. */
  ghost predicate Queued(c: Call, seen: set<int>, frontier: seq<Node>, j: int)
    requires 0 <= j < |frontier|
  {
    var n := frontier[j];
    && n.u in seen && Reachable(c.vs, c.start, n.u)
    && -1 <= n.dest < |c.dests| && (n.u != c.start ==> 0 <= n.dest)
  }

  ghost predicate FrontierOk(c: Call, s: Search) {
    && (forall j :: 0 <= j < |s.frontier| ==> Queued(c, s.seen, s.frontier, j))
    && Distinct(Stops(s.frontier))
  }

  /** Accepted node `k` is a vertex reachable from the start, other than the start, not
      fetched before the call, heading for a real destination. */
  ghost predicate Emitted(c: Call, accepted: seq<Node>, k: int)
    requires 0 <= k < |accepted|
  {
    var n := accepted[k];
    && n.u !in c.before && n.u != c.start && Reachable(c.vs, c.start, n.u)
    && 0 <= n.dest < |c.dests|
  }

  /** The fetched set is the earlier one plus the accepted vertices, each accepted once,
      and a destination is finished exactly when an accepted node reached it. */
  ghost predicate Books(c: Call, s: Search) {
    && s.visited == c.before + Fetched(s.accepted)
    && Distinct(Stops(s.accepted))
    && (forall k :: 0 <= k < |s.accepted| ==> Emitted(c, s.accepted, k))
    && |s.flags| == |c.dests|
    && (forall i :: 0 <= i < |s.flags| ==> (s.flags[i] <==> FinishedBy(c.dests, s.accepted, i)))
  }

  /** A queued vertex that has left the queue has had all its neighbours queued and is
      the start or fetched. */
  ghost predicate Settled(c: Call, s: Search, v: int) {
    v in s.seen && v !in Stops(s.frontier) ==>
      NeighboursIn(c.vs, v, s.seen) && (v == c.start || v in s.visited)
  }

  ghost predicate Closure(c: Call, s: Search) {
    forall v :: Settled(c, s, v)
  }

  /** The budget is not spent yet. */
  predicate Running(c: Call, s: Search) {
    c.nBlocks >= 1 ==> |s.accepted| < c.nBlocks
  }

  ghost predicate Inv(c: Call, s: Search) {
    Shaped(c, s) && FrontierOk(c, s) && Books(c, s) && Closure(c, s) && Running(c, s)
  }

  // ---------------------------------------------------------------------------
  // The termination measure: vertices never queued, open destinations, queue load.

  ghost function Unseen(c: Call, s: Search): set<int> {
    set v | 0 <= v < |c.vs| && v !in s.seen
  }

  ghost function Open(s: Search): set<int> {
    set i | 0 <= i < |s.flags| && !s.flags[i]
  }

  ghost predicate Progress(c: Call, s: Search, s': Search) {
    || Unseen(c, s') < Unseen(c, s)
    || (Unseen(c, s') == Unseen(c, s) &&
        (|| Open(s') < Open(s)
         || (Open(s') == Open(s) && Load(s'.frontier, s'.flags) < Load(s.frontier, s.flags))))
  }

  // ---------------------------------------------------------------------------
  // One iteration, transition by transition.

  /** Taking entry `i` off the queue: the rest keeps the other entries, in order. */
  lemma RestOfQueue(c: Call, s: Search, i: int)
    requires FrontierOk(c, s) && 0 <= i < |s.frontier|
    ensures var rest := Remove(s.frontier, i);
            && Distinct(Stops(rest))
            && s.frontier[i].u !in Stops(rest)
            && (forall v :: v in Stops(s.frontier) <==> v in Stops(rest) || v == s.frontier[i].u)
            && (forall j :: 0 <= j < |rest| ==> Queued(c, s.seen, rest, j))
  {
    var rest := Remove(s.frontier, i);
    var f := s.frontier;
    forall a, b | 0 <= a < b < |rest|
      ensures Stops(rest)[a] != Stops(rest)[b]
    {
      var a' := if a < i then a else a + 1;
      var b' := if b < i then b else b + 1;
      assert Stops(f)[a'] != Stops(f)[b'];
    }
    forall j | 0 <= j < |rest|
      ensures Stops(rest)[j] != f[i].u
    {
      var j' := if j < i then j else j + 1;
      assert Stops(f)[j'] != Stops(f)[i];
    }
    forall v
      ensures v in Stops(f) <==> v in Stops(rest) || v == f[i].u
    {
      if v in Stops(f) {
        var j :| 0 <= j < |f| && Stops(f)[j] == v;
        if j < i {
          assert Stops(rest)[j] == v;
        } else if j > i {
          assert Stops(rest)[j - 1] == v;
        }
      }
      if v in Stops(rest) {
        var j :| 0 <= j < |rest| && Stops(rest)[j] == v;
        assert Stops(f)[if j < i then j else j + 1] == v;
      }
      if v == f[i].u {
        assert Stops(f)[i] == v;
      }
    }
    forall j | 0 <= j < |rest|
      ensures Queued(c, s.seen, rest, j)
    {
      assert Queued(c, s.seen, s.frontier, if j < i then j else j + 1);
    }
  }

  /** The popped entry's destination was finished: it goes back on the queue aimed at an
      open destination, and nothing else changes. */
  lemma Requeue(c: Call, s: Search, i: int, n': Node, pos': nat)
    requires Inv(c, s) && 0 <= i < |s.frontier|
    requires s.frontier[i].u != c.start && 0 <= s.frontier[i].dest < |s.flags|
    requires s.flags[s.frontier[i].dest]
    requires n'.u == s.frontier[i].u && 0 <= n'.dest < |s.flags| && !s.flags[n'.dest]
    ensures var s' := s.(frontier := Remove(s.frontier, i) + [n'], pos := pos');
            Inv(c, s') && Progress(c, s, s')
  {
    var f, n := s.frontier, s.frontier[i];
    var rest := Remove(f, i);
    var s' := s.(frontier := rest + [n'], pos := pos');
    RestOfQueue(c, s, i);
    assert Queued(c, s.seen, s.frontier, i);
    forall j | 0 <= j < |s'.frontier|
      ensures Queued(c, s'.seen, s'.frontier, j)
    {
      if j < |rest| {
        assert Queued(c, s.seen, rest, j);
      }
    }
    forall a, b | 0 <= a < b < |s'.frontier|
      ensures Stops(s'.frontier)[a] != Stops(s'.frontier)[b]
    {
      assert Stops(s'.frontier)[a] == Stops(rest)[a];
      if b == |rest| {
        assert Stops(rest)[a] in Stops(rest);
      } else {
        assert Stops(s'.frontier)[b] == Stops(rest)[b];
      }
    }
    forall v
      ensures v in Stops(s'.frontier) <==> v in Stops(f)
    {
      if v in Stops(rest) {
        var j :| 0 <= j < |rest| && Stops(rest)[j] == v;
        assert Stops(s'.frontier)[j] == v;
      }
      if v in Stops(s'.frontier) {
        var j :| 0 <= j < |s'.frontier| && Stops(s'.frontier)[j] == v;
        if j < |rest| {
          assert Stops(rest)[j] == v;
        }
      }
      assert Stops(s'.frontier)[|rest|] == n.u;
    }
    forall v
      ensures Settled(c, s', v)
    {
      assert Settled(c, s, v);
    }
    LoadRemove(f, i, s.flags);
    LoadAppend(rest, [n'], s.flags);
    assert Load([n'], s.flags) == 1 by {
      assert [n'][1..] == [];
    }
    assert Unseen(c, s') == Unseen(c, s);
    assert Open(s') == Open(s);
  }

  /** Every flag set in `f` is still set in `g`. */
  ghost predicate Grows(f: seq<bool>, g: seq<bool>) {
    |f| <= |g| && forall i :: 0 <= i < |f| && f[i] ==> g[i]
  }

  /** What holds once the popped node `n` has been dealt with (skipped, or accepted) and
      its children are yet to be queued. */
  ghost predicate Popped(c: Call, s: Search, t: Search, n: Node) {
    && Shaped(c, t) && FrontierOk(c, t) && Books(c, t)
    && n.u in t.seen && Reachable(c.vs, c.start, n.u) && -1 <= n.dest < |c.dests|
    && n.u !in Stops(t.frontier)
    && (n.u == c.start || n.u in t.visited)
    && (forall v :: v != n.u ==> Settled(c, t, v))
    && t.seen == s.seen && Unseen(c, t) == Unseen(c, s)
    && Open(t) <= Open(s)
    && (Open(t) == Open(s) ==> t.flags == s.flags && Load(t.frontier, t.flags) < Load(s.frontier, s.flags))
    && |t.flags| == |s.flags| && Grows(s.flags, t.flags)
    && |s.accepted| <= |t.accepted| && t.accepted[..|s.accepted|] == s.accepted
    && t.pos >= s.pos
  }

  /** The popped entry is the start or was fetched already: it is not accepted, only
      expanded. */
  lemma Skip(c: Call, s: Search, i: int)
    requires Inv(c, s) && 0 <= i < |s.frontier|
    requires s.frontier[i].u == c.start || s.frontier[i].u in s.visited
    ensures var t := s.(frontier := Remove(s.frontier, i));
            Popped(c, s, t, s.frontier[i]) && Running(c, t)
  {
    var n := s.frontier[i];
    var t := s.(frontier := Remove(s.frontier, i));
    RestOfQueue(c, s, i);
    assert Queued(c, s.seen, s.frontier, i);
    forall v | v != n.u
      ensures Settled(c, t, v)
    {
      assert Settled(c, s, v);
    }
    forall k | 0 <= k < |t.accepted|
      ensures Emitted(c, t.accepted, k)
    {
      assert Emitted(c, s.accepted, k);
    }
    LoadRemove(s.frontier, i, s.flags);
    assert t.accepted[..|s.accepted|] == s.accepted;
  }

  /** Accepting `n'` fetches its vertex, appends it to the output, and finishes its
      destination exactly when it stands on it: the bookkeeping stays exact. */
  lemma AcceptBooks(c: Call, s: Search, t: Search, n': Node)
    requires Books(c, s)
    requires n'.u !in s.visited && n'.u != c.start && Reachable(c.vs, c.start, n'.u)
    requires 0 <= n'.dest < |c.dests|
    requires t.visited == s.visited + {n'.u} && t.accepted == s.accepted + [n']
    requires t.flags == if c.dests[n'.dest] == n'.u then s.flags[n'.dest := true] else s.flags
    ensures Books(c, t)
  {
    var acc := t.accepted;
    FetchedAppend(s.accepted, n');
    forall a, b | 0 <= a < b < |acc|
      ensures Stops(acc)[a] != Stops(acc)[b]
    {
      assert Stops(acc)[a] == Stops(s.accepted)[a];
      if b < |s.accepted| {
        assert Stops(acc)[b] == Stops(s.accepted)[b];
      } else {
        assert s.accepted[a].u in Fetched(s.accepted);
      }
    }
    forall k | 0 <= k < |acc|
      ensures Emitted(c, acc, k)
    {
      if k < |s.accepted| {
        assert Emitted(c, s.accepted, k);
      }
    }
    forall d | 0 <= d < |t.flags|
      ensures t.flags[d] <==> FinishedBy(c.dests, acc, d)
    {
      if FinishedBy(c.dests, s.accepted, d) {
        var k :| 0 <= k < |s.accepted| && s.accepted[k].dest == d && s.accepted[k].u == c.dests[d];
        assert acc[k] == s.accepted[k];
      }
      if FinishedBy(c.dests, acc, d) {
        var k :| 0 <= k < |acc| && acc[k].dest == d && acc[k].u == c.dests[d];
        if k < |s.accepted| {
          assert FinishedBy(c.dests, s.accepted, d);
        }
      }
      assert acc[|s.accepted|] == n';
    }
  }

  /** The popped entry `n` heads for `n'.dest` and is accepted: it is fetched, appended to
      the output, and finishes its destination when it stands on it. */
  lemma Accept(c: Call, s: Search, i: int, n': Node, pos': nat)
    requires Inv(c, s) && 0 <= i < |s.frontier|
    requires s.frontier[i].u != c.start && s.frontier[i].u !in s.visited
    requires n'.u == s.frontier[i].u && 0 <= n'.dest < |c.dests| && pos' >= s.pos
    ensures var flags := if c.dests[n'.dest] == n'.u then s.flags[n'.dest := true] else s.flags;
            var t := Search(Remove(s.frontier, i), s.seen, flags, s.visited + {n'.u}, s.accepted + [n'], pos');
            Popped(c, s, t, n')
  {
    var flags := if c.dests[n'.dest] == n'.u then s.flags[n'.dest := true] else s.flags;
    var t := Search(Remove(s.frontier, i), s.seen, flags, s.visited + {n'.u}, s.accepted + [n'], pos');
    RestOfQueue(c, s, i);
    assert Queued(c, s.seen, s.frontier, i);
    AcceptBooks(c, s, t, n');
    forall v | v != n'.u
      ensures Settled(c, t, v)
    {
      assert Settled(c, s, v);
    }
    if c.dests[n'.dest] == n'.u && !s.flags[n'.dest] {
      assert n'.dest in Open(s) && n'.dest !in Open(t);
    } else {
      assert flags == s.flags;
      LoadRemove(s.frontier, i, s.flags);
    }
    assert t.accepted[..|s.accepted|] == s.accepted;
  }

  /** The children of the popped node `n`: one per neighbour, in order, each on that
      neighbour and heading for a real destination. */
  ghost predicate KidsOf(c: Call, n: Node, kids: seq<Node>)
    requires IsVertex(c.vs, n.u)
  {
    && |kids| == |c.vs[n.u].neighbours|
    && forall k :: 0 <= k < |kids| ==> kids[k].u == c.vs[n.u].neighbours[k] && 0 <= kids[k].dest < |c.dests|
  }

  /** Queuing the children keeps every entry queued, reachable and on its own vertex. */
  lemma ExpandQueue(c: Call, t: Search, n: Node, kids: seq<Node>, frontier': seq<Node>, seen': set<int>, pos': nat)
    requires Shaped(c, t) && FrontierOk(c, t)
    requires n.u in t.seen && Reachable(c.vs, c.start, n.u) && KidsOf(c, n, kids)
    requires (frontier', seen') == Enqueue(t.frontier, t.seen, kids)
    ensures Shaped(c, t.(frontier := frontier', seen := seen', pos := pos'))
    ensures FrontierOk(c, t.(frontier := frontier', seen := seen', pos := pos'))
  {
    var s' := t.(frontier := frontier', seen := seen', pos := pos');
    var m: nat :| n.u in Ball(c.vs, c.start, m);
    forall w | w in seen'
      ensures IsVertex(c.vs, w)
    {
      if w !in t.seen {
        var k :| 0 <= k < |kids| && kids[k].u == w;
      }
    }
    forall j | 0 <= j < |frontier'|
      ensures Queued(c, seen', frontier', j)
    {
      if j < |t.frontier| {
        assert frontier'[j] == t.frontier[j];
        assert Queued(c, t.seen, t.frontier, j);
      } else {
        var k :| 0 <= k < |kids| && kids[k] == frontier'[j];
        NeighbourInNextBall(c.vs, c.start, m, n.u, k);
      }
    }
    forall a, b | 0 <= a < b < |frontier'|
      ensures Stops(frontier')[a] != Stops(frontier')[b]
    {
      if b < |t.frontier| {
        assert Stops(t.frontier)[a] != Stops(t.frontier)[b];
      } else if a < |t.frontier| {
        assert frontier'[a] == t.frontier[a];
        assert Queued(c, t.seen, t.frontier, a);
      }
    }
  }

  /** Once the children are queued, the popped node has every neighbour queued, so every
      vertex off the queue is settled. */
  lemma ExpandClosure(c: Call, t: Search, n: Node, kids: seq<Node>, frontier': seq<Node>, seen': set<int>, pos': nat)
    requires Shaped(c, t) && n.u in t.seen && KidsOf(c, n, kids)
    requires n.u !in Stops(t.frontier) && (n.u == c.start || n.u in t.visited)
    requires forall v :: v != n.u ==> Settled(c, t, v)
    requires (frontier', seen') == Enqueue(t.frontier, t.seen, kids)
    ensures Closure(c, t.(frontier := frontier', seen := seen', pos := pos'))
  {
    var s' := t.(frontier := frontier', seen := seen', pos := pos');
    var nbrs := c.vs[n.u].neighbours;
    assert NeighboursIn(c.vs, n.u, seen') by {
      forall k | 0 <= k < |nbrs|
        ensures nbrs[k] in seen'
      {
        assert kids[k].u == nbrs[k];
      }
    }
    forall v | v in Stops(t.frontier)
      ensures v in Stops(frontier')
    {
      var j :| 0 <= j < |t.frontier| && Stops(t.frontier)[j] == v;
      assert Stops(frontier')[j] == v;
    }
    forall v
      ensures Settled(c, s', v)
    {
      if v in seen' && v !in Stops(frontier') && v != n.u {
        assert Settled(c, t, v);
      }
    }
  }

  /** Queuing the children either queues a vertex for the first time or leaves the queue
      as the pop left it; either way the measure went down since `s`. */
  lemma ExpandProgress(c: Call, s: Search, t: Search, frontier': seq<Node>, seen': set<int>, pos': nat, kids: seq<Node>)
    requires t.seen == s.seen && Unseen(c, t) == Unseen(c, s)
    requires Open(t) <= Open(s)
    requires Open(t) == Open(s) ==> t.flags == s.flags && Load(t.frontier, t.flags) < Load(s.frontier, s.flags)
    requires forall w :: w in seen' ==> IsVertex(c.vs, w)
    requires (frontier', seen') == Enqueue(t.frontier, t.seen, kids)
    ensures Progress(c, s, t.(frontier := frontier', seen := seen', pos := pos'))
  {
    var s' := t.(frontier := frontier', seen := seen', pos := pos');
    if seen' != t.seen {
      var w :| w in seen' && w !in t.seen;
      assert w in Unseen(c, t) && w !in Unseen(c, s');
    } else {
      assert Unseen(c, s') == Unseen(c, t);
    }
  }

  /** Queuing the children of the popped node completes the iteration. */
  lemma Expand(c: Call, s: Search, t: Search, n: Node, kids: seq<Node>,
               frontier': seq<Node>, seen': set<int>, pos': nat)
    requires Popped(c, s, t, n) && Running(c, t) && KidsOf(c, n, kids)
    requires (frontier', seen') == Enqueue(t.frontier, t.seen, kids)
    ensures var s' := t.(frontier := frontier', seen := seen', pos := pos');
            Inv(c, s') && Progress(c, s, s')
  {
    var s' := t.(frontier := frontier', seen := seen', pos := pos');
    ExpandQueue(c, t, n, kids, frontier', seen', pos');
    ExpandClosure(c, t, n, kids, frontier', seen', pos');
    ExpandProgress(c, s, t, frontier', seen', pos', kids);
    forall k | 0 <= k < |s'.accepted|
      ensures Emitted(c, s'.accepted, k)
    {
      assert Emitted(c, t.accepted, k);
    }
  }

  // ---------------------------------------------------------------------------
  // The iteration as a transition: which search each case leaves behind.

  /** `n'` is popped entry `i` as `changePathIfNecessary` leaves it: on the same vertex,
      aimed at a real destination; a fresh random draw when every destination is
      finished, the nearest open one when its own is finished, unchanged otherwise, with
      `weight2` recomputed exactly when the destination was reassigned. */
  ghost predicate Reaimed(o: Oracles, c: Call, s: Search, i: int, n': Node)
    requires Shaped(c, s) && 0 <= i < |s.frontier|
  {
    var n := s.frontier[i];
    && n'.u == n.u && 0 <= n'.dest < |c.dests|
    && (AllFinished(s.flags) || (0 <= n.dest < |s.flags| && s.flags[n.dest]) ==>
          n' == n.(weight2 := o.cost(n'.u, c.dests[n'.dest]), dest := n'.dest))
    && (!AllFinished(s.flags) && 0 <= n.dest < |s.flags| && !s.flags[n.dest] ==> n' == n)
    && (AllFinished(s.flags) ==> n'.dest == o.rnd(s.pos) % |c.dests|)
    && (!AllFinished(s.flags) && 0 <= n.dest < |s.flags| && s.flags[n.dest] ==>
          IsVertex(c.vs, n'.u) && IsNearest(o, c.vs, c.dests, s.flags, c.vs[n'.u].lat, c.vs[n'.u].lon, n'.dest))
  }

  /** The search once popped entry `i`, re-aimed to `n'`, is accepted: it leaves the
      queue, its vertex is fetched and appended to the output, and its destination is
      finished when it stands on it. */
  function Accepted(c: Call, s: Search, i: int, n': Node, pos': nat): Search
    requires 0 <= i < |s.frontier| && 0 <= n'.dest < |c.dests| && |s.flags| == |c.dests|
  {
    var flags := if c.dests[n'.dest] == n'.u then s.flags[n'.dest := true] else s.flags;
    Search(Remove(s.frontier, i), s.seen, flags, s.visited + {n'.u}, s.accepted + [n'], pos')
  }

  /** The search once the children `getPossibleNodes` builds for the popped node `n`
      have been offered to the queue. */
  function Descended(o: Oracles, c: Call, t: Search, n: Node): Search
    requires ValidGraph(c.vs) && AllVertices(c.vs, c.dests) && |t.flags| == |c.dests| >= 1
    requires IsVertex(c.vs, n.u) && -1 <= n.dest < |c.dests|
  {
    var (kids, pos') := Children(o, c.vs, c.dests, t.flags, n, t.pos);
    var (frontier', seen') := Enqueue(t.frontier, t.seen, kids);
    t.(frontier := frontier', seen := seen', pos := pos')
  }

  /** One iteration of the loop in `run` that pops entry `i` and leaves `s'`: the start
      or a fetched vertex is only expanded; otherwise the entry is re-aimed to `n`, and
      goes back on the queue when its destination moved while some are open, or else is
      accepted and, unless that fills the budget, expanded. */
  ghost predicate Iteration(o: Oracles, c: Call, s: Search, i: int, n: Node, s': Search)
    requires Inv(c, s) && 0 <= i < |s.frontier|
  {
    var p := s.frontier[i];
    var pos' := s.pos + DrawsPerChild(s.flags);
    assert Queued(c, s.seen, s.frontier, i);
    if p.u == c.start || p.u in s.visited then
      n == p && s' == Descended(o, c, s.(frontier := Remove(s.frontier, i)), n)
    else
      && Reaimed(o, c, s, i, n)
      && (if n.dest != p.dest && !AllFinished(s.flags) then
            s' == s.(frontier := Remove(s.frontier, i) + [n], pos := pos')
          else
            var t := Accepted(c, s, i, n, pos');
            s' == if |t.accepted| == c.nBlocks then t else Descended(o, c, t, n))
  }

  /** The popped entry is neither the start nor fetched: `changePathIfNecessary` re-aims
      it (drawing from the random stream when every destination is finished); if that
      moved it to another destination while some are still open it goes back on the
      queue, and otherwise it is accepted. */
  method Visit(o: Oracles, c: Call, s: Search, i: int) returns (t: Search, n': Node, requeued: bool)
    requires Inv(c, s) && 0 <= i < |s.frontier|
    requires s.frontier[i].u != c.start && s.frontier[i].u !in s.visited
    ensures Reaimed(o, c, s, i, n')
    ensures requeued <==> n'.dest != s.frontier[i].dest && !AllFinished(s.flags)
    ensures t.pos == s.pos + DrawsPerChild(s.flags)
    ensures requeued ==> t == s.(frontier := Remove(s.frontier, i) + [n'], pos := t.pos)
    ensures !requeued ==> t == Accepted(c, s, i, n', t.pos)
    ensures requeued ==> Inv(c, t) && Progress(c, s, t)
    ensures !requeued ==> Popped(c, s, t, n')
  {
    var n := s.frontier[i];
    assert Queued(c, s.seen, s.frontier, i);
    var (d, pos') := ChangePath(o, c.vs, c.dests, s.flags, n.u, n.dest, s.pos);
    n' := if AllFinished(s.flags) || s.flags[n.dest] then n.(weight2 := o.cost(n.u, c.dests[d]), dest := d)
          else n;
    if d != n.dest && !AllFinished(s.flags) {
      Requeue(c, s, i, n', pos');
      t := s.(frontier := Remove(s.frontier, i) + [n'], pos := pos');
      requeued := true;
    } else {
      Accept(c, s, i, n', pos');
      t := Accepted(c, s, i, n', pos');
      requeued := false;
    }
  }

  /** The three ways an iteration can go, each an instance of `Iteration`. */
  lemma IterationSkips(o: Oracles, c: Call, s: Search, i: int, s': Search)
    requires Inv(c, s) && 0 <= i < |s.frontier|
    requires s.frontier[i].u == c.start || s.frontier[i].u in s.visited
    requires Queued(c, s.seen, s.frontier, i)
    ensures s' == Descended(o, c, s.(frontier := Remove(s.frontier, i)), s.frontier[i]) ==>
              Iteration(o, c, s, i, s.frontier[i], s')
  {
  }

  lemma IterationRequeues(o: Oracles, c: Call, s: Search, i: int, n: Node, s': Search)
    requires Inv(c, s) && 0 <= i < |s.frontier|
    requires s.frontier[i].u != c.start && s.frontier[i].u !in s.visited
    requires Queued(c, s.seen, s.frontier, i)
    requires Reaimed(o, c, s, i, n) && n.dest != s.frontier[i].dest && !AllFinished(s.flags)
    requires s' == s.(frontier := Remove(s.frontier, i) + [n], pos := s.pos + DrawsPerChild(s.flags))
    ensures Iteration(o, c, s, i, n, s')
  {
  }

  lemma IterationAccepts(o: Oracles, c: Call, s: Search, i: int, n: Node, t: Search, s': Search)
    requires Inv(c, s) && 0 <= i < |s.frontier|
    requires s.frontier[i].u != c.start && s.frontier[i].u !in s.visited
    requires Queued(c, s.seen, s.frontier, i)
    requires Reaimed(o, c, s, i, n) && !(n.dest != s.frontier[i].dest && !AllFinished(s.flags))
    requires t == Accepted(c, s, i, n, s.pos + DrawsPerChild(s.flags))
    requires |t.accepted| != c.nBlocks
    ensures s' == Descended(o, c, t, n) ==> Iteration(o, c, s, i, n, s')
  {
  }

  lemma IterationStops(o: Oracles, c: Call, s: Search, i: int, n: Node, s': Search)
    requires Inv(c, s) && 0 <= i < |s.frontier|
    requires s.frontier[i].u != c.start && s.frontier[i].u !in s.visited
    requires Queued(c, s.seen, s.frontier, i)
    requires Reaimed(o, c, s, i, n) && !(n.dest != s.frontier[i].dest && !AllFinished(s.flags))
    requires s' == Accepted(c, s, i, n, s.pos + DrawsPerChild(s.flags)) && |s'.accepted| == c.nBlocks
    ensures Iteration(o, c, s, i, n, s')
  {
  }

  /** The popped entry went back on the queue: nothing was accepted. */
  lemma AdvancesRequeued(c: Call, s: Search, t: Search)
    requires Inv(c, t) && Progress(c, s, t)
    requires t.accepted == s.accepted && t.flags == s.flags && t.pos >= s.pos
    ensures Advances(c, s, t, false)
  {
    assert t.accepted[..|s.accepted|] == s.accepted;
  }

  /** The popped node `n` was accepted or skipped and the budget is not yet reached, or
      it was accepted and the budget is reached (`stop`); `s'` is what follows. */
  lemma AdvancesPopped(c: Call, s: Search, t: Search, n: Node, s': Search, stop: bool)
    requires Inv(c, s) && Popped(c, s, t, n) && |t.accepted| <= |s.accepted| + 1
    requires stop ==> s' == t && c.nBlocks >= 1 && |t.accepted| == c.nBlocks
    requires !stop ==> Inv(c, s') && Progress(c, s, s')
    requires !stop ==> s'.accepted == t.accepted && s'.flags == t.flags && s'.pos >= t.pos
    ensures Advances(c, s, s', stop)
  {
  }

  /** What an iteration from `s` to `s'` guarantees whichever way it goes: the
      bookkeeping invariants hold, `stop` says the budget is reached, and otherwise the
      loop invariant holds and the measure dropped; the output only grows, by at most
      one node, flags are only ever set, and the random stream never moves backwards. */
  ghost predicate Advances(c: Call, s: Search, s': Search, stop: bool) {
    && (stop <==> !Running(c, s'))
    && Shaped(c, s') && FrontierOk(c, s') && Books(c, s')
    && (stop ==> c.nBlocks >= 1 && |s'.accepted| == c.nBlocks)
    && (!stop ==> Inv(c, s') && Progress(c, s, s'))
    && |s.accepted| <= |s'.accepted| <= |s.accepted| + 1 && s'.accepted[..|s.accepted|] == s.accepted
    && Grows(s.flags, s'.flags)
    && s'.pos >= s.pos
  }

  /** The popped entry `i` is neither the start nor fetched: re-aim it, then re-queue it,
      or accept it and, unless that fills the budget, queue its children. */
  method Consider(o: Oracles, c: Call, s: Search, i: int) returns (s': Search, stop: bool, n: Node)
    requires Inv(c, s) && 0 <= i < |s.frontier|
    requires s.frontier[i].u != c.start && s.frontier[i].u !in s.visited
    ensures Iteration(o, c, s, i, n, s') && Advances(c, s, s', stop)
    ensures |s'.accepted| == |s.accepted| + 1 ==> s'.accepted[|s.accepted|] == n && n.u == s.frontier[i].u
  {
    assert Queued(c, s.seen, s.frontier, i);
    var t, requeued;
    t, n, requeued := Visit(o, c, s, i);
    if requeued {
      s', stop := t, false;
      IterationRequeues(o, c, s, i, n, s');
      AdvancesRequeued(c, s, s');
      return;
    }
    s', stop := Settle(o, c, s, i, t, n);
  }

  /** The re-aimed entry `n` was accepted, giving `t`: stop when that fills the budget,
      and otherwise queue its children. */
  method Settle(o: Oracles, c: Call, s: Search, i: int, t: Search, n: Node) returns (s': Search, stop: bool)
    requires Inv(c, s) && 0 <= i < |s.frontier| && Queued(c, s.seen, s.frontier, i)
    requires s.frontier[i].u != c.start && s.frontier[i].u !in s.visited
    requires Reaimed(o, c, s, i, n) && !(n.dest != s.frontier[i].dest && !AllFinished(s.flags))
    requires t == Accepted(c, s, i, n, s.pos + DrawsPerChild(s.flags)) && Popped(c, s, t, n)
    ensures Iteration(o, c, s, i, n, s') && Advances(c, s, s', stop)
    ensures |s'.accepted| == |s.accepted| + 1 ==> s'.accepted[|s.accepted|] == n
  {
    assert t.accepted[|s.accepted|] == n;
    if |t.accepted| == c.nBlocks {
      s', stop := t, true;
      IterationStops(o, c, s, i, n, s');
    } else {
      var kids;
      s', kids := Descend(o, c, s, t, n);
      DescendedIs(o, c, t, n, s', kids);
      stop := false;
      IterationAccepts(o, c, s, i, n, t, s');
    }
    AdvancesPopped(c, s, t, n, s', stop);
  }

  /** One iteration of the main loop of `run`: take a least entry off the queue; if it
      is neither the start nor already fetched, re-aim it and either re-queue it or
      accept it, stopping when the budget is reached; then queue its children. */
  method Step(o: Oracles, c: Call, s: Search) returns (s': Search, stop: bool, i: int, n: Node)
    requires Inv(c, s) && |s.frontier| > 0
    ensures 0 <= i < |s.frontier| && IsLeast(s.frontier, i)
    ensures Iteration(o, c, s, i, n, s') && Advances(c, s, s', stop)
    ensures |s'.accepted| == |s.accepted| + 1 ==> s'.accepted[|s.accepted|] == n && n.u == s.frontier[i].u
  {
    // The queue hands out some least entry; which one of several is not determined.
    i := FirstLeast(s.frontier);
    i :| 0 <= i < |s.frontier| && IsLeast(s.frontier, i);
    n := s.frontier[i];
    if n.u != c.start && n.u !in s.visited {
      s', stop, n := Consider(o, c, s, i);
    } else {
      s' := Pass(o, c, s, i);
      stop := false;
    }
  }

  /** The popped entry `i` is the start or was fetched already: it is only expanded. */
  method Pass(o: Oracles, c: Call, s: Search, i: int) returns (s': Search)
    requires Inv(c, s) && 0 <= i < |s.frontier|
    requires s.frontier[i].u == c.start || s.frontier[i].u in s.visited
    ensures Iteration(o, c, s, i, s.frontier[i], s') && Advances(c, s, s', false)
  {
    var n := s.frontier[i];
    assert Queued(c, s.seen, s.frontier, i);
    Skip(c, s, i);
    var t := s.(frontier := Remove(s.frontier, i));
    var kids;
    s', kids := Descend(o, c, s, t, n);
    Passed(o, c, s, i, s', kids);
  }

  lemma Passed(o: Oracles, c: Call, s: Search, i: int, s': Search, kids: seq<Node>)
    requires Inv(c, s) && 0 <= i < |s.frontier| && Queued(c, s.seen, s.frontier, i)
    requires s.frontier[i].u == c.start || s.frontier[i].u in s.visited
    requires Popped(c, s, s.(frontier := Remove(s.frontier, i)), s.frontier[i])
    requires Inv(c, s') && Progress(c, s, s')
    requires s'.accepted == s.accepted && s'.flags == s.flags && s'.visited == s.visited
    ensures (kids, s'.pos) == Children(o, c.vs, c.dests, s.flags, s.frontier[i], s.pos) &&
            (s'.frontier, s'.seen) == Enqueue(Remove(s.frontier, i), s.seen, kids) ==>
              Iteration(o, c, s, i, s.frontier[i], s') && Advances(c, s, s', false)
  {
    var t := s.(frontier := Remove(s.frontier, i));
    if (kids, s'.pos) == Children(o, c.vs, c.dests, s.flags, s.frontier[i], s.pos) &&
       (s'.frontier, s'.seen) == Enqueue(Remove(s.frontier, i), s.seen, kids) {
      DescendedIs(o, c, t, s.frontier[i], s', kids);
      IterationSkips(o, c, s, i, s');
      AdvancesPopped(c, s, t, s.frontier[i], s', false);
    }
  }

  /** `getPossibleNodes` for the popped node `n`, and the children whose vertices were
      never queued in this call joining the queue. */
  method Descend(o: Oracles, c: Call, s: Search, t: Search, n: Node) returns (s': Search, kids: seq<Node>)
    requires Popped(c, s, t, n) && Running(c, t)
    ensures (kids, s'.pos) == Children(o, c.vs, c.dests, t.flags, n, t.pos)
    ensures (s'.frontier, s'.seen) == Enqueue(t.frontier, t.seen, kids)
    ensures Inv(c, s') && Progress(c, s, s')
    ensures s'.accepted == t.accepted && s'.flags == t.flags && s'.visited == t.visited
  {
    var r := Children(o, c.vs, c.dests, t.flags, n, t.pos);
    var pos';
    kids, pos' := r.0, r.1;
    var (frontier', seen') := Enqueue(t.frontier, t.seen, kids);
    assert KidsOf(c, n, kids);
    Expand(c, s, t, n, kids, frontier', seen', pos');
    s' := t.(frontier := frontier', seen := seen', pos := pos');
  }

  /** What `Descend` states, as the transition `Descended`. */
  lemma DescendedIs(o: Oracles, c: Call, t: Search, n: Node, s': Search, kids: seq<Node>)
    requires ValidGraph(c.vs) && AllVertices(c.vs, c.dests) && |t.flags| == |c.dests| >= 1
    requires IsVertex(c.vs, n.u) && -1 <= n.dest < |c.dests|
    requires s'.accepted == t.accepted && s'.flags == t.flags && s'.visited == t.visited
    ensures (kids, s'.pos) == Children(o, c.vs, c.dests, t.flags, n, t.pos) &&
            (s'.frontier, s'.seen) == Enqueue(t.frontier, t.seen, kids) ==>
              s' == Descended(o, c, t, n)
  {
  }

  // ---------------------------------------------------------------------------
  // The whole call.

  /** The search as `run` sets it up: the start alone on the queue, heading for no
      destination yet, no destination finished and nothing accepted. */
  function Start(c: Call, pos: nat): Search {
    Search([Node(c.start, 0.0, 0.0, -1)], {c.start}, NoneClosed(|c.dests|), c.before, [], pos)
  }

  lemma StartInv(c: Call, pos: nat)
    requires ValidGraph(c.vs) && IsVertex(c.vs, c.start) && AllVertices(c.vs, c.dests) && |c.dests| >= 1
    ensures Inv(c, Start(c, pos))
  {
    var s := Start(c, pos);
    assert c.start in Ball(c.vs, c.start, 0);
    assert Queued(c, s.seen, s.frontier, 0);
    assert Stops(s.frontier)[0] == c.start;
  }

  /** Once the queue is empty, every vertex reachable from the start was queued and
      has left the queue, so it is the start or has been fetched. */
  lemma Exhausted(c: Call, s: Search, v: int)
    requires Inv(c, s) && s.frontier == [] && Reachable(c.vs, c.start, v)
    ensures v == c.start || v in s.visited
  {
    assert Closed(c.vs, s.seen) by {
      forall w | w in s.seen
        ensures NeighboursIn(c.vs, w, s.seen)
      {
        assert Settled(c, s, w);
      }
    }
    var k: nat :| v in Ball(c.vs, c.start, k);
    ClosedHoldsBall(c.vs, c.start, s.seen, k);
    assert Settled(c, s, v);
  }

  /** A finished destination was reached: its vertex is among the accepted ones. */
  lemma FinishedReached(c: Call, s: Search, i: int)
    requires Books(c, s) && 0 <= i < |s.flags| && s.flags[i]
    ensures c.dests[i] in Stops(s.accepted)
  {
    var k :| 0 <= k < |s.accepted| && s.accepted[k].dest == i && s.accepted[k].u == c.dests[i];
    assert Stops(s.accepted)[k] == c.dests[i];
  }

  /** Step `k` of a trace: state `k` satisfies the loop invariant and has a queue, whose
      least entry `picks[k]`, re-aimed to `nodes[k]`, takes it to state `k + 1`. */
  ghost predicate StepAt(o: Oracles, c: Call, trace: seq<Search>, picks: seq<int>, nodes: seq<Node>, k: int)
    requires |trace| == |picks| + 1 && |nodes| == |picks| && 0 <= k < |picks|
  {
    && Inv(c, trace[k]) && 0 <= picks[k] < |trace[k].frontier| && IsLeast(trace[k].frontier, picks[k])
    && Iteration(o, c, trace[k], picks[k], nodes[k], trace[k + 1])
  }

  /** `trace` lists the loop states of one call in order: it starts as `run` sets up the
      search, each state follows from the one before by one iteration, and the last is
      where the loop ends, with the queue empty or the budget reached. */
  ghost predicate Trace(o: Oracles, c: Call, pos: nat, trace: seq<Search>, picks: seq<int>, nodes: seq<Node>) {
    && |trace| == |picks| + 1 && |nodes| == |picks|
    && trace[0] == Start(c, pos)
    && (forall k :: 0 <= k < |picks| ==> StepAt(o, c, trace, picks, nodes, k))
    && (trace[|picks|].frontier == [] || !Running(c, trace[|picks|]))
  }

  /** Appending one more iteration to a trace keeps every earlier step. */
  lemma TraceExtend(o: Oracles, c: Call, trace: seq<Search>, picks: seq<int>, nodes: seq<Node>,
                    i: int, n: Node, s': Search)
    requires |trace| == |picks| + 1 && |nodes| == |picks|
    requires forall k :: 0 <= k < |picks| ==> StepAt(o, c, trace, picks, nodes, k)
    requires var s := trace[|picks|];
             Inv(c, s) && 0 <= i < |s.frontier| && IsLeast(s.frontier, i) && Iteration(o, c, s, i, n, s')
    ensures forall k :: 0 <= k < |picks| + 1 ==> StepAt(o, c, trace + [s'], picks + [i], nodes + [n], k)
  {
    var trace', picks', nodes' := trace + [s'], picks + [i], nodes + [n];
    forall k | 0 <= k < |picks| + 1
      ensures StepAt(o, c, trace', picks', nodes', k)
    {
      assert trace'[k] == trace[k] && trace'[k + 1] == (trace + [s'])[k + 1];
      if k < |picks| {
        assert StepAt(o, c, trace, picks, nodes, k);
        assert trace'[k + 1] == trace[k + 1] && picks'[k] == picks[k] && nodes'[k] == nodes[k];
      }
    }
  }

  /** The main loop of `run`: iterate from the initial search until the queue is empty
      or the budget is reached. */
  method Explore(o: Oracles, c: Call, pos: nat)
    returns (s: Search, ghost trace: seq<Search>, ghost picks: seq<int>, ghost nodes: seq<Node>)
    requires ValidGraph(c.vs) && IsVertex(c.vs, c.start) && AllVertices(c.vs, c.dests) && |c.dests| >= 1
    ensures Trace(o, c, pos, trace, picks, nodes) && s == trace[|picks|]
    ensures Shaped(c, s) && Books(c, s) && s.pos >= pos
    ensures (Inv(c, s) && s.frontier == []) || (c.nBlocks >= 1 && |s.accepted| == c.nBlocks)
  {
    s := Start(c, pos);
    StartInv(c, pos);
    trace, picks, nodes := [s], [], [];
    while |s.frontier| > 0
      invariant Inv(c, s) && s.pos >= pos
      invariant |trace| == |picks| + 1 && |nodes| == |picks| && trace[0] == Start(c, pos)
      invariant trace[|picks|] == s
      invariant forall k :: 0 <= k < |picks| ==> StepAt(o, c, trace, picks, nodes, k)
      decreases Unseen(c, s), Open(s), Load(s.frontier, s.flags)
    {
      var s', stop, i, n := Step(o, c, s);
      TraceExtend(o, c, trace, picks, nodes, i, n, s');
      trace, picks, nodes := trace + [s'], picks + [i], nodes + [n];
      s := s';
      if stop {
        return;
      }
    }
  }

  /** `run(u)`: recompute the destinations on the first call, or on every call in radar
      mode, then search best-first from `u`, accepting each reached vertex not fetched
      before, until `nBlocks` vertices are accepted or nothing is left to explore. The
      result lists the accepted vertices in acceptance order. */
  method Run(o: Oracles, vs: seq<Vertex>, cfg: Config, st: State, u: int)
    returns (out: seq<int>, accepted: seq<Node>, st': State,
             ghost trace: seq<Search>, ghost picks: seq<int>, ghost nodes: seq<Node>)
    requires ValidGraph(vs) && IsVertex(vs, u) && cfg.topM >= 1
    requires AllVertices(vs, st.dests) && (!st.firstTime ==> |st.dests| >= 1)
    ensures !st'.firstTime && |st'.dests| >= 1 && AllVertices(vs, st'.dests)
    ensures cfg.radar || st.firstTime ==> IsTopSelection(vs, u, cfg.steps, cfg.topM, st'.dests)
    ensures !cfg.radar && !st.firstTime ==> st'.dests == st.dests
    ensures Distinct(out)
    ensures forall k :: 0 <= k < |out| ==> out[k] != u && out[k] !in st.visited && Reachable(vs, u, out[k])
    ensures st'.visited == st.visited + (set k | 0 <= k < |out| :: out[k])
    ensures cfg.nBlocks >= 1 ==> |out| <= cfg.nBlocks
    ensures cfg.nBlocks < 1 || |out| < cfg.nBlocks ==>
              forall v :: Reachable(vs, u, v) ==> v == u || v in st'.visited
    ensures |st'.finished| == |st'.dests|
    ensures out == Stops(accepted)
    ensures forall k :: 0 <= k < |accepted| ==> 0 <= accepted[k].dest < |st'.dests|
    ensures forall i :: 0 <= i < |st'.dests| ==> (st'.finished[i] <==> FinishedBy(st'.dests, accepted, i))
    ensures forall i :: 0 <= i < |st'.dests| && st'.finished[i] ==> st'.dests[i] in out
    ensures st'.rngPos >= st.rngPos
    ensures Trace(o, Call(vs, st'.dests, u, st.visited, cfg.nBlocks), st.rngPos, trace, picks, nodes)
    ensures accepted == trace[|picks|].accepted && st'.finished == trace[|picks|].flags
    ensures st'.visited == trace[|picks|].visited && st'.rngPos == trace[|picks|].pos
  {
    var dests := st.dests;
    if cfg.radar || st.firstTime {
      dests := TopNodes(vs, u, cfg.topM, cfg.steps);
    }
    var c := Call(vs, dests, u, st.visited, cfg.nBlocks);
    var s;
    s, trace, picks, nodes := Explore(o, c, st.rngPos);
    var stopped := s.frontier != [] || !Running(c, s);
    accepted := s.accepted;
    out := Stops(accepted);
    st' := State(dests, false, s.visited, s.flags, s.pos);
    forall k | 0 <= k < |out|
      ensures out[k] != u && out[k] !in st.visited && Reachable(vs, u, out[k])
    {
      assert Emitted(c, s.accepted, k);
    }
    forall k | 0 <= k < |accepted|
      ensures 0 <= accepted[k].dest < |st'.dests|
    {
      assert Emitted(c, s.accepted, k);
    }
    assert (set k | 0 <= k < |out| :: out[k]) == Fetched(s.accepted);
    if !stopped {
      forall v | Reachable(vs, u, v)
        ensures v == u || v in st'.visited
      {
        Exhausted(c, s, v);
      }
    }
    forall i | 0 <= i < |st'.dests| && st'.finished[i]
      ensures st'.dests[i] in out
    {
      FinishedReached(c, s, i);
    }
  }
}
