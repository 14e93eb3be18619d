/**
 The entries of the planner's frontier: a vertex on a prefetching path with the length
 walked to reach it and the estimated cost from it to the destination it heads for,
 their ordering, and the children `getPossibleNodes` builds for one of them.
 */
module Nodes {
  import opened Graph
  import opened Ranking
  import opened Retarget

  /** An `ME4Node`: vertex `u`, the path length `weight1` walked to reach it, the
      shortest-path cost `weight2` from it to its destination, and the index `dest` of
      that destination in the destination list (`-1` for the start of the search, whose
      destination is not chosen yet). The parent link is not modelled. */
  datatype Node = Node(u: int, weight1: real, weight2: real, dest: int)

  /** The quantity the frontier is ordered by. */
  function Score(n: Node): real {
    n.weight1 + n.weight2
  }

  /** `compareTo`: negative, zero or positive as `a` costs less than, as much as, or more
      than `b`. */
  function Compare(a: Node, b: Node): (r: int)
    ensures r < 0 <==> Score(a) < Score(b)
    ensures r == 0 <==> Score(a) == Score(b)
    ensures -1 <= r <= 1
  {
    if Score(a) < Score(b) then -1
    else if Score(a) > Score(b) then 1
    else 0
  }

  /** `equals`: two entries are the same when they stand on the same vertex, whatever
      their weights and destinations. */
  predicate SameVertex(a: Node, b: Node) {
    a.u == b.u
  }

  /** The comparison is a total preorder: antisymmetric in sign and transitive, so
      "remove a least entry" is well defined. */
  lemma CompareIsTotalPreorder(a: Node, b: Node, c: Node)
    ensures Compare(a, b) == -Compare(b, a)
    ensures Compare(a, b) <= 0 && Compare(b, c) <= 0 ==> Compare(a, c) <= 0
    ensures Compare(a, b) <= 0 || Compare(b, a) <= 0
  {
  }

  /** Equality and ordering disagree: two entries on the same vertex can compare
      unequal, and entries on different vertices can compare equal. */
  lemma EqualityIgnoresWeights()
    ensures SameVertex(Node(0, 1.0, 0.0, 0), Node(0, 2.0, 0.0, 0))
    ensures Compare(Node(0, 1.0, 0.0, 0), Node(0, 2.0, 0.0, 0)) != 0
    ensures !SameVertex(Node(0, 1.0, 0.0, 0), Node(1, 0.0, 1.0, 0))
    ensures Compare(Node(0, 1.0, 0.0, 0), Node(1, 0.0, 1.0, 0)) == 0
  {
  }

  /** What the child built for neighbour `v` of `parent` must be, with the random stream
      at `pos`: it stands on `v`; its path length extends the parent's by the distance
      from `v` to the parent's vertex; it keeps the parent's open destination, replaces a
      finished one by the open destination nearest to the PARENT's vertex, or, below the
      start of the search, takes the destination nearest to `v` itself (itself replaced
      the same way if already finished); once every destination is finished it takes the
      random draw; its cost is the shortest-path cost from `v` to that destination. */
  ghost predicate ChildOf(o: Oracles, vs: seq<Vertex>, dests: seq<int>, flags: seq<bool>,
                          parent: Node, v: int, pos: nat, c: Node)
    requires AllVertices(vs, dests) && |flags| == |dests| >= 1
    requires IsVertex(vs, parent.u) && IsVertex(vs, v) && -1 <= parent.dest < |dests|
  {
    var first := if parent.dest == -1 then Nearest(o, vs, dests, NoneClosed(|dests|), vs[v].lat, vs[v].lon)
                 else parent.dest;
    && c.u == v
    && c.weight1 == parent.weight1 + o.dist(vs[v].lat, vs[v].lon, vs[parent.u].lat, vs[parent.u].lon)
    && 0 <= c.dest < |dests|
    && c.weight2 == o.cost(v, dests[c.dest])
    && (AllFinished(flags) ==> c.dest == o.rnd(pos) % |dests|)
    && (!AllFinished(flags) && !flags[first] ==> c.dest == first)
    && (!AllFinished(flags) && flags[first] ==>
          IsNearest(o, vs, dests, flags, vs[parent.u].lat, vs[parent.u].lon, c.dest))
  }

  /** Random draws the expansion of one child consumes. */
  function DrawsPerChild(flags: seq<bool>): nat {
    if AllFinished(flags) then 1 else 0
  }

  /** The child `getPossibleNodes` builds for neighbour `v` of `parent`, and the next
      stream position. */
  function Child(o: Oracles, vs: seq<Vertex>, dests: seq<int>, flags: seq<bool>,
                 parent: Node, v: int, pos: nat): (r: (Node, nat))
    requires AllVertices(vs, dests) && |flags| == |dests| >= 1
    requires IsVertex(vs, parent.u) && IsVertex(vs, v)
    requires -1 <= parent.dest < |dests|
    ensures ChildOf(o, vs, dests, flags, parent, v, pos, r.0)
    ensures r.1 == pos + DrawsPerChild(flags)
  {
    var first := if parent.dest == -1 then Nearest(o, vs, dests, NoneClosed(|dests|), vs[v].lat, vs[v].lon)
                 else parent.dest;
    var (d, pos') := ChangePath(o, vs, dests, flags, parent.u, first, pos);
    var w1 := parent.weight1 + o.dist(vs[v].lat, vs[v].lon, vs[parent.u].lat, vs[parent.u].lon);
    (Node(v, w1, o.cost(v, dests[d]), d), pos')
  }

  /** `getPossibleNodes`: one child per neighbour of `parent`, in the order the
      neighbours are stored, drawing from the random stream in that order. */
  function Children(o: Oracles, vs: seq<Vertex>, dests: seq<int>, flags: seq<bool>,
                    parent: Node, pos: nat): (r: (seq<Node>, nat))
    requires ValidGraph(vs) && AllVertices(vs, dests) && |flags| == |dests| >= 1
    requires IsVertex(vs, parent.u) && -1 <= parent.dest < |dests|
    ensures |r.0| == |vs[parent.u].neighbours|
    ensures forall k :: 0 <= k < |r.0| ==>
              ChildOf(o, vs, dests, flags, parent, vs[parent.u].neighbours[k], if AllFinished(flags) then pos + k else pos, r.0[k])
    ensures r.1 == if AllFinished(flags) then pos + |r.0| else pos
  {
    ChildrenFrom(o, vs, dests, flags, parent, 0, pos)
  }

  /** The children for the neighbours from position `k` on, the first of them drawing at
      stream position `pos`. */
  function ChildrenFrom(o: Oracles, vs: seq<Vertex>, dests: seq<int>, flags: seq<bool>,
                        parent: Node, k: nat, pos: nat): (r: (seq<Node>, nat))
    requires ValidGraph(vs) && AllVertices(vs, dests) && |flags| == |dests| >= 1
    requires IsVertex(vs, parent.u) && -1 <= parent.dest < |dests|
    requires k <= |vs[parent.u].neighbours|
    ensures |r.0| == |vs[parent.u].neighbours| - k
    ensures forall j :: 0 <= j < |r.0| ==>
              ChildOf(o, vs, dests, flags, parent, vs[parent.u].neighbours[k + j],
                      if AllFinished(flags) then pos + j else pos, r.0[j])
    ensures r.1 == if AllFinished(flags) then pos + |r.0| else pos
    decreases |vs[parent.u].neighbours| - k
  {
    var nbrs := vs[parent.u].neighbours;
    if k == |nbrs| then ([], pos)
    else
      var (c, pos') := Child(o, vs, dests, flags, parent, nbrs[k], pos);
      var (rest, pos'') := ChildrenFrom(o, vs, dests, flags, parent, k + 1, pos');
      ([c] + rest, pos'')
  }

  /** The vertices of a list of frontier entries, in order. */
  function Stops(ns: seq<Node>): (r: seq<int>)
    ensures |r| == |ns| && forall j :: 0 <= j < |ns| ==> r[j] == ns[j].u
  {
    seq(|ns|, j requires 0 <= j < |ns| => ns[j].u)
  }
}
