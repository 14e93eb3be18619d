/**
 The indoor navigation graph the prefetching heuristic walks over, the oracles it
 consults (geographic distance, shortest-path cost, random draws), and the hop
 neighbourhoods ("balls") a breadth-first search from a source discovers.
 */
module Graph {

  /** A point of interest. `id` is its position in the vertex array; `neighbours`
      lists the ids of the vertices it has an edge to, in the order they are stored. */
  datatype Vertex = Vertex(id: int, lat: real, lon: real, pagerank: real, neighbours: seq<int>)

  /** The collaborators the heuristic calls but does not define:
      - `dist` is the haversine distance between two (lat, lon) pairs, in metres;
      - `cost` is the shortest-path cost between two vertex ids;
      - `rnd` is the stream of values behind the random source: the i-th draw
        with bound b is `rnd(i) % b`, so every sequence of in-range draws is
        some stream. */
  datatype Oracles = Oracles(
    dist: (real, real, real, real) -> real,
    cost: (int, int) -> real,
    rnd: nat -> nat)

  predicate IsVertex(vs: seq<Vertex>, v: int) {
    0 <= v < |vs|
  }

  /** Every vertex sits at the index its id names and every neighbour id names a vertex. */
  predicate ValidGraph(vs: seq<Vertex>) {
    forall i :: 0 <= i < |vs| ==>
      && vs[i].id == i
      && forall j :: 0 <= j < |vs[i].neighbours| ==> IsVertex(vs, vs[i].neighbours[j])
  }

  /** The `pos`-th draw of `Random.nextInt(bound)`, together with the next position. */
  function Draw(o: Oracles, pos: nat, bound: int): (r: (int, nat))
    requires bound > 0
    ensures 0 <= r.0 < bound
    ensures r.1 == pos + 1
  {
    (o.rnd(pos) % bound, pos + 1)
  }

  /** The vertices one edge away from some vertex of `S`. */
  ghost function OneHop(vs: seq<Vertex>, S: set<int>): set<int> {
    set v, j | v in S && 0 <= v < |vs| && 0 <= j < |vs[v].neighbours| :: vs[v].neighbours[j]
  }

  /** The vertices at most `k` edges away from `s`. */
  ghost function Ball(vs: seq<Vertex>, s: int, k: nat): set<int> {
    if k == 0 then {s} else Ball(vs, s, k - 1) + OneHop(vs, Ball(vs, s, k - 1))
  }

  ghost predicate Reachable(vs: seq<Vertex>, s: int, v: int) {
    exists k: nat :: v in Ball(vs, s, k)
  }

  /** Every neighbour of vertex `v` is in `S`. */
  ghost predicate NeighboursIn(vs: seq<Vertex>, v: int, S: set<int>) {
    0 <= v < |vs| ==> forall j :: 0 <= j < |vs[v].neighbours| ==> vs[v].neighbours[j] in S
  }

  /** `S` contains every neighbour of each of its vertices. */
  ghost predicate Closed(vs: seq<Vertex>, S: set<int>) {
    forall v :: v in S ==> NeighboursIn(vs, v, S)
  }

  lemma {:induction false} BallGrows(vs: seq<Vertex>, s: int, a: nat, b: nat)
    requires a <= b
    ensures Ball(vs, s, a) <= Ball(vs, s, b)
    decreases b - a
  {
    if a < b {
      BallGrows(vs, s, a, b - 1);
    }
  }

  /** A set that holds the source and is closed under edges holds every ball around it. */
  lemma {:induction false} ClosedHoldsBall(vs: seq<Vertex>, s: int, S: set<int>, k: nat)
    requires s in S && Closed(vs, S)
    ensures Ball(vs, s, k) <= S
  {
    if k > 0 {
      ClosedHoldsBall(vs, s, S, k - 1);
      forall w | w in OneHop(vs, Ball(vs, s, k - 1))
        ensures w in S
      {
        var v, j :| v in Ball(vs, s, k - 1) && 0 <= v < |vs| && 0 <= j < |vs[v].neighbours|
                    && w == vs[v].neighbours[j];
        assert NeighboursIn(vs, v, S);
      }
    }
  }

  /** A neighbour of a vertex in the k-ball lies in the (k+1)-ball. */
  lemma NeighbourInNextBall(vs: seq<Vertex>, s: int, k: nat, v: int, j: int)
    requires v in Ball(vs, s, k) && 0 <= v < |vs| && 0 <= j < |vs[v].neighbours|
    ensures vs[v].neighbours[j] in Ball(vs, s, k + 1)
  {
    assert vs[v].neighbours[j] in OneHop(vs, Ball(vs, s, k));
  }
}
