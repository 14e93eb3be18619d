/**
 Choosing which destination a prefetching path heads for: the nearest destination by
 geographic distance, a replacement when the current one has been reached, and a
 random pick once every destination has been reached.
 */
module Retarget {
  import opened Graph
  import opened Ranking

  /** `allDestVisited`: no destination is still open. */
  function AllFinished(flags: seq<bool>): (r: bool)
    ensures r <==> forall i :: 0 <= i < |flags| ==> flags[i]
  {
    if flags == [] then true
    else if !flags[0] then false
    else
      var rest := AllFinished(flags[1..]);
      assert forall i :: 1 <= i < |flags| ==> flags[i] == flags[1..][i - 1];
      rest
  }

  /** Distance from destination `i` to the point (`lat`, `lon`), destination first as
      the source passes it. */
  function DestDistance(o: Oracles, vs: seq<Vertex>, dests: seq<int>, i: int, lat: real, lon: real): real
    requires AllVertices(vs, dests) && 0 <= i < |dests|
  {
    o.dist(vs[dests[i]].lat, vs[dests[i]].lon, lat, lon)
  }

  /** `r` is the first destination, among those `closed` does not exclude, at the least
      distance from (`lat`, `lon`); `-1` when every destination is excluded. */
  ghost predicate IsNearest(o: Oracles, vs: seq<Vertex>, dests: seq<int>, closed: seq<bool>,
                            lat: real, lon: real, r: int)
    requires AllVertices(vs, dests) && |closed| == |dests|
  {
    if forall i :: 0 <= i < |dests| ==> closed[i] then r == -1
    else
      && 0 <= r < |dests| && !closed[r]
      && (forall i :: 0 <= i < |dests| && !closed[i] ==>
            DestDistance(o, vs, dests, r, lat, lon) <= DestDistance(o, vs, dests, i, lat, lon))
      && (forall i :: 0 <= i < r && !closed[i] ==>
            DestDistance(o, vs, dests, i, lat, lon) > DestDistance(o, vs, dests, r, lat, lon))
  }

  /** The scan that finds the nearest open destination: the entries before `i` have been
      looked at and `best` is the first closest among them (`-1` while none was open).
      Only a strictly closer destination replaces the current best. */
  function NearestFrom(o: Oracles, vs: seq<Vertex>, dests: seq<int>, closed: seq<bool>,
                       lat: real, lon: real, i: int, best: int, bestDist: real): (r: int)
    requires AllVertices(vs, dests) && |closed| == |dests| && 0 <= i <= |dests|
    requires best == -1 <==> forall j :: 0 <= j < i ==> closed[j]
    requires best != -1 ==>
      && 0 <= best < i && !closed[best] && bestDist == DestDistance(o, vs, dests, best, lat, lon)
      && (forall j :: 0 <= j < i && !closed[j] ==> bestDist <= DestDistance(o, vs, dests, j, lat, lon))
      && (forall j :: 0 <= j < best && !closed[j] ==> DestDistance(o, vs, dests, j, lat, lon) > bestDist)
    ensures IsNearest(o, vs, dests, closed, lat, lon, r)
    decreases |dests| - i
  {
    if i == |dests| then best
    else
      var d := DestDistance(o, vs, dests, i, lat, lon);
      if !closed[i] && (best == -1 || d < bestDist) then
        NearestFrom(o, vs, dests, closed, lat, lon, i + 1, i, d)
      else
        NearestFrom(o, vs, dests, closed, lat, lon, i + 1, best, bestDist)
  }

  /** The nearest destination to (`lat`, `lon`) that `closed` does not exclude. */
  function Nearest(o: Oracles, vs: seq<Vertex>, dests: seq<int>, closed: seq<bool>,
                   lat: real, lon: real): (r: int)
    requires AllVertices(vs, dests) && |closed| == |dests|
    ensures IsNearest(o, vs, dests, closed, lat, lon, r)
  {
    NearestFrom(o, vs, dests, closed, lat, lon, 0, -1, 0.0)
  }

  /** No destination is excluded: the first-time assignment considers them all. */
  function NoneClosed(n: nat): (r: seq<bool>)
    ensures |r| == n && forall i :: 0 <= i < n ==> !r[i]
  {
    seq(n, i => false)
  }

  /** `changePathIfNecessary` for a path at vertex `at` heading for destination `idx`,
      with the random stream at position `pos`: the new destination and the next stream
      position. */
  function ChangePath(o: Oracles, vs: seq<Vertex>, dests: seq<int>, flags: seq<bool>,
                      at: int, idx: int, pos: nat): (r: (int, nat))
    requires AllVertices(vs, dests) && |flags| == |dests| >= 1 && IsVertex(vs, at)
    requires AllFinished(flags) || 0 <= idx < |dests|
    ensures 0 <= r.0 < |dests|
    ensures AllFinished(flags) ==> r == (o.rnd(pos) % |dests|, pos + 1)
    ensures !AllFinished(flags) ==> r.1 == pos && !flags[r.0]
    ensures !AllFinished(flags) && !flags[idx] ==> r.0 == idx
    ensures !AllFinished(flags) && flags[idx] ==>
              IsNearest(o, vs, dests, flags, vs[at].lat, vs[at].lon, r.0)
  {
    if AllFinished(flags) then Draw(o, pos, |dests|)
    else if flags[idx] then (Nearest(o, vs, dests, flags, vs[at].lat, vs[at].lon), pos)
    else (idx, pos)
  }

  /** The nearest-destination rule names exactly one destination: the scan's result is
      the only index meeting it. */
  lemma NearestUnique(o: Oracles, vs: seq<Vertex>, dests: seq<int>, closed: seq<bool>,
                      lat: real, lon: real, r1: int, r2: int)
    requires AllVertices(vs, dests) && |closed| == |dests|
    requires IsNearest(o, vs, dests, closed, lat, lon, r1)
    requires IsNearest(o, vs, dests, closed, lat, lon, r2)
    ensures r1 == r2
  {
  }
}
