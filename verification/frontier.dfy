/**
 The planner's frontier: a priority queue of nodes ordered by score, with a per-call
 list of the vertices ever queued (`localVisited`) that keeps a vertex from being
 queued twice.
 */
module Frontier {
  import opened Nodes

  /** Entry `i` scores no more than any other entry, so the queue may hand it out next. */
  predicate IsLeast(ns: seq<Node>, i: int)
    requires 0 <= i < |ns|
  {
    forall j :: 0 <= j < |ns| ==> Score(ns[i]) <= Score(ns[j])
  }

  /** Being least is `compareTo`'s verdict: no entry compares before entry `i`. */
  lemma LeastByCompare(ns: seq<Node>, i: int)
    requires 0 <= i < |ns|
    ensures IsLeast(ns, i) <==> forall j :: 0 <= j < |ns| ==> Compare(ns[i], ns[j]) <= 0
  {
  }

  /** `localVisited.contains(k)`: some recorded node is `equals` to `k`. */
  ghost predicate Contains(recorded: seq<Node>, k: Node) {
    exists j :: 0 <= j < |recorded| && SameVertex(recorded[j], k)
  }

  /** Since `equals` compares vertices only, the recorded list can be kept as the set of
      its vertices: `contains` holds exactly when the child's vertex is in that set. */
  lemma ContainsIsSeen(recorded: seq<Node>, k: Node)
    ensures Contains(recorded, k) <==> k.u in (set j | 0 <= j < |recorded| :: recorded[j].u)
  {
    if k.u in (set j | 0 <= j < |recorded| :: recorded[j].u) {
      var j :| 0 <= j < |recorded| && recorded[j].u == k.u;
      assert SameVertex(recorded[j], k);
    }
  }

  /** A first least entry of a non-empty queue. */
  function FirstLeast(ns: seq<Node>): (i: int)
    requires |ns| > 0
    ensures 0 <= i < |ns| && IsLeast(ns, i)
    ensures forall j :: 0 <= j < i ==> Score(ns[j]) > Score(ns[i])
  {
    if |ns| == 1 then 0
    else
      var k := FirstLeast(ns[1..]);
      assert forall j :: 1 <= j < |ns| ==> ns[j] == ns[1..][j - 1];
      if Score(ns[0]) <= Score(ns[k + 1]) then 0 else k + 1
  }

  /** The queue without entry `i`. */
  function Remove(ns: seq<Node>, i: int): (r: seq<Node>)
    requires 0 <= i < |ns|
    ensures |r| == |ns| - 1
    ensures forall j :: 0 <= j < i ==> r[j] == ns[j]
    ensures forall j :: i <= j < |r| ==> r[j] == ns[j + 1]
  {
    ns[..i] + ns[i + 1..]
  }

  /** Adds, in order, every child whose vertex was never queued in this call, and
      records the children's vertices as queued. */
  function Enqueue(frontier: seq<Node>, seen: set<int>, kids: seq<Node>): (r: (seq<Node>, set<int>))
    ensures r.1 == seen + (set k | 0 <= k < |kids| :: kids[k].u)
    ensures |frontier| <= |r.0| && r.0[..|frontier|] == frontier
    ensures forall j :: |frontier| <= j < |r.0| ==> r.0[j] in kids && r.0[j].u !in seen
    ensures forall i, j :: |frontier| <= i < j < |r.0| ==> r.0[i].u != r.0[j].u
    ensures forall v :: v in r.1 && v !in seen ==> v in Stops(r.0)
    ensures r.1 == seen ==> r.0 == frontier
    decreases |kids|
  {
    if kids == [] then (frontier, seen)
    else
      var k := kids[0];
      assert forall j :: 1 <= j < |kids| ==> kids[j] == kids[1..][j - 1];
      assert (set j | 0 <= j < |kids| :: kids[j].u) == {k.u} + (set j | 0 <= j < |kids[1..]| :: kids[1..][j].u);
      if k.u in seen then
        Enqueue(frontier, seen, kids[1..])
      else
        var r := Enqueue(frontier + [k], seen + {k.u}, kids[1..]);
        assert r.0[..|frontier| + 1][..|frontier|] == r.0[..|frontier|];
        assert r.0[|frontier|] == k;
        assert k.u in Stops(r.0);
        r
  }

  /** How much work a queued node still stands for: a node whose destination is already
      finished will be re-aimed before it is accepted, so it counts twice. */
  function Weight(n: Node, flags: seq<bool>): nat {
    if 0 <= n.dest < |flags| && flags[n.dest] then 2 else 1
  }

  function Load(ns: seq<Node>, flags: seq<bool>): nat {
    if ns == [] then 0 else Weight(ns[0], flags) + Load(ns[1..], flags)
  }

  lemma {:induction false} LoadAppend(a: seq<Node>, b: seq<Node>, flags: seq<bool>)
    ensures Load(a + b, flags) == Load(a, flags) + Load(b, flags)
  {
    if a != [] {
      assert (a + b)[1..] == a[1..] + b;
      LoadAppend(a[1..], b, flags);
    } else {
      assert a + b == b;
    }
  }

  /** Taking entry `i` off the queue lowers its load by that entry's weight. */
  lemma LoadRemove(ns: seq<Node>, i: int, flags: seq<bool>)
    requires 0 <= i < |ns|
    ensures Load(Remove(ns, i), flags) + Weight(ns[i], flags) == Load(ns, flags)
  {
    assert ns == ns[..i] + ([ns[i]] + ns[i + 1..]);
    LoadAppend(ns[..i], [ns[i]] + ns[i + 1..], flags);
    LoadAppend(ns[..i], ns[i + 1..], flags);
    assert Load([ns[i]] + ns[i + 1..], flags) == Weight(ns[i], flags) + Load(ns[i + 1..], flags) by {
      assert ([ns[i]] + ns[i + 1..])[1..] == ns[i + 1..];
    }
  }
}
