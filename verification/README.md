# ME4a block prefetching, modelled in Dafny

`ME4a` is one of the Anyplace simulator's prefetching heuristics. An agent moves
through an indoor navigation graph of points of interest. On each call `run(u)`
receives the agent's current vertex `u` and decides which map blocks (vertices) to
fetch next. It proceeds in four steps:

1. **Destinations.** It picks a handful of likely destinations (`getTopNodes`). This is a
   breadth-first search from `u` limited to `topMdestinationsSteps` hops. The discovered
   vertices are sorted by pagerank, highest first, and the first `topMdestinations` are
   kept. This happens on the first call, or on every call in *radar* mode.
2. **Best-first search.** It grows prefetching paths best-first from `u`. Each frontier
   entry (an `ME4Node`) carries:
   - the path length walked so far (`weight1`);
   - the shortest-path cost to the destination it heads for (`weight2`);
   - the index of that destination.

   The queue hands out an entry of least `weight1 + weight2`.
3. **Acceptance.** A popped vertex that is neither `u` nor already fetched is first
   re-aimed by `changePathIfNecessary`:
   - when every destination is finished, a random one is drawn;
   - when its own destination is finished and at least one other is still open, the
     nearest open one is taken;
   - otherwise the destination is kept.

   If its destination moved while some are still open, it goes back on the queue.
   Otherwise it is accepted and fetched. Its destination is finished when the vertex
   stands on it. The search stops when `nBlocks` vertices are accepted.
4. **Children.** The neighbours of a popped entry become children (`getPossibleNodes`).
   This holds for the start vertex, for an already fetched vertex and for an accepted
   one. It does not hold for an entry that went back on the queue (the `continue` at
   lines 163-166), nor for the entry that filled the budget (the `break` at lines
   175-177). A child is queued only if its vertex was never queued in this call (`localVisited`,
   compared through `ME4Node.equals`, i.e. by vertex).

The model is split into modules that follow this structure:

- `Graph` (graph.dfy) holds:
  - vertices, with id = index;
  - the oracles for the haversine distance, the Dijkstra cost and the random stream;
  - hop balls and reachability.
- `Ranking` (ranking.dfy): the pagerank comparator and the sort.
- `Destinations` (destinations.dfy): the breadth-first discovery and `getTopNodes`.
- `Retarget` (retarget.dfy): `allDestVisited`, the nearest-destination scans and
  `changePathIfNecessary`.
- `Nodes` (nodes.dfy): `ME4Node`, its `compareTo` and `equals`, and `getPossibleNodes`.
- `Frontier` (frontier.dfy): the priority queue's pop, and the `localVisited`-filtered
  enqueue.
- `Planner` (planner.dfy): one iteration of `run`'s loop, and `run` itself.
  - The loop invariant `Inv` says:
    - every queued entry is reachable and is queued once;
    - `visited` is the earlier set plus the accepted vertices;
    - a destination is finished exactly when an accepted node reached it;
    - every vertex that has left the queue had its neighbours queued and is `u` or
      fetched.
  - One pass of the loop body is the transition `Iteration`. It covers four cases: the
    start or a fetched vertex is only expanded; an entry is re-queued; an entry is
    accepted and fills the budget; an entry is accepted and then expanded. The `Step`,
    `Explore` and `Run` contracts are stated through it.
  - Termination is by the lexicographic measure (never-queued vertices, open
    destinations, queue load).

The collaborators are parameters (`Oracles`):
- `dist` for `distance`;
- `cost` for `dijkstra.execute`;
- `rnd`, an abstract stream with one entry per `nextInt` call. The i-th `nextInt(b)`
  is `rnd(i) % b`, so every sequence of in-range draws arises from some stream.

Real arithmetic stands in for `double`.

The model follows the code. Points of the code that are easy to miss, and the one place
where a comment and the code disagree (lines 161-162):
- A child of the start vertex (destination index `-1`) first takes the destination
  nearest to the CHILD's vertex, among all destinations, finished or not. It is then
  re-aimed like any other child.
- When a child is re-aimed, the distance is measured from the PARENT's vertex. This is
  because `changePathIfNecessary` is passed the parent.
- `nBlocks <= 0` means no budget: `++count == nBlocks` never holds.
- A negative `topMdestinationsSteps` means the breadth-first search is never cut off.
- The comment at lines 161-162 says an entry whose destination changed once all
  destinations are finished is "skipped". The code skips only the re-queue and accepts
  the entry.

## Model

Paths are relative to the repository root. `ME4a.java` is
`simulator/DataConnector/src/main/java/com/dmsl/anyplace/algorithms/blocks/ME4a.java`.

| member | source | states |
|---|---|---|
| Graph.Draw | simulator/DataConnector/src/main/java/com/dmsl/anyplace/algorithms/blocks/ME4a.java:273 | `rnd.nextInt(bound)` yields a value in `[0, bound)` and consumes exactly one draw of the stream |
| Graph.ClosedHoldsBall | simulator/DataConnector/src/main/java/com/dmsl/anyplace/algorithms/blocks/ME4a.java:150-187 | a vertex set that holds the start and contains every neighbour of each of its members contains every vertex any number of hops away |
| Graph.NeighbourInNextBall | simulator/DataConnector/src/main/java/com/dmsl/anyplace/algorithms/blocks/ME4a.java:107-114 | a neighbour of a vertex within k hops is within k + 1 hops |
| Ranking.RankComparatorAsWritten | simulator/DataConnector/src/main/java/com/dmsl/anyplace/algorithms/blocks/ME4a.java:119 | the sort's lambda answers only -1 or 1, and -1 exactly when the first vertex has the strictly greater pagerank |
| Ranking.TiesBreakComparatorContract | simulator/DataConnector/src/main/java/com/dmsl/anyplace/algorithms/blocks/ME4a.java:119 | for two vertices of equal pagerank the lambda answers 1 both ways round, so swapping the arguments does not flip the sign |
| Ranking.RankCompare | simulator/DataConnector/src/main/java/com/dmsl/anyplace/algorithms/blocks/ME4a.java:119 | the intended comparator is negative, zero or positive exactly as the first pagerank is greater than, equal to or less than the second |
| Ranking.RankCompareIsConsistent | simulator/DataConnector/src/main/java/com/dmsl/anyplace/algorithms/blocks/ME4a.java:119 | the intended comparator flips sign when the arguments are swapped and is transitive |
| Ranking.Insert | simulator/DataConnector/src/main/java/com/dmsl/anyplace/algorithms/blocks/ME4a.java:119 | inserting into a list ranked by pagerank adds exactly that vertex, keeps every other one, and leaves the list ranked |
| Ranking.SortByPagerank | simulator/DataConnector/src/main/java/com/dmsl/anyplace/algorithms/blocks/ME4a.java:119 | the sort yields a rearrangement of its input (same multiset) whose pageranks never increase along the list |
| Ranking.NonIncreasingIsRankOrder | simulator/DataConnector/src/main/java/com/dmsl/anyplace/algorithms/blocks/ME4a.java:119 | a list is in the order the sort produces (pageranks never increasing) exactly when the corrected comparator never places an element after a later one |
| Ranking.PermutationKeepsDistinct | simulator/DataConnector/src/main/java/com/dmsl/anyplace/algorithms/blocks/ME4a.java:119-120 | rearranging a list without repetitions leaves none, so sorting the discovered vertices keeps them distinct |
| Destinations.ExpandNeighbours | simulator/DataConnector/src/main/java/com/dmsl/anyplace/algorithms/blocks/ME4a.java:107-114 | expanding the polled vertex appends only neighbours of it that were never seen, each once and one hop further out, keeps the list distinct and sorted by hop count, records each in `visited` as it is appended, and leaves the polled vertex with every neighbour discovered |
| Destinations.Discover | simulator/DataConnector/src/main/java/com/dmsl/anyplace/algorithms/blocks/ME4a.java:94-117 | the breadth-first phase returns the source first, no vertex twice, and exactly the vertices within `steps` hops, or every reachable vertex when `steps` is negative; with `steps = 0` that is the source alone |
| Destinations.DiscoveredAreCandidates | simulator/DataConnector/src/main/java/com/dmsl/anyplace/algorithms/blocks/ME4a.java:98-117 | whether the queue ran empty or the first vertex at hop `steps` was polled, the discovered set is exactly the vertices within the hop limit |
| Destinations.TopNodes | simulator/DataConnector/src/main/java/com/dmsl/anyplace/algorithms/blocks/ME4a.java:92-121 | `getTopNodes` returns at most `topM` distinct discovered vertices in non-increasing pagerank order. It returns fewer only when it keeps every discovered vertex, no discovered vertex left out ranks above one kept, and it returns at least one when `topM >= 1` |
| Destinations.RankedPrefixIsTop | simulator/DataConnector/src/main/java/com/dmsl/anyplace/algorithms/blocks/ME4a.java:119-121 | the first `topM` entries of a pagerank-ranked, repeat-free list of exactly the candidates (or the whole list when it is shorter) are a top selection: nothing left out ranks above anything kept |
| Retarget.AllFinished | simulator/DataConnector/src/main/java/com/dmsl/anyplace/algorithms/blocks/ME4a.java:259-264 | `allDestVisited` is true exactly when every finished flag is set (also when there are none) |
| Retarget.NearestFrom | simulator/DataConnector/src/main/java/com/dmsl/anyplace/algorithms/blocks/ME4a.java:286-306 | the scan with the `MAX_VALUE` sentinel and a strict `<` returns -1 when every destination is excluded. Otherwise it returns an open destination at least distance, the first such one |
| Retarget.Nearest | simulator/DataConnector/src/main/java/com/dmsl/anyplace/algorithms/blocks/ME4a.java:220-239 | the nearest destination to a point among those not excluded, first on ties; with none excluded this is the start-vertex assignment in `getPossibleNodes` |
| Retarget.NearestUnique | simulator/DataConnector/src/main/java/com/dmsl/anyplace/algorithms/blocks/ME4a.java:286-306 | the nearest-destination rule names one destination only, so the scan's answer is determined |
| Retarget.ChangePath | simulator/DataConnector/src/main/java/com/dmsl/anyplace/algorithms/blocks/ME4a.java:266-321 | `changePathIfNecessary` returns a valid index. When all destinations are finished it is the next random draw, consuming one draw. Otherwise no draw is consumed and the result is open: the given index when that is open, else the open destination nearest the current vertex |
| Nodes.Compare | simulator/DataConnector/src/main/java/com/dmsl/anyplace/algorithms/blocks/ME4a.java:386-396 | `compareTo` is negative, zero or positive exactly as `weight1 + weight2` is less than, equal to or greater than the other's |
| Nodes.CompareIsTotalPreorder | simulator/DataConnector/src/main/java/com/dmsl/anyplace/algorithms/blocks/ME4a.java:386-396 | `compareTo` flips sign when the arguments are swapped, is transitive and is total, so "remove a least entry" is well defined |
| Nodes.EqualityIgnoresWeights | simulator/DataConnector/src/main/java/com/dmsl/anyplace/algorithms/blocks/ME4a.java:381-396 | `equals` looks at the vertex only. Two entries on one vertex can compare unequal, and entries on different vertices can compare equal |
| Nodes.Child | simulator/DataConnector/src/main/java/com/dmsl/anyplace/algorithms/blocks/ME4a.java:210-253 | a child stands on the neighbour, and its `weight1` is the parent's plus the neighbour-to-parent distance. Its destination is valid and its `weight2` is the cost to it. The destination is the draw when all are finished, the parent's (or, below the start, the nearest to the child) when open, else the open destination nearest to the PARENT |
| Nodes.ChildrenFrom | simulator/DataConnector/src/main/java/com/dmsl/anyplace/algorithms/blocks/ME4a.java:210-254 | the children for the remaining neighbours, one per neighbour in order, each as `Child` states, with the random stream advanced one draw per child exactly when all destinations are finished |
| Nodes.Children | simulator/DataConnector/src/main/java/com/dmsl/anyplace/algorithms/blocks/ME4a.java:204-257 | `getPossibleNodes` builds one child per neighbour, and the k-th child is the one `Child` describes for the k-th neighbour |
| Nodes.Stops | simulator/DataConnector/src/main/java/com/dmsl/anyplace/algorithms/blocks/ME4a.java:196-199 | the result list holds, in order, the vertex of each accepted node, one per node |
| Frontier.FirstLeast | simulator/DataConnector/src/main/java/com/dmsl/anyplace/algorithms/blocks/ME4a.java:152 | a non-empty queue has an entry of least score (the first such), which `remove()` may hand out |
| Frontier.Remove | simulator/DataConnector/src/main/java/com/dmsl/anyplace/algorithms/blocks/ME4a.java:152 | taking entry i off the queue keeps every other entry, in order |
| Frontier.Enqueue | simulator/DataConnector/src/main/java/com/dmsl/anyplace/algorithms/blocks/ME4a.java:181-186 | the queued set grows by exactly the children's vertices. The old queue is kept, and each new entry is a child whose vertex was never queued, with no vertex added twice. Every newly queued vertex is on the queue, and nothing changes when no child is new |
| Frontier.LoadRemove | simulator/DataConnector/src/main/java/com/dmsl/anyplace/algorithms/blocks/ME4a.java:152 | removing an entry lowers the queue's load by exactly that entry's weight (the termination measure) |
| Frontier.LeastByCompare | simulator/DataConnector/src/main/java/com/dmsl/anyplace/algorithms/blocks/ME4a.java:386-396 | an entry is a least entry of the queue exactly when `compareTo` rates it at most every entry, which is what `remove()` hands out |
| Frontier.ContainsIsSeen | simulator/DataConnector/src/main/java/com/dmsl/anyplace/algorithms/blocks/ME4a.java:381-384 | `localVisited.contains(ot)`, which goes through `equals`, holds exactly when the child's vertex is among the recorded vertices, so the enqueue filter by vertex is that test |
| Planner.RestOfQueue | simulator/DataConnector/src/main/java/com/dmsl/anyplace/algorithms/blocks/ME4a.java:152 | after the pop the rest of the queue holds each vertex once, no longer holds the popped vertex, and holds exactly the other vertices, each still queued and reachable |
| Planner.Requeue | simulator/DataConnector/src/main/java/com/dmsl/anyplace/algorithms/blocks/ME4a.java:157-166 | putting the re-aimed entry back keeps the invariant and lowers the measure (its weight drops from 2 to 1) |
| Planner.Skip | simulator/DataConnector/src/main/java/com/dmsl/anyplace/algorithms/blocks/ME4a.java:152-154 | popping the start vertex or an already fetched one changes nothing but the queue, and lowers its load |
| Planner.AcceptBooks | simulator/DataConnector/src/main/java/com/dmsl/anyplace/algorithms/blocks/ME4a.java:168-174 | accepting a new vertex adds it to `visited` and appends it to the output, and the output stays free of repeats. It sets the finished flag exactly when the vertex is its destination's id, so every flag still means "an accepted node reached it" |
| Planner.Accept | simulator/DataConnector/src/main/java/com/dmsl/anyplace/algorithms/blocks/ME4a.java:168-177 | accepting keeps queue and bookkeeping invariants. It only sets flags, only appends to the output, and either finishes an open destination or lowers the queue load |
| Planner.ExpandQueue | simulator/DataConnector/src/main/java/com/dmsl/anyplace/algorithms/blocks/ME4a.java:180-186 | queuing the popped node's children keeps every queued entry reachable from the start and every vertex queued at most once |
| Planner.ExpandClosure | simulator/DataConnector/src/main/java/com/dmsl/anyplace/algorithms/blocks/ME4a.java:180-186 | after the children are queued, every queued vertex off the queue has all neighbours queued and is the start or fetched |
| Planner.ExpandProgress | simulator/DataConnector/src/main/java/com/dmsl/anyplace/algorithms/blocks/ME4a.java:150-187 | each iteration queues a vertex for the first time, finishes a destination or shrinks the queue load, so the loop terminates |
| Planner.Expand | simulator/DataConnector/src/main/java/com/dmsl/anyplace/algorithms/blocks/ME4a.java:180-186 | an iteration that reaches the children completes with the loop invariant restored and the measure lowered |
| Planner.Visit | simulator/DataConnector/src/main/java/com/dmsl/anyplace/algorithms/blocks/ME4a.java:154-177 | a popped vertex that is neither `u` nor fetched is re-aimed as `changePathIfNecessary` does. Its `weight2` is recomputed only when the destination was reassigned, and the stream moves one draw exactly when all destinations are finished. It is re-queued exactly when its destination changed while some are open, and the search left is then the rest of the queue plus the re-aimed entry. Otherwise the search left is the one in which it is accepted |
| Planner.Consider | simulator/DataConnector/src/main/java/com/dmsl/anyplace/algorithms/blocks/ME4a.java:154-186 | for a popped vertex that is neither `u` nor fetched, the iteration re-queues it, or accepts it and stops at the budget or queues its children, exactly as the loop body does. The accepted node, if any, is the re-aimed popped entry |
| Planner.Settle | simulator/DataConnector/src/main/java/com/dmsl/anyplace/algorithms/blocks/ME4a.java:168-186 | once the re-aimed entry is accepted, the loop stops exactly when that fills the budget and otherwise queues its children |
| Planner.Pass | simulator/DataConnector/src/main/java/com/dmsl/anyplace/algorithms/blocks/ME4a.java:154-186 | a popped entry that is `u` or already fetched fails the test at line 154, so it is only expanded. The iteration leaves exactly the search in which its children have been offered to the queue, with nothing accepted, and the invariant holds with the measure lowered |
| Planner.Step | simulator/DataConnector/src/main/java/com/dmsl/anyplace/algorithms/blocks/ME4a.java:150-187 | one iteration pops a least entry. The search it leaves is the one that iteration produces: the start or a fetched vertex only has its children queued; otherwise the entry is re-aimed and then re-queued, or accepted and, below the budget, expanded. The output grows by at most that entry, flags are only set, and the stream never moves backwards. `stop` holds exactly when the budget is reached, and otherwise the invariant holds and the measure dropped |
| Planner.Descend | simulator/DataConnector/src/main/java/com/dmsl/anyplace/algorithms/blocks/ME4a.java:180-186 | the queue and `localVisited` are exactly what offering `getPossibleNodes`' children to the queue through the `localVisited` filter gives, and the stream moves by that call's draws. The output, `visited` and the flags are untouched, and the loop invariant is restored |
| Planner.StartInv | simulator/DataConnector/src/main/java/com/dmsl/anyplace/algorithms/blocks/ME4a.java:130-148 | the loop starts with the flags reset, nothing accepted, and the start vertex alone queued with destination -1, which satisfies the invariant |
| Planner.Explore | simulator/DataConnector/src/main/java/com/dmsl/anyplace/algorithms/blocks/ME4a.java:150-187 | the loop's states form a trace from the initial search: each follows from the one before by one iteration that pops a least entry. The loop ends with the queue empty (the invariant holding) or with exactly `nBlocks` accepted |
| Planner.Exhausted | simulator/DataConnector/src/main/java/com/dmsl/anyplace/algorithms/blocks/ME4a.java:150-187 | when the queue runs empty, every vertex reachable from `u` is `u` or fetched |
| Planner.FinishedReached | simulator/DataConnector/src/main/java/com/dmsl/anyplace/algorithms/blocks/ME4a.java:170-171 | a finished destination's vertex is in the output |
| Planner.Run | simulator/DataConnector/src/main/java/com/dmsl/anyplace/algorithms/blocks/ME4a.java:124-202 | `run(u)` recomputes the destinations only on the first call or in radar mode. The states of its loop form a trace: it starts from the initial search, each state follows from the one before by one iteration popping a least entry, and the last has an empty queue or a reached budget. The returned ids are the vertices the last state accepted, in order, so the output is in acceptance order. It has no repeats, never `u`, and never a vertex fetched before. `visited` grows by exactly the output, and the output has at most `nBlocks` vertices when `nBlocks >= 1`. A flag is set exactly when an accepted node stood on its destination, and below the budget every vertex reachable from `u` ends up fetched |

## Left out

- The haversine `distance` (lines 323-337) and `dijkstra.execute` (lines 248, 278, 310) are oracle parameters. No property of them is assumed; in particular the distance is not required to be non-negative.
- `createGraph` (lines 63-90) is not modelled. It builds the graph behind `dijkstra.execute`, which is the `cost` oracle, and no relation between `cost` and `vs` is assumed. `vs` is the `vertices` array given to the constructor (lines 48-50), with ids equal to indices and neighbour ids in range.
- `java.util.Random` is replaced by the abstract stream `rnd`, one entry per `nextInt` call. Every sequence of in-range draws arises from some stream. The generator's own sequence is not modelled.
- `double` is modelled as exact reals. `Double.MAX_VALUE` as the sentinel of the nearest-destination scans acts as +infinity, so a scan over at least one candidate never returns -1. NaN or infinite distances are not modelled, nor an infinite `cost` returned by `dijkstra.execute` for an unreachable destination.
- Parsing of latitude and longitude strings and `ME4Node.toString` (lines 372-379) are I/O glue.
- The parent link of `ME4Node` and the unused stack that walks it (lines 189-194) have no effect on the result.
- `destNodesCount` (line 134) is written but never read.
- `probLost` and the `AlgorithmBlocks` base class are not part of this model. `vertices`, `visited` and `nBlocks` are treated as given state.
- Planner.Run: requires `topMdestinations >= 1`. With zero the destination list is empty, and the first child expanded throws in `rnd.nextInt(0)`. With a negative value, `limit` throws. The exception path is not modelled.
- Destinations.TopNodes: sorts with the corrected comparator `RankCompare` and always returns. With the comparator as written at line 119, `Stream.sorted` may throw `IllegalArgumentException` ("Comparison method violates its general contract") once pageranks tie; that exception path is not modelled (see "## Findings").
- Frontier.Enqueue: offers the children in neighbour order. The source iterates the children's `PriorityQueue` in its internal array order. The two differ only in which of several children on one vertex is kept, when a vertex lists the same neighbour twice.
- Planner.Step: `PriorityQueue` leaves open which of several least entries `remove()` returns, so the model picks any least entry. The sort in `getTopNodes` likewise leaves the order among equal pageranks open. Destinations.TopNodes states only the ranking, not a particular order of ties.
- Planner.Run: `run`'s result list of ids is `out`. The accepted `ME4Node`s (`toReturn`) are returned alongside it so that the contract can state the finished flags.

## Findings

| source | as written | input that shows it | evidently intended | confidence | as-written member | corrected member |
|---|---|---|---|---|---|---|
| simulator/DataConnector/src/main/java/com/dmsl/anyplace/algorithms/blocks/ME4a.java:119 | the sort comparator returns 1 whenever the first pagerank is not strictly greater, including ties | two vertices with pagerank 0.5 each: comparing them either way round gives 1, which breaks the sign-flip rule of `Comparator` (the JDK sort may throw "Comparison method violates its general contract") | answer 0 on equal pageranks (e.g. `Double.compare(x2.getPagerank(), x1.getPagerank())`) | medium: the contract violation is certain; whether a sort throws depends on input size and order; not executed | Ranking.RankComparatorAsWritten, Ranking.TiesBreakComparatorContract | Ranking.RankCompare, Ranking.RankCompareIsConsistent |
