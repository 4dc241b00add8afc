/**
 * `BuildingMap.find_path`: an A*-style search over the navigation grid where
 * every step costs 1, the heuristic is the in-floor Manhattan distance plus 10
 * per floor of difference, and any neighbour within Manhattan distance 2 of a
 * fire is never entered. A `came_from` dictionary records, for every reached
 * node but the start, the node it was last reached from.
 *
 * The heuristic overestimates a stairs step (see HeuristicOvercharges), so the
 * path returned is a safe path, not necessarily a shortest one.
 */
module Search {
  import opened Grid

  function Abs(x: int): nat {
    if x < 0 then -x else x
  }

  /** `heuristic(a, b)`: row and column distance plus 10 per floor of difference. */
  function Heuristic(a: Node, b: Node): (h: nat)
    ensures h == 0 <==> a == b
    ensures h >= 10 * Abs(a.floor - b.floor)
  {
    Abs(a.i - b.i) + Abs(a.j - b.j) + Abs(a.floor - b.floor) * 10
  }

  /** The Manhattan distance `is_safe` measures, floor index included. */
  function FireDistance(pos: Node, fire: Node): nat {
    Abs(pos.floor - fire.floor) + Abs(pos.i - fire.i) + Abs(pos.j - fire.j)
  }

  /**
   * `is_safe(pos)`: every fire is more than 2 away. A burning cell is never
   * safe, and with no fires every cell is.
   */
  predicate IsSafe(pos: Node, fires: seq<Node>): (safe: bool)
    ensures safe ==> pos !in fires
    ensures fires == [] ==> safe
  {
    forall t :: 0 <= t < |fires| ==> FireDistance(pos, fires[t]) > 2
  }

  /** `find_nearest_exit(floor)`: a fixed placeholder cell on the requested floor. */
  function FindNearestExit(floor: int): (exit: Node)
    ensures exit.floor == floor && exit.i == 90 && exit.j == 90
  {
    Node(floor, 90, 90)
  }

  /**
   * A walk from start to end along graph edges whose every node after the start
   * is safe; the start itself is never checked.
   */
  predicate SafeWalk(graph: Graph, fires: seq<Node>, start: Node, end: Node, p: seq<Node>) {
    |p| > 0 && p[0] == start && p[|p| - 1] == end &&
    (forall t :: 0 <= t < |p| - 1 ==> p[t] in graph && p[t + 1] in graph[p[t]]) &&
    (forall t :: 1 <= t < |p| ==> IsSafe(p[t], fires))
  }

  /** A heap item `(priority, node)`. */
  datatype Entry = Entry(priority: nat, node: Node)

  /** Python's tuple order on `(priority, (floor, i, j))`, the order `heapq` pops in. */
  predicate EntryLess(a: Entry, b: Entry) {
    a.priority < b.priority ||
    (a.priority == b.priority &&
      (a.node.floor < b.node.floor ||
        (a.node.floor == b.node.floor &&
          (a.node.i < b.node.i || (a.node.i == b.node.i && a.node.j < b.node.j)))))
  }

  /** The index of the item `heapq.heappop` would return: a least one in tuple order. */
  method SmallestEntry(heap: seq<Entry>) returns (k: nat)
    requires |heap| > 0
    ensures k < |heap|
    ensures forall t :: 0 <= t < |heap| ==> !EntryLess(heap[t], heap[k])
  {
    k := 0;
    var t := 1;
    while t < |heap|
      invariant k < t <= |heap|
      invariant forall s :: 0 <= s < t ==> !EntryLess(heap[s], heap[k])
    {
      if EntryLess(heap[t], heap[k]) {
        k := t;
      }
      t := t + 1;
    }
  }

  function Reversed<T>(s: seq<T>): (r: seq<T>)
    ensures |r| == |s|
    ensures forall t :: 0 <= t < |s| ==> r[t] == s[|s| - 1 - t]
  {
    if s == [] then [] else Reversed(s[1..]) + [s[0]]
  }

  predicate InHeap(heap: seq<Entry>, v: Node) {
    exists t :: 0 <= t < |heap| && heap[t].node == v
  }

  /** The sum of all recorded costs: it drops whenever a cost is lowered. */
  ghost function TotalCost(cost: map<Node, nat>): nat
    decreases |cost|
  {
    if cost == map[] then 0
    else
      var v :| v in cost;
      cost[v] + TotalCost(cost - {v})
  }

  lemma {:induction false} TotalCostRemove(cost: map<Node, nat>, v: Node)
    requires v in cost
    ensures TotalCost(cost) == cost[v] + TotalCost(cost - {v})
    decreases |cost|
  {
    var w :| w in cost && TotalCost(cost) == cost[w] + TotalCost(cost - {w});
    if w != v {
      TotalCostRemove(cost - {w}, v);
      TotalCostRemove(cost - {v}, w);
      assert cost - {w} - {v} == cost - {v} - {w};
    }
  }

  lemma TotalCostUpdate(cost: map<Node, nat>, v: Node, c: nat)
    ensures v in cost ==> TotalCost(cost[v := c]) == TotalCost(cost) - cost[v] + c
    ensures v !in cost ==> TotalCost(cost[v := c]) == TotalCost(cost) + c
  {
    TotalCostRemove(cost[v := c], v);
    if v in cost {
      TotalCostRemove(cost, v);
      assert cost[v := c] - {v} == cost - {v};
    } else {
      assert cost[v := c] - {v} == cost;
    }
  }

  /**
   * What holds of the search state between steps: the start has cost 0 and no
   * predecessor, every other reached node has one, reached by a graph edge, from
   * a node of strictly smaller cost, and is safe; every heap item is a reached
   * node, and once the end is reached it stays in the heap until popped.
   */
  ghost predicate Inv(graph: Graph, fires: seq<Node>, start: Node, end: Node,
                      heap: seq<Entry>, cameFrom: map<Node, Node>, cost: map<Node, nat>)
  {
    && start in cost && cost[start] == 0
    && cost.Keys <= graph.Keys
    && cameFrom.Keys == cost.Keys - {start}
    && (forall v :: v in cameFrom ==> cameFrom[v] in cost && cost[cameFrom[v]] < cost[v])
    && (forall v :: v in cameFrom ==> cameFrom[v] in graph && v in graph[cameFrom[v]] && IsSafe(v, fires))
    && (forall t :: 0 <= t < |heap| ==> heap[t].node in cost)
    && (end in cost ==> InHeap(heap, end))
  }

  /** All safe neighbours of v have been reached. */
  ghost predicate Expanded(graph: Graph, fires: seq<Node>, cost: map<Node, nat>, v: Node)
    requires v in graph
  {
    forall t :: 0 <= t < |graph[v]| && IsSafe(graph[v][t], fires) ==> graph[v][t] in cost
  }

  /** Every reached node outside `except` is still queued or already expanded. */
  ghost predicate Covered(graph: Graph, fires: seq<Node>, heap: seq<Entry>, cost: map<Node, nat>, except: set<Node>)
    requires cost.Keys <= graph.Keys
  {
    forall v :: v in cost && v !in except ==> InHeap(heap, v) || Expanded(graph, fires, cost, v)
  }

  lemma InHeapAfterRemove(heap: seq<Entry>, k: nat, v: Node)
    requires k < |heap| && InHeap(heap, v) && heap[k].node != v
    ensures InHeap(heap[..k] + heap[k + 1..], v)
  {
    var t :| 0 <= t < |heap| && heap[t].node == v;
    var rest := heap[..k] + heap[k + 1..];
    if t < k {
      assert rest[t] == heap[t];
    } else {
      assert rest[t - 1] == heap[t];
    }
  }

  lemma InHeapAfterPush(heap: seq<Entry>, e: Entry, v: Node)
    requires InHeap(heap, v) || e.node == v
    ensures InHeap(heap + [e], v)
  {
    if e.node == v {
      assert (heap + [e])[|heap|].node == v;
    } else {
      var t :| 0 <= t < |heap| && heap[t].node == v;
      assert (heap + [e])[t].node == v;
    }
  }

  /** The lexicographic measure that the search loop decreases. */
  ghost predicate Progress(graph: Graph, cost0: map<Node, nat>, heap0: seq<Entry>,
                           cost: map<Node, nat>, heap: seq<Entry>)
  {
    |graph.Keys - cost.Keys| < |graph.Keys - cost0.Keys| ||
    (|graph.Keys - cost.Keys| == |graph.Keys - cost0.Keys| &&
      (TotalCost(cost) < TotalCost(cost0) || (TotalCost(cost) == TotalCost(cost0) && heap == heap0)))
  }

  /** One relaxation of the edge current -> next preserves the search invariant. */
  lemma RelaxKeepsInv(graph: Graph, fires: seq<Node>, start: Node, end: Node, current: Node, next: Node,
                      heap: seq<Entry>, cameFrom: map<Node, Node>, cost: map<Node, nat>)
    requires Closed(graph) && current in graph && current in cost && next in graph[current] && IsSafe(next, fires)
    requires Inv(graph, fires, start, end, heap, cameFrom, cost)
    requires next !in cost || cost[current] + 1 < cost[next]
    ensures next != current && next != start
    ensures Inv(graph, fires, start, end, heap + [Entry(cost[current] + 1 + Heuristic(end, next), next)],
                cameFrom[next := current], cost[next := cost[current] + 1])
  {
    var c := cost[current] + 1;
    var heap' := heap + [Entry(c + Heuristic(end, next), next)];
    var cost' := cost[next := c];
    if end in cost' {
      InHeapAfterPush(heap, heap'[|heap'| - 1], end);
    }
    forall u | 0 <= u < |heap'| ensures heap'[u].node in cost' {
      if u < |heap| { assert heap'[u] == heap[u]; }
    }
  }

  /** One relaxation keeps every reached node other than `current` queued or expanded. */
  lemma RelaxKeepsCovered(graph: Graph, fires: seq<Node>, current: Node, next: Node, e: Entry,
                          heap: seq<Entry>, cost: map<Node, nat>, c: nat)
    requires cost.Keys <= graph.Keys && next in graph && e.node == next
    requires Covered(graph, fires, heap, cost, {current})
    ensures Covered(graph, fires, heap + [e], cost[next := c], {current})
  {
    forall v | v in cost[next := c] && v != current
      ensures InHeap(heap + [e], v) || Expanded(graph, fires, cost[next := c], v)
    {
      if v == next || InHeap(heap, v) {
        InHeapAfterPush(heap, e, v);
      }
    }
  }

  /** One relaxation decreases the search measure, relative to any earlier state. */
  lemma RelaxProgress(graph: Graph, next: Node, e: Entry, heap: seq<Entry>, cost: map<Node, nat>, c: nat,
                      heap0: seq<Entry>, cost0: map<Node, nat>)
    requires cost.Keys <= graph.Keys && next in graph
    requires next !in cost || c < cost[next]
    requires Progress(graph, cost0, heap0, cost, heap)
    ensures Progress(graph, cost0, heap0, cost[next := c], heap + [e])
  {
    TotalCostUpdate(cost, next, c);
    assert graph.Keys - cost[next := c].Keys ==
      if next in cost then graph.Keys - cost.Keys else (graph.Keys - cost.Keys) - {next};
  }

  /** The `for next in self.graph[current]` loop of the search. */
  method Relax(graph: Graph, fires: seq<Node>, start: Node, end: Node, current: Node,
               heap0: seq<Entry>, cameFrom0: map<Node, Node>, cost0: map<Node, nat>)
    returns (heap: seq<Entry>, cameFrom: map<Node, Node>, cost: map<Node, nat>)
    requires Closed(graph) && current in cost0 && current != end
    requires Inv(graph, fires, start, end, heap0, cameFrom0, cost0)
    requires Covered(graph, fires, heap0, cost0, {current})
    ensures Inv(graph, fires, start, end, heap, cameFrom, cost)
    ensures Covered(graph, fires, heap, cost, {})
    ensures Progress(graph, cost0, heap0, cost, heap)
  {
    heap, cameFrom, cost := heap0, cameFrom0, cost0;
    var neighbours := graph[current];
    var t := 0;
    while t < |neighbours|
      invariant 0 <= t <= |neighbours|
      invariant Inv(graph, fires, start, end, heap, cameFrom, cost)
      invariant Covered(graph, fires, heap, cost, {current})
      invariant current in cost
      invariant forall s :: 0 <= s < t && IsSafe(neighbours[s], fires) ==> neighbours[s] in cost
      invariant Progress(graph, cost0, heap0, cost, heap)
    {
      var next := neighbours[t];
      if IsSafe(next, fires) {
        heap, cameFrom, cost := RelaxEdge(graph, fires, start, end, current, next, heap0, cost0, heap, cameFrom, cost);
      }
      t := t + 1;
    }
  }

  /**
   * One pass of the neighbour loop for a safe neighbour: when the route through
   * current is cheaper, record it, queue the neighbour and point `came_from` back.
   */
  method RelaxEdge(graph: Graph, fires: seq<Node>, start: Node, end: Node, current: Node, next: Node,
                   ghost heapS: seq<Entry>, ghost costS: map<Node, nat>,
                   heap0: seq<Entry>, cameFrom0: map<Node, Node>, cost0: map<Node, nat>)
    returns (heap: seq<Entry>, cameFrom: map<Node, Node>, cost: map<Node, nat>)
    requires Closed(graph) && current in graph && current in cost0 && next in graph[current] && IsSafe(next, fires)
    requires Inv(graph, fires, start, end, heap0, cameFrom0, cost0)
    requires Covered(graph, fires, heap0, cost0, {current})
    requires Progress(graph, costS, heapS, cost0, heap0)
    ensures Inv(graph, fires, start, end, heap, cameFrom, cost)
    ensures Covered(graph, fires, heap, cost, {current})
    ensures Progress(graph, costS, heapS, cost, heap)
    ensures next in cost && cost0.Keys <= cost.Keys
  {
    heap, cameFrom, cost := heap0, cameFrom0, cost0;
    var newCost := cost[current] + 1;
    if next !in cost || newCost < cost[next] {
      var e := Entry(newCost + Heuristic(end, next), next);
      RelaxKeepsInv(graph, fires, start, end, current, next, heap, cameFrom, cost);
      RelaxKeepsCovered(graph, fires, current, next, e, heap, cost, newCost);
      RelaxProgress(graph, next, e, heap, cost, newCost, heapS, costS);
      cost := cost[next := newCost];
      heap := heap + [e];
      cameFrom := cameFrom[next := current];
    }
  }

  /** The reconstruction loop: follow `came_from` back from the end, then reverse. */
  method Reconstruct(graph: Graph, fires: seq<Node>, start: Node, end: Node,
                     ghost heap: seq<Entry>, cameFrom: map<Node, Node>, cost: map<Node, nat>)
    returns (path: seq<Node>)
    requires Inv(graph, fires, start, end, heap, cameFrom, cost) && end in cost
    ensures SafeWalk(graph, fires, start, end, path)
    ensures end == start ==> path == [start]
  {
    var rev: seq<Node> := [];
    var current := end;
    while current in cameFrom
      invariant current in cost
      invariant (rev + [current])[0] == end
      invariant forall t :: 0 <= t < |rev| ==> rev[t] in cameFrom && (rev + [current])[t + 1] == cameFrom[rev[t]]
      decreases cost[current]
    {
      rev := rev + [current];
      current := cameFrom[current];
    }
    assert current == start;
    rev := rev + [start];
    path := Reversed(rev);
    assert forall t :: 0 <= t < |rev| - 1 ==> rev[t] in cameFrom && rev[t + 1] == cameFrom[rev[t]];
    ChainWalk(graph, fires, start, end, cameFrom, rev);
  }

  /** A `came_from` chain from end back to start, reversed, is a safe walk from start to end. */
  lemma ChainWalk(graph: Graph, fires: seq<Node>, start: Node, end: Node, cameFrom: map<Node, Node>, rev: seq<Node>)
    requires |rev| > 0 && rev[0] == end && rev[|rev| - 1] == start
    requires forall t :: 0 <= t < |rev| - 1 ==> rev[t] in cameFrom && rev[t + 1] == cameFrom[rev[t]]
    requires forall v :: v in cameFrom ==> cameFrom[v] in graph && v in graph[cameFrom[v]] && IsSafe(v, fires)
    ensures SafeWalk(graph, fires, start, end, Reversed(rev))
  {
    var path := Reversed(rev);
    forall t | 0 <= t < |path| - 1
      ensures path[t] in graph && path[t + 1] in graph[path[t]]
    {
      assert path[t] == rev[|rev| - 1 - t] && path[t + 1] == rev[|rev| - 2 - t];
    }
    forall t | 1 <= t < |path|
      ensures IsSafe(path[t], fires)
    {
      assert path[t] == rev[|rev| - 1 - t];
    }
  }

  /** A safe walk never leaves a set of reached nodes that are all expanded. */
  lemma {:induction false} WalkStaysReached(graph: Graph, fires: seq<Node>, cost: map<Node, nat>,
                                            start: Node, end: Node, p: seq<Node>, n: nat)
    requires SafeWalk(graph, fires, start, end, p) && n < |p|
    requires start in cost && cost.Keys <= graph.Keys
    requires forall v :: v in cost ==> Expanded(graph, fires, cost, v)
    ensures p[n] in cost
  {
    if n > 0 {
      WalkStaysReached(graph, fires, cost, start, end, p, n - 1);
      var v := p[n - 1];
      assert Expanded(graph, fires, cost, v);
      var t :| 0 <= t < |graph[v]| && graph[v][t] == p[n];
      assert IsSafe(graph[v][t], fires);
    }
  }

  /** Popping an item other than the end preserves the search state. */
  lemma PopStep(graph: Graph, fires: seq<Node>, start: Node, end: Node,
                heap: seq<Entry>, cameFrom: map<Node, Node>, cost: map<Node, nat>, k: nat)
    requires Inv(graph, fires, start, end, heap, cameFrom, cost)
    requires Covered(graph, fires, heap, cost, {})
    requires k < |heap| && heap[k].node != end
    ensures Inv(graph, fires, start, end, heap[..k] + heap[k + 1..], cameFrom, cost)
    ensures Covered(graph, fires, heap[..k] + heap[k + 1..], cost, {heap[k].node})
  {
    var rest := heap[..k] + heap[k + 1..];
    forall v | v in cost && v != heap[k].node && InHeap(heap, v)
      ensures InHeap(rest, v)
    {
      InHeapAfterRemove(heap, k, v);
    }
    forall u | 0 <= u < |rest| ensures rest[u].node in cost {
      if u < k { assert rest[u] == heap[u]; } else { assert rest[u] == heap[u + 1]; }
    }
  }

  /**
   * `find_path` on a graph that contains both endpoints: a non-empty result is a
   * safe walk from start to end, and the empty result means that no safe walk exists.
   */
  method FindPath(graph: Graph, start: Node, end: Node, fires: seq<Node>) returns (path: seq<Node>)
    requires Closed(graph) && start in graph && end in graph
    ensures path != [] ==> SafeWalk(graph, fires, start, end, path)
    ensures path == [] ==> forall p :: !SafeWalk(graph, fires, start, end, p)
    ensures start == end ==> path == [start]
  {
    var heap := [Entry(0, start)];
    var cameFrom: map<Node, Node> := map[];
    var cost: map<Node, nat> := map[start := 0];
    assert heap[0].node == start;
    while |heap| > 0
      invariant Inv(graph, fires, start, end, heap, cameFrom, cost)
      invariant Covered(graph, fires, heap, cost, {})
      decreases |graph.Keys - cost.Keys|, TotalCost(cost), |heap|
    {
      var k := SmallestEntry(heap);
      var current := heap[k].node;
      ghost var before := heap;
      heap := heap[..k] + heap[k + 1..];
      if current == end {
        path := Reconstruct(graph, fires, start, end, before, cameFrom, cost);
        return;
      }
      PopStep(graph, fires, start, end, before, cameFrom, cost, k);
      heap, cameFrom, cost := Relax(graph, fires, start, end, current, heap, cameFrom, cost);
    }
    forall p
      ensures !SafeWalk(graph, fires, start, end, p)
    {
      if SafeWalk(graph, fires, start, end, p) {
        WalkStaysReached(graph, fires, cost, start, end, p, |p| - 1);
      }
    }
    return [];
  }

  /**
   * The heuristic is not admissible: a stairs edge costs 1, but the heuristic
   * between its endpoints is at least 10.
   */
  lemma HeuristicOvercharges(floors: seq<FloorMap>, v: Node, x: Node)
    requires v in GraphOf(floors) && x in GraphOf(floors)[v] && x.floor != v.floor
    ensures Heuristic(x, v) == 10 * Abs(x.floor - v.floor) >= 10
  {
    GraphEdge(floors, v, x);
  }
}
