/**
 * The navigation grid of `BuildingMap._create_graph`: every floor carries a 2-D
 * character map; each cell that is not a wall ('#') becomes a node
 * (floor number, row, column) with edges to its open orthogonal neighbours, and
 * an 'E' cell (stairs/exit) also links to the same cell on every other floor
 * whose map has an 'E' there.
 */
module Grid {
  import opened Wrappers

  /** A grid node, the Python tuple (floor_num, i, j). */
  datatype Node = Node(floor: int, i: int, j: int)

  /** One entry of the building file: `Floor_Number` and `2D_Map`. */
  datatype FloorMap = FloorMap(number: int, cells: seq<seq<char>>)

  /** The adjacency dictionary: each node maps to its neighbour list, in insertion order. */
  type Graph = map<Node, seq<Node>>

  /** The neighbour offsets, in the order the source tries them. */
  const Directions: seq<(int, int)> := [(0, 1), (1, 0), (0, -1), (-1, 0)]

  predicate InMap(m: seq<seq<char>>, i: int, j: int) {
    0 <= i < |m| && 0 <= j < |m[i]|
  }

  /** A cell that exists and is not a wall. */
  predicate Open(m: seq<seq<char>>, i: int, j: int) {
    InMap(m, i, j) && m[i][j] != '#'
  }

  predicate IsExit(m: seq<seq<char>>, i: int, j: int) {
    InMap(m, i, j) && m[i][j] == 'E'
  }

  /**
   * The bounds test of the neighbour loop: the row index against the number of
   * rows, the column index against the length of row i (not of the target row).
   */
  predicate StepInBounds(m: seq<seq<char>>, i: int, j: int, d: nat)
    requires InMap(m, i, j) && d < 4
  {
    0 <= i + Directions[d].0 < |m| && 0 <= j + Directions[d].1 < |m[i]|
  }

  /** The step passes the bounds test but the target row is too short: an IndexError. */
  predicate StepFaults(m: seq<seq<char>>, i: int, j: int, d: nat)
    requires InMap(m, i, j) && d < 4
  {
    StepInBounds(m, i, j, d) && !InMap(m, i + Directions[d].0, j + Directions[d].1)
  }

  /** The step adds an edge. */
  predicate StepTaken(m: seq<seq<char>>, i: int, j: int, d: nat)
    requires InMap(m, i, j) && d < 4
  {
    StepInBounds(m, i, j, d) && Open(m, i + Directions[d].0, j + Directions[d].1)
  }

  /** Reading cell (i, j) of another floor's map raises an IndexError. */
  predicate LinkFaults(floors: seq<FloorMap>, number: int, i: int, j: int, g: nat)
    requires g < |floors|
  {
    floors[g].number != number && !InMap(floors[g].cells, i, j)
  }

  /** Floor g gets a stairs edge from cell (i, j) of a floor numbered `number`. */
  predicate LinkTaken(floors: seq<FloorMap>, number: int, i: int, j: int, g: nat)
    requires g < |floors|
  {
    floors[g].number != number && IsExit(floors[g].cells, i, j)
  }

  /** Processing cell (i, j) of floor k raises no IndexError. */
  predicate CellSafe(floors: seq<FloorMap>, k: nat, i: nat, j: nat)
    requires k < |floors| && InMap(floors[k].cells, i, j)
  {
    var m := floors[k].cells;
    m[i][j] != '#' ==>
      (forall d :: 0 <= d < 4 ==> !StepFaults(m, i, j, d)) &&
      (m[i][j] == 'E' ==> forall g :: 0 <= g < |floors| ==> !LinkFaults(floors, floors[k].number, i, j, g))
  }

  predicate RowSafe(floors: seq<FloorMap>, k: nat, i: nat)
    requires k < |floors| && i < |floors[k].cells|
  {
    forall j :: 0 <= j < |floors[k].cells[i]| ==> CellSafe(floors, k, i, j)
  }

  predicate FloorSafe(floors: seq<FloorMap>, k: nat)
    requires k < |floors|
  {
    forall i :: 0 <= i < |floors[k].cells| ==> RowSafe(floors, k, i)
  }

  /** Building the graph raises no IndexError. */
  predicate Safe(floors: seq<FloorMap>) {
    forall k :: 0 <= k < |floors| ==> FloorSafe(floors, k)
  }

  /** The same-floor neighbours found by the first `n` offsets. */
  function Steps(m: seq<seq<char>>, number: int, i: int, j: int, n: nat): seq<Node>
    requires InMap(m, i, j) && n <= 4
  {
    if n == 0 then []
    else
      Steps(m, number, i, j, n - 1) +
      (if StepTaken(m, i, j, n - 1)
       then [Node(number, i + Directions[n - 1].0, j + Directions[n - 1].1)]
       else [])
  }

  /** The stairs edges found among the first `n` floors. */
  function Links(floors: seq<FloorMap>, number: int, i: int, j: int, n: nat): seq<Node>
    requires n <= |floors|
  {
    if n == 0 then []
    else
      Links(floors, number, i, j, n - 1) +
      (if LinkTaken(floors, number, i, j, n - 1) then [Node(floors[n - 1].number, i, j)] else [])
  }

  /** The neighbour list the source builds for open cell (i, j) of floor k. */
  function Adjacency(floors: seq<FloorMap>, k: nat, i: nat, j: nat): seq<Node>
    requires k < |floors| && InMap(floors[k].cells, i, j)
  {
    var m := floors[k].cells;
    Steps(m, floors[k].number, i, j, 4) +
    (if m[i][j] == 'E' then Links(floors, floors[k].number, i, j, |floors|) else [])
  }

  /** The dictionary entry written for cell (i, j) of floor k: none for a wall. */
  function CellEntry(floors: seq<FloorMap>, k: nat, i: nat, j: nat): Graph
    requires k < |floors| && InMap(floors[k].cells, i, j)
  {
    if floors[k].cells[i][j] == '#' then map[]
    else map[Node(floors[k].number, i, j) := Adjacency(floors, k, i, j)]
  }

  /** The entries written for the first `n` cells of row i of floor k. */
  function RowGraph(floors: seq<FloorMap>, k: nat, i: nat, n: nat): Graph
    requires k < |floors| && i < |floors[k].cells| && n <= |floors[k].cells[i]|
  {
    if n == 0 then map[] else RowGraph(floors, k, i, n - 1) + CellEntry(floors, k, i, n - 1)
  }

  /** The entries written for the first `n` rows of floor k. */
  function FloorGraph(floors: seq<FloorMap>, k: nat, n: nat): Graph
    requires k < |floors| && n <= |floors[k].cells|
  {
    if n == 0 then map[]
    else FloorGraph(floors, k, n - 1) + RowGraph(floors, k, n - 1, |floors[k].cells[n - 1]|)
  }

  /** The dictionary after the first `n` floors; a later floor overwrites an equal key. */
  function GraphUpTo(floors: seq<FloorMap>, n: nat): Graph
    requires n <= |floors|
  {
    if n == 0 then map[]
    else GraphUpTo(floors, n - 1) + FloorGraph(floors, n - 1, |floors[n - 1].cells|)
  }

  /** The graph `_create_graph` returns. */
  function GraphOf(floors: seq<FloorMap>): Graph {
    GraphUpTo(floors, |floors|)
  }

  /** Every neighbour is itself a node: the search never looks up a missing key. */
  predicate Closed(graph: Graph) {
    forall v, t :: v in graph && 0 <= t < |graph[v]| ==> graph[v][t] in graph
  }

  /** A node is some floor's open cell. */
  predicate IsCell(floors: seq<FloorMap>, v: Node) {
    exists k :: 0 <= k < |floors| && floors[k].number == v.floor && Open(floors[k].cells, v.i, v.j)
  }

  lemma UnionAssoc(a: Graph, b: Graph, c: Graph)
    ensures a + (b + c) == a + b + c
  {
  }

  /** The neighbour list of cell (i, j) of floor k, built with appends as the source does. */
  method CellAdjacency(floors: seq<FloorMap>, k: nat, i: nat, j: nat) returns (r: Option<seq<Node>>)
    requires k < |floors| && Open(floors[k].cells, i, j)
    ensures r.None? <==> !CellSafe(floors, k, i, j)
    ensures r.Some? ==> r.value == Adjacency(floors, k, i, j)
  {
    var m := floors[k].cells;
    var number := floors[k].number;
    var adj: seq<Node> := [];
    var d := 0;
    while d < 4
      invariant 0 <= d <= 4
      invariant forall d' :: 0 <= d' < d ==> !StepFaults(m, i, j, d')
      invariant adj == Steps(m, number, i, j, d)
    {
      var (di, dj) := Directions[d];
      var ni, nj := i + di, j + dj;
      if 0 <= ni < |m| && 0 <= nj < |m[i]| {
        if nj >= |m[ni]| {
          assert StepFaults(m, i, j, d);
          return None;
        }
        if m[ni][nj] != '#' {
          adj := adj + [Node(number, ni, nj)];
        }
      }
      d := d + 1;
    }
    if m[i][j] == 'E' {
      var g := 0;
      while g < |floors|
        invariant 0 <= g <= |floors|
        invariant forall g' :: 0 <= g' < g ==> !LinkFaults(floors, number, i, j, g')
        invariant adj == Steps(m, number, i, j, 4) + Links(floors, number, i, j, g)
      {
        if floors[g].number != number {
          var other := floors[g].cells;
          if i >= |other| || j >= |other[i]| {
            assert LinkFaults(floors, number, i, j, g);
            return None;
          }
          if other[i][j] == 'E' {
            adj := adj + [Node(floors[g].number, i, j)];
          }
        }
        g := g + 1;
      }
    }
    return Some(adj);
  }

  /** The column loop of `_create_graph` for row i of floor k, writing into `graph`. */
  method AddRow(floors: seq<FloorMap>, k: nat, i: nat, graph: Graph) returns (r: Option<Graph>)
    requires k < |floors| && i < |floors[k].cells|
    ensures r.None? <==> !RowSafe(floors, k, i)
    ensures r.Some? ==> r.value == graph + RowGraph(floors, k, i, |floors[k].cells[i]|)
  {
    var row := floors[k].cells[i];
    var g := graph;
    var j := 0;
    while j < |row|
      invariant 0 <= j <= |row|
      invariant forall j' :: 0 <= j' < j ==> CellSafe(floors, k, i, j')
      invariant g == graph + RowGraph(floors, k, i, j)
    {
      UnionAssoc(graph, RowGraph(floors, k, i, j), CellEntry(floors, k, i, j));
      var next := AddCell(floors, k, i, j, g);
      if next.None? {
        assert !RowSafe(floors, k, i) by { assert !CellSafe(floors, k, i, j); }
        return None;
      }
      g := next.value;
      j := j + 1;
    }
    return Some(g);
  }

  /** One pass of the column loop: cell (i, j) of floor k gets its neighbour list unless it is a wall. */
  method AddCell(floors: seq<FloorMap>, k: nat, i: nat, j: nat, graph: Graph) returns (r: Option<Graph>)
    requires k < |floors| && InMap(floors[k].cells, i, j)
    ensures r.None? <==> !CellSafe(floors, k, i, j)
    ensures r.Some? ==> r.value == graph + CellEntry(floors, k, i, j)
  {
    if floors[k].cells[i][j] != '#' {
      var adj := CellAdjacency(floors, k, i, j);
      if adj.None? {
        return None;
      }
      assert CellEntry(floors, k, i, j) == map[Node(floors[k].number, i, j) := adj.value];
      return Some(graph[Node(floors[k].number, i, j) := adj.value]);
    }
    assert CellEntry(floors, k, i, j) == map[];
    return Some(graph);
  }

  /**
   * `_create_graph`: the graph of every floor, or None where the source raises an
   * IndexError (a ragged map, or another floor's map too small for an 'E' cell).
   */
  method CreateGraph(floors: seq<FloorMap>) returns (r: Option<Graph>)
    ensures r.None? <==> !Safe(floors)
    ensures r.Some? ==> r.value == GraphOf(floors)
  {
    var graph: Graph := map[];
    var k := 0;
    while k < |floors|
      invariant 0 <= k <= |floors|
      invariant forall k' :: 0 <= k' < k ==> FloorSafe(floors, k')
      invariant graph == GraphUpTo(floors, k)
    {
      var next := AddFloor(floors, k, graph);
      if next.None? {
        return None;
      }
      graph := next.value;
      k := k + 1;
    }
    return Some(graph);
  }

  /** The row loop of `_create_graph` for floor k, writing into `graph`. */
  method AddFloor(floors: seq<FloorMap>, k: nat, graph: Graph) returns (r: Option<Graph>)
    requires k < |floors|
    ensures r.None? <==> !FloorSafe(floors, k)
    ensures r.Some? ==> r.value == graph + FloorGraph(floors, k, |floors[k].cells|)
  {
    var g := graph;
    var i := 0;
    while i < |floors[k].cells|
      invariant 0 <= i <= |floors[k].cells|
      invariant forall i' :: 0 <= i' < i ==> RowSafe(floors, k, i')
      invariant g == graph + FloorGraph(floors, k, i)
    {
      var next := AddRow(floors, k, i, g);
      if next.None? {
        assert !FloorSafe(floors, k);
        return None;
      }
      UnionAssoc(graph, FloorGraph(floors, k, i), RowGraph(floors, k, i, |floors[k].cells[i]|));
      g := next.value;
      i := i + 1;
    }
    return Some(g);
  }

  /** (a, b) is one of the four orthogonal neighbours of (i, j). */
  predicate Orthogonal(i: int, j: int, a: int, b: int) {
    (a == i && (b == j + 1 || b == j - 1)) || (b == j && (a == i + 1 || a == i - 1))
  }

  lemma {:induction false} StepsMembers(m: seq<seq<char>>, number: int, i: int, j: int, n: nat, x: Node)
    requires InMap(m, i, j) && n <= 4
    ensures x in Steps(m, number, i, j, n) <==>
      exists d :: 0 <= d < n && StepTaken(m, i, j, d) && x == Node(number, i + Directions[d].0, j + Directions[d].1)
  {
    if n > 0 {
      StepsMembers(m, number, i, j, n - 1, x);
    }
  }

  lemma {:induction false} LinksMembers(floors: seq<FloorMap>, number: int, i: int, j: int, n: nat, x: Node)
    requires n <= |floors|
    ensures x in Links(floors, number, i, j, n) <==>
      exists g :: 0 <= g < n && LinkTaken(floors, number, i, j, g) && x == Node(floors[g].number, i, j)
  {
    if n > 0 {
      LinksMembers(floors, number, i, j, n - 1, x);
    }
  }

  /**
   * The same-floor neighbours of a cell are exactly its orthogonal cells that pass
   * the bounds test (columns against the length of row i) and are not walls.
   */
  lemma AdjacencySameFloor(floors: seq<FloorMap>, k: nat, i: nat, j: nat, x: Node)
    requires k < |floors| && Open(floors[k].cells, i, j)
    ensures x in Adjacency(floors, k, i, j) && x.floor == floors[k].number <==>
      x.floor == floors[k].number && Orthogonal(i, j, x.i, x.j) &&
      0 <= x.i < |floors[k].cells| && 0 <= x.j < |floors[k].cells[i]| && Open(floors[k].cells, x.i, x.j)
  {
    var m, number := floors[k].cells, floors[k].number;
    StepsMembers(m, number, i, j, 4, x);
    if m[i][j] == 'E' {
      LinksMembers(floors, number, i, j, |floors|, x);
    }
    if x.floor == number && Orthogonal(i, j, x.i, x.j) && 0 <= x.i < |m| && 0 <= x.j < |m[i]| && Open(m, x.i, x.j) {
      var d := if x.j == j + 1 then 0 else if x.i == i + 1 then 1 else if x.j == j - 1 then 2 else 3;
      assert StepTaken(m, i, j, d) && x == Node(number, i + Directions[d].0, j + Directions[d].1);
    }
  }

  /**
   * The edges of a cell that leave its floor number are exactly the stairs edges:
   * the cell is an 'E', the target is the same (i, j), and some floor with the
   * target's (different) number has an 'E' there.
   */
  lemma AdjacencyOtherFloor(floors: seq<FloorMap>, k: nat, i: nat, j: nat, x: Node)
    requires k < |floors| && Open(floors[k].cells, i, j)
    ensures x in Adjacency(floors, k, i, j) && x.floor != floors[k].number <==>
      floors[k].cells[i][j] == 'E' && x.floor != floors[k].number && x.i == i && x.j == j &&
      exists g :: 0 <= g < |floors| && floors[g].number == x.floor && IsExit(floors[g].cells, i, j)
  {
    var m, number := floors[k].cells, floors[k].number;
    StepsMembers(m, number, i, j, 4, x);
    LinksMembers(floors, number, i, j, |floors|, x);
    if floors[k].cells[i][j] == 'E' && x.floor != number && x.i == i && x.j == j {
      if g :| 0 <= g < |floors| && floors[g].number == x.floor && IsExit(floors[g].cells, i, j) {
        assert LinkTaken(floors, number, i, j, g) && x == Node(floors[g].number, i, j);
      }
    }
  }

  lemma {:induction false} RowGraphEntries(floors: seq<FloorMap>, k: nat, i: nat, n: nat, v: Node)
    requires k < |floors| && i < |floors[k].cells| && n <= |floors[k].cells[i]|
    ensures v in RowGraph(floors, k, i, n) <==>
      v.floor == floors[k].number && v.i == i && 0 <= v.j < n && floors[k].cells[i][v.j] != '#'
    ensures v in RowGraph(floors, k, i, n) ==> RowGraph(floors, k, i, n)[v] == Adjacency(floors, k, i, v.j)
  {
    if n > 0 {
      RowGraphEntries(floors, k, i, n - 1, v);
    }
  }

  lemma {:induction false} FloorGraphEntries(floors: seq<FloorMap>, k: nat, n: nat, v: Node)
    requires k < |floors| && n <= |floors[k].cells|
    ensures v in FloorGraph(floors, k, n) <==>
      v.floor == floors[k].number && 0 <= v.i < n && Open(floors[k].cells, v.i, v.j)
    ensures v in FloorGraph(floors, k, n) ==> FloorGraph(floors, k, n)[v] == Adjacency(floors, k, v.i, v.j)
  {
    if n > 0 {
      FloorGraphEntries(floors, k, n - 1, v);
      RowGraphEntries(floors, k, n - 1, |floors[k].cells[n - 1]|, v);
    }
  }

  lemma {:induction false} GraphUpToEntries(floors: seq<FloorMap>, n: nat, v: Node)
    requires n <= |floors|
    ensures v in GraphUpTo(floors, n) <==>
      exists k :: 0 <= k < n && floors[k].number == v.floor && Open(floors[k].cells, v.i, v.j)
    ensures v in GraphUpTo(floors, n) ==>
      exists k :: 0 <= k < n && floors[k].number == v.floor && Open(floors[k].cells, v.i, v.j) &&
        GraphUpTo(floors, n)[v] == Adjacency(floors, k, v.i, v.j)
  {
    if n > 0 {
      GraphUpToEntries(floors, n - 1, v);
      FloorGraphEntries(floors, n - 1, |floors[n - 1].cells|, v);
    }
  }

  /** The nodes are exactly the open cells: walls never become nodes. */
  lemma GraphNodes(floors: seq<FloorMap>, v: Node)
    ensures v in GraphOf(floors) <==> IsCell(floors, v)
  {
    GraphUpToEntries(floors, |floors|, v);
  }

  /**
   * Each node's neighbour list is the adjacency of an open cell with that floor
   * number and position (the last such floor, when numbers repeat).
   */
  lemma GraphEntry(floors: seq<FloorMap>, v: Node) returns (k: nat)
    requires v in GraphOf(floors)
    ensures k < |floors| && floors[k].number == v.floor && Open(floors[k].cells, v.i, v.j)
    ensures GraphOf(floors)[v] == Adjacency(floors, k, v.i, v.j)
  {
    GraphUpToEntries(floors, |floors|, v);
    k :| 0 <= k < |floors| && floors[k].number == v.floor && Open(floors[k].cells, v.i, v.j) &&
      GraphOf(floors)[v] == Adjacency(floors, k, v.i, v.j);
  }

  /**
   * Every edge is a valid move: on one floor, to an open orthogonal cell; between
   * floors, from an 'E' cell to an 'E' cell at the same (i, j), never on the same floor number.
   */
  lemma GraphEdge(floors: seq<FloorMap>, v: Node, x: Node)
    requires v in GraphOf(floors) && x in GraphOf(floors)[v]
    ensures x.floor == v.floor ==>
      Orthogonal(v.i, v.j, x.i, x.j) &&
      exists k :: 0 <= k < |floors| && floors[k].number == v.floor && Open(floors[k].cells, x.i, x.j)
    ensures x.floor != v.floor ==>
      x.i == v.i && x.j == v.j &&
      (exists k :: 0 <= k < |floors| && floors[k].number == v.floor && IsExit(floors[k].cells, v.i, v.j)) &&
      (exists g :: 0 <= g < |floors| && floors[g].number == x.floor && IsExit(floors[g].cells, v.i, v.j))
  {
    var k := GraphEntry(floors, v);
    AdjacencySameFloor(floors, k, v.i, v.j, x);
    AdjacencyOtherFloor(floors, k, v.i, v.j, x);
  }

  /** Every listed neighbour is itself a node. */
  lemma GraphClosed(floors: seq<FloorMap>)
    ensures Closed(GraphOf(floors))
  {
    var graph := GraphOf(floors);
    forall v, t | v in graph && 0 <= t < |graph[v]|
      ensures graph[v][t] in graph
    {
      var x := graph[v][t];
      var k := GraphEntry(floors, v);
      AdjacencySameFloor(floors, k, v.i, v.j, x);
      AdjacencyOtherFloor(floors, k, v.i, v.j, x);
      if x.floor == v.floor {
        assert floors[k].number == x.floor && Open(floors[k].cells, x.i, x.j);
      } else {
        var g :| 0 <= g < |floors| && floors[g].number == x.floor && IsExit(floors[g].cells, v.i, v.j);
        assert Open(floors[g].cells, x.i, x.j);
      }
      GraphNodes(floors, x);
    }
  }

  /** No node lists itself as a neighbour. */
  lemma NoSelfLoop(floors: seq<FloorMap>, v: Node)
    requires v in GraphOf(floors)
    ensures v !in GraphOf(floors)[v]
  {
    var k := GraphEntry(floors, v);
    AdjacencySameFloor(floors, k, v.i, v.j, v);
  }
}
