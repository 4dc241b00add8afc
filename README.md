# ExitMatrix evacuation core in Dafny

This project models the navigation core of ExitMatrix, a fire-evacuation demo. It has two halves.

The Python back end (`Assets/Scripts/Model/main.py`) does four things:

- It turns each floor's 2-D character map into a grid graph. Walls (`#`) are not nodes. Each open cell has edges to its open orthogonal neighbours. An `E` cell also links to the same cell on every other floor that has an `E` there.
- It searches that graph A*-style for a path on which every node after the start keeps more than Manhattan distance 2 from every fire.
- It run-length-encodes the path into moves and floor changes.
- Its "nearest exit" lookup returns a fixed placeholder cell.

The Unity client does three things:

- `BuildingStructure.cs` places a position in the first room whose box holds it, and installs a default two-floor building when none is configured.
- `PathfindingGraph.cs` builds a room graph keyed `"Floor{n}_{name}"`.
- `PositionTracker.cs` tracks the floor the player is on.

Modules, one per concern:

- `Grid` (`grid.dfy`): `_create_graph`. It is a method that returns `None` exactly where Python raises `IndexError`; otherwise it returns the graph `GraphOf(floors)`.
- `Search` (`search.dfy`): `find_path`, `heuristic`, `is_safe` and `find_nearest_exit`. The heap is a sequence, and each pop takes the least `(priority, node)` in Python's tuple order.
- `Instructions` (`instructions.dfy`): `generate_consolidated_instructions`. Instructions are a datatype, and `Expand` (the inverse of consolidation) maps them back to steps.
- `Building` (`building.dfy`): rooms, floors, the box test, the room lookup and the `BuildingStructure` class with its initialise-if-empty guard.
- `Pathfinding` (`pathfinding.dfy`): key formatting and the room graph specification (`RoomGraphOf`). It also holds the `PathfindingGraph` class, whose `GenerateGraph` fills the `graph` field.
- `Tracker` (`tracker.dfy`): the `PositionTracker` class and its floor-selection loop.
- `Wrappers` (`wrappers.dfy`): `Option`.

The C# `Floor`/`Room` records are values here. `FindRoomForPosition` and `IsPositionInRoom` read two fields of `BuildingStructure`, `floors` and `defaultFloorHeight`. The model passes those fields as parameters. `GetRoomKey` is the class view of `Pathfinding.RoomKeyAt`.

## Model

| member | source | states |
|---|---|---|
| Grid.CreateGraph | Assets/Scripts/Model/main.py:40-62 | Returns None exactly when some map makes the loops raise `IndexError`. Otherwise it returns the graph `GraphOf(floors)`. |
| Grid.AddFloor | Assets/Scripts/Model/main.py:45-61 | One floor of the row loop: it fails exactly when a row of the floor faults, and otherwise adds that floor's entries to the graph. |
| Grid.AddRow | Assets/Scripts/Model/main.py:46-61 | One row of the cell loop: it fails exactly when a cell of the row faults, and otherwise adds that row's entries to the graph. |
| Grid.AddCell | Assets/Scripts/Model/main.py:47-61 | One cell: it fails exactly when the cell faults. Otherwise a wall adds nothing and an open cell adds its adjacency under its node. |
| Grid.CellAdjacency | Assets/Scripts/Model/main.py:47-61 | The neighbour list built for one open cell. It fails exactly when a neighbour or stairs lookup indexes outside a map. |
| Grid.StepsMembers | Assets/Scripts/Model/main.py:51-54 | A node is among the same-floor neighbours exactly when one of the four offsets passes the bounds test and reaches a non-wall cell. |
| Grid.LinksMembers | Assets/Scripts/Model/main.py:56-61 | A node is among the stairs links exactly when some floor with a different number has an `E` at the same (i, j). |
| Grid.AdjacencySameFloor | Assets/Scripts/Model/main.py:51-54 | Same-floor neighbours are exactly the orthogonal cells that are in bounds and not walls. Columns are checked against the length of row i. |
| Grid.AdjacencyOtherFloor | Assets/Scripts/Model/main.py:56-61 | Cross-floor edges exist only from `E` cells, to the same (i, j), on a floor with a different number that has `E` there. |
| Grid.RowGraphEntries | Assets/Scripts/Model/main.py:46-49 | The keys of one row are its non-wall cells, and each maps to its adjacency. |
| Grid.FloorGraphEntries | Assets/Scripts/Model/main.py:45-49 | The keys of one floor are its open cells, and each maps to its adjacency. |
| Grid.GraphUpToEntries | Assets/Scripts/Model/main.py:42-49 | Keys after n floors are the open cells of those floors. Each entry is the adjacency computed on some floor with that number. |
| Grid.GraphNodes | Assets/Scripts/Model/main.py:45-49 | Graph keys are exactly the open cells `(floor, i, j)`. Walls never become nodes. |
| Grid.GraphEntry | Assets/Scripts/Model/main.py:47-61 | Each node's list is the adjacency of an open cell with the node's floor number and position. |
| Grid.GraphEdge | Assets/Scripts/Model/main.py:51-61 | Every edge either moves to an open orthogonal cell on the same floor, or joins `E` cells at the same (i, j) on two floor numbers. |
| Grid.GraphClosed | Assets/Scripts/Model/main.py:47-61 | Every listed neighbour is itself a graph key. |
| Grid.NoSelfLoop | Assets/Scripts/Model/main.py:51-61 | No node lists itself as a neighbour. |
| Search.Heuristic | Assets/Scripts/Model/main.py:75-76 | The estimate is 0 exactly at the goal, and charges at least 10 per floor of difference. |
| Search.IsSafe | Assets/Scripts/Model/main.py:81-82 | A cell holding a fire is never safe, and with no fires every cell is. |
| Search.FindNearestExit | Assets/Scripts/Model/main.py:243-246 | The exit is cell (90, 90) on the requested floor. |
| Search.SmallestEntry | Assets/Scripts/Model/main.py:89 | The popped heap item is least in `(priority, (floor, i, j))` tuple order. |
| Search.Reversed | Assets/Scripts/Model/main.py:97 | `path[::-1]`: same length, element t is element n-1-t. |
| Search.RelaxKeepsInv | Assets/Scripts/Model/main.py:102-107 | Lowering a safe neighbour's cost keeps the search invariant: the start has cost 0 and no `came_from`; every other reached node has a safe edge from a cheaper predecessor; the queue holds only reached nodes. |
| Search.RelaxProgress | Assets/Scripts/Model/main.py:103-106 | Each recorded cost update lowers (unreached nodes, sum of costs), so the search terminates. |
| Search.Relax | Assets/Scripts/Model/main.py:99-107 | The neighbour loop keeps the invariant, leaves the popped node expanded (all its safe neighbours reached) and lowers the termination measure. |
| Search.RelaxEdge | Assets/Scripts/Model/main.py:102-107 | One safe neighbour: the neighbour ends up reached, no reached node is lost, and the invariant, coverage and progress measure are kept. |
| Search.PopStep | Assets/Scripts/Model/main.py:88-91 | Popping a node other than the end keeps the invariant, and every other reached node stays queued or expanded. |
| Search.Reconstruct | Assets/Scripts/Model/main.py:92-97 | Following `came_from` from the end terminates at the start, because costs strictly fall. The result is a safe walk from start to end, and `[start]` when they coincide. |
| Search.ChainWalk | Assets/Scripts/Model/main.py:92-97 | A `came_from` chain from the end back to the start, reversed, is a walk along graph edges whose nodes after the start are safe. |
| Search.WalkStaysReached | Assets/Scripts/Model/main.py:99-109 | When the heap is empty, every node of any safe walk from the start has been reached. |
| Search.FindPath | Assets/Scripts/Model/main.py:84-109 | A non-empty result starts at `start`, ends at `end`, follows graph edges, and every element after the start is safe. `[]` is returned exactly when no such walk exists, and `[start]` when start equals end. |
| Search.HeuristicOvercharges | Assets/Scripts/Model/main.py:75-76 | A stairs edge costs 1, but the heuristic charges at least 10 for it, so the heuristic is not admissible. |
| Instructions.StepBetween | Assets/Scripts/Model/main.py:126-162 | Two consecutive positions yield no step exactly when they are the same cell. |
| Instructions.StepBetweenCases | Assets/Scripts/Model/main.py:126-162 | A floor change wins over row and column, and a row change wins over a column change. Up is emitted exactly when the new floor is higher. |
| Instructions.ClimbStep | Assets/Scripts/Model/main.py:126-134 | A floor change flushes the pending run and emits the climb: the instructions plus the pending run stand for the steps so far plus the climb, and stay consolidated. |
| Instructions.WalkStep | Assets/Scripts/Model/main.py:135-162 | A move extends the pending run in its direction or flushes it and starts a new one: the instructions plus the pending run stand for the steps so far plus the move, and stay consolidated. |
| Instructions.ConsumeStep | Assets/Scripts/Model/main.py:124-162 | One loop pass: emitted instructions plus the pending run stand for the steps so far plus this step. |
| Instructions.GenerateConsolidatedInstructions | Assets/Scripts/Model/main.py:118-167 | Expanding the result gives exactly the path's steps. No Move is empty and no two adjacent Moves share a direction. Paths of length 0 or 1 give no instructions. |
| Instructions.ExpandEmpty | Assets/Scripts/Model/main.py:164-167 | Consolidated instructions stand for no steps only when there are none. |
| Instructions.ConsolidatedUnique | Assets/Scripts/Model/main.py:118-167 | Two consolidated lists standing for the same steps are equal, so each maximal same-direction run becomes exactly one Move of its length. |
| Building.IsPositionInRoom | Assets/Scripts/BuildingStructure.cs:68-75 | The box test holds exactly when x and z are in the closed interval centre ± size/2 and y is in `[position.y, position.y + floorHeight)`. |
| Building.InRoomIgnoresHeight | Assets/Scripts/BuildingStructure.cs:74 | `size.y` never matters, and the top face (y = base + floor height) is outside. |
| Building.ScanRooms | Assets/Scripts/BuildingStructure.cs:59-63 | Returns the first room index from k on that holds the position, or None when no such room exists. |
| Building.ScanFloors | Assets/Scripts/BuildingStructure.cs:57-64 | Returns the first (floor, room) pair, in floor order then room order, that holds the position, or None when none exists. |
| Building.FindRoomForPosition | Assets/Scripts/BuildingStructure.cs:55-66 | Returns None exactly when no room on any floor holds the position. Otherwise it returns the first such room in scan order. |
| Building.FoundNeedsHeight | Assets/Scripts/BuildingStructure.cs:74 | A room can only be found when the floor height is positive. |
| Building.DefaultLayout | Assets/Scripts/BuildingStructure.cs:26-52 | Floors 1 and 2 with the given height, each with three rooms, exactly one of them an exit. Floor-1 rooms are at y = 0 and floor-2 rooms at y = floor height, all cubes of the room size. |
| Building.InitializedIdempotent | Assets/Scripts/BuildingStructure.cs:10-24 | The guard leaves a non-empty floor list unchanged, never leaves it empty, and running it twice is the same as once. |
| Building.BuildingStructure.constructor | Assets/Scripts/BuildingStructure.cs:6-8 | No floors, room size 5, floor height 3. |
| Building.BuildingStructure.InitializeBuilding | Assets/Scripts/BuildingStructure.cs:26-53 | `floors` becomes the default layout. |
| Building.BuildingStructure.Awake | Assets/Scripts/BuildingStructure.cs:10-16 | Installs the default layout only when `floors` was empty. |
| Building.BuildingStructure.OnValidate | Assets/Scripts/BuildingStructure.cs:18-24 | Same guard as Awake. |
| Pathfinding.NatToString | Assets/Scripts/PathfindingGraph.cs:22 | Decimal formatting gives a non-empty string of digits, at least two for n >= 10. |
| Pathfinding.NatToStringValue | Assets/Scripts/PathfindingGraph.cs:22 | The digits denote n in decimal, most significant first, with no leading zero. |
| Pathfinding.IntToString | Assets/Scripts/PathfindingGraph.cs:22 | Starts with `-` exactly for negatives. The rest is digits. |
| Pathfinding.IntToStringValue | Assets/Scripts/PathfindingGraph.cs:22 | A non-negative n is written as its decimal digits; a negative n as `-` followed by the decimal digits of -n. Neither has a leading zero. |
| Pathfinding.RoomKeyInjective | Assets/Scripts/PathfindingGraph.cs:22 | Different (floor number, name) pairs never format to the same key. |
| Pathfinding.RoomGraphKeys | Assets/Scripts/PathfindingGraph.cs:18-23 | Graph keys are exactly the keys `"Floor{floorNumber}_{name}"` of the rooms on all floors. |
| Pathfinding.RoomGraphEntry | Assets/Scripts/PathfindingGraph.cs:18-48 | Every room has an entry, and when no later room shares its key, the entry is the one written for it. |
| Pathfinding.SameFloorKeys | Assets/Scripts/PathfindingGraph.cs:26-34 | The same-floor loop adds the key of every other room of the floor, and no other keys. |
| Pathfinding.SameFloorValue | Assets/Scripts/PathfindingGraph.cs:30-32 | The weight toward a room is the distance between the two centres, unless a later room with the same key overwrote it. |
| Pathfinding.RoomEdgesKeys | Assets/Scripts/PathfindingGraph.cs:25-46 | A room's entry holds its floor's other rooms, the down key when n > 1 and the up key when 0 <= n < floor count. Its own key appears only when a namesake shares its floor. |
| Pathfinding.RoomEdgesWeights | Assets/Scripts/PathfindingGraph.cs:31-45 | The down edge weighs the room's floor height. The up edge weighs `floors[n].height`. A same-floor edge records both centres. |
| Pathfinding.RoomKeyAt | Assets/Scripts/PathfindingGraph.cs:57-66 | Returns None exactly when no room holds the position. Otherwise the key uses floor number floor(y / floorHeight) + 1 and the found room's name. |
| Pathfinding.QuotientBetween | Assets/Scripts/PathfindingGraph.cs:62 | A height between lo and lo+1 floor heights lies lo floors up. |
| Pathfinding.DefaultLayoutDangling | Assets/Scripts/PathfindingGraph.cs:42-46 | In the default layout, "Floor1_Room 1" has an up edge to "Floor2_Room 1", which is not a graph key. |
| Pathfinding.DefaultLayoutKeyFloor | Assets/Scripts/PathfindingGraph.cs:62 | In the default layout, the computed floor number equals the number of the floor whose room was found. |
| Pathfinding.DefaultLayoutKeyInGraph | Assets/Scripts/PathfindingGraph.cs:57-66 | In the default layout, every key returned for a located position is a graph key. |
| Pathfinding.RoomKeyAtFloorMismatch | Assets/Scripts/PathfindingGraph.cs:62-63 | A room on a floor numbered 5 at height 0 gets key "Floor1_A", which is not in the graph. |
| Pathfinding.WriteRoom | Assets/Scripts/PathfindingGraph.cs:20-47 | One room pass writes exactly that room's entry. It throws exactly for a negative floor number, leaving the same-floor edges in place. |
| Pathfinding.WriteFloor | Assets/Scripts/PathfindingGraph.cs:20-47 | One floor pass writes every room's entry in order. It throws exactly when the floor has rooms and a negative number, after the first room's same-floor edges. |
| Pathfinding.PathfindingGraph.constructor | Assets/Scripts/PathfindingGraph.cs:6-7 | The graph is absent until generated. |
| Pathfinding.PathfindingGraph.GenerateGraph | Assets/Scripts/PathfindingGraph.cs:14-49 | Throws exactly when some floor with rooms has a negative number, leaving the partial graph of the first such floor. Otherwise `graph` becomes `RoomGraphOf(floors)`. |
| Pathfinding.PathfindingGraph.GetNeighbors | Assets/Scripts/PathfindingGraph.cs:51-54 | Returns the stored map for a known key and an empty map otherwise. |
| Pathfinding.PathfindingGraph.GetRoomKey | Assets/Scripts/PathfindingGraph.cs:57-66 | Returns null exactly when no room of the building holds the position. Otherwise the key names the first room holding it, numbered floor(y / defaultFloorHeight) + 1. |
| Tracker.Climbed | Assets/Scripts/PositionTracker.cs:23-33 | Returns the length of the longest prefix of floors strictly below the player. The next floor, if any, is not below. |
| Tracker.PrefixClimbed | Assets/Scripts/PositionTracker.cs:23-33 | That prefix length is determined uniquely by where the scan breaks. |
| Tracker.SelectFloor | Assets/Scripts/PositionTracker.cs:23-33 | The result is the previous value or an index below the floor count. |
| Tracker.SelectFloorLargest | Assets/Scripts/PositionTracker.cs:23-33 | Above the first floor, the index is the largest i with every floor 0..i strictly below the player. |
| Tracker.SelectFloorKeeps | Assets/Scripts/PositionTracker.cs:11 | With no floors, or the player not above floor 0, the previous index is kept. |
| Tracker.SelectFloorIgnoresLater | Assets/Scripts/PositionTracker.cs:29-32 | Floors after the break do not matter, even those below the player. |
| Tracker.SelectFloorStrict | Assets/Scripts/PositionTracker.cs:25 | A player exactly at floor i's height is not counted on floor i. |
| Tracker.PositionTracker.constructor | Assets/Scripts/PositionTracker.cs:11 | `currentFloor` starts at 0. |
| Tracker.PositionTracker.UpdatePlayerPosition | Assets/Scripts/PositionTracker.cs:18-33 | The `for`/`break` loop sets `currentFloor` to `SelectFloor(floors, y, old currentFloor)`. |

## Left out

- The Flask route, request parsing, JSON loading, logging and timing are I/O. The building map is an input sequence of `FloorMap` values.
- `_calculate_bounds` and `_find_closest_valid_point` are float minimisations and are not part of this model.
- Search.FindPath: requires `start` and `end` to be graph keys, in place of the closest-point fallback. It also requires the graph to be closed under its edges, which `Grid.GraphClosed` proves of every graph `CreateGraph` builds.
- Search.FindPath: does not claim the path is shortest. The heuristic is inadmissible (see `Search.HeuristicOvercharges`).
- Instructions.GenerateConsolidatedInstructions: a Move counts path steps. The `int(float(..) * 10)` coordinate conversion and the metre formatting with `grid_size` are floating point and string formatting.
- Python's `IndexError` on ragged or mismatched maps is `None` from `Grid.CreateGraph`, and is not an exception.
- `Vector3.Distance` is left uninterpreted: a same-floor weight records the two centres. Coordinates are exact reals, so IEEE rounding is left out.
- Room identity: the C# test `room != otherRoom` compares references, and it is modelled as list-index inequality. The same `Room` object listed twice in one floor is not modelled.
- Pathfinding.PathfindingGraph.GetNeighbors: requires the graph to have been generated. Before `Start` the C# dictionary is null and the lookup throws.
- `PositionTracker.floors` is the list of floor transform heights, and the player's height is a parameter. Transforms are not modelled.
- Unity lifecycle wiring (`Start`, `Update`), `Debug.Log`, `Backendapi.cs` (network I/O) and the two visualizer scripts (rendering) are not part of this model.
