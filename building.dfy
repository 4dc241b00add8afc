/**
 * The building description of the Unity client (BuildingStructure.cs): floors
 * of axis-aligned rooms, the lookup of the room holding a position, and the
 * default two-floor layout installed when no floors are configured.
 * Coordinates are exact reals.
 */
module Building {
  import opened Wrappers

  datatype Vec3 = Vec3(x: real, y: real, z: real)

  /** A room is a box centred on `position`; `isExit` marks the rooms people leave by. */
  datatype Room = Room(name: string, position: Vec3, size: Vec3, isExit: bool)

  datatype Floor = Floor(floorNumber: int, rooms: seq<Room>, height: real)

  function Plus(a: Vec3, b: Vec3): Vec3 {
    Vec3(a.x + b.x, a.y + b.y, a.z + b.z)
  }

  function Minus(a: Vec3, b: Vec3): Vec3 {
    Vec3(a.x - b.x, a.y - b.y, a.z - b.z)
  }

  function Half(v: Vec3): Vec3 {
    Vec3(v.x / 2.0, v.y / 2.0, v.z / 2.0)
  }

  function Cube(side: real): Vec3 {
    Vec3(side, side, side)
  }

  function RealAbs(r: real): real {
    if r < 0.0 then -r else r
  }

  /**
   * The box test: x and z between the room's bounds, y from the room's base up
   * to, but excluding, one floor height above it. `floorHeight` is the
   * structure's `defaultFloorHeight`. In centred form: closed in x and z around
   * the centre, half-open in y and independent of the room's own height.
   */
  predicate IsPositionInRoom(position: Vec3, room: Room, floorHeight: real): (inside: bool)
    ensures inside <==>
      RealAbs(position.x - room.position.x) <= room.size.x / 2.0 &&
      RealAbs(position.z - room.position.z) <= room.size.z / 2.0 &&
      room.position.y <= position.y < room.position.y + floorHeight
  {
    var minBounds := Minus(room.position, Half(room.size));
    var maxBounds := Plus(room.position, Half(room.size));
    position.x >= minBounds.x && position.x <= maxBounds.x &&
    position.z >= minBounds.z && position.z <= maxBounds.z &&
    position.y >= room.position.y && position.y < room.position.y + floorHeight
  }

  /** The room's own height never matters, and its top face belongs to the floor above. */
  lemma InRoomIgnoresHeight(position: Vec3, room: Room, floorHeight: real, sizeY: real)
    ensures IsPositionInRoom(position, room, floorHeight) ==
      IsPositionInRoom(position, room.(size := room.size.(y := sizeY)), floorHeight)
    ensures !IsPositionInRoom(position.(y := room.position.y + floorHeight), room, floorHeight)
  {
  }

  /** Room k of floor f exists and holds the position. */
  predicate Hit(floors: seq<Floor>, f: int, k: int, position: Vec3, floorHeight: real) {
    0 <= f < |floors| && 0 <= k < |floors[f].rooms| &&
    IsPositionInRoom(position, floors[f].rooms[k], floorHeight)
  }

  /** (f, k) comes no later than (f2, k2) in a scan by floor, then by room. */
  predicate NoLater(f: int, k: int, f2: int, k2: int) {
    f < f2 || (f == f2 && k <= k2)
  }

  /** Room k of floor f holds the position and no room scanned before it does. */
  ghost predicate FirstHit(floors: seq<Floor>, f: int, k: int, position: Vec3, floorHeight: real) {
    Hit(floors, f, k, position, floorHeight) &&
    forall f2, k2 :: Hit(floors, f2, k2, position, floorHeight) ==> NoLater(f, k, f2, k2)
  }

  /** The first room, from index k on, that holds the position. */
  function ScanRooms(rooms: seq<Room>, position: Vec3, floorHeight: real, k: nat): (r: Option<nat>)
    requires k <= |rooms|
    ensures r.Some? ==> k <= r.value < |rooms| && IsPositionInRoom(position, rooms[r.value], floorHeight)
    ensures r.Some? ==> forall m :: k <= m < r.value ==> !IsPositionInRoom(position, rooms[m], floorHeight)
    ensures r.None? ==> forall m :: k <= m < |rooms| ==> !IsPositionInRoom(position, rooms[m], floorHeight)
    decreases |rooms| - k
  {
    if k == |rooms| then None
    else if IsPositionInRoom(position, rooms[k], floorHeight) then Some(k)
    else ScanRooms(rooms, position, floorHeight, k + 1)
  }

  /** The first (floor, room) pair, from floor f on, whose room holds the position. */
  function ScanFloors(floors: seq<Floor>, position: Vec3, floorHeight: real, f: nat): (r: Option<(nat, nat)>)
    requires f <= |floors|
    ensures r.Some? ==> f <= r.value.0 && Hit(floors, r.value.0, r.value.1, position, floorHeight)
    ensures r.Some? ==> forall f2, k2 :: f <= f2 && Hit(floors, f2, k2, position, floorHeight) ==>
      NoLater(r.value.0, r.value.1, f2, k2)
    ensures r.None? ==> forall f2, k2 :: f <= f2 ==> !Hit(floors, f2, k2, position, floorHeight)
    decreases |floors| - f
  {
    if f == |floors| then None
    else match ScanRooms(floors[f].rooms, position, floorHeight, 0)
      case Some(k) => Some((f, k))
      case None => ScanFloors(floors, position, floorHeight, f + 1)
  }

  /**
   * The first room, in floor order and then room order, that holds the
   * position; None (the source's null) when no room on any floor does.
   */
  function FindRoomForPosition(floors: seq<Floor>, position: Vec3, floorHeight: real): (r: Option<Room>)
    ensures r.None? <==> forall f, k :: !Hit(floors, f, k, position, floorHeight)
    ensures r.Some? ==> exists f, k :: FirstHit(floors, f, k, position, floorHeight) && r.value == floors[f].rooms[k]
  {
    match ScanFloors(floors, position, floorHeight, 0)
    case Some((f, k)) => Some(floors[f].rooms[k])
    case None => None
  }

  /** A room is found only when the floor height is positive: otherwise the y slab is empty. */
  lemma FoundNeedsHeight(floors: seq<Floor>, position: Vec3, floorHeight: real)
    requires FindRoomForPosition(floors, position, floorHeight).Some?
    ensures floorHeight > 0.0
  {
  }

  function ExitCount(rooms: seq<Room>): nat {
    if rooms == [] then 0 else (if rooms[0].isExit then 1 else 0) + ExitCount(rooms[1..])
  }

  /**
   * The layout installed by InitializeBuilding: floors 1 and 2, each with two
   * rooms and one exit, all cubes of side roomSize; floor 2 sits one floor
   * height up.
   */
  function DefaultLayout(roomSize: real, floorHeight: real): (floors: seq<Floor>)
    ensures |floors| == 2 && floors[0].floorNumber == 1 && floors[1].floorNumber == 2
    ensures forall f :: 0 <= f < |floors| ==>
      floors[f].height == floorHeight && |floors[f].rooms| == 3 && ExitCount(floors[f].rooms) == 1
    ensures forall k :: 0 <= k < 3 ==>
      floors[0].rooms[k].position.y == 0.0 && floors[1].rooms[k].position.y == floorHeight
    ensures forall f, k :: 0 <= f < |floors| && 0 <= k < |floors[f].rooms| ==>
      floors[f].rooms[k].size == Cube(roomSize)
  {
    var size := Cube(roomSize);
    var first := [ Room("Room 1", Vec3(0.0, 0.0, 0.0), size, false),
                   Room("Room 2", Vec3(6.0, 0.0, 0.0), size, false),
                   Room("Exit", Vec3(3.0, 0.0, 6.0), size, true) ];
    var second := [ Room("Room 3", Vec3(0.0, floorHeight, 0.0), size, false),
                    Room("Room 4", Vec3(6.0, floorHeight, 0.0), size, false),
                    Room("Exit", Vec3(3.0, floorHeight, 6.0), size, true) ];
    assert ExitCount(first[2..]) == 1 && ExitCount(second[2..]) == 1;
    assert ExitCount(first[1..]) == 1 && ExitCount(second[1..]) == 1;
    [ Floor(1, first, floorHeight), Floor(2, second, floorHeight) ]
  }

  /** The floors after the initialise-if-empty guard. */
  function Initialized(floors: seq<Floor>, roomSize: real, floorHeight: real): seq<Floor> {
    if |floors| == 0 then DefaultLayout(roomSize, floorHeight) else floors
  }

  /** The guard never leaves the building empty, keeps configured floors, and running it again changes nothing. */
  lemma InitializedIdempotent(floors: seq<Floor>, roomSize: real, floorHeight: real)
    ensures |Initialized(floors, roomSize, floorHeight)| > 0
    ensures |floors| > 0 ==> Initialized(floors, roomSize, floorHeight) == floors
    ensures Initialized(Initialized(floors, roomSize, floorHeight), roomSize, floorHeight) ==
      Initialized(floors, roomSize, floorHeight)
  {
  }

  class BuildingStructure {
    var floors: seq<Floor>
    var defaultRoomSize: real
    var defaultFloorHeight: real

    /** The field initialisers: no floors, rooms of side 5, floors 3 high. */
    constructor ()
      ensures floors == [] && defaultRoomSize == 5.0 && defaultFloorHeight == 3.0
    {
      floors := [];
      defaultRoomSize := 5.0;
      defaultFloorHeight := 3.0;
    }

    method InitializeBuilding()
      modifies this`floors
      ensures floors == DefaultLayout(defaultRoomSize, defaultFloorHeight)
    {
      floors := DefaultLayout(defaultRoomSize, defaultFloorHeight);
    }

    method Awake()
      modifies this`floors
      ensures floors == Initialized(old(floors), defaultRoomSize, defaultFloorHeight)
    {
      if |floors| == 0 {
        InitializeBuilding();
      }
    }

    method OnValidate()
      modifies this`floors
      ensures floors == Initialized(old(floors), defaultRoomSize, defaultFloorHeight)
    {
      if |floors| == 0 {
        InitializeBuilding();
      }
    }
  }
}
