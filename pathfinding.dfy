/**
 * The room graph of the Unity client (PathfindingGraph.cs): one entry per
 * room keyed "Floor{n}_{name}", edges to every other room of the same floor
 * weighted by the distance between centres, and stair edges to the room of
 * the same name one floor down and one floor up, weighted by a floor height.
 */
module Pathfinding {
  import opened Wrappers
  import opened Building

  /**
   * An edge weight. Vector3.Distance is left uninterpreted: a same-floor
   * weight records the two centres it measures.
   */
  datatype Weight = Distance(from: Vec3, to: Vec3) | Rise(height: real)

  type Edges = map<string, Weight>

  type RoomGraph = map<string, Edges>

  predicate IsDigit(c: char) {
    '0' <= c <= '9'
  }

  function DigitChar(d: nat): (c: char)
    requires d < 10
    ensures IsDigit(c)
  {
    (('0' as int) + d) as char
  }

  /** The number a string of decimal digits denotes, most significant digit first. */
  function DigitsValue(s: string): int
    decreases |s|
  {
    if s == [] then 0 else 10 * DigitsValue(s[..|s| - 1]) + ((s[|s| - 1] as int) - ('0' as int))
  }

  /** Decimal digits of n, most significant first. */
  function NatToString(n: nat): (s: string)
    ensures |s| > 0 && forall t :: 0 <= t < |s| ==> IsDigit(s[t])
    ensures n >= 10 ==> |s| >= 2
  {
    if n < 10 then [DigitChar(n)] else NatToString(n / 10) + [DigitChar(n % 10)]
  }

  /** Decimal integer formatting: a minus sign before the digits of a negative number. */
  function IntToString(n: int): (s: string)
    ensures |s| > 0 && (s[0] == '-' <==> n < 0)
    ensures forall t :: 0 < t < |s| ==> IsDigit(s[t])
  {
    if n < 0 then "-" + NatToString(-n) else NatToString(n)
  }

  /** The digits denote n in decimal, with no leading zero. */
  lemma {:induction false} NatToStringValue(n: nat)
    ensures var s := NatToString(n); DigitsValue(s) == n && (|s| == 1 || s[0] != '0')
  {
    if n >= 10 {
      var high := NatToString(n / 10);
      NatToStringValue(n / 10);
      assert NatToString(n)[..|high|] == high;
    }
  }

  /**
   * A non-negative number is written as its digits alone, a negative one as a
   * minus sign followed by the digits of its magnitude; neither has a leading zero.
   */
  lemma IntToStringValue(n: int)
    ensures var s := IntToString(n);
      (n >= 0 ==> IsDigit(s[0]) && DigitsValue(s) == n && (|s| == 1 || s[0] != '0')) &&
      (n < 0 ==> |s| >= 2 && DigitsValue(s[1..]) == -n && (|s| == 2 || s[1] != '0'))
  {
    if n < 0 {
      NatToStringValue(-n);
      assert IntToString(n)[1..] == NatToString(-n);
    } else {
      NatToStringValue(n);
    }
  }

  lemma {:induction false} NatToStringInjective(a: nat, b: nat)
    requires NatToString(a) == NatToString(b)
    ensures a == b
  {
    if a >= 10 && b >= 10 {
      var sa, sb := NatToString(a / 10), NatToString(b / 10);
      assert sa == NatToString(a)[..|sa|] && sb == NatToString(b)[..|sb|];
      NatToStringInjective(a / 10, b / 10);
      assert DigitChar(a % 10) == NatToString(a)[|sa|];
    }
  }

  lemma IntToStringInjective(a: int, b: int)
    requires IntToString(a) == IntToString(b)
    ensures a == b
  {
    if a < 0 && b < 0 {
      assert NatToString(-a) == IntToString(a)[1..];
      NatToStringInjective(-a, -b);
    } else if a >= 0 && b >= 0 {
      NatToStringInjective(a, b);
    }
  }

  /** The key of a room: "Floor", the floor number, an underscore, the room's name. */
  function RoomKey(floorNumber: int, name: string): string {
    "Floor" + IntToString(floorNumber) + "_" + name
  }

  /** Distinct (floor number, name) pairs never share a key: the number ends at the first underscore. */
  lemma RoomKeyInjective(n1: int, name1: string, n2: int, name2: string)
    requires RoomKey(n1, name1) == RoomKey(n2, name2)
    ensures n1 == n2 && name1 == name2
  {
    var s1, s2 := IntToString(n1), IntToString(n2);
    var key := RoomKey(n1, name1);
    assert key[5 + |s1|] == '_' && key[5 + |s2|] == '_';
    assert |s1| == |s2|;
    assert s1 == key[5..5 + |s1|] && s2 == key[5..5 + |s2|];
    IntToStringInjective(n1, n2);
    assert name1 == key[6 + |s1|..] && name2 == key[6 + |s2|..];
  }

  function KeyOf(floor: Floor, k: int): string
    requires 0 <= k < |floor.rooms|
  {
    RoomKey(floor.floorNumber, floor.rooms[k].name)
  }

  /** The edges room k gets towards rooms 0..m-1 of its floor other than itself. */
  function SameFloorEdges(floor: Floor, k: int, m: int): Edges
    requires 0 <= k < |floor.rooms| && 0 <= m <= |floor.rooms|
  {
    if m == 0 then map[]
    else if m - 1 == k then SameFloorEdges(floor, k, m - 1)
    else SameFloorEdges(floor, k, m - 1)[KeyOf(floor, m - 1) :=
      Distance(floor.rooms[k].position, floor.rooms[m - 1].position)]
  }

  /** The stair edge down, for floors numbered above 1. */
  function WithDown(floor: Floor, name: string, edges: Edges): Edges {
    if floor.floorNumber > 1 then edges[RoomKey(floor.floorNumber - 1, name) := Rise(floor.height)]
    else edges
  }

  /**
   * The stair edge up, for floor numbers below the floor count, weighted by the
   * height of the floor at LIST INDEX floorNumber. A negative number makes the
   * source throw; GenerateGraph handles that case before this is reached.
   */
  function WithUp(floors: seq<Floor>, floor: Floor, name: string, edges: Edges): Edges {
    if 0 <= floor.floorNumber < |floors| then
      edges[RoomKey(floor.floorNumber + 1, name) := Rise(floors[floor.floorNumber].height)]
    else edges
  }

  /** The entry written for room k of floor f. */
  function RoomEdges(floors: seq<Floor>, f: int, k: int): Edges
    requires 0 <= f < |floors| && 0 <= k < |floors[f].rooms|
  {
    var floor := floors[f];
    WithUp(floors, floor, floor.rooms[k].name,
      WithDown(floor, floor.rooms[k].name, SameFloorEdges(floor, k, |floor.rooms|)))
  }

  /** g after the entries of rooms 0..k-1 of floor f are written, each overwriting an equal key. */
  function AddRooms(floors: seq<Floor>, f: int, k: int, g: RoomGraph): RoomGraph
    requires 0 <= f < |floors| && 0 <= k <= |floors[f].rooms|
  {
    if k == 0 then g
    else AddRooms(floors, f, k - 1, g)[KeyOf(floors[f], k - 1) := RoomEdges(floors, f, k - 1)]
  }

  /** The graph after floors 0..f-1. */
  function AddFloors(floors: seq<Floor>, f: int): RoomGraph
    requires 0 <= f <= |floors|
  {
    if f == 0 then map[]
    else AddRooms(floors, f - 1, |floors[f - 1].rooms|, AddFloors(floors, f - 1))
  }

  /** The graph GenerateGraph builds when it does not throw. */
  function RoomGraphOf(floors: seq<Floor>): RoomGraph {
    AddFloors(floors, |floors|)
  }

  /** Floor f has a room and a negative number: indexing the floor list by it throws. */
  predicate Faulty(floors: seq<Floor>, f: int) {
    0 <= f < |floors| && |floors[f].rooms| > 0 && floors[f].floorNumber < 0
  }

  /** Floor f is the first faulty floor. */
  predicate FirstFaulty(floors: seq<Floor>, f: int) {
    Faulty(floors, f) && forall f2 :: 0 <= f2 < f ==> !Faulty(floors, f2)
  }

  /** The graph left behind by the throw on floor f: its first room's same-floor edges are in. */
  function ThrowState(floors: seq<Floor>, f: int): RoomGraph
    requires Faulty(floors, f)
  {
    AddFloors(floors, f)[KeyOf(floors[f], 0) := SameFloorEdges(floors[f], 0, |floors[f].rooms|)]
  }

  // ----- Keys of the graph -----

  /** Room k of floor f exists and has the given key. */
  predicate Keyed(floors: seq<Floor>, f: int, k: int, key: string) {
    0 <= f < |floors| && 0 <= k < |floors[f].rooms| && key == KeyOf(floors[f], k)
  }

  lemma {:induction false} AddRoomsKeys(floors: seq<Floor>, f: int, k: int, g: RoomGraph, key: string)
    requires 0 <= f < |floors| && 0 <= k <= |floors[f].rooms|
    ensures key in AddRooms(floors, f, k, g) <==> key in g || exists m :: 0 <= m < k && Keyed(floors, f, m, key)
  {
    if k > 0 {
      AddRoomsKeys(floors, f, k - 1, g, key);
      assert key == KeyOf(floors[f], k - 1) ==> Keyed(floors, f, k - 1, key);
    }
  }

  lemma {:induction false} AddFloorsKeys(floors: seq<Floor>, f: int, key: string)
    requires 0 <= f <= |floors|
    ensures key in AddFloors(floors, f) <==> exists f2, m :: 0 <= f2 < f && Keyed(floors, f2, m, key)
  {
    if f > 0 {
      var g0 := AddFloors(floors, f - 1);
      AddFloorsKeys(floors, f - 1, key);
      AddRoomsKeys(floors, f - 1, |floors[f - 1].rooms|, g0, key);
      if key in AddFloors(floors, f) {
        if key in g0 {
          var f2, m :| 0 <= f2 < f - 1 && Keyed(floors, f2, m, key);
          assert 0 <= f2 < f;
        } else {
          var m :| 0 <= m < |floors[f - 1].rooms| && Keyed(floors, f - 1, m, key);
          assert 0 <= f - 1 < f;
        }
      } else {
        forall f2, m | 0 <= f2 < f
          ensures !Keyed(floors, f2, m, key)
        {
          if f2 < f - 1 {
            assert !Keyed(floors, f2, m, key);
          } else if 0 <= m < |floors[f2].rooms| {
            assert !Keyed(floors, f - 1, m, key);
          }
        }
      }
    }
  }

  /** The keys of the graph are exactly the keys of the rooms on all floors. */
  lemma RoomGraphKeys(floors: seq<Floor>, key: string)
    ensures key in RoomGraphOf(floors) <==> exists f, k :: Keyed(floors, f, k, key)
  {
    AddFloorsKeys(floors, |floors|, key);
  }

  // ----- Entries of the graph -----

  /** No room scanned after room k of floor f has the same key: its entry is the one that stays. */
  ghost predicate LastWriter(floors: seq<Floor>, f: int, k: int)
    requires 0 <= f < |floors| && 0 <= k < |floors[f].rooms|
  {
    forall f2, k2 ::
      (0 <= f2 < |floors| && 0 <= k2 < |floors[f2].rooms| && NoLater(f, k, f2, k2) && (f2, k2) != (f, k)) ==>
      KeyOf(floors[f2], k2) != KeyOf(floors[f], k)
  }

  lemma {:induction false} AddRoomsEntry(floors: seq<Floor>, f: int, k: int, m: int, g: RoomGraph)
    requires 0 <= f < |floors| && 0 <= m < k <= |floors[f].rooms|
    requires forall m2 :: m < m2 < k ==> KeyOf(floors[f], m2) != KeyOf(floors[f], m)
    ensures KeyOf(floors[f], m) in AddRooms(floors, f, k, g)
    ensures AddRooms(floors, f, k, g)[KeyOf(floors[f], m)] == RoomEdges(floors, f, m)
  {
    var key, last := KeyOf(floors[f], m), KeyOf(floors[f], k - 1);
    var before := AddRooms(floors, f, k - 1, g);
    assert AddRooms(floors, f, k, g) == before[last := RoomEdges(floors, f, k - 1)];
    if k - 1 != m {
      AddRoomsEntry(floors, f, k - 1, m, g);
      assert last != key;
    }
  }

  lemma {:induction false} AddRoomsKeeps(floors: seq<Floor>, f: int, k: int, g: RoomGraph, key: string)
    requires 0 <= f < |floors| && 0 <= k <= |floors[f].rooms| && key in g
    requires forall m :: 0 <= m < k ==> KeyOf(floors[f], m) != key
    ensures key in AddRooms(floors, f, k, g) && AddRooms(floors, f, k, g)[key] == g[key]
  {
    if k > 0 {
      AddRoomsKeeps(floors, f, k - 1, g, key);
    }
  }

  lemma {:induction false} AddFloorsEntry(floors: seq<Floor>, F: int, f: int, k: int)
    requires 0 <= f < F <= |floors| && 0 <= k < |floors[f].rooms|
    requires forall f2, k2 ::
      (0 <= f2 < F && 0 <= k2 < |floors[f2].rooms| && NoLater(f, k, f2, k2) && (f2, k2) != (f, k)) ==>
      KeyOf(floors[f2], k2) != KeyOf(floors[f], k)
    ensures KeyOf(floors[f], k) in AddFloors(floors, F)
    ensures AddFloors(floors, F)[KeyOf(floors[f], k)] == RoomEdges(floors, f, k)
  {
    var last := F - 1;
    if f == last {
      AddLastFloorEntry(floors, f, k);
    } else {
      AddFloorsEntry(floors, last, f, k);
      AddLaterFloorKeeps(floors, last, f, k);
    }
  }

  /** Room k of the last floor written, with no later namesake on that floor, keeps its own entry. */
  lemma AddLastFloorEntry(floors: seq<Floor>, f: int, k: int)
    requires 0 <= f < |floors| && 0 <= k < |floors[f].rooms|
    requires forall k2 :: k < k2 < |floors[f].rooms| ==> KeyOf(floors[f], k2) != KeyOf(floors[f], k)
    ensures KeyOf(floors[f], k) in AddFloors(floors, f + 1)
    ensures AddFloors(floors, f + 1)[KeyOf(floors[f], k)] == RoomEdges(floors, f, k)
  {
    AddRoomsEntry(floors, f, |floors[f].rooms|, k, AddFloors(floors, f));
  }

  /** Writing floor `last` keeps the entry of a room of an earlier floor whose key it does not repeat. */
  lemma AddLaterFloorKeeps(floors: seq<Floor>, last: int, f: int, k: int)
    requires 0 <= f < last < |floors| && 0 <= k < |floors[f].rooms|
    requires forall k2 :: 0 <= k2 < |floors[last].rooms| ==> KeyOf(floors[last], k2) != KeyOf(floors[f], k)
    requires KeyOf(floors[f], k) in AddFloors(floors, last)
    ensures KeyOf(floors[f], k) in AddFloors(floors, last + 1)
    ensures AddFloors(floors, last + 1)[KeyOf(floors[f], k)] == AddFloors(floors, last)[KeyOf(floors[f], k)]
  {
    AddRoomsKeeps(floors, last, |floors[last].rooms|, AddFloors(floors, last), KeyOf(floors[f], k));
  }

  /**
   * Every room has an entry under its key, and when no later room shares that
   * key, the entry is the one written for it.
   */
  lemma RoomGraphEntry(floors: seq<Floor>, f: int, k: int)
    requires 0 <= f < |floors| && 0 <= k < |floors[f].rooms|
    requires LastWriter(floors, f, k)
    ensures KeyOf(floors[f], k) in RoomGraphOf(floors)
    ensures RoomGraphOf(floors)[KeyOf(floors[f], k)] == RoomEdges(floors, f, k)
  {
    AddFloorsEntry(floors, |floors|, f, k);
  }

  // ----- The entry of one room -----

  lemma {:induction false} SameFloorKeys(floor: Floor, k: int, m: int, key: string)
    requires 0 <= k < |floor.rooms| && 0 <= m <= |floor.rooms|
    ensures key in SameFloorEdges(floor, k, m) <==>
      exists m2 :: 0 <= m2 < m && m2 != k && key == KeyOf(floor, m2)
  {
    if m > 0 {
      SameFloorKeys(floor, k, m - 1, key);
    }
  }

  lemma {:induction false} SameFloorValue(floor: Floor, k: int, m: int, m2: int)
    requires 0 <= k < |floor.rooms| && 0 <= m2 < m <= |floor.rooms| && m2 != k
    requires forall m3 :: m2 < m3 < m && m3 != k ==> KeyOf(floor, m3) != KeyOf(floor, m2)
    ensures KeyOf(floor, m2) in SameFloorEdges(floor, k, m)
    ensures SameFloorEdges(floor, k, m)[KeyOf(floor, m2)] ==
      Distance(floor.rooms[k].position, floor.rooms[m2].position)
  {
    if m - 1 != m2 {
      SameFloorValue(floor, k, m - 1, m2);
    }
  }

  /**
   * The keys of a room's entry: the keys of the other rooms of its floor, the
   * room of its name one floor down when the number is above 1, and one floor
   * up when the number is below the floor count. Its own key is among them only
   * when another room of the floor bears its name.
   */
  lemma RoomEdgesKeys(floors: seq<Floor>, f: int, k: int, key: string)
    requires 0 <= f < |floors| && 0 <= k < |floors[f].rooms|
    ensures key in RoomEdges(floors, f, k) <==>
      (exists m :: 0 <= m < |floors[f].rooms| && m != k && key == KeyOf(floors[f], m)) ||
      (floors[f].floorNumber > 1 && key == RoomKey(floors[f].floorNumber - 1, floors[f].rooms[k].name)) ||
      (0 <= floors[f].floorNumber < |floors| && key == RoomKey(floors[f].floorNumber + 1, floors[f].rooms[k].name))
    ensures KeyOf(floors[f], k) in RoomEdges(floors, f, k) <==>
      exists m :: 0 <= m < |floors[f].rooms| && m != k && floors[f].rooms[m].name == floors[f].rooms[k].name
  {
    var floor := floors[f];
    var n, name := floor.floorNumber, floor.rooms[k].name;
    SameFloorKeys(floor, k, |floor.rooms|, key);
    SameFloorKeys(floor, k, |floor.rooms|, KeyOf(floor, k));
    if RoomKey(n - 1, name) == KeyOf(floor, k) {
      RoomKeyInjective(n - 1, name, n, name);
    }
    if RoomKey(n + 1, name) == KeyOf(floor, k) {
      RoomKeyInjective(n + 1, name, n, name);
    }
    if KeyOf(floor, k) in RoomEdges(floors, f, k) {
      var m :| 0 <= m < |floor.rooms| && m != k && KeyOf(floor, k) == KeyOf(floor, m);
      RoomKeyInjective(n, floor.rooms[m].name, n, name);
    } else {
      forall m | 0 <= m < |floor.rooms| && m != k
        ensures floor.rooms[m].name != name
      {
        assert KeyOf(floor, m) != KeyOf(floor, k);
      }
    }
  }

  /** Room m is another room than k and the last one of the floor bearing its name. */
  predicate LastNamesake(floor: Floor, k: int, m: int) {
    0 <= m < |floor.rooms| && m != k &&
    forall m2 :: m < m2 < |floor.rooms| && m2 != k ==> floor.rooms[m2].name != floor.rooms[m].name
  }

  /**
   * The weights of a room's entry: the stair edge down weighs the room's own
   * floor height, the stair edge up weighs the height of the floor at list
   * index floorNumber, and the edge to another room of the floor records the
   * two centres, the last room bearing a name winning.
   */
  lemma RoomEdgesWeights(floors: seq<Floor>, f: int, k: int)
    requires 0 <= f < |floors| && 0 <= k < |floors[f].rooms|
    ensures var n, name := floors[f].floorNumber, floors[f].rooms[k].name;
      n > 1 ==>
        (RoomKey(n - 1, name) in RoomEdges(floors, f, k) &&
         RoomEdges(floors, f, k)[RoomKey(n - 1, name)] == Rise(floors[f].height))
    ensures var n, name := floors[f].floorNumber, floors[f].rooms[k].name;
      0 <= n < |floors| ==>
        (RoomKey(n + 1, name) in RoomEdges(floors, f, k) &&
         RoomEdges(floors, f, k)[RoomKey(n + 1, name)] == Rise(floors[n].height))
    ensures forall m :: LastNamesake(floors[f], k, m) ==>
      (KeyOf(floors[f], m) in RoomEdges(floors, f, k) &&
       RoomEdges(floors, f, k)[KeyOf(floors[f], m)] == Distance(floors[f].rooms[k].position, floors[f].rooms[m].position))
  {
    var floor := floors[f];
    var n, name := floor.floorNumber, floor.rooms[k].name;
    if RoomKey(n - 1, name) == RoomKey(n + 1, name) {
      RoomKeyInjective(n - 1, name, n + 1, name);
    }
    forall m | LastNamesake(floor, k, m)
      ensures KeyOf(floor, m) in RoomEdges(floors, f, k)
      ensures RoomEdges(floors, f, k)[KeyOf(floor, m)] == Distance(floor.rooms[k].position, floor.rooms[m].position)
    {
      forall m3 | m < m3 < |floor.rooms| && m3 != k
        ensures KeyOf(floor, m3) != KeyOf(floor, m)
      {
        if KeyOf(floor, m3) == KeyOf(floor, m) {
          RoomKeyInjective(n, floor.rooms[m3].name, n, floor.rooms[m].name);
        }
      }
      SameFloorValue(floor, k, |floor.rooms|, m);
      if KeyOf(floor, m) == RoomKey(n - 1, name) {
        RoomKeyInjective(n, floor.rooms[m].name, n - 1, name);
      }
      if KeyOf(floor, m) == RoomKey(n + 1, name) {
        RoomKeyInjective(n, floor.rooms[m].name, n + 1, name);
      }
    }
  }

  // ----- Position to key -----

  /**
   * The key for a position: None (the source's null) when no room holds it;
   * otherwise the name of the room found, under the floor number computed from
   * the height, floor(y / floorHeight) + 1, not the number of the floor the room
   * was found on.
   */
  function RoomKeyAt(floors: seq<Floor>, position: Vec3, floorHeight: real): (key: Option<string>)
    ensures key.None? <==> FindRoomForPosition(floors, position, floorHeight).None?
    ensures key.Some? ==> floorHeight > 0.0
    ensures key.Some? ==> key.value == RoomKey((position.y / floorHeight).Floor + 1, FindRoomForPosition(floors, position, floorHeight).value.name)
  {
    match FindRoomForPosition(floors, position, floorHeight)
    case None => None
    case Some(room) =>
      FoundNeedsHeight(floors, position, floorHeight);
      Some(RoomKey((position.y / floorHeight).Floor + 1, room.name))
  }

  // ----- The default layout -----

  /**
   * Stair edges are added without checking their target: in the default
   * layout, "Floor1_Room 1" has an edge up to "Floor2_Room 1", which is not a
   * key of the graph (floor 2 holds Room 3, Room 4 and Exit).
   */
  lemma DefaultLayoutDangling(roomSize: real, floorHeight: real)
    ensures var g := RoomGraphOf(DefaultLayout(roomSize, floorHeight));
      RoomKey(1, "Room 1") in g && RoomKey(2, "Room 1") in g[RoomKey(1, "Room 1")] && RoomKey(2, "Room 1") !in g
  {
    var floors := DefaultLayout(roomSize, floorHeight);
    assert floors[0].rooms[0].name == "Room 1";
    forall f2, k2 | 0 <= f2 < |floors| && 0 <= k2 < |floors[f2].rooms| && (f2, k2) != (0, 0)
      ensures KeyOf(floors[f2], k2) != KeyOf(floors[0], 0)
    {
      if KeyOf(floors[f2], k2) == KeyOf(floors[0], 0) {
        RoomKeyInjective(floors[f2].floorNumber, floors[f2].rooms[k2].name, 1, "Room 1");
      }
    }
    assert LastWriter(floors, 0, 0);
    RoomGraphEntry(floors, 0, 0);
    RoomEdgesWeights(floors, 0, 0);
    RoomGraphKeys(floors, RoomKey(2, "Room 1"));
    if RoomKey(2, "Room 1") in RoomGraphOf(floors) {
      var f, k :| Keyed(floors, f, k, RoomKey(2, "Room 1"));
      RoomKeyInjective(floors[f].floorNumber, floors[f].rooms[k].name, 2, "Room 1");
    }
  }

  lemma MulSign(a: real, b: real)
    requires b > 0.0
    ensures a > 0.0 ==> a * b > 0.0
    ensures a < 0.0 ==> a * b < 0.0
  {
  }

  /** A height between lo and lo + 1 floor heights lies lo floors up. */
  lemma QuotientBetween(y: real, h: real, lo: real)
    requires h > 0.0 && lo * h <= y < (lo + 1.0) * h
    ensures lo <= y / h < lo + 1.0
  {
    var q := y / h;
    assert q * h == y;
    MulSign(lo - q, h);
    MulSign(q - (lo + 1.0), h);
    assert (lo - q) * h == lo * h - q * h;
    assert (q - (lo + 1.0)) * h == q * h - (lo + 1.0) * h;
  }

  /**
   * In the default layout the floor number computed from the height agrees
   * with the number of the floor whose room holds the position.
   */
  lemma DefaultLayoutKeyFloor(roomSize: real, floorHeight: real, position: Vec3, f: int, k: int)
    requires floorHeight > 0.0 && Hit(DefaultLayout(roomSize, floorHeight), f, k, position, floorHeight)
    ensures (position.y / floorHeight).Floor + 1 == DefaultLayout(roomSize, floorHeight)[f].floorNumber
  {
    var lo := if f == 0 then 0.0 else 1.0;
    assert lo * floorHeight <= position.y < (lo + 1.0) * floorHeight;
    QuotientBetween(position.y, floorHeight, lo);
  }

  /** In the default layout, the key computed for a located position is a key of the graph. */
  lemma DefaultLayoutKeyInGraph(roomSize: real, floorHeight: real, position: Vec3)
    requires RoomKeyAt(DefaultLayout(roomSize, floorHeight), position, floorHeight).Some?
    ensures RoomKeyAt(DefaultLayout(roomSize, floorHeight), position, floorHeight).value in
      RoomGraphOf(DefaultLayout(roomSize, floorHeight))
  {
    var floors := DefaultLayout(roomSize, floorHeight);
    var key := RoomKeyAt(floors, position, floorHeight).value;
    var f, k :| FirstHit(floors, f, k, position, floorHeight) &&
      FindRoomForPosition(floors, position, floorHeight).value == floors[f].rooms[k];
    DefaultLayoutKeyFloor(roomSize, floorHeight, position, f, k);
    assert Keyed(floors, f, k, key);
    RoomGraphKeys(floors, key);
  }

  /**
   * Outside the default layout the computed floor number can miss: a floor
   * numbered 5 with its room at height 0 yields the key "Floor1_A", which the
   * graph does not hold.
   */
  lemma RoomKeyAtFloorMismatch()
    ensures var floors := [Floor(5, [Room("A", Vec3(0.0, 0.0, 0.0), Cube(1.0), false)], 3.0)];
      RoomKeyAt(floors, Vec3(0.0, 0.0, 0.0), 3.0) == Some(RoomKey(1, "A")) &&
      RoomKey(1, "A") !in RoomGraphOf(floors)
  {
    var floors := [Floor(5, [Room("A", Vec3(0.0, 0.0, 0.0), Cube(1.0), false)], 3.0)];
    var origin := Vec3(0.0, 0.0, 0.0);
    assert Hit(floors, 0, 0, origin, 3.0);
    assert (origin.y / 3.0).Floor == 0;
    RoomGraphKeys(floors, RoomKey(1, "A"));
    if RoomKey(1, "A") in RoomGraphOf(floors) {
      var f, k :| Keyed(floors, f, k, RoomKey(1, "A"));
      RoomKeyInjective(5, "A", 1, "A");
    }
  }

  /**
   * One pass of the room loop: writes room k's entry into g, or reports the
   * throw of the up-edge lookup when the floor number is negative.
   */
  method WriteRoom(floors: seq<Floor>, f: int, k: int, g0: RoomGraph) returns (g: RoomGraph, failed: bool)
    requires 0 <= f < |floors| && 0 <= k < |floors[f].rooms|
    ensures failed <==> floors[f].floorNumber < 0
    ensures failed ==> g == g0[KeyOf(floors[f], k) := SameFloorEdges(floors[f], k, |floors[f].rooms|)]
    ensures !failed ==> g == g0[KeyOf(floors[f], k) := RoomEdges(floors, f, k)]
  {
    var floor := floors[f];
    var room := floor.rooms[k];
    var roomKey := RoomKey(floor.floorNumber, room.name);
    g := g0[roomKey := map[]];
    for m := 0 to |floor.rooms|
      invariant g == g0[roomKey := SameFloorEdges(floor, k, m)]
    {
      var otherRoom := floor.rooms[m];
      if m != k {
        var otherRoomKey := RoomKey(floor.floorNumber, otherRoom.name);
        g := g[roomKey := g[roomKey][otherRoomKey := Distance(room.position, otherRoom.position)]];
      }
    }
    if floor.floorNumber > 1 {
      var lowerRoomKey := RoomKey(floor.floorNumber - 1, room.name);
      g := g[roomKey := g[roomKey][lowerRoomKey := Rise(floor.height)]];
    }
    failed := false;
    if floor.floorNumber < |floors| {
      if floor.floorNumber < 0 {
        return g, true;
      }
      var upperRoomKey := RoomKey(floor.floorNumber + 1, room.name);
      g := g[roomKey := g[roomKey][upperRoomKey := Rise(floors[floor.floorNumber].height)]];
    }
  }

  /**
   * The room loop for floor f: writes every room's entry into g0, or stops at
   * the first room when the floor number is negative.
   */
  method WriteFloor(floors: seq<Floor>, f: int, g0: RoomGraph) returns (g: RoomGraph, failed: bool)
    requires 0 <= f < |floors|
    ensures failed <==> Faulty(floors, f)
    ensures failed ==> g == g0[KeyOf(floors[f], 0) := SameFloorEdges(floors[f], 0, |floors[f].rooms|)]
    ensures !failed ==> g == AddRooms(floors, f, |floors[f].rooms|, g0)
  {
    g := g0;
    for k := 0 to |floors[f].rooms|
      invariant g == AddRooms(floors, f, k, g0)
      invariant k > 0 ==> floors[f].floorNumber >= 0
    {
      g, failed := WriteRoom(floors, f, k, g);
      if failed {
        return g, true;
      }
    }
    failed := false;
  }

  class PathfindingGraph {
    var buildingStructure: BuildingStructure
    /** None until GenerateGraph runs (the source's null dictionary). */
    var graph: Option<RoomGraph>

    constructor (building: BuildingStructure)
      ensures buildingStructure == building && graph == None
    {
      buildingStructure := building;
      graph := None;
    }

    /**
     * Builds the graph from the building's floors. Returns true where the
     * source throws ArgumentOutOfRangeException: on the first room of the
     * first floor that has rooms and a negative number.
     */
    method GenerateGraph() returns (thrown: bool)
      modifies this`graph
      ensures thrown ==>
        exists f :: FirstFaulty(buildingStructure.floors, f) && graph == Some(ThrowState(buildingStructure.floors, f))
      ensures !thrown ==> forall f :: !Faulty(buildingStructure.floors, f)
      ensures !thrown ==> graph == Some(RoomGraphOf(buildingStructure.floors))
    {
      var floors := buildingStructure.floors;
      var g: RoomGraph := map[];
      for f := 0 to |floors|
        invariant g == AddFloors(floors, f)
        invariant forall f2 :: 0 <= f2 < f ==> !Faulty(floors, f2)
      {
        var failed;
        g, failed := WriteFloor(floors, f, g);
        if failed {
          assert FirstFaulty(floors, f);
          assert g == ThrowState(floors, f);
          graph := Some(g);
          assert graph == Some(ThrowState(buildingStructure.floors, f));
          return true;
        }
      }
      graph := Some(g);
      return false;
    }

    /** The entry stored for a key, and an empty map for an unknown key: the lookup never fails. */
    function GetNeighbors(roomKey: string): (neighbors: Edges)
      reads this
      requires graph.Some?
      ensures roomKey in graph.value ==> neighbors == graph.value[roomKey]
      ensures roomKey !in graph.value ==> neighbors == map[]
    {
      if roomKey in graph.value then graph.value[roomKey] else map[]
    }

    /**
     * The key of the first room holding the position, numbered by the
     * position's height; null when no room holds it.
     */
    function GetRoomKey(position: Vec3): (key: Option<string>)
      reads this, buildingStructure
      ensures key.None? <==>
        forall f, k :: !Hit(buildingStructure.floors, f, k, position, buildingStructure.defaultFloorHeight)
      ensures key.Some? ==> exists f, k ::
        FirstHit(buildingStructure.floors, f, k, position, buildingStructure.defaultFloorHeight) &&
        key.value == RoomKey((position.y / buildingStructure.defaultFloorHeight).Floor + 1,
          buildingStructure.floors[f].rooms[k].name)
    {
      RoomKeyAt(buildingStructure.floors, position, buildingStructure.defaultFloorHeight)
    }
  }
}
