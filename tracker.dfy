/**
 * Floor detection of the Unity client (PositionTracker.cs): the tracker keeps
 * the index of the floor the player is on and updates it from the player's
 * height by scanning the floors' heights from the bottom.
 */
module Tracker {

  /**
   * How many floors, from the first, lie strictly below height y without a
   * break: the scan stops at the first floor that does not.
   */
  function Climbed(levels: seq<real>, y: real): (n: nat)
    ensures n <= |levels|
    ensures forall j :: 0 <= j < n ==> y > levels[j]
    ensures n < |levels| ==> y <= levels[n]
  {
    if levels == [] || y <= levels[0] then 0 else 1 + Climbed(levels[1..], y)
  }

  /** The floor index after a scan that started from `previous`: that value or a valid index. */
  function SelectFloor(levels: seq<real>, y: real, previous: int): (i: int)
    ensures i == previous || 0 <= i < |levels|
  {
    var n := Climbed(levels, y);
    if n == 0 then previous else n - 1
  }

  /**
   * When the player is above the first floor, the index is the largest i such
   * that every floor 0..i lies strictly below the player.
   */
  lemma SelectFloorLargest(levels: seq<real>, y: real, previous: int)
    requires |levels| > 0 && y > levels[0]
    ensures var i := SelectFloor(levels, y, previous);
      0 <= i < |levels| && (forall j :: 0 <= j <= i ==> y > levels[j]) &&
      (i + 1 < |levels| ==> y <= levels[i + 1])
  {
  }

  /** With no floors, or the player not above the first one, the index is kept. */
  lemma SelectFloorKeeps(levels: seq<real>, y: real, previous: int)
    requires |levels| == 0 || y <= levels[0]
    ensures SelectFloor(levels, y, previous) == previous
  {
  }

  /**
   * The scan stops at the first floor not strictly below the player: floors
   * after it do not matter, even those lying below the player.
   */
  lemma {:induction false} SelectFloorIgnoresLater(levels: seq<real>, rest: seq<real>, y: real, previous: int, b: int)
    requires 0 <= b < |levels| && y <= levels[b]
    ensures SelectFloor(levels + rest, y, previous) == SelectFloor(levels, y, previous)
  {
    ClimbedIgnoresLater(levels, rest, y, b);
  }

  lemma {:induction false} ClimbedIgnoresLater(levels: seq<real>, rest: seq<real>, y: real, b: int)
    requires 0 <= b < |levels| && y <= levels[b]
    ensures Climbed(levels + rest, y) == Climbed(levels, y)
  {
    if b > 0 && y > levels[0] {
      assert (levels + rest)[1..] == levels[1..] + rest;
      ClimbedIgnoresLater(levels[1..], rest, y, b - 1);
    }
  }

  /** A player exactly at a floor's height is not on it: the comparison is strict. */
  lemma SelectFloorStrict(levels: seq<real>, y: real, previous: int, i: int)
    requires 0 <= i < |levels| && y == levels[i]
    ensures SelectFloor(levels, y, previous) == previous || SelectFloor(levels, y, previous) < i
  {
  }

  class PositionTracker {
    /** The height of each floor's transform, bottom floor first. */
    var floors: seq<real>
    var currentFloor: int

    constructor (levels: seq<real>)
      ensures floors == levels && currentFloor == 0
    {
      floors := levels;
      currentFloor := 0;
    }

    /** The scan of UpdatePlayerPosition at player height playerY. */
    method UpdatePlayerPosition(playerY: real)
      modifies this`currentFloor
      ensures currentFloor == SelectFloor(floors, playerY, old(currentFloor))
    {
      var i := 0;
      while i < |floors|
        invariant 0 <= i <= |floors|
        invariant forall j :: 0 <= j < i ==> playerY > floors[j]
        invariant currentFloor == (if i == 0 then old(currentFloor) else i - 1)
      {
        if playerY > floors[i] {
          currentFloor := i;
        } else {
          break;
        }
        i := i + 1;
      }
      PrefixClimbed(floors, playerY, i);
    }
  }

  /** When the first n floors lie below y and the next one, if any, does not, n floors are climbed. */
  lemma PrefixClimbed(levels: seq<real>, y: real, n: int)
    requires 0 <= n <= |levels|
    requires forall j :: 0 <= j < n ==> y > levels[j]
    requires n == |levels| || y <= levels[n]
    ensures Climbed(levels, y) == n
  {
  }
}
