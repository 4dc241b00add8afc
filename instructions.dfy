/**
 * `generate_consolidated_instructions`: turns a path of grid nodes into
 * run-length-encoded moves ("Move forward n") and floor changes
 * ("Go up to floor f", "Go down to floor f").
 */
module Instructions {
  import opened Grid
  import opened Wrappers

  /** Row index up is forward, down is backward; column index up is right, down is left. */
  datatype Direction = Forward | Backward | Right | Left

  /** What one consecutive pair of path positions amounts to. */
  datatype Step = Walk(dir: Direction) | Climb(up: bool, floor: int) | Stay

  /** One instruction; `count` is the number of path steps, before the grid scaling. */
  datatype Instruction = Move(dir: Direction, count: nat) | GoUp(floor: int) | GoDown(floor: int)

  /**
   * The step from prev to curr, checked in the source's order: floor change first,
   * then the row index, then the column index.
   */
  function StepBetween(prev: Node, curr: Node): (step: Step)
    ensures step.Stay? <==> prev == curr
  {
    if prev.floor != curr.floor then Climb(curr.floor > prev.floor, curr.floor)
    else if prev.i < curr.i then Walk(Forward)
    else if prev.i > curr.i then Walk(Backward)
    else if prev.j < curr.j then Walk(Right)
    else if prev.j > curr.j then Walk(Left)
    else Stay
  }

  /**
   * A floor change wins over any move within the floor, and a row change over
   * a column change.
   */
  lemma StepBetweenCases(prev: Node, curr: Node)
    ensures StepBetween(prev, curr).Climb? <==> prev.floor != curr.floor
    ensures StepBetween(prev, curr).Climb? ==>
      StepBetween(prev, curr).floor == curr.floor && (StepBetween(prev, curr).up <==> curr.floor > prev.floor)
    ensures prev.floor == curr.floor && prev.i != curr.i ==>
      StepBetween(prev, curr) == Walk(if prev.i < curr.i then Forward else Backward)
    ensures prev.floor == curr.floor && prev.i == curr.i && prev.j != curr.j ==>
      StepBetween(prev, curr) == Walk(if prev.j < curr.j then Right else Left)
  {
  }

  function Emit(s: Step): seq<Step> {
    if s.Stay? then [] else [s]
  }

  /** The steps of a path, with the repeated positions dropped. */
  function Trace(path: seq<Node>): seq<Step> {
    if |path| < 2 then []
    else Trace(path[..|path| - 1]) + Emit(StepBetween(path[|path| - 2], path[|path| - 1]))
  }

  function Repeat(s: Step, n: nat): (r: seq<Step>)
    ensures |r| == n && forall t :: 0 <= t < n ==> r[t] == s
  {
    seq(n, _ => s)
  }

  function ExpandOne(instr: Instruction): seq<Step> {
    match instr
    case Move(d, n) => Repeat(Walk(d), n)
    case GoUp(f) => [Climb(true, f)]
    case GoDown(f) => [Climb(false, f)]
  }

  /** The steps a list of instructions stands for: the inverse of consolidation. */
  function Expand(instrs: seq<Instruction>): seq<Step> {
    if instrs == [] then [] else ExpandOne(instrs[0]) + Expand(instrs[1..])
  }

  /** Instruction t is a Move of at least one step, or a floor change, and repeats no direction of a Move just before it. */
  predicate FitsRun(instrs: seq<Instruction>, t: nat)
    requires t < |instrs|
  {
    (instrs[t].Move? ==> instrs[t].count >= 1) &&
    (t > 0 && instrs[t - 1].Move? && instrs[t].Move? ==> instrs[t - 1].dir != instrs[t].dir)
  }

  /** Every Move counts at least one step, and no two adjacent Moves share a direction. */
  predicate Consolidated(instrs: seq<Instruction>) {
    forall t :: 0 <= t < |instrs| ==> FitsRun(instrs, t)
  }

  lemma {:induction false} ExpandAppend(instrs: seq<Instruction>, x: Instruction)
    ensures Expand(instrs + [x]) == Expand(instrs) + ExpandOne(x)
  {
    if instrs == [] {
      assert instrs + [x] == [x];
    } else {
      assert (instrs + [x])[1..] == instrs[1..] + [x];
      ExpandAppend(instrs[1..], x);
    }
  }

  /** The pending run of the loop: the steps counted but not yet emitted. */
  function Pending(current: Option<Direction>, distance: nat): seq<Step> {
    if current.Some? then Repeat(Walk(current.value), distance) else []
  }

  /** Emitting the pending run keeps the list consolidated and moves its steps into it. */
  lemma FlushRun(instrs: seq<Instruction>, d: Direction, n: nat)
    requires Consolidated(instrs) && n >= 1
    requires |instrs| > 0 && instrs[|instrs| - 1].Move? ==> instrs[|instrs| - 1].dir != d
    ensures Consolidated(instrs + [Move(d, n)])
    ensures Expand(instrs + [Move(d, n)]) == Expand(instrs) + Pending(Some(d), n)
  {
    ExpandAppend(instrs, Move(d, n));
    var longer := instrs + [Move(d, n)];
    forall t | 0 <= t < |longer| ensures FitsRun(longer, t) {
      if t < |instrs| { assert FitsRun(instrs, t); }
    }
  }

  /** Emitting a floor change keeps the list consolidated. */
  lemma FlushClimb(instrs: seq<Instruction>, c: Instruction)
    requires Consolidated(instrs) && !c.Move?
    ensures Consolidated(instrs + [c])
    ensures Expand(instrs + [c]) == Expand(instrs) + ExpandOne(c)
  {
    ExpandAppend(instrs, c);
    var longer := instrs + [c];
    forall t | 0 <= t < |longer| ensures FitsRun(longer, t) {
      if t < |instrs| { assert FitsRun(instrs, t); }
    }
  }

  lemma TraceStep(path: seq<Node>, i: nat)
    requires 1 <= i < |path|
    ensures Trace(path[..i + 1]) == Trace(path[..i]) + Emit(StepBetween(path[i - 1], path[i]))
  {
    assert path[..i + 1][..i] == path[..i];
  }

  /**
   * The loop state between iterations: the emitted instructions are consolidated,
   * a pending run has at least one step and differs from a Move just emitted, and
   * with no pending run the last instruction is not a Move.
   */
  predicate RunState(instrs: seq<Instruction>, current: Option<Direction>, distance: nat) {
    && Consolidated(instrs)
    && (current.Some? ==> distance >= 1)
    && (current.None? && |instrs| > 0 ==> !instrs[|instrs| - 1].Move?)
    && (current.Some? && |instrs| > 0 && instrs[|instrs| - 1].Move? ==> instrs[|instrs| - 1].dir != current.value)
  }

  /** A floor change: flush the pending run, then emit the climb. */
  method ClimbStep(instrs0: seq<Instruction>, current0: Option<Direction>, distance0: nat, up: bool, floor: int)
    returns (instrs: seq<Instruction>, current: Option<Direction>, distance: nat)
    requires RunState(instrs0, current0, distance0)
    ensures RunState(instrs, current, distance)
    ensures Expand(instrs) + Pending(current, distance) ==
      Expand(instrs0) + Pending(current0, distance0) + [Climb(up, floor)]
  {
    instrs, current, distance := instrs0, current0, distance0;
    if current.Some? {
      FlushRun(instrs, current.value, distance);
      instrs := instrs + [Move(current.value, distance)];
    }
    var climb := if up then GoUp(floor) else GoDown(floor);
    FlushClimb(instrs, climb);
    instrs := instrs + [climb];
    current := None;
    distance := 0;
  }

  /** A move within the floor: extend the pending run, or flush it and start a new one. */
  method WalkStep(instrs0: seq<Instruction>, current0: Option<Direction>, distance0: nat, dir: Direction)
    returns (instrs: seq<Instruction>, current: Option<Direction>, distance: nat)
    requires RunState(instrs0, current0, distance0)
    ensures RunState(instrs, current, distance)
    ensures Expand(instrs) + Pending(current, distance) ==
      Expand(instrs0) + Pending(current0, distance0) + [Walk(dir)]
  {
    instrs, current, distance := instrs0, current0, distance0;
    if current != Some(dir) {
      if current.Some? {
        FlushRun(instrs, current.value, distance);
        instrs := instrs + [Move(current.value, distance)];
      }
      current := Some(dir);
      distance := 0;
    }
    ghost var run := Pending(current, distance);
    assert Pending(current, distance + 1) == run + [Walk(dir)];
    assert Expand(instrs) + (run + [Walk(dir)]) == (Expand(instrs) + run) + [Walk(dir)];
    distance := distance + 1;
  }

  /** One iteration of the loop: consume the step between two consecutive positions. */
  method ConsumeStep(instrs0: seq<Instruction>, current0: Option<Direction>, distance0: nat, step: Step)
    returns (instrs: seq<Instruction>, current: Option<Direction>, distance: nat)
    requires RunState(instrs0, current0, distance0)
    ensures RunState(instrs, current, distance)
    ensures Expand(instrs) + Pending(current, distance) ==
      Expand(instrs0) + Pending(current0, distance0) + Emit(step)
  {
    match step
    case Climb(up, floor) =>
      instrs, current, distance := ClimbStep(instrs0, current0, distance0, up, floor);
    case Walk(dir) =>
      instrs, current, distance := WalkStep(instrs0, current0, distance0, dir);
    case Stay =>
      instrs, current, distance := instrs0, current0, distance0;
  }

  /**
   * The consolidated instructions expand back to exactly the steps of the path,
   * and are the run-length encoding: maximal runs become one Move each.
   */
  method GenerateConsolidatedInstructions(path: seq<Node>) returns (instrs: seq<Instruction>)
    ensures Expand(instrs) == Trace(path)
    ensures Consolidated(instrs)
    ensures |path| <= 1 ==> instrs == []
  {
    instrs := [];
    var current: Option<Direction> := None;
    var distance: nat := 0;
    var i := 1;
    while i < |path|
      invariant 1 <= i
      invariant |path| > 0 ==> i <= |path| && Expand(instrs) + Pending(current, distance) == Trace(path[..i])
      invariant |path| == 0 ==> instrs == [] && current.None?
      invariant RunState(instrs, current, distance)
    {
      TraceStep(path, i);
      instrs, current, distance := ConsumeStep(instrs, current, distance, StepBetween(path[i - 1], path[i]));
      i := i + 1;
    }
    if current.Some? {
      FlushRun(instrs, current.value, distance);
      instrs := instrs + [Move(current.value, distance)];
    }
    assert |path| > 0 ==> path[..i] == path;
    if |path| <= 1 {
      ExpandEmpty(instrs);
    }
  }

  /** The first step an instruction stands for. */
  function Lead(instr: Instruction): Step {
    match instr
    case Move(d, _) => Walk(d)
    case GoUp(f) => Climb(true, f)
    case GoDown(f) => Climb(false, f)
  }

  lemma ConsolidatedTail(instrs: seq<Instruction>)
    requires Consolidated(instrs) && instrs != []
    ensures Consolidated(instrs[1..])
  {
    forall t | 0 <= t < |instrs| - 1 ensures FitsRun(instrs[1..], t) {
      assert FitsRun(instrs, t + 1);
    }
  }

  /** A consolidated list stands for at least one step per instruction, led by its first one. */
  lemma ExpandLead(instrs: seq<Instruction>)
    requires Consolidated(instrs) && instrs != []
    ensures |Expand(instrs)| >= 1 && Expand(instrs)[0] == Lead(instrs[0])
  {
    assert FitsRun(instrs, 0);
  }

  /** Only the empty list of consolidated instructions stands for no steps. */
  lemma ExpandEmpty(instrs: seq<Instruction>)
    requires Consolidated(instrs)
    ensures Expand(instrs) == [] <==> instrs == []
  {
    if instrs != [] {
      ExpandLead(instrs);
    }
  }

  /**
   * The run-length encoding is unique: two consolidated instruction lists that
   * stand for the same steps are equal. So every maximal run of same-direction
   * steps becomes exactly one Move counting its length.
   */
  lemma {:induction false} ConsolidatedUnique(a: seq<Instruction>, b: seq<Instruction>)
    requires Consolidated(a) && Consolidated(b) && Expand(a) == Expand(b)
    ensures a == b
    decreases |a|
  {
    ExpandEmpty(a);
    ExpandEmpty(b);
    if a != [] {
      ExpandLead(a);
      ExpandLead(b);
      ConsolidatedTail(a);
      ConsolidatedTail(b);
      var ea, eb := ExpandOne(a[0]), ExpandOne(b[0]);
      if a[0].Move? {
        assert b[0].Move? && b[0].dir == a[0].dir;
        var d, n, m := a[0].dir, a[0].count, b[0].count;
        if n < m {
          MoveRunEnds(a, b, d, n, m);
        } else if m < n {
          MoveRunEnds(b, a, d, m, n);
        }
      } else {
        assert !b[0].Move?;
      }
      assert a[0] == b[0];
      assert Expand(a) == ea + Expand(a[1..]) && Expand(b) == eb + Expand(b[1..]);
      assert Expand(a[1..]) == Expand(a)[|ea|..] == Expand(b)[|eb|..] == Expand(b[1..]);
      ConsolidatedUnique(a[1..], b[1..]);
    }
  }

  /** A shorter leading Move cannot stand for the same steps as a longer one. */
  lemma MoveRunEnds(a: seq<Instruction>, b: seq<Instruction>, d: Direction, n: nat, m: nat)
    requires Consolidated(a) && Consolidated(b) && a != [] && b != []
    requires a[0] == Move(d, n) && b[0] == Move(d, m) && n < m
    ensures Expand(a) != Expand(b)
  {
    assert Expand(b)[n] == Walk(d);
    if |a| == 1 {
      assert Expand(a) == Repeat(Walk(d), n) + Expand(a[1..]);
      assert |Expand(a)| == n;
    } else {
      ConsolidatedTail(a);
      ExpandLead(a[1..]);
      assert FitsRun(a, 1);
      assert Expand(a)[n] == Lead(a[1]);
    }
  }
}
