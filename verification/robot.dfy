/** The simulated robot and the effect one block has on it: the `switch` of
    the run loop. A move adds the heading vector of the current direction and
    clamps each coordinate to the 10 x 10 grid; a turn rotates clockwise;
    `wait`, `if` and `loop` leave the robot as it is. */
module Robot {
  import opened Blocks

  /** Grid coordinates run from 0 to `MaxCoord`. */
  const MaxCoord := 9

  /** `direction` is 0 (east), 1 (south), 2 (west) or 3 (north); `energy` is
      shown as a percentage and never consumed. */
  datatype Robot = Robot(x: int, y: int, direction: int, energy: int)

  /** The robot of a fresh page and of a reset. */
  const Start := Robot(1, 1, 0, 100)

  predicate ValidDirection(d: int) {
    0 <= d < 4
  }

  predicate OnGrid(x: int, y: int) {
    0 <= x <= MaxCoord && 0 <= y <= MaxCoord
  }

  /** The robot is on the grid, faces one of the four directions and has the
      full energy it starts with. */
  predicate Wellformed(r: Robot) {
    OnGrid(r.x, r.y) && ValidDirection(r.direction) && r.energy == 100
  }

  /** `Math.max(0, Math.min(9, v))`. */
  function Clamp(v: int): (c: int)
    ensures 0 <= c <= MaxCoord
    ensures 0 <= v <= MaxCoord ==> c == v
    ensures v < 0 ==> c == 0
    ensures v > MaxCoord ==> c == MaxCoord
  {
    if v < 0 then 0 else if v > MaxCoord then MaxCoord else v
  }

  /** The table `[[1, 0], [0, 1], [-1, 0], [0, -1]]` indexed by direction. */
  function Heading(d: int): (v: (int, int))
    requires ValidDirection(d)
    ensures v.0 * v.0 + v.1 * v.1 == 1
  {
    [(1, 0), (0, 1), (-1, 0), (0, -1)][d]
  }

  /** The effect of one block. The table lookup of a move is only defined for
      a direction in 0..3, which every reachable robot has. */
  function Step(r: Robot, k: Kind): (r': Robot)
    requires ValidDirection(r.direction)
    ensures ValidDirection(r'.direction)
    ensures r'.energy == r.energy
    ensures OnGrid(r.x, r.y) ==> OnGrid(r'.x, r'.y)
    ensures k == Move ==> OnGrid(r'.x, r'.y) && r'.direction == r.direction
    ensures k == Move ==> r'.x == Clamp(r.x + Heading(r.direction).0) && r'.y == Clamp(r.y + Heading(r.direction).1)
    ensures k == Turn ==> r'.x == r.x && r'.y == r.y
    ensures k == Turn ==> r'.direction == if r.direction == 3 then 0 else r.direction + 1
    ensures k in {Wait, If, Loop} ==> r' == r
  {
    match k
    case Move =>
      var (dx, dy) := Heading(r.direction);
      r.(x := Clamp(r.x + dx), y := Clamp(r.y + dy))
    case Turn =>
      r.(direction := (r.direction + 1) % 4)
    case Wait => r
    case If => r
    case Loop => r
  }

  /** Four turns bring the robot back to where it started. */
  lemma FourTurns(r: Robot)
    requires ValidDirection(r.direction)
    ensures Step(Step(Step(Step(r, Turn), Turn), Turn), Turn) == r
  {
  }

  /** The robot faces the edge of the grid it stands on. */
  predicate FacingEdge(r: Robot)
    requires ValidDirection(r.direction)
  {
    match r.direction
    case 0 => r.x == MaxCoord
    case 1 => r.y == MaxCoord
    case 2 => r.x == 0
    case _ => r.y == 0
  }

  /** On the grid, a move leaves the robot where it is exactly when it faces
      the edge; otherwise it advances one cell along its heading. */
  lemma MoveBlockedAtEdge(r: Robot)
    requires OnGrid(r.x, r.y) && ValidDirection(r.direction)
    ensures Step(r, Move) == r <==> FacingEdge(r)
    ensures !FacingEdge(r) ==>
      Step(r, Move) == r.(x := r.x + Heading(r.direction).0, y := r.y + Heading(r.direction).1)
  {
  }

  /** The robot after the blocks of `bs`, applied first to last. */
  function RunBlocks(r: Robot, bs: seq<Block>): (r': Robot)
    requires ValidDirection(r.direction)
    ensures ValidDirection(r'.direction)
    ensures r'.energy == r.energy
    ensures OnGrid(r.x, r.y) ==> OnGrid(r'.x, r'.y)
    decreases |bs|
  {
    if |bs| == 0 then r else RunBlocks(Step(r, bs[0].kind), bs[1..])
  }

  /** Running `a + b` is running `a`, then `b`. */
  lemma {:induction false} RunBlocksAppend(r: Robot, a: seq<Block>, b: seq<Block>)
    requires ValidDirection(r.direction)
    ensures RunBlocks(r, a + b) == RunBlocks(RunBlocks(r, a), b)
    decreases |a|
  {
    if |a| == 0 {
      assert a + b == b;
    } else {
      assert (a + b)[1..] == a[1..] + b;
      RunBlocksAppend(Step(r, a[0].kind), a[1..], b);
    }
  }

  /** Blocks other than moves and turns have no effect on a run. */
  lemma {:induction false} RunBlocksSkipsInert(r: Robot, a: seq<Block>, b: Block, c: seq<Block>)
    requires ValidDirection(r.direction)
    requires b.kind in {Wait, If, Loop}
    ensures RunBlocks(r, a + [b] + c) == RunBlocks(r, a + c)
  {
    RunBlocksAppend(r, a + [b], c);
    RunBlocksAppend(r, a, [b]);
    RunBlocksAppend(r, a, c);
  }

  /** Starting from a well-formed robot, every run ends in a well-formed one. */
  lemma RunKeepsWellformed(r: Robot, bs: seq<Block>)
    requires Wellformed(r)
    ensures Wellformed(RunBlocks(r, bs))
  {
  }
}
