/** The pure helpers of the robot simulator panel: the cell index to (x, y)
    mapping of the 10 x 10 grid, the robot-cell test, the obstacle table, the
    rotation of the robot icon and the direction glyph. Obstacles are drawn
    only; nothing in the step function consults them. */
module Grid {
  import opened Optional
  import opened Blocks
  import opened Robot

  const GridSize := 10
  const CellCount := GridSize * GridSize

  /** Cell `index` of the row-major grid: `(index % 10, Math.floor(index / 10))`. */
  function CellOf(index: int): (cell: (int, int))
    requires 0 <= index < CellCount
    ensures OnGrid(cell.0, cell.1)
    ensures cell.1 * GridSize + cell.0 == index
  {
    (index % GridSize, index / GridSize)
  }

  /** The index of the cell drawn at (x, y). */
  function IndexOf(x: int, y: int): (index: int)
    requires OnGrid(x, y)
    ensures 0 <= index < CellCount
  {
    y * GridSize + x
  }

  /** `CellOf` and `IndexOf` are inverse: the 100 indices are a bijection
      onto the grid's cells. */
  lemma CellBijection(index: int, x: int, y: int)
    ensures 0 <= index < CellCount ==> IndexOf(CellOf(index).0, CellOf(index).1) == index
    ensures OnGrid(x, y) ==> CellOf(IndexOf(x, y)) == (x, y)
  {
  }

  /** `robotState.x === x && robotState.y === y` for the cell at `index`. */
  predicate RobotHere(r: Robot, index: int)
    requires 0 <= index < CellCount
  {
    r.x == CellOf(index).0 && r.y == CellOf(index).1
  }

  /** A robot on the grid is drawn in exactly one cell, the one at its
      position; a robot off the grid is drawn nowhere. */
  lemma RobotInExactlyOneCell(r: Robot)
    ensures OnGrid(r.x, r.y) ==>
      (set i | 0 <= i < CellCount && RobotHere(r, i)) == {IndexOf(r.x, r.y)}
    ensures !OnGrid(r.x, r.y) ==>
      (set i | 0 <= i < CellCount && RobotHere(r, i)) == {}
  {
    var cells := set i | 0 <= i < CellCount && RobotHere(r, i);
    if OnGrid(r.x, r.y) {
      forall i | i in cells
        ensures i == IndexOf(r.x, r.y)
      {
        CellBijection(i, r.x, r.y);
      }
      CellBijection(0, r.x, r.y);
      assert IndexOf(r.x, r.y) in cells;
    }
  }

  /** The obstacle table of the lab. */
  const Obstacles: seq<(int, int)> := [
    (3, 3), (4, 3), (5, 3),
    (7, 1), (7, 2), (7, 3),
    (2, 6), (3, 6), (4, 6),
    (8, 7), (8, 8)
  ]

  /** `obstacles.some(obs => obs.x === x && obs.y === y)`. */
  predicate IsObstacle(x: int, y: int) {
    exists i | 0 <= i < |Obstacles| :: Obstacles[i] == (x, y)
  }

  /** The table lists 11 distinct cells, all on the grid, and the robot's
      starting cell is not among them. */
  lemma ObstacleTable(x: int, y: int)
    ensures |Obstacles| == 11
    ensures forall i, j :: 0 <= i < j < |Obstacles| ==> Obstacles[i] != Obstacles[j]
    ensures IsObstacle(x, y) ==> OnGrid(x, y)
    ensures !IsObstacle(Start.x, Start.y)
  {
  }

  /** `direction * 90`, the icon's rotation in degrees. */
  function Rotation(direction: int): (degrees: int)
    ensures ValidDirection(direction) ==> 0 <= degrees < 360 && degrees % 90 == 0
  {
    direction * 90
  }

  /** The four directions get the four quarter turns, one each. */
  lemma RotationQuarterTurns(d: int, e: int)
    requires ValidDirection(d) && ValidDirection(e)
    ensures Rotation(d) in {0, 90, 180, 270}
    ensures Rotation(d) == Rotation(e) ==> d == e
  {
  }

  /** A quarter turn clockwise on screen, where y grows downwards. */
  function QuarterTurn(v: (int, int)): (int, int) {
    (-v.1, v.0)
  }

  /** `v` turned `n` quarter turns clockwise. */
  function Turned(v: (int, int), n: nat): (int, int)
    decreases n
  {
    if n == 0 then v else Turned(QuarterTurn(v), n - 1)
  }

  /** The rotation agrees with the heading: the east vector (1, 0), turned
      clockwise on screen by the direction's rotation, is the direction's
      heading. */
  lemma RotationFollowsHeading(d: int)
    requires ValidDirection(d)
    ensures Rotation(d) >= 0
    ensures Turned((1, 0), Rotation(d) / 90) == Heading(d)
  {
    assert Turned((0, -1), 0) == (0, -1);
    assert Turned((-1, 0), 1) == (0, -1);
    assert Turned((0, 1), 2) == (0, -1);
    assert Turned((0, 1), 1) == (-1, 0);
  }

  /** The arrow for the robot's direction: east, south (y grows downwards),
      west, north. Outside 0..3 the page's lookup is undefined and nothing is
      shown. */
  function DirectionGlyph(direction: int): (g: Option<char>)
    ensures g.Some? <==> ValidDirection(direction)
    ensures g.Some? ==> g.value == ArrowAlong(Heading(direction))
  {
    if ValidDirection(direction) then Some(['\U{2192}', '\U{2193}', '\U{2190}', '\U{2191}'][direction])
    else None
  }

  /** The arrow pointing along a unit heading on screen. */
  function ArrowAlong(v: (int, int)): char {
    if v == (1, 0) then '\U{2192}'
    else if v == (0, 1) then '\U{2193}'
    else if v == (-1, 0) then '\U{2190}'
    else '\U{2191}'
  }

  /** The glyphs of the four directions differ. */
  lemma DirectionGlyphsDistinct(d: int, e: int)
    requires ValidDirection(d) && ValidDirection(e) && d != e
    ensures DirectionGlyph(d) != DirectionGlyph(e)
  {
  }

  /** The direction text the status panel holds: for each direction three
      characters, the arrow's UTF-8 bytes read as Mac OS Roman. */
  function DirectionTextAsWritten(direction: int): (t: Option<string>)
    ensures t.Some? <==> ValidDirection(direction)
    ensures t.Some? ==> |t.value| == 3
  {
    if ValidDirection(direction) then
      Some([
        "\U{201A}\U{00DC}\U{00ED}",
        "\U{201A}\U{00DC}\U{00EC}",
        "\U{201A}\U{00DC}\U{00EA}",
        "\U{201A}\U{00DC}\U{00EB}"][direction])
    else None
  }

  /** The UTF-8 encoding of a code point in U+0800..U+FFFF: three bytes. */
  function Utf8ThreeBytes(cp: int): (bytes: seq<int>)
    requires 0x800 <= cp <= 0xFFFF
    ensures |bytes| == 3
    ensures 0xE0 <= bytes[0] <= 0xEF && 0x80 <= bytes[1] <= 0xBF && 0x80 <= bytes[2] <= 0xBF
    ensures (bytes[0] - 0xE0) * 4096 + (bytes[1] - 0x80) * 64 + (bytes[2] - 0x80) == cp
  {
    [0xE0 + cp / 4096, 0x80 + (cp / 64) % 64, 0x80 + cp % 64]
  }

  /** The Mac OS Roman reading of the six byte values that occur here. */
  function MacRoman(b: int): Option<char> {
    if b == 0xE2 then Some('\U{201A}')
    else if b == 0x86 then Some('\U{00DC}')
    else if b == 0x90 then Some('\U{00EA}')
    else if b == 0x91 then Some('\U{00EB}')
    else if b == 0x92 then Some('\U{00ED}')
    else if b == 0x93 then Some('\U{00EC}')
    else None
  }

  /** The page shows, for every direction, the three-character misreading of
      the arrow rather than the arrow: at the start, facing east, the text is
      the Mac OS Roman reading of the bytes E2 86 92 of U+2192. */
  lemma DirectionTextIsMisreadArrow(d: int)
    requires ValidDirection(d)
    ensures
      var bytes := Utf8ThreeBytes(DirectionGlyph(d).value as int);
      && MacRoman(bytes[0]).Some? && MacRoman(bytes[1]).Some? && MacRoman(bytes[2]).Some?
      && DirectionTextAsWritten(d).value
        == [MacRoman(bytes[0]).value, MacRoman(bytes[1]).value, MacRoman(bytes[2]).value]
    ensures DirectionTextAsWritten(d).value != [DirectionGlyph(d).value]
  {
  }

  /** The two conditional styles of a cell; both apply when both hold. */
  datatype CellStyle = CellStyle(obstacle: bool, robot: bool)

  function StyleOf(r: Robot, index: int): (s: CellStyle)
    requires 0 <= index < CellCount
    ensures s.obstacle <==> IsObstacle(CellOf(index).0, CellOf(index).1)
    ensures s.robot <==> RobotHere(r, index)
  {
    CellStyle(IsObstacle(CellOf(index).0, CellOf(index).1), RobotHere(r, index))
  }

  /** Obstacles do not stop the robot: two moves east, a turn and two moves
      south take it from the start onto the obstacle at (3, 3), and that cell
      is then styled as both robot and obstacle. */
  lemma ObstaclesAreDisplayOnly()
    ensures
      var mv := Block("m", Move, "Move Forward", Steps(1), 0, 0, []);
      var tn := Block("t", Turn, "Turn Right", Direction("right"), 0, 0, []);
      var r := RunBlocks(Start, [mv, mv, tn, mv, mv]);
      && r == Robot(3, 3, 1, 100)
      && StyleOf(r, 33) == CellStyle(true, true)
  {
    var mv := Block("m", Move, "Move Forward", Steps(1), 0, 0, []);
    var tn := Block("t", Turn, "Turn Right", Direction("right"), 0, 0, []);
    var bs := [mv, mv, tn, mv, mv];
    var r1 := Step(Start, Move);
    var r2 := Step(r1, Move);
    var r3 := Step(r2, Turn);
    var r4 := Step(r3, Move);
    var r5 := Step(r4, Move);
    assert r5 == Robot(3, 3, 1, 100);
    assert bs[1..] == [mv, tn, mv, mv];
    assert bs[1..][1..] == [tn, mv, mv];
    assert bs[1..][1..][1..] == [mv, mv];
    assert bs[1..][1..][1..][1..] == [mv];
    assert RunBlocks(Start, bs) == RunBlocks(r1, [mv, tn, mv, mv]);
    assert RunBlocks(r1, [mv, tn, mv, mv]) == RunBlocks(r2, [tn, mv, mv]);
    assert RunBlocks(r2, [tn, mv, mv]) == RunBlocks(r3, [mv, mv]);
    assert RunBlocks(r3, [mv, mv]) == RunBlocks(r4, [mv]);
    assert RunBlocks(r4, [mv]) == RunBlocks(r5, []);
    assert Obstacles[0] == (3, 3);
  }
}
