/** The snake of src/lib.rs, the earlier library version: created at any
    cell and heading, steered by relative turns that are always applied, and
    printable through `draw_positions`. Its `advance` and `grow` are the same
    code as in src/snake.rs and meet the same specification. */
module Legacy {
  import opened Geometry
  import opened Parts
  import VecOps
  import Draw

  /** A relative turn. */
  datatype Turn = Left | Right

  /** `Direction::turned`: a quarter turn anticlockwise (Left) or clockwise (Right).
      North is `y + 1` and East is `x + 1`, so a clockwise turn maps the step
      `(dx, dy)` to `(dy, -dx)`, and an anticlockwise one to `(-dy, dx)`. */
  function Turned(d: Direction, t: Turn): (r: Direction)
    ensures r != d && r != d.Opposite()
    ensures var s, q := Position(0, 0).Advanced(d), Position(0, 0).Advanced(r);
            if t == Right then q.x == s.y && q.y == -s.x else q.x == -s.y && q.y == s.x
  {
    match t
    case Left =>
      (match d
       case North => West
       case East => North
       case South => East
       case West => South)
    case Right =>
      (match d
       case North => East
       case East => South
       case South => West
       case West => North)
  }

  /** A left turn and a right turn undo each other. */
  lemma TurnsUndo(d: Direction)
    ensures Turned(Turned(d, Left), Right) == d
    ensures Turned(Turned(d, Right), Left) == d
  {
  }

  /** Four equal turns come back to the start; two equal turns reverse. */
  lemma TurnCycle(d: Direction, t: Turn)
    ensures Turned(Turned(d, t), t) == d.Opposite()
    ensures Turned(Turned(Turned(Turned(d, t), t), t), t) == d
  {
  }

  class Snake {
    var parts: seq<Part>

    /** The object invariant: there is always a head, and the segments form a chain. */
    ghost predicate Valid()
      reads this
    {
      |parts| > 0 && Connected(parts)
    }

    /** `Snake::new(x, y, direction)`: one segment at (x, y) with that heading. */
    constructor (x: int, y: int, direction: Direction)
      ensures Valid()
      ensures parts == [Part(Position(x, y), direction)]
    {
      parts := [Part(Position(x, y), direction)];
    }

    /** `get_head_direction`: the heading the whole snake moves on next. */
    function GetHeadDirection(): (d: Direction)
      reads this
      requires Valid()
      ensures d == parts[0].direction
      ensures AfterAdvance(parts)[0].direction == d
    {
      AfterAdvanceAt(parts, 0);
      parts[0].direction
    }

    /** `get_head_position`. */
    function GetHeadPosition(): (p: Position)
      reads this
      requires Valid()
      ensures p == Positions(parts)[0]
    {
      parts[0].position
    }

    /** `next_head_position`: the cell the head moves to on the next advance. */
    function NextHeadPosition(): (p: Position)
      reads this
      requires Valid()
      ensures p == AfterAdvance(parts)[0].position
      ensures p == GetHeadPosition().Advanced(GetHeadDirection())
    {
      AfterAdvanceAt(parts, 0);
      var dir := parts[0].direction;
      parts[0].position.Advanced(dir)
    }

    /** `advance`, the same shift-register loop as in src/snake.rs. */
    method Advance()
      requires Valid()
      modifies this
      ensures Valid()
      ensures parts == AfterAdvance(old(parts))
      ensures GetHeadPosition() == old(NextHeadPosition())
    {
      ghost var before := parts;
      var lastDirection := parts[0].direction;
      var i := 0;
      while i < |parts|
        invariant 0 <= i <= |parts| == |before|
        invariant forall k :: i <= k < |parts| ==> parts[k] == before[k]
        invariant forall k :: 0 <= k < i ==> parts[k] == AfterAdvance(before)[k]
        invariant lastDirection == if i == 0 then before[0].direction else before[i - 1].direction
      {
        AfterAdvanceAt(before, i);
        var tempDirection := parts[i].direction;
        parts := parts[i := Part(parts[i].position.Advanced(parts[i].direction), lastDirection)];
        lastDirection := tempDirection;
        i := i + 1;
      }
      AdvancePreservesConnected(before);
    }

    /** `grow`, as in src/snake.rs: the new head is where
        `next_head_position` pointed. */
    method Grow()
      requires Valid()
      modifies this
      ensures Valid()
      ensures parts == AfterGrow(old(parts))
      ensures GetHeadPosition() == old(NextHeadPosition())
    {
      ghost var before := parts;
      var position, direction := parts[0].position, parts[0].direction;
      var newPart := Part(position.Advanced(direction), direction);
      parts := VecOps.Insert(parts, 0, newPart);
      assert parts == AfterGrow(before);
      GrowPreservesConnected(before);
    }

    /** `change_head_direction(turn)`: unconditionally replaces the head by
        one at the same cell with the turned heading (insert at 0, remove 1). */
    method ChangeHeadDirection(turn: Turn)
      requires Valid()
      modifies this
      ensures Valid()
      ensures |parts| == |old(parts)|
      ensures parts[0] == Part(old(parts[0].position), Turned(old(parts[0].direction), turn))
      ensures parts[1..] == old(parts[1..])
    {
      ghost var before := parts;
      parts := VecOps.Insert(parts, 0, Part(parts[0].position, Turned(parts[0].direction, turn)));
      parts := VecOps.Remove(parts, 1);
      assert parts == [Part(before[0].position, Turned(before[0].direction, turn))] + before[1..];
      HeadTurnPreservesConnected(before, Turned(before[0].direction, turn));
    }

    /** `Display for Snake`: the drawing of the segments' cells. */
    method Fmt() returns (s: string)
      requires Valid()
      ensures s == Draw.JoinLines(Draw.Bitmap(Positions(parts)))
    {
      var positions := Positions(parts);
      s := Draw.DrawPositions(positions);
    }
  }
}
