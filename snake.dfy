/** The snake of src/snake.rs: a non-empty, head-first vector of segments
    that the game advances, grows and steers in place. */
module Body {
  import opened Geometry
  import opened Parts
  import VecOps

  /** The parts of a fresh snake: one segment at the origin, facing North. */
  function InitialParts(): (ps: seq<Part>)
  {
    [Part(Position(0, 0), North)]
  }

  class Snake {
    var parts: seq<Part>

    /** The object invariant: there is always a head, and the segments form a chain. */
    ghost predicate Valid()
      reads this
    {
      |parts| > 0 && Connected(parts)
    }

    /** `Snake::new`. */
    constructor ()
      ensures Valid()
      ensures parts == InitialParts()
    {
      parts := InitialParts();
    }

    /** `get_positions`: the cells of the segments, head first. */
    function GetPositions(): (r: seq<Position>)
      reads this
      requires Valid()
      ensures |r| == |parts| > 0
      ensures forall i :: 0 <= i < |parts| ==> r[i] == parts[i].position
    {
      Positions(parts)
    }

    /** `get_head_position`: the first of the positions. */
    function GetHeadPosition(): (p: Position)
      reads this
      requires Valid()
      ensures p == GetPositions()[0]
    {
      parts[0].position
    }

    /** `advance`: one pass over the segments carrying the heading of the
        segment ahead, as the source's loop does with `last_direction`. */
    method Advance()
      requires Valid()
      modifies this
      ensures Valid()
      ensures parts == AfterAdvance(old(parts))
    {
      ghost var before := parts;
      var lastDirection := parts[0].direction;
      var i := 0;
      while i < |parts|
        invariant 0 <= i <= |parts| == |before|
        invariant forall k :: i <= k < |parts| ==> parts[k] == before[k]
        invariant forall k :: 0 <= k < i ==> parts[k] == AfterAdvance(before)[k]
        invariant lastDirection == if i == 0 then before[0].direction else before[i - 1].direction
      {
        AfterAdvanceAt(before, i);
        var tempDirection := parts[i].direction;
        parts := parts[i := Part(parts[i].position.Advanced(parts[i].direction), lastDirection)];
        lastDirection := tempDirection;
        i := i + 1;
      }
      AdvancePreservesConnected(before);
    }

    /** `grow`: a new head is inserted one step ahead of the current one. */
    method Grow()
      requires Valid()
      modifies this
      ensures Valid()
      ensures parts == AfterGrow(old(parts))
    {
      ghost var before := parts;
      var position, direction := parts[0].position, parts[0].direction;
      var newPart := Part(position.Advanced(direction), direction);
      parts := VecOps.Insert(parts, 0, newPart);
      assert parts == AfterGrow(before);
      GrowPreservesConnected(before);
    }

    /** `change_head_direction`: a turn onto the current heading or its
        reverse returns early; otherwise a head with the new heading is
        inserted at the head's cell and the old head (now second) removed. */
    method ChangeHeadDirection(direction: Direction)
      requires Valid()
      modifies this
      ensures Valid()
      ensures parts == AfterSteer(old(parts), direction)
    {
      ghost var before := parts;
      var headDirection := parts[0].direction;
      if headDirection == direction || direction == headDirection.Opposite() {
        return;
      }
      parts := VecOps.Insert(parts, 0, Part(parts[0].position, direction));
      parts := VecOps.Remove(parts, 1);
      assert parts == AfterSteer(before, direction);
      SteerPreservesConnected(before, direction);
    }
  }
}
