/** Grid geometry shared by both snake implementations: the four compass
    headings, integer cells, and a snake segment (a cell plus the heading it
    takes on the next move). In the source, src/snake.rs and src/lib.rs each
    declare these three types with identical definitions. */
module Geometry {

  /** A compass heading; North is +y, East is +x. */
  datatype Direction = North | East | South | West
  {
    /** The heading pointing the other way: North and South swap, East and West swap. */
    function Opposite(): (r: Direction)
      ensures r != this
      ensures (this == North || this == South) <==> (r == North || r == South)
    {
      match this
      case North => South
      case South => North
      case East => West
      case West => East
    }
  }

  /** `opposite` undoes itself. */
  lemma OppositeInvolution(d: Direction)
    ensures d.Opposite().Opposite() == d
  {
  }

  /** A cell of the unbounded integer plane. */
  datatype Position = Position(x: int, y: int)
  {
    /** The neighbouring cell one step along `d`. */
    function Advanced(d: Direction): (r: Position)
      ensures (r.x == x && (r.y == y + 1 || r.y == y - 1)) || (r.y == y && (r.x == x + 1 || r.x == x - 1))
      ensures (d == North || d == South) <==> r.x == x
      ensures (d == North || d == East) <==> (r.x + r.y == x + y + 1)
    {
      match d
      case North => Position(x, y + 1)
      case East => Position(x + 1, y)
      case South => Position(x, y - 1)
      case West => Position(x - 1, y)
    }
  }

  /** Stepping back along the opposite heading returns to the start. */
  lemma AdvancedRoundTrip(p: Position, d: Direction)
    ensures p.Advanced(d).Advanced(d.Opposite()) == p
  {
  }

  /** Different headings lead to different neighbours. */
  lemma AdvancedInjective(p: Position, d: Direction, e: Direction)
    ensures p.Advanced(d) == p.Advanced(e) ==> d == e
  {
  }

  /** One body segment: where it is and where it moves next. */
  datatype Part = Part(position: Position, direction: Direction)
}
