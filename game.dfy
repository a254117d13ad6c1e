/** The game of src/game.rs without its terminal: the phase, the snake and
    the dot, and the handling of one event at a time as the body of the `run`
    loop does it. Events are arguments rather than reads from a channel,
    nothing is drawn, and the random choice of a new dot is a
    nondeterministic choice among the free cells. */
module SnakeGame {
  import opened Geometry
  import opened Parts
  import Body

  /** The keys the game tells apart; `OtherKey` stands for every other key
      the terminal can report. */
  datatype Key = Char(c: char) | Up | Down | Left | Right | OtherKey

  datatype GameEvent = Tick | KeyPress(key: Key)

  datatype GameState = StartScreen | Active

  datatype Option<T> = None | Some(value: T)

  /** What the loop does after an event: wait for the next one, leave the
      loop (the quit key), or never return because the dot's retry loop finds
      no free cell. */
  datatype Control = Continue | Quit | Stuck

  /** The configured grid size (`grid_size` in `Game::new`). */
  const GridSize: nat := 20

  /** The steering keys: w/k/Up, s/j/Down, a/h/Left and d/l/Right. */
  function KeyDirection(k: Key): (r: Option<Direction>)
    ensures r == Some(North) <==> k == Char('w') || k == Char('k') || k == Up
    ensures r == Some(South) <==> k == Char('s') || k == Char('j') || k == Down
    ensures r == Some(West) <==> k == Char('a') || k == Char('h') || k == Left
    ensures r == Some(East) <==> k == Char('d') || k == Char('l') || k == Right
  {
    match k
    case Char(c) =>
      if c == 'w' || c == 'k' then Some(North)
      else if c == 's' || c == 'j' then Some(South)
      else if c == 'a' || c == 'h' then Some(West)
      else if c == 'd' || c == 'l' then Some(East)
      else None
    case Up => Some(North)
    case Left => Some(West)
    case Right => Some(East)
    case Down => Some(South)
    case OtherKey => None
  }

  /** The playing field: the closed square of half-width `radius` around the origin. */
  predicate InArena(p: Position, radius: int)
  {
    -radius <= p.x <= radius && -radius <= p.y <= radius
  }

  /** The cells a new dot is drawn from: `gen_range(-radius, radius)` on
      each axis, which excludes `radius` itself. */
  predicate DotCell(p: Position, radius: int)
  {
    -radius <= p.x < radius && -radius <= p.y < radius
  }

  /** Whether some dot cell is not covered by the snake. */
  predicate HasFreeCell(positions: seq<Position>, radius: int)
  {
    exists x, y | -radius <= x < radius && -radius <= y < radius :: Position(x, y) !in positions
  }

  /** A new dot never starts outside the field. */
  lemma DotCellInArena(p: Position, radius: int)
    requires DotCell(p, radius)
    ensures InArena(p, radius)
  {
  }

  /** `snake_oob`: the head has left the field. */
  function SnakeOob(head: Position, gridSize: nat): (r: bool)
    ensures r <==> !InArena(head, gridSize / 2)
  {
    var radius := gridSize / 2;
    head.x < -radius || head.x > radius || head.y < -radius || head.y > radius
  }

  /** `snake_in_itself`: the head shares its cell with a later segment. A
      one-segment snake never runs into itself. */
  function SnakeInItself(positions: seq<Position>): (r: bool)
    requires |positions| > 0
    ensures r <==> exists i :: 1 <= i < |positions| && positions[i] == positions[0]
    ensures |positions| == 1 ==> !r
  {
    var head := positions[0];
    var rest := positions[1..];
    head in rest
  }

  /** `snake_on_dot`: some segment, not necessarily the head, covers the dot. */
  function SnakeOnDot(positions: seq<Position>, dot: Position): (r: bool)
    ensures r <==> exists i :: 0 <= i < |positions| && positions[i] == dot
  {
    dot in positions
  }

  /** A fresh snake always leaves room for a dot in a field of half-width at least 1. */
  lemma FreshSnakeLeavesRoom(radius: int)
    requires radius >= 1
    ensures HasFreeCell(Positions(Body.InitialParts()), radius)
  {
    assert Position(-radius, -radius) !in Positions(Body.InitialParts());
  }

  class Game {
    var snake: Body.Snake
    var dot: Position
    var state: GameState
    const gridSize: nat

    ghost predicate Valid()
      reads this, snake
    {
      snake.Valid() && gridSize == GridSize
    }

    /** `radius = (grid_size / 2) as i32`. */
    function Radius(): (r: int)
    {
      gridSize / 2
    }

    /** `Game::new`: start screen, a fresh snake, the dot at (5,5), grid size 20. */
    constructor ()
      ensures Valid() && fresh(snake)
      ensures state == StartScreen && snake.parts == Body.InitialParts()
      ensures dot == Position(5, 5) && gridSize == 20 && Radius() == 10
    {
      snake := new Body.Snake();
      dot := Position(5, 5);
      state := StartScreen;
      gridSize := 20;
    }

    /** `make_new_dot`: the source draws cells from the dot range until one
        is not covered by the snake. Here any such cell may be chosen; when
        there is none, the source's loop never ends, and `placed` is false. */
    method MakeNewDot() returns (placed: bool)
      requires Valid()
      modifies this
      ensures Valid() && snake == old(snake) && state == old(state)
      ensures placed == HasFreeCell(snake.GetPositions(), Radius())
      ensures placed ==> DotCell(dot, Radius()) && dot !in snake.GetPositions()
      ensures !placed ==> dot == old(dot)
    {
      var radius := Radius();
      var positions := snake.GetPositions();
      placed := HasFreeCell(positions, radius);
      if placed {
        var x, y :| -radius <= x < radius && -radius <= y < radius && Position(x, y) !in positions;
        dot := Position(x, y);
      }
    }

    /** One turn of the `run` loop: the handling of event `e`. */
    method Step(e: GameEvent) returns (c: Control)
      requires Valid()
      modifies this, snake
      ensures Valid()
      ensures snake == old(snake) || fresh(snake)
      // the quit key ends the loop in either phase, and nothing else does
      ensures c == Quit <==> e == KeyPress(Char('q'))
      // only a Tick that eats the dot can reach the endless retry of `make_new_dot`
      ensures c == Stuck ==> old(state) == Active && e == Tick
      ensures old(state) == StartScreen ==>
                snake == old(snake) && snake.parts == old(snake.parts) && dot == old(dot) &&
                state == (if e == KeyPress(Char('\n')) then Active else StartScreen)
      ensures old(state) == Active && e.KeyPress? ==>
                snake == old(snake) && dot == old(dot) && state == Active &&
                snake.parts == match KeyDirection(e.key)
                               case Some(d) => AfterSteer(old(snake.parts), d)
                               case None => old(snake.parts)
      ensures old(state) == Active && e == Tick ==>
                var moved := AfterAdvance(old(snake.parts));
                var cells := Positions(moved);
                if SnakeOob(cells[0], gridSize) || SnakeInItself(cells) then
                  // collision: back to the start screen with a fresh snake and a new dot
                  state == StartScreen && fresh(snake) && snake.parts == Body.InitialParts() &&
                  c == Continue && DotCell(dot, Radius()) && dot !in Positions(snake.parts)
                else if SnakeOnDot(cells, old(dot)) then
                  // the dot is eaten: the moved snake grows and a new dot is placed
                  state == Active && snake == old(snake) && snake.parts == AfterGrow(moved) &&
                  (c == Stuck <==> !HasFreeCell(Positions(snake.parts), Radius())) &&
                  (c == Continue ==> DotCell(dot, Radius()) && dot !in Positions(snake.parts)) &&
                  (c == Stuck ==> dot == old(dot))
                else
                  state == Active && snake == old(snake) && snake.parts == moved &&
                  dot == old(dot) && c == Continue
    {
      c := Continue;
      match state {
        case StartScreen =>
          if e == KeyPress(Char('q')) {
            c := Quit;
          } else if e == KeyPress(Char('\n')) {
            state := Active;
          }
        case Active =>
          match e {
            case KeyPress(k) =>
              if k == Char('q') {
                c := Quit;
              } else {
                var d := KeyDirection(k);
                if d.Some? {
                  snake.ChangeHeadDirection(d.value);
                }
              }
            case Tick =>
              snake.Advance();
              var head, positions := snake.GetHeadPosition(), snake.GetPositions();
              if SnakeOob(head, gridSize) || SnakeInItself(positions) {
                state := StartScreen;
                snake := new Body.Snake();
                FreshSnakeLeavesRoom(Radius());
                var placed := MakeNewDot();
              } else if SnakeOnDot(positions, dot) {
                snake.Grow();
                var placed := MakeNewDot();
                if !placed {
                  c := Stuck;
                }
              }
          }
      }
    }

    /** The `run` loop over a finite stream of events: events are handled in
        order until the quit key, the end of the stream, or a dot that
        cannot be placed. `handled` counts the events consumed. */
    method Run(events: seq<GameEvent>) returns (handled: nat, c: Control)
      requires Valid()
      modifies this, snake
      ensures Valid()
      ensures handled <= |events|
      ensures c != Quit ==> forall j :: 0 <= j < handled ==> events[j] != KeyPress(Char('q'))
      ensures c == Quit ==> 0 < handled && events[handled - 1] == KeyPress(Char('q')) &&
                            forall j :: 0 <= j < handled - 1 ==> events[j] != KeyPress(Char('q'))
      ensures c == Continue ==> handled == |events|
      ensures c == Stuck ==> 0 < handled && events[handled - 1] == Tick
    {
      handled, c := 0, Continue;
      while handled < |events| && c == Continue
        invariant Valid()
        invariant handled <= |events|
        invariant snake == old(snake) || fresh(snake)
        invariant c == Continue || 0 < handled
        invariant c == Stuck ==> events[handled - 1] == Tick
        invariant c == Quit <==> 0 < handled && events[handled - 1] == KeyPress(Char('q'))
        invariant forall j :: 0 <= j < handled && (c == Continue || j < handled - 1) ==>
                    events[j] != KeyPress(Char('q'))
        decreases |events| - handled
      {
        c := Step(events[handled]);
        handled := handled + 1;
      }
    }
  }
}
