# tsnake in Dafny

A model of the core of tsnake, a terminal Snake game written in Rust, with
proofs about it. The model covers three parts:

- **The snake body** (src/snake.rs). The body is a non-empty, head-first
  vector of segments. Each segment has a cell and the heading it moves on
  next. `advance` is a shift register: every segment steps along its own
  heading and then takes the heading of the segment ahead. `grow` inserts a
  new head one step ahead of the old one. `change_head_direction` ignores a
  turn onto the current heading or its reverse. Any other turn replaces the
  head's heading in place. The model is the class `Body.Snake` over a
  `seq<Part>`. Its methods are proved against specification functions in
  module `Parts`.
- **The earlier library version** (src/lib.rs). It has relative `Turn`s
  (`Direction::turned`), a constructor at any cell and heading,
  `next_head_position`, and a turn that is always applied. Its `Display`
  goes through `draw_positions`. That function renders a set of cells as
  `#`/space lines over their bounding box, top row first, with the lines
  joined by newlines. These are modelled in modules `Legacy` and `Draw`.
- **The game state machine** (src/game.rs). This covers the phase
  (`StartScreen`/`Active`), the snake, the dot, the collision and dot rules,
  and the handling of one event as the body of `run`'s loop does it. It is
  modelled in module `SnakeGame`, class `Game`.

Both source files declare `Direction`, `Position` (with `advanced`) and
`Part` with identical definitions. They are modelled once, in module
`Geometry`. Only src/snake.rs has `Direction::opposite` (src/snake.rs:9-18),
modelled as `Geometry.Direction.Opposite`; `Legacy` uses it only in
contracts. Only src/lib.rs has `Turn` and `turned` (src/lib.rs:12-36).

The central invariant is `Parts.Connected`. It says that every segment
behind the head sits one step short of the segment ahead of it, along its
own heading. Both snakes keep it in `Valid()`, and every operation
preserves it. From it follows `Parts.AdvanceIsGrowWithoutTail`: on a
connected body, `advance` is the same as `grow` with the tail dropped. So
the body follows exactly the path the head took.

Two behaviours of the code are easy to misread; the model follows the code:

- `snake_on_dot` (src/game.rs:222-224) is true when any segment covers the
  dot, not only the head.
- A new dot is drawn with `gen_range(-radius, radius)` on each axis
  (src/game.rs:242-245). This range is half-open. So a dot never appears in
  row `y = radius` or column `x = radius`, although both lie inside the
  field, which `snake_oob` treats as the closed square `[-radius, radius]`.

Files: `geometry.dfy`, `parts.dfy`, `vecops.dfy` (`Vec::insert`, `remove`
and `reverse` on sequences), `snake.dfy`, `legacy.dfy`, `draw.dfy`,
`game.dfy`.

## Model

| member | source | states |
|---|---|---|
| `Geometry.Direction.Opposite` | src/snake.rs:10-17 | the opposite heading is never the heading itself, and it keeps the axis: N/S map to N/S |
| `Geometry.OppositeInvolution` | src/snake.rs:10-17 | `opposite` applied twice is the identity |
| `Geometry.Position.Advanced` | src/snake.rs:27-46 | exactly one coordinate changes, by exactly 1; x stays fixed iff the heading is North or South; North and East increase x + y |
| `Geometry.AdvancedRoundTrip` | src/snake.rs:27-46 | `p.advanced(d).advanced(d.opposite()) == p` |
| `Geometry.AdvancedInjective` | src/snake.rs:27-46 | different headings lead to different cells |
| `Parts.Positions` | src/lib.rs:170 | the mapped list has one cell per segment, and element i is segment i's cell |
| `Parts.AfterGrow` | src/snake.rs:90-97 | length + 1; the new head is one step ahead of the old head, with its heading; `new[i+1] == old[i]` |
| `Parts.AfterSteer` | src/snake.rs:99-112 | a turn onto the head's heading or its reverse leaves the body unchanged, and only those do; otherwise the length, the head cell and `parts[1..]` are unchanged and the head takes the new heading |
| `Parts.Follow` | src/snake.rs:78-88 | the carried-heading pass keeps the length, and the first segment steps along its own heading and takes the carried-in heading |
| `Parts.AfterAdvance` | src/snake.rs:78-88 | `advance` keeps the length; the head moves one step along its heading and keeps it |
| `Parts.Advances` | src/snake.rs:78-88 | any number of advances keeps the length |
| `Parts.FollowAt` | src/snake.rs:78-88 | the shift register: segment i steps along its own heading and takes the heading carried from segment i-1 (the initial `last_direction` for i = 0) |
| `Parts.AfterAdvanceAt` | src/snake.rs:78-88 | `advance` keeps the length; segment i moves to `old[i].position.advanced(old[i].direction)`; the head keeps its heading and segment i > 0 takes `old[i-1].direction` |
| `Parts.AdvancePreservesConnected` | src/snake.rs:78-88 | `advance` keeps the chain invariant |
| `Parts.GrowPreservesConnected` | src/snake.rs:90-97 | `grow` keeps the chain invariant |
| `Parts.SteerPreservesConnected` | src/snake.rs:99-112 | a turn keeps the chain invariant |
| `Parts.HeadTurnPreservesConnected` | src/lib.rs:122-131 | replacing the head's heading in place keeps the chain invariant |
| `Parts.AdvanceFollowsAhead` | src/snake.rs:78-88 | on a connected body, `advance` puts segment i > 0 exactly where segment i-1 was, with its heading |
| `Parts.AdvanceIsGrowWithoutTail` | src/snake.rs:78-97 | on a connected body, advance equals grow with the last segment dropped, so every segment moves into the place and heading of the one ahead |
| `Parts.AdvancesConnected` | src/snake.rs:78-88 | any number of advances keeps the chain invariant |
| `Parts.AdvancesShift` | src/snake.rs:78-88 | after k advances with no turn, segment i (i >= k) equals the old segment i-k, cell and heading |
| `Parts.ReversalRefused` | src/snake.rs:99-103 | after a turn onto d, taken or refused, a turn onto `d.opposite()` is refused |
| `Parts.GrowThriceThenAdvance` | src/snake.rs:61-97 | a fresh snake grown three times and advanced once has 4 segments, its head at (0,4) and its tail at (0,1) |
| `VecOps.Insert` | src/snake.rs:96 | `Vec::insert`: one element longer, `x` at index i, earlier elements in place, later ones one place back |
| `VecOps.Remove` | src/snake.rs:111 | `Vec::remove`: one element shorter, earlier elements in place, later ones one place forward |
| `VecOps.RemoveUndoesInsert` | src/snake.rs:104-111 | removing at i what was inserted at i gives back the original vector |
| `VecOps.Reverse` | src/lib.rs:164 | `Vec::reverse`: same length, element k is the old element `len - 1 - k` |
| `VecOps.ReverseTwice` | src/lib.rs:164 | reversing twice gives back the original vector |
| `Body.Snake.constructor` | src/snake.rs:61-68 | `Snake::new` gives `InitialParts()`, exactly one segment at (0,0) facing North; this is the one definition of a fresh snake, which the game's reset also uses |
| `Body.Snake.GetPositions` | src/snake.rs:74-76 | same length as `parts`, and element i is `parts[i].position` |
| `Body.Snake.GetHeadPosition` | src/snake.rs:70-72 | the head position is element 0 of `get_positions` |
| `Body.Snake.Advance` | src/snake.rs:78-88 | the loop leaves `parts == AfterAdvance(old(parts))` and keeps the body non-empty and connected |
| `Body.Snake.Grow` | src/snake.rs:90-97 | `parts == AfterGrow(old(parts))`, non-empty and connected |
| `Body.Snake.ChangeHeadDirection` | src/snake.rs:99-112 | the early return and the insert-then-remove leave `parts == AfterSteer(old(parts), d)`, non-empty and connected |
| `Legacy.Turned` | src/lib.rs:19-35 | a turn never returns the original heading or its opposite; Right rotates the unit step `(dx, dy)` clockwise to `(dy, -dx)`, and Left anticlockwise to `(-dy, dx)` |
| `Legacy.TurnsUndo` | src/lib.rs:19-35 | Left and Right are mutual inverses |
| `Legacy.TurnCycle` | src/lib.rs:19-35 | two equal turns reverse the heading, and four return to the start |
| `Legacy.Snake.constructor` | src/lib.rs:79-86 | one segment at (x, y) with the given heading |
| `Legacy.Snake.GetHeadDirection` | src/lib.rs:88-90 | the head's heading, which the head keeps through the next advance |
| `Legacy.Snake.GetHeadPosition` | src/lib.rs:92-94 | element 0 of the segments' cells |
| `Legacy.Snake.NextHeadPosition` | src/lib.rs:96-99 | the cell the head occupies after the next advance; one step from the head along its heading |
| `Legacy.Snake.Advance` | src/lib.rs:101-111 | same specification as the snake.rs version; the new head cell is the old `next_head_position()` |
| `Legacy.Snake.Grow` | src/lib.rs:113-120 | same specification as the snake.rs version; the new head cell is the old `next_head_position()` |
| `Legacy.Snake.ChangeHeadDirection` | src/lib.rs:122-131 | always applied: the head heading becomes `old_head.direction.turned(turn)`; the head cell, the length and `parts[1..]` are unchanged |
| `Legacy.Snake.Fmt` | src/lib.rs:168-174 | the display text is the drawing of the segments' cells |
| `Draw.Min` | src/lib.rs:135-138 | the minimum occurs in the list and is at most every element |
| `Draw.Max` | src/lib.rs:135-138 | the maximum occurs in the list and is at least every element |
| `Draw.InBox` | src/lib.rs:135-140 | every cell lies within left..right and bottom..top, where `Left`/`Right`/`Top`/`Bottom` are the min/max scans of src/lib.rs:135-138 |
| `Draw.Width` | src/lib.rs:139 | `right - left + 1`, at least 1 |
| `Draw.Height` | src/lib.rs:140 | `top - bottom + 1`, at least 1 |
| `Draw.Bitmap` | src/lib.rs:134-166 | the intended picture has `height` lines of `width` characters each |
| `Draw.BitmapAt` | src/lib.rs:134-166 | line r, character c of the picture is '#' iff `(left+c, top-r)` is in the list, ' ' otherwise |
| `Draw.FalseGrid` | src/lib.rs:142-145 | `height` rows of `width` cells, all false |
| `Draw.MarkCells` | src/lib.rs:147-149 | afterwards, cell (r, c) is set iff `(left+c, bottom+r)` is in the list; the shape is unchanged |
| `Draw.RowLine` | src/lib.rs:154-161 | the line has one character per cell: '#' for set, ' ' for clear |
| `Draw.GridLines` | src/lib.rs:151-163 | one line per row, each the row's characters |
| `Draw.PictureFromGrid` | src/lib.rs:147-164 | reversing the bottom-first lines gives the top-first picture |
| `Draw.BoxOffsets` | src/lib.rs:147-149 | every cell's offsets from the bottom-left corner are valid grid indices, so the `as usize` indexing never panics |
| `Draw.BitGrid` | src/lib.rs:134-149 | the grid has height rows of width cells, and cell (r, c) is set iff `(left+c, bottom+r)` is in the list |
| `Draw.DrawPositions` | src/lib.rs:134-166 | for a non-empty list, the result is the picture's lines joined by newlines |
| `Draw.JoinLines` | src/lib.rs:165 | no lines join to the empty text, one line to itself, and the text always starts with the first line |
| `Draw.JoinLinesLength` | src/lib.rs:165 | joining h lines of width w gives h*(w+1)-1 characters |
| `Draw.JoinLinesAt` | src/lib.rs:165 | character c of line r lands at `LineStart(r, w) + c`, and the newline after line r at `LineStart(r, w) + w` |
| `Draw.LineStartIsProduct` | src/lib.rs:165 | line r of equal-width lines starts at r*(w+1) |
| `Draw.TextAtLine` | src/lib.rs:165 | reading the joined text at line r, column c gives character c of line r, or the newline for c = w |
| `Draw.DrawingLength` | src/lib.rs:134-166 | the drawing has height*(width+1)-1 characters: height lines of width characters and height-1 newlines |
| `Draw.DrawingCell` | src/lib.rs:147-164 | the character at line r (from the top) and column c is '#' iff some cell equals `(left+c, top-r)`, and ' ' otherwise |
| `Draw.DrawingLineBreak` | src/lib.rs:165 | every line but the last is followed by '\n' |
| `Draw.DrawingShowsEveryCell` | src/lib.rs:147-149 | every listed cell falls within the box and is drawn as '#' |
| `SnakeGame.KeyDirection` | src/game.rs:94-113 | w/k/Up map to North, s/j/Down to South, a/h/Left to West, d/l/Right to East; others do not steer |
| `SnakeGame.DotCellInArena` | src/game.rs:238-245 | a cell from the dot range lies inside the field |
| `SnakeGame.SnakeOob` | src/game.rs:226-230 | true iff the head lies outside the closed square `[-radius, radius]`, where radius = `grid_size / 2` (`Game.Radius`, src/game.rs:227) |
| `SnakeGame.SnakeInItself` | src/game.rs:232-236 | true iff the head cell equals the cell at some index >= 1; always false for one segment |
| `SnakeGame.SnakeOnDot` | src/game.rs:222-224 | true iff some segment, at any index, covers the dot |
| `SnakeGame.FreshSnakeLeavesRoom` | src/game.rs:115-120 | after a reset, a free dot cell always exists |
| `SnakeGame.Game.constructor` | src/game.rs:37-54 | start screen, a fresh snake (one segment at (0,0), North), dot (5,5), grid size 20, so radius 10 |
| `SnakeGame.Game.MakeNewDot` | src/game.rs:238-251 | when a free cell exists, the new dot is in the dot range and not on the snake; `placed` is false exactly when no cell is free; the range's radius is `Game.Radius`, `grid_size / 2` as at src/game.rs:239 |
| `SnakeGame.Game.Step` | src/game.rs:58-131 | 'q' ends the loop in either phase and nothing else does. Only a Tick while active can hang in `make_new_dot`, so every start-screen event and every key other than 'q' returns `Continue`. On the start screen, '\n' starts the game and all else changes nothing. While active, a steering key is passed to `change_head_direction` and other keys change nothing. On Tick the snake advances; a collision resets the phase, the snake and the dot; eating the dot grows the snake by one and places a new dot; otherwise nothing more changes |
| `SnakeGame.Game.Run` | src/game.rs:56-133 | the loop stops at the first 'q' and no other key stops it; it can hang only on a Tick; otherwise it consumes every event; the game invariant holds at the end |

## Left out

- Terminal output: `draw`, `draw_box`, `draw_start_screen`, clearing, cursor show/hide and the terminal-size offsets (src/game.rs:135-220, and the `write!` calls in `run`). These are I/O through a terminal library. The model neither draws nor requests a frame.
- src/main.rs: the channel, the 200 ms tick thread and the key-reader thread. These are concurrency and I/O. In the model, events are arguments to `Step`, or a finite sequence given to `Run`.
- The terminal library's key and raw-terminal types. They are replaced by the local `Key` and `GameEvent` types; `OtherKey` stands for every key that is neither a character nor an arrow key; ignored characters such as 'x' stay `Char(c)`.
- The random-number generator. `make_new_dot` chooses any free cell of the dot range. The source retries until it finds one, which terminates only with probability 1. When no free cell exists, the source never returns; the model reports `Stuck` instead.
- The unused `Grid` struct (src/game.rs:21-25).
- Draw.DrawPositions: `draw_positions` panics on an empty list (the `unwrap` calls at src/lib.rs:135-138). The model requires a non-empty list instead; every snake has at least one segment.
- `i32` overflow and the `as usize` casts. Coordinates are unbounded integers. No lemma bounds them. In play, coordinates stay small. A dot can lie on the field's edge at `-radius`. A head that eats it there grows one cell past the edge (src/game.rs:123), with no bounds test. The next `advance` (src/game.rs:116) then moves it one cell further before `snake_oob` resets the game. So no computed coordinate exceeds 12 in absolute value, two steps past radius 10.
- Legacy.Snake.GetHeadDirection: the source takes the snake by value, which consumes it. The model only reads it.
- Legacy.Snake.Fmt: the source writes into a formatter and returns its `fmt::Result`. The model returns the text.
