/** `draw_positions` of src/lib.rs: a non-empty list of cells rendered as a
    text bitmap over their bounding box, one line per row from the top row
    down, '#' for an occupied cell and ' ' for a free one, lines joined by a
    newline. */
module Draw {
  import opened Geometry
  import VecOps

  function Xs(ps: seq<Position>): (r: seq<int>)
    ensures |r| == |ps| && forall i :: 0 <= i < |ps| ==> r[i] == ps[i].x
  {
    seq(|ps|, i requires 0 <= i < |ps| => ps[i].x)
  }

  function Ys(ps: seq<Position>): (r: seq<int>)
    ensures |r| == |ps| && forall i :: 0 <= i < |ps| ==> r[i] == ps[i].y
  {
    seq(|ps|, i requires 0 <= i < |ps| => ps[i].y)
  }

  /** `iter().min().unwrap()`: the least element, which occurs in the list. */
  function Min(xs: seq<int>): (m: int)
    requires |xs| > 0
    ensures m in xs
    ensures forall i :: 0 <= i < |xs| ==> m <= xs[i]
  {
    if |xs| == 1 then xs[0]
    else
      var rest := Min(xs[1..]);
      if xs[0] <= rest then xs[0] else rest
  }

  /** `iter().max().unwrap()`: the greatest element, which occurs in the list. */
  function Max(xs: seq<int>): (m: int)
    requires |xs| > 0
    ensures m in xs
    ensures forall i :: 0 <= i < |xs| ==> xs[i] <= m
  {
    if |xs| == 1 then xs[0]
    else
      var rest := Max(xs[1..]);
      if xs[0] >= rest then xs[0] else rest
  }

  // The bounding box of the cells.
  function Left(ps: seq<Position>): (x: int) requires |ps| > 0 { Min(Xs(ps)) }
  function Right(ps: seq<Position>): (x: int) requires |ps| > 0 { Max(Xs(ps)) }
  function Top(ps: seq<Position>): (y: int) requires |ps| > 0 { Max(Ys(ps)) }
  function Bottom(ps: seq<Position>): (y: int) requires |ps| > 0 { Min(Ys(ps)) }

  /** Every cell lies inside its bounding box. */
  lemma InBox(ps: seq<Position>, k: nat)
    requires k < |ps|
    ensures Left(ps) <= ps[k].x <= Right(ps) && Bottom(ps) <= ps[k].y <= Top(ps)
  {
    assert Xs(ps)[k] == ps[k].x && Ys(ps)[k] == ps[k].y;
  }

  /** Every cell's offsets from the box's bottom-left corner index the grid. */
  lemma BoxOffsets(ps: seq<Position>)
    requires |ps| > 0
    ensures forall k :: 0 <= k < |ps| ==>
              0 <= ps[k].y - Bottom(ps) < Height(ps) && 0 <= ps[k].x - Left(ps) < Width(ps)
  {
    forall k | 0 <= k < |ps|
      ensures 0 <= ps[k].y - Bottom(ps) < Height(ps) && 0 <= ps[k].x - Left(ps) < Width(ps)
    {
      InBox(ps, k);
    }
  }

  function Width(ps: seq<Position>): (w: nat)
    requires |ps| > 0
    ensures w == Right(ps) - Left(ps) + 1 >= 1
  {
    InBox(ps, 0);
    Right(ps) - Left(ps) + 1
  }

  function Height(ps: seq<Position>): (h: nat)
    requires |ps| > 0
    ensures h == Top(ps) - Bottom(ps) + 1 >= 1
  {
    InBox(ps, 0);
    Top(ps) - Bottom(ps) + 1
  }

  /** The character for one cell of the bit grid. */
  function Glyph(occupied: bool): (ch: char)
  {
    if occupied then '#' else ' '
  }

  /** The intended picture: `Height` lines of `Width` characters each; line
      `r` shows row `Top - r`, and its character `c` shows column `Left + c`. */
  function Bitmap(ps: seq<Position>): (rows: seq<string>)
    requires |ps| > 0
    ensures |rows| == Height(ps)
    ensures forall r :: 0 <= r < |rows| ==> |rows[r]| == Width(ps)
  {
    var left, top := Left(ps), Top(ps);
    seq(Height(ps), r requires 0 <= r < Height(ps) =>
      seq(Width(ps), c requires 0 <= c < Width(ps) => Glyph(Position(left + c, top - r) in ps)))
  }

  /** Character `c` of line `r` of the picture. */
  lemma BitmapAt(ps: seq<Position>, r: nat, c: nat)
    requires |ps| > 0 && r < Height(ps) && c < Width(ps)
    ensures Bitmap(ps)[r][c] == Glyph(Position(Left(ps) + c, Top(ps) - r) in ps)
  {
  }

  /** `join("\n")`. */
  function JoinLines(lines: seq<string>): (r: string)
    ensures |lines| == 0 ==> r == ""
    ensures |lines| == 1 ==> r == lines[0]
    ensures |lines| > 0 ==> lines[0] <= r
  {
    if |lines| == 0 then ""
    else if |lines| == 1 then lines[0]
    else lines[0] + "\n" + JoinLines(lines[1..])
  }

  /** The bit grid of `draw_positions` before any cell is set:
      `height` rows of `width` cells, all false. */
  method FalseGrid(width: nat, height: nat) returns (grid: seq<seq<bool>>)
    ensures |grid| == height
    ensures forall r :: 0 <= r < height ==> |grid[r]| == width
    ensures forall r, c :: 0 <= r < height && 0 <= c < width ==> !grid[r][c]
  {
    grid := [];
    var i := 0;
    while i < height
      invariant 0 <= i <= height
      invariant |grid| == i
      invariant forall r :: 0 <= r < i ==> |grid[r]| == width
      invariant forall r, c :: 0 <= r < i && 0 <= c < width ==> !grid[r][c]
    {
      grid := grid + [seq(width, _ => false)];
      i := i + 1;
    }
  }

  /** The marking pass of `draw_positions`: the cell of each position,
      taken relative to the box's bottom-left corner, is set. */
  method MarkCells(grid: seq<seq<bool>>, width: nat, positions: seq<Position>, left: int, bottom: int)
    returns (marked: seq<seq<bool>>)
    requires forall r :: 0 <= r < |grid| ==> |grid[r]| == width
    requires forall r, c :: 0 <= r < |grid| && 0 <= c < width ==> !grid[r][c]
    requires forall k :: 0 <= k < |positions| ==>
               0 <= positions[k].y - bottom < |grid| && 0 <= positions[k].x - left < width
    ensures |marked| == |grid|
    ensures forall r :: 0 <= r < |grid| ==> |marked[r]| == width
    ensures forall r, c :: 0 <= r < |grid| && 0 <= c < width ==>
              (marked[r][c] <==> Position(left + c, bottom + r) in positions)
  {
    marked := grid;
    var k := 0;
    while k < |positions|
      invariant 0 <= k <= |positions|
      invariant |marked| == |grid|
      invariant forall r :: 0 <= r < |grid| ==> |marked[r]| == width
      invariant forall r, c :: 0 <= r < |grid| && 0 <= c < width ==>
                  (marked[r][c] <==> Position(left + c, bottom + r) in positions[..k])
    {
      var pos := positions[k];
      var row, col := pos.y - bottom, pos.x - left;
      marked := marked[row := marked[row][col := true]];
      assert positions[..k + 1] == positions[..k] + [pos];
      k := k + 1;
    }
    assert positions[..k] == positions;
  }

  /** One row of the bit grid as a line: '#' for set cells, ' ' for clear ones. */
  method RowLine(bits: seq<bool>) returns (line: string)
    ensures |line| == |bits|
    ensures forall c :: 0 <= c < |bits| ==> line[c] == Glyph(bits[c])
  {
    line := "";
    var c := 0;
    while c < |bits|
      invariant 0 <= c <= |bits|
      invariant |line| == c
      invariant forall j :: 0 <= j < c ==> line[j] == Glyph(bits[j])
    {
      line := line + (if bits[c] then "#" else " ");
      c := c + 1;
    }
  }

  /** The `map` over the bit grid's rows: each row becomes its line. */
  method GridLines(grid: seq<seq<bool>>, width: nat) returns (lines: seq<string>)
    requires forall r :: 0 <= r < |grid| ==> |grid[r]| == width
    ensures |lines| == |grid|
    ensures forall r :: 0 <= r < |grid| ==> |lines[r]| == width
    ensures forall r, c :: 0 <= r < |grid| && 0 <= c < width ==> lines[r][c] == Glyph(grid[r][c])
  {
    lines := [];
    var r := 0;
    while r < |grid|
      invariant 0 <= r <= |grid|
      invariant |lines| == r
      invariant forall j :: 0 <= j < r ==> |lines[j]| == width
      invariant forall j, c :: 0 <= j < r && 0 <= c < width ==> lines[j][c] == Glyph(grid[j][c])
    {
      var line := RowLine(grid[r]);
      lines := lines + [line];
      r := r + 1;
    }
  }

  /** Reversing the lines of the bottom-first bit grid gives the picture. */
  lemma PictureFromGrid(ps: seq<Position>, grid: seq<seq<bool>>, lines: seq<string>)
    requires |ps| > 0
    requires |grid| == |lines| == Height(ps)
    requires forall r :: 0 <= r < |grid| ==> |grid[r]| == |lines[r]| == Width(ps)
    requires forall r, c :: 0 <= r < |grid| && 0 <= c < Width(ps) ==>
               (grid[r][c] <==> Position(Left(ps) + c, Bottom(ps) + r) in ps)
    requires forall r, c :: 0 <= r < |grid| && 0 <= c < Width(ps) ==> lines[r][c] == Glyph(grid[r][c])
    ensures VecOps.Reverse(lines) == Bitmap(ps)
  {
    var rev, pic, h := VecOps.Reverse(lines), Bitmap(ps), Height(ps);
    forall j | 0 <= j < h
      ensures rev[j] == pic[j]
    {
      forall c | 0 <= c < Width(ps)
        ensures rev[j][c] == pic[j][c]
      {
        BitmapAt(ps, j, c);
        assert Bottom(ps) + (h - 1 - j) == Top(ps) - j;
      }
    }
  }

  /** The first half of `draw_positions`: the min/max scans for the bounding
      box, a bit grid built bottom row first, and one pass marking the
      occupied cells. Row `r`, cell `c` of the grid stands for the cell
      `(left + c, bottom + r)`. */
  method BitGrid(positions: seq<Position>) returns (bitGrid: seq<seq<bool>>)
    requires |positions| > 0
    ensures |bitGrid| == Height(positions)
    ensures forall r :: 0 <= r < |bitGrid| ==> |bitGrid[r]| == Width(positions)
    ensures forall r, c :: 0 <= r < |bitGrid| && 0 <= c < Width(positions) ==>
              (bitGrid[r][c] <==> Position(Left(positions) + c, Bottom(positions) + r) in positions)
  {
    var left, right := Left(positions), Right(positions);
    var top, bottom := Top(positions), Bottom(positions);
    var width, height := Width(positions), Height(positions);

    bitGrid := FalseGrid(width, height);
    BoxOffsets(positions);
    bitGrid := MarkCells(bitGrid, width, positions, left, bottom);
  }

  /** `draw_positions`: the bit grid, one pass turning each row into a
      line, then `reverse` and `join`. */
  method DrawPositions(positions: seq<Position>) returns (s: string)
    requires |positions| > 0
    ensures s == JoinLines(Bitmap(positions))
  {
    var bitGrid := BitGrid(positions);
    var lineStrings := GridLines(bitGrid, Width(positions));
    PictureFromGrid(positions, bitGrid, lineStrings);
    lineStrings := VecOps.Reverse(lineStrings);
    s := JoinLines(lineStrings);
  }

  /** The joined text has `|lines| - 1` separators besides the lines' characters. */
  lemma {:induction false} JoinLinesLength(lines: seq<string>, w: nat)
    requires |lines| > 0
    requires forall i :: 0 <= i < |lines| ==> |lines[i]| == w
    ensures |JoinLines(lines)| == |lines| * (w + 1) - 1
  {
    if |lines| > 1 {
      JoinLinesLength(lines[1..], w);
      assert |lines| * (w + 1) == (|lines| - 1) * (w + 1) + (w + 1);
    }
  }

  /** Where line `r` starts when every line before it has `w` characters
      and a newline. */
  function LineStart(r: nat, w: nat): (offset: nat)
  {
    if r == 0 then 0 else LineStart(r - 1, w) + w + 1
  }

  /** Line `r` starts at `r * (w + 1)`. */
  lemma {:induction false} LineStartIsProduct(r: nat, w: nat)
    ensures LineStart(r, w) == r * (w + 1)
  {
    if r > 0 {
      LineStartIsProduct(r - 1, w);
    }
  }

  /** Where each character of equal-width lines ends up in the joined text:
      character `c` of line `r` sits at `LineStart(r, w) + c`, and the
      newline after line `r` right after its last character. */
  lemma {:induction false} JoinLinesAt(lines: seq<string>, w: nat, r: nat, c: nat)
    requires forall i :: 0 <= i < |lines| ==> |lines[i]| == w
    requires r < |lines| && c <= w && (c == w ==> r + 1 < |lines|)
    ensures LineStart(r, w) + c < |JoinLines(lines)|
    ensures JoinLines(lines)[LineStart(r, w) + c] == if c < w then lines[r][c] else '\n'
  {
    if r > 0 {
      JoinLinesAt(lines[1..], w, r - 1, c);
      assert JoinLines(lines) == lines[0] + "\n" + JoinLines(lines[1..]);
    } else if |lines| > 1 {
      assert JoinLines(lines) == lines[0] + "\n" + JoinLines(lines[1..]);
    }
  }

  /** The drawing has `Height` lines of `Width` characters joined by
      `Height - 1` newlines. */
  lemma DrawingLength(ps: seq<Position>)
    requires |ps| > 0
    ensures |JoinLines(Bitmap(ps))| == Height(ps) * (Width(ps) + 1) - 1
  {
    JoinLinesLength(Bitmap(ps), Width(ps));
  }

  /** The character at line `r`, column `c` of the drawing, counting lines
      from the top; column `Width` of a line other than the last is the
      position of its line break. */
  function DrawnChar(ps: seq<Position>, r: nat, c: nat): (ch: char)
    requires |ps| > 0 && r < Height(ps) && c <= Width(ps)
    requires c == Width(ps) ==> r + 1 < Height(ps)
  {
    TextAt(Bitmap(ps), Width(ps), r, c)
  }

  /** The character at line `r`, column `c` of joined lines of width `w`. */
  function TextAt(lines: seq<string>, w: nat, r: nat, c: nat): (ch: char)
    requires forall i :: 0 <= i < |lines| ==> |lines[i]| == w
    requires r < |lines| && c <= w && (c == w ==> r + 1 < |lines|)
  {
    JoinLinesAt(lines, w, r, c);
    JoinLines(lines)[LineStart(r, w) + c]
  }

  /** `TextAt` reads character `c` of line `r`, or the newline after it. */
  lemma TextAtLine(lines: seq<string>, w: nat, r: nat, c: nat)
    requires forall i :: 0 <= i < |lines| ==> |lines[i]| == w
    requires r < |lines| && c <= w && (c == w ==> r + 1 < |lines|)
    ensures TextAt(lines, w, r, c) == if c < w then lines[r][c] else '\n'
  {
    JoinLinesAt(lines, w, r, c);
  }

  /** Character `c` of line `r` is '#' exactly when the cell `r` rows below
      the top edge and `c` columns right of the left edge is in the list,
      and ' ' otherwise. */
  lemma DrawingCell(ps: seq<Position>, r: nat, c: nat)
    requires |ps| > 0 && r < Height(ps) && c < Width(ps)
    ensures DrawnChar(ps, r, c) == if Position(Left(ps) + c, Top(ps) - r) in ps then '#' else ' '
  {
    TextAtLine(Bitmap(ps), Width(ps), r, c);
    BitmapAt(ps, r, c);
  }

  /** Every line but the last is followed by a newline. */
  lemma DrawingLineBreak(ps: seq<Position>, r: nat)
    requires |ps| > 0 && r + 1 < Height(ps)
    ensures DrawnChar(ps, r, Width(ps)) == '\n'
  {
    TextAtLine(Bitmap(ps), Width(ps), r, Width(ps));
  }

  /** No cell of the list is clipped: each one shows up as a '#'. */
  lemma DrawingShowsEveryCell(ps: seq<Position>, k: nat)
    requires k < |ps|
    ensures Bottom(ps) <= ps[k].y <= Top(ps) && Left(ps) <= ps[k].x <= Right(ps)
    ensures DrawnChar(ps, Top(ps) - ps[k].y, ps[k].x - Left(ps)) == '#'
  {
    InBox(ps, k);
    var r, c := Top(ps) - ps[k].y, ps[k].x - Left(ps);
    DrawingCell(ps, r, c);
    assert Position(Left(ps) + c, Top(ps) - r) == ps[k] && ps[k] in ps;
  }
}
