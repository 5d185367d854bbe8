/**
 * The drawing primitives that write into the character buffer: the single-line
 * box, the outer frame, the N-way partition, the double-line box and the
 * character-count text layout.
 *
 * Each primitive is a method that changes the buffer in place. Its contract
 * names the outcome (done, or the panic that aborts the program) and, when it
 * is done, gives every cell as `Paint(<primitive>Write(..., r, c), old cell)`,
 * where the write function says which glyph, if any, the primitive leaves in
 * cell (r, c). After a panic the program aborts, so the buffer is left
 * unspecified.
 */
module Ui {
  import opened Grid

  /** The six glyphs a box is drawn with. */
  datatype Glyphs = Glyphs(horizontal: char, vertical: char,
                           upperLeft: char, upperRight: char,
                           lowerLeft: char, lowerRight: char)

  const Single := Glyphs(HORIZONTAL, VERTICAL, UPPER_LEFT, UPPER_RIGHT, LOWER_LEFT, LOWER_RIGHT)
  const Double := Glyphs(DOUBLE_HORIZONTAL, DOUBLE_VERTICAL, DOUBLE_UPPER_LEFT,
                         DOUBLE_UPPER_RIGHT, DOUBLE_LOWER_LEFT, DOUBLE_LOWER_RIGHT)

  datatype Position = Position(x: nat, y: nat)

  // ---------------------------------------------------------------------------
  // Boxes

  /**
   * What a box routine does with its request: the explicit check refuses a box
   * whose far edge lies past the buffer; a box whose far edge lies exactly on
   * the buffer's edge passes that check and then fails on the corner write.
   */
  function BoxOutcome(width: nat, height: nat, x: nat, y: nat): Outcome {
    if x + width > WIDTH || y + height > HEIGHT then Panic(BoxOutOfBounds)
    else if x + width == WIDTH || y + height == HEIGHT then Panic(IndexOutOfBounds)
    else Ok
  }

  /**
   * The four corner writes, upper left, upper right, lower left, lower right,
   * in that order: when corners coincide (zero width or height) the later one wins.
   */
  function CornerWrite(g: Glyphs, width: nat, height: nat, x: nat, y: nat, r: int, c: int): Option<char> {
    if r == y + height && c == x + width then Some(g.lowerRight)
    else if r == y + height && c == x then Some(g.lowerLeft)
    else if r == y && c == x + width then Some(g.upperRight)
    else if r == y && c == x then Some(g.upperLeft)
    else None
  }

  /**
   * draw_box as written: its edge loops run over the absolute rows 1..height-1
   * and the absolute columns 1..width-1, whatever the box's position.
   */
  function BoxWrite(width: nat, height: nat, x: nat, y: nat, r: int, c: int): Option<char> {
    if (r == y || r == y + height) && 1 <= c < width then Some(HORIZONTAL)
    else if 1 <= r < height && (c == x || c == x + width) then Some(VERTICAL)
    else CornerWrite(Single, width, height, x, y, r, c)
  }

  /**
   * A box on its own perimeter: the corners, the top and bottom edges strictly
   * between them and the left and right edges strictly between them. This is
   * the geometry of draw_double_box (with the double glyphs).
   */
  function FrameWrite(g: Glyphs, width: nat, height: nat, x: nat, y: nat, r: int, c: int): Option<char> {
    if (r == y || r == y + height) && x < c < x + width then Some(g.horizontal)
    else if y < r < y + height && (c == x || c == x + width) then Some(g.vertical)
    else CornerWrite(g, width, height, x, y, r, c)
  }

  /** The corner block shared by both box routines, after their explicit check. */
  method DrawCorners(grid: array2<char>, g: Glyphs, width: nat, height: nat, x: nat, y: nat)
    returns (out: Outcome)
    requires IsBuffer(grid)
    requires x + width <= WIDTH && y + height <= HEIGHT
    modifies grid
    ensures out == BoxOutcome(width, height, x, y)
    ensures out.Ok? ==> forall r, c :: InBuffer(r, c) ==>
              grid[r, c] == Paint(CornerWrite(g, width, height, x, y, r, c), old(grid[r, c]))
  {
    var ok := Put(grid, y, x, g.upperLeft);
    if !ok { return Panic(IndexOutOfBounds); }
    ok := Put(grid, y, x + width, g.upperRight);
    if !ok { return Panic(IndexOutOfBounds); }
    ok := Put(grid, y + height, x, g.lowerLeft);
    if !ok { return Panic(IndexOutOfBounds); }
    ok := Put(grid, y + height, x + width, g.lowerRight);
    if !ok { return Panic(IndexOutOfBounds); }
    return Ok;
  }

  /** draw_box: a single-line box, edges drawn as written (see BoxWrite). */
  method DrawBox(grid: array2<char>, width: nat, height: nat, position: Position)
    returns (out: Outcome)
    requires IsBuffer(grid)
    modifies grid
    ensures out == BoxOutcome(width, height, position.x, position.y)
    ensures out.Ok? ==> forall r, c :: InBuffer(r, c) ==>
              grid[r, c] == Paint(BoxWrite(width, height, position.x, position.y, r, c), old(grid[r, c]))
  {
    var x, y := position.x, position.y;
    if x + width > WIDTH || y + height > HEIGHT {
      return Panic(BoxOutOfBounds);
    }
    out := DrawCorners(grid, Single, width, height, x, y);
    if out.Panic? {
      return;
    }
    label corners:
    var i := 1;
    while i < height
      invariant 1 <= i <= if height == 0 then 1 else height
      invariant forall r, c :: InBuffer(r, c) ==>
                  grid[r, c] == (if 1 <= r < i && (c == x || c == x + width) then VERTICAL
                                 else old@corners(grid[r, c]))
    {
      grid[i, x] := VERTICAL;
      grid[i, x + width] := VERTICAL;
      i := i + 1;
    }
    label verticals:
    i := 1;
    while i < width
      invariant 1 <= i <= if width == 0 then 1 else width
      invariant forall r, c :: InBuffer(r, c) ==>
                  grid[r, c] == (if (r == y || r == y + height) && 1 <= c < i then HORIZONTAL
                                 else old@verticals(grid[r, c]))
    {
      grid[y, i] := HORIZONTAL;
      grid[y + height, i] := HORIZONTAL;
      i := i + 1;
    }
  }

  /** draw_double_box: a double-line box on its own perimeter (see FrameWrite). */
  method DrawDoubleBox(grid: array2<char>, width: nat, height: nat, position: Position)
    returns (out: Outcome)
    requires IsBuffer(grid)
    modifies grid
    ensures out == BoxOutcome(width, height, position.x, position.y)
    ensures out.Ok? ==> forall r, c :: InBuffer(r, c) ==>
              grid[r, c] == Paint(FrameWrite(Double, width, height, position.x, position.y, r, c), old(grid[r, c]))
  {
    var x, y := position.x, position.y;
    if x + width > WIDTH || y + height > HEIGHT {
      return Panic(BoxOutOfBounds);
    }
    out := DrawCorners(grid, Double, width, height, x, y);
    if out.Panic? {
      return;
    }
    label corners:
    var i := y + 1;
    while i < y + height
      invariant y + 1 <= i <= if height == 0 then y + 1 else y + height
      invariant forall r, c :: InBuffer(r, c) ==>
                  grid[r, c] == (if y < r < i && (c == x || c == x + width) then DOUBLE_VERTICAL
                                 else old@corners(grid[r, c]))
    {
      grid[i, x] := DOUBLE_VERTICAL;
      grid[i, x + width] := DOUBLE_VERTICAL;
      i := i + 1;
    }
    label verticals:
    i := x + 1;
    while i < x + width
      invariant x + 1 <= i <= if width == 0 then x + 1 else x + width
      invariant forall r, c :: InBuffer(r, c) ==>
                  grid[r, c] == (if (r == y || r == y + height) && x < c < i then DOUBLE_HORIZONTAL
                                 else old@verticals(grid[r, c]))
    {
      grid[y, i] := DOUBLE_HORIZONTAL;
      grid[y + height, i] := DOUBLE_HORIZONTAL;
      i := i + 1;
    }
  }

  // ---------------------------------------------------------------------------
  // The outer frame and the partition

  /** draw_borders: a single-line box from (0, 0) to (79, 23). */
  function BordersWrite(r: int, c: int): Option<char> {
    BoxWrite(WIDTH - 1, HEIGHT - 1, 0, 0, r, c)
  }

  method DrawBorders(grid: array2<char>)
    requires IsBuffer(grid)
    modifies grid
    ensures forall r, c :: InBuffer(r, c) ==> grid[r, c] == Paint(BordersWrite(r, c), old(grid[r, c]))
  {
    var out := DrawBox(grid, WIDTH - 1, HEIGHT - 1, Position(0, 0));
    assert out == Ok;
  }

  /** The column of the i-th separator of a partition into `size` lanes. */
  function SeparatorColumn(size: nat, i: nat): nat
    requires size > 0
  {
    i * (WIDTH / size)
  }

  /** Column c is the separator of one of the lanes 1..n-1. */
  predicate IsSeparator(size: nat, n: nat, c: int)
    requires size > 0
  {
    exists i :: 1 <= i < n && SeparatorColumn(size, i) == c
  }

  /** A separator is a T-junction on the top row, one on the bottom row, and vertical between. */
  function SeparatorGlyph(r: int): char {
    if r == 0 then DOWN_HORIZONTAL
    else if r == HEIGHT - 1 then UP_HORIZONTAL
    else VERTICAL
  }

  /** The frame, then the separators of lanes 1..n-1 on top of it. */
  function PartitionWrite(size: nat, n: nat, r: int, c: int): Option<char>
    requires size > 0
  {
    if 0 <= r < HEIGHT && IsSeparator(size, n, c) then Some(SeparatorGlyph(r))
    else BordersWrite(r, c)
  }

  function RowOutcome(size: nat): Outcome {
    if size == 0 then Panic(SizeZero) else Ok
  }

  /** draw_row: the outer frame and size-1 evenly spaced separators. */
  method DrawRow(grid: array2<char>, size: nat) returns (out: Outcome)
    requires IsBuffer(grid)
    modifies grid
    ensures out == RowOutcome(size)
    ensures out.Ok? ==> forall r, c :: InBuffer(r, c) ==>
              grid[r, c] == Paint(PartitionWrite(size, size, r, c), old(grid[r, c]))
  {
    if size == 0 {
      return Panic(SizeZero);
    }
    DrawBorders(grid);
    label framed:
    var rowWidth := WIDTH / size;
    for i := 1 to size
      invariant forall r, c :: InBuffer(r, c) ==>
                  grid[r, c] == (if IsSeparator(size, i, c) then SeparatorGlyph(r)
                                 else old@framed(grid[r, c]))
    {
      var linePosition := i * rowWidth;
      SeparatorInRange(size, i);
      label before:
      grid[0, linePosition] := DOWN_HORIZONTAL;
      grid[HEIGHT - 1, linePosition] := UP_HORIZONTAL;
      for j := 1 to HEIGHT - 1
        invariant forall r, c :: InBuffer(r, c) ==>
                    grid[r, c] == (if c == linePosition && (r == 0 || r == HEIGHT - 1 || 1 <= r < j)
                                   then SeparatorGlyph(r) else old@before(grid[r, c]))
      {
        grid[j, linePosition] := VERTICAL;
      }
      assert SeparatorColumn(size, i) == linePosition;
      assert forall c :: IsSeparator(size, i + 1, c) <==> IsSeparator(size, i, c) || c == linePosition;
    }
    return Ok;
  }

  /** Every separator of a partition into `size` lanes lies inside the buffer. */
  lemma SeparatorInRange(size: nat, i: nat)
    requires 1 <= i < size
    ensures SeparatorColumn(size, i) < WIDTH
  {
    var q := WIDTH / size;
    assert WIDTH == q * size + WIDTH % size;
    if q > 0 {
      assert i * q < size * q;
    }
  }

  // ---------------------------------------------------------------------------
  // Text layout

  /**
   * The wrap width the layout loop really uses: it wraps once the column
   * counter reaches `width`, so a zero width wraps after every character,
   * exactly as a width of one does.
   */
  function WrapWidth(width: nat): (w: nat)
    ensures w > 0
  {
    if width == 0 then 1 else width
  }

  function TextRow(y: nat, width: nat, k: nat): nat {
    y + k / WrapWidth(width)
  }

  function TextColumn(x: nat, width: nat, k: nat): nat {
    x + k % WrapWidth(width)
  }

  /** The height the layout reports: the row after the final line cursor, an absolute row. */
  function TextHeight(text: string, y: nat, width: nat): nat {
    y + |text| / WrapWidth(width) + 1
  }

  /** Every character lands inside the buffer; nothing clips. */
  predicate TextFits(text: string, x: nat, y: nat, width: nat) {
    forall k :: 0 <= k < |text| ==> InBuffer(TextRow(y, width, k), TextColumn(x, width, k))
  }

  function TextOutcome(text: string, x: nat, y: nat, width: nat): Outcome {
    if TextFits(text, x, y, width) then Ok else Panic(IndexOutOfBounds)
  }

  /** The character laid out in cell (r, c), if any: the one whose offset (r - y, c - x) it is. */
  function TextWrite(text: string, x: nat, y: nat, width: nat, r: int, c: int): Option<char> {
    var w := WrapWidth(width);
    if y <= r && x <= c < x + w && (r - y) * w + (c - x) < |text|
    then Some(text[(r - y) * w + (c - x)])
    else None
  }

  /** A text to lay out; the layout fills in its height. */
  class TextObject {
    const text: string
    const position: Position
    const width: nat
    var height: Option<nat>

    constructor (text: string, position: Position, width: nat)
      ensures this.text == text && this.position == position && this.width == width
      ensures height == None
    {
      this.text := text;
      this.position := position;
      this.width := width;
      height := None;
    }
  }

  /**
   * draw_text_object: writes the k-th character at (TextRow(k), TextColumn(k)),
   * failing at the first character outside the buffer; on success sets the
   * height to TextHeight.
   */
  method DrawTextObject(grid: array2<char>, textObject: TextObject) returns (out: Outcome)
    requires IsBuffer(grid)
    modifies grid, textObject
    ensures out == TextOutcome(textObject.text, textObject.position.x, textObject.position.y, textObject.width)
    ensures out.Ok? ==>
              textObject.height == Some(TextHeight(textObject.text, textObject.position.y, textObject.width))
    ensures out.Panic? ==> textObject.height == old(textObject.height)
    ensures out.Ok? ==> forall r, c :: InBuffer(r, c) ==>
              grid[r, c] == Paint(TextWrite(textObject.text, textObject.position.x, textObject.position.y,
                                            textObject.width, r, c), old(grid[r, c]))
  {
    var text, x, y, width := textObject.text, textObject.position.x, textObject.position.y, textObject.width;
    var lineIndex := y;
    var columnIndex := 0;
    for i := 0 to |text|
      invariant lineIndex == TextRow(y, width, i)
      invariant columnIndex == i % WrapWidth(width)
      invariant textObject.height == old(textObject.height)
      invariant forall k :: 0 <= k < i ==> InBuffer(TextRow(y, width, k), TextColumn(x, width, k))
      invariant forall r, c :: InBuffer(r, c) ==>
                  grid[r, c] == Paint(TextWrite(text[..i], x, y, width, r, c), old(grid[r, c]))
    {
      var ok := Put(grid, lineIndex, x + columnIndex, text[i]);
      if !ok {
        assert !InBuffer(TextRow(y, width, i), TextColumn(x, width, i));
        return Panic(IndexOutOfBounds);
      }
      WrapStep(i, width);
      forall r, c | InBuffer(r, c)
        ensures TextWrite(text[..i + 1], x, y, width, r, c)
                == if r == lineIndex && c == x + columnIndex then Some(text[i])
                   else TextWrite(text[..i], x, y, width, r, c)
      {
        TextWriteExtend(text, i, x, y, width, r, c);
      }
      columnIndex := columnIndex + 1;
      if columnIndex >= width {
        lineIndex := lineIndex + 1;
        columnIndex := 0;
      }
    }
    assert text[..|text|] == text;
    textObject.height := Some(lineIndex + 1);
    return Ok;
  }

  // ---------------------------------------------------------------------------
  // Arithmetic of the layout

  /** Division with remainder is unique. */
  lemma {:induction false} DivModUnique(q: int, m: int, w: int)
    requires w > 0 && 0 <= m < w && 0 <= q
    ensures (q * w + m) / w == q && (q * w + m) % w == m
  {
    var n := q * w + m;
    var q', m' := n / w, n % w;
    assert n == q' * w + m';
    if q' > q {
      MulMonotone(q + 1, q', w);
      assert false;
    } else if q' < q {
      MulMonotone(q', q - 1, w);
      assert false;
    }
  }

  lemma MulMonotone(a: int, b: int, w: int)
    requires a <= b && w >= 0
    ensures a * w <= b * w
  {
  }

  /** One step of the layout loop's line and column counters. */
  lemma WrapStep(i: nat, width: nat)
    ensures var w := WrapWidth(width);
            if i % w + 1 >= width then (i + 1) / w == i / w + 1 && (i + 1) % w == 0
            else (i + 1) / w == i / w && (i + 1) % w == i % w + 1
  {
    var w := WrapWidth(width);
    var q, m := i / w, i % w;
    assert i == q * w + m && 0 <= m < w;
    if m + 1 >= width {
      assert m + 1 == w;
      assert (q + 1) * w == q * w + w;
      DivModUnique(q + 1, 0, w);
    } else {
      DivModUnique(q, m + 1, w);
    }
  }

  /** Laying out one more character changes exactly the cell of that character. */
  lemma TextWriteExtend(text: string, i: nat, x: nat, y: nat, width: nat, r: int, c: int)
    requires i < |text|
    ensures TextWrite(text[..i + 1], x, y, width, r, c)
            == if r == TextRow(y, width, i) && c == TextColumn(x, width, i) then Some(text[i])
               else TextWrite(text[..i], x, y, width, r, c)
  {
    var w := WrapWidth(width);
    var q, m := i / w, i % w;
    assert i == q * w + m && 0 <= m < w;
    var before, after := text[..i], text[..i + 1];
    if y <= r && x <= c < x + w {
      var offset := (r - y) * w + (c - x);
      if r == y + q && c == x + m {
        assert offset == i;
      } else if offset == i {
        DivModUnique(r - y, c - x, w);
        assert false;
      }
      assert offset < i ==> after[offset] == before[offset];
    }
  }

  lemma DivMonotone(a: nat, b: nat, w: nat)
    requires a <= b && w > 0
    ensures a / w <= b / w
  {
    assert a == (a / w) * w + a % w && b == (b / w) * w + b % w;
    if a / w > b / w {
      MulMonotone(b / w + 1, a / w, w);
      assert false;
    }
  }

  // ---------------------------------------------------------------------------
  // Properties of the primitives

  /**
   * A box routine accepts exactly the boxes whose far corner lies strictly
   * inside the buffer; its own check only refuses the ones past the edge, and
   * a far edge on row 24 or column 80 fails on the corner write instead.
   */
  lemma BoxFailsOnTheEdge(width: nat, height: nat, x: nat, y: nat)
    ensures BoxOutcome(width, height, x, y).Ok? <==> x + width < WIDTH && y + height < HEIGHT
    ensures BoxOutcome(width, height, x, y) == Panic(BoxOutOfBounds)
            <==> x + width > WIDTH || y + height > HEIGHT
  {
  }

  /** With a positive width and height the four corners are distinct cells and each keeps its glyph. */
  lemma FrameCorners(g: Glyphs, width: nat, height: nat, x: nat, y: nat)
    requires width >= 1 && height >= 1
    ensures FrameWrite(g, width, height, x, y, y, x) == Some(g.upperLeft)
    ensures FrameWrite(g, width, height, x, y, y, x + width) == Some(g.upperRight)
    ensures FrameWrite(g, width, height, x, y, y + height, x) == Some(g.lowerLeft)
    ensures FrameWrite(g, width, height, x, y, y + height, x + width) == Some(g.lowerRight)
  {
  }

  predicate OnPerimeter(width: nat, height: nat, x: nat, y: nat, r: int, c: int) {
    ((r == y || r == y + height) && x <= c <= x + width)
    || ((c == x || c == x + width) && y <= r <= y + height)
  }

  /**
   * draw_double_box draws the vertical edge on columns x and x+width of rows
   * y+1..y+height-1, the horizontal edge on rows y and y+height of columns
   * x+1..x+width-1, and leaves every cell off the perimeter alone.
   */
  lemma FrameEdges(g: Glyphs, width: nat, height: nat, x: nat, y: nat, r: int, c: int)
    ensures FrameWrite(g, width, height, x, y, r, c).Some? <==> OnPerimeter(width, height, x, y, r, c)
    ensures y < r < y + height && (c == x || c == x + width)
            ==> FrameWrite(g, width, height, x, y, r, c) == Some(g.vertical)
    ensures (r == y || r == y + height) && x < c < x + width
            ==> FrameWrite(g, width, height, x, y, r, c) == Some(g.horizontal)
  {
  }

  /**
   * draw_borders frames the whole buffer: rows 0 and 23 are horizontal in
   * columns 1..78, columns 0 and 79 are vertical in rows 1..22, the four single
   * corners sit in the corners of the buffer, and no inner cell is touched.
   */
  lemma BordersFrameTheBuffer(r: int, c: int)
    requires InBuffer(r, c)
    ensures (r == 0 || r == HEIGHT - 1) && 1 <= c < WIDTH - 1 ==> BordersWrite(r, c) == Some(HORIZONTAL)
    ensures (c == 0 || c == WIDTH - 1) && 1 <= r < HEIGHT - 1 ==> BordersWrite(r, c) == Some(VERTICAL)
    ensures BordersWrite(0, 0) == Some(UPPER_LEFT) && BordersWrite(0, WIDTH - 1) == Some(UPPER_RIGHT)
    ensures BordersWrite(HEIGHT - 1, 0) == Some(LOWER_LEFT)
    ensures BordersWrite(HEIGHT - 1, WIDTH - 1) == Some(LOWER_RIGHT)
    ensures 0 < r < HEIGHT - 1 && 0 < c < WIDTH - 1 ==> BordersWrite(r, c) == None
  {
  }

  /**
   * At the origin, the only place the program draws a single-line box, the
   * edges draw_box draws are exactly the ones of the box's own perimeter.
   */
  lemma BoxAtOriginIsFrame(width: nat, height: nat, r: int, c: int)
    ensures BoxWrite(width, height, 0, 0, r, c) == FrameWrite(Single, width, height, 0, 0, r, c)
  {
  }

  /**
   * Away from the origin, draw_box as written draws edge glyphs off its own
   * perimeter and leaves holes in it: a 2 x 2 box at (5, 5) puts a vertical bar
   * at row 1 and draws nothing at (6, 5), the middle of its left edge.
   */
  lemma BoxOffOriginStrays()
    ensures BoxWrite(2, 2, 5, 5, 1, 5) == Some(VERTICAL) && !OnPerimeter(2, 2, 5, 5, 1, 5)
    ensures BoxWrite(2, 2, 5, 5, 6, 5) == None && OnPerimeter(2, 2, 5, 5, 6, 5)
    ensures FrameWrite(Single, 2, 2, 5, 5, 6, 5) == Some(VERTICAL)
  {
  }

  /**
   * draw_row with at least one lane: every separator column i * (80 / size),
   * 1 <= i < size, lies inside the buffer and gets a T-junction on row 0, one
   * on row 23 and a vertical bar in between, on top of the frame.
   */
  lemma PartitionSeparators(size: nat, i: nat, r: int)
    requires 1 <= i < size && 0 <= r < HEIGHT
    ensures SeparatorColumn(size, i) < WIDTH
    ensures PartitionWrite(size, size, r, SeparatorColumn(size, i))
            == Some(if r == 0 then DOWN_HORIZONTAL else if r == HEIGHT - 1 then UP_HORIZONTAL else VERTICAL)
  {
    SeparatorInRange(size, i);
  }

  /** Three lanes are separated at columns 26 and 52 and nowhere else. */
  lemma ThreeLaneSeparators(c: int)
    ensures IsSeparator(3, 3, c) <==> c == 26 || c == 52
  {
    if c == 26 {
      assert SeparatorColumn(3, 1) == 26;
    } else if c == 52 {
      assert SeparatorColumn(3, 2) == 52;
    }
  }

  /** The cells of the layout, read back in order, give the text: the k-th character is at its cell. */
  lemma TextReadBack(text: string, x: nat, y: nat, width: nat, k: nat)
    requires k < |text|
    ensures TextWrite(text, x, y, width, TextRow(y, width, k), TextColumn(x, width, k)) == Some(text[k])
  {
    var w := WrapWidth(width);
    assert k == (k / w) * w + k % w;
  }

  /** The layout writes no cell other than the cells of its characters. */
  lemma TextWritesOnlyItsCells(text: string, x: nat, y: nat, width: nat, r: int, c: int)
    requires TextWrite(text, x, y, width, r, c).Some?
    ensures exists k :: 0 <= k < |text| && r == TextRow(y, width, k) && c == TextColumn(x, width, k)
                        && TextWrite(text, x, y, width, r, c) == Some(text[k])
  {
    var w := WrapWidth(width);
    var k := (r - y) * w + (c - x);
    DivModUnique(r - y, c - x, w);
    assert r == TextRow(y, width, k) && c == TextColumn(x, width, k);
  }

  /**
   * The reported height is an absolute row: y + 1 for an empty text, else the
   * row after the last character's row, plus one more when the length is an
   * exact multiple of the wrap width.
   */
  lemma TextHeightShape(text: string, y: nat, width: nat)
    ensures |text| == 0 ==> TextHeight(text, y, width) == y + 1
    ensures |text| > 0 ==>
              TextHeight(text, y, width)
              == TextRow(y, width, |text| - 1) + 1 + (if |text| % WrapWidth(width) == 0 then 1 else 0)
  {
    if |text| > 0 {
      var w, n := WrapWidth(width), |text|;
      assert n - 1 == ((n - 1) / w) * w + (n - 1) % w;
      WrapStep(n - 1, w);
    }
  }

  /**
   * The layout fails exactly when its last line runs below row 23 or its
   * widest line runs right of column 79.
   */
  lemma TextFitsExactly(text: string, x: nat, y: nat, width: nat)
    ensures TextFits(text, x, y, width)
            <==> |text| == 0
                 || (y + (|text| - 1) / WrapWidth(width) < HEIGHT
                     && x + (if |text| < WrapWidth(width) then |text| else WrapWidth(width)) - 1 < WIDTH)
  {
    var w, n := WrapWidth(width), |text|;
    if n > 0 {
      var widest := if n < w then n else w;
      if TextFits(text, x, y, width) {
        assert InBuffer(TextRow(y, width, n - 1), TextColumn(x, width, n - 1));
        assert (widest - 1) % w == widest - 1 by { DivModUnique(0, widest - 1, w); }
        assert InBuffer(TextRow(y, width, widest - 1), TextColumn(x, width, widest - 1));
      } else if y + (n - 1) / w < HEIGHT && x + widest - 1 < WIDTH {
        var k :| 0 <= k < n && !InBuffer(TextRow(y, width, k), TextColumn(x, width, k));
        CharacterCell(k, n, w);
        assert false;
      }
    }
  }

  /** The k-th of n characters lies no lower than the last and no further right than the widest line. */
  lemma CharacterCell(k: nat, n: nat, w: nat)
    requires k < n && w > 0
    ensures k / w <= (n - 1) / w
    ensures k % w <= (if n < w then n else w) - 1
  {
    DivMonotone(k, n - 1, w);
    assert k == (k / w) * w + k % w;
  }
}
