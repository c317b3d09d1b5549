/** When the live screen is what the scrollback would redraw (kernel/console/gcon.cpp). Erasing and scrolling change
    pixels that no buffer line records, so this is kept by some calls and not by others. */
module ConsoleView {
  import opened Console
  import opened ConsoleProofs

  // -------------------------------------------------------------------------- pixels

  /** `init` takes as many rows as fit. */
  predicate Fitted(g: Geo) {
    GeoOk(g) && g.height - 2 * g.inset < (g.rows + 1) * FONT_HEIGHT
  }

  predicate RowWide(fb: Screen, width: nat, y: nat) {
    y < |fb| ==> |fb[y]| == width
  }

  ghost predicate FbOk(g: Geo, fb: Screen) {
    |fb| == g.height && forall y: nat :: RowWide(fb, g.width, y)
  }

  function At(fb: Screen, x: nat, y: nat): Color {
    if y < |fb| && x < |fb[y]| then fb[y][x] else 0
  }

  /** The pixel lies in a text column and in the text area, which may end below the last full row. */
  predicate InText(g: Geo, x: nat, y: nat) {
    g.inset <= x && g.inset <= y && x < CellX(g, g.cols) && y + g.inset < g.height
  }

  function ColOf(g: Geo, x: nat): nat { if x < g.inset then 0 else (x - g.inset) / FONT_WIDTH }
  function RowOf(g: Geo, y: nat): nat { if y < g.inset then 0 else (y - g.inset) / FONT_HEIGHT }
  function DX(g: Geo, x: nat): nat { if x < g.inset then 0 else (x - g.inset) % FONT_WIDTH }
  function DY(g: Geo, y: nat): nat { if y < g.inset then 0 else (y - g.inset) % FONT_HEIGHT }

  function Pixel(g: Geo, c: Cell, dx: nat, dy: nat): Color {
    if g.ink(c.ch, dx, dy) then c.fg else c.bg
  }

  predicate InCell(g: Geo, x: nat, y: nat, cx: nat, cy: nat) {
    g.inset <= x && g.inset <= y && ColOf(g, x) == cx && RowOf(g, y) == cy
  }

  lemma CellIs(g: Geo, x: nat, y: nat, cx: nat, cy: nat)
    ensures InCell(g, x, y, cx, cy) <==> In(x, y, CellX(g, cx), CellY(g, cy), CellX(g, cx + 1), CellY(g, cy + 1))
    ensures InCell(g, x, y, cx, cy) ==> DX(g, x) == x - CellX(g, cx) && DY(g, y) == y - CellY(g, cy)
  {
  }

  lemma CharAt(g: Geo, fb: Screen, cx: nat, cy: nat, ch: nat, fg: Color, bg: Color, x: nat, y: nat)
    requires FbOk(g, fb)
    ensures var r := DrawChar(g, fb, cx, cy, ch, fg, bg);
            && FbOk(g, r)
            && (x < g.width && y < g.height ==>
                  At(r, x, y) == if InCell(g, x, y, cx, cy) then Pixel(g, Cell(ch, fg, bg), DX(g, x), DY(g, y)) else At(fb, x, y))
  {
    CellIs(g, x, y, cx, cy);
    hide CellX, CellY, InCell, ColOf, RowOf, DX, DY;
    var r := DrawChar(g, fb, cx, cy, ch, fg, bg);
    assert RowWide(fb, g.width, y);
    forall k: nat ensures RowWide(r, g.width, k) { assert RowWide(fb, g.width, k); }
  }

  lemma {:induction false} LineAtPixel(g: Geo, fb: Screen, line: Line, row: nat, k: nat, x: nat, y: nat)
    requires FbOk(g, fb) && k <= |line|
    ensures var r := DrawLine(g, fb, line, row, k);
            && FbOk(g, r)
            && (x < g.width && y < g.height ==>
                  At(r, x, y) == if InCell(g, x, y, ColOf(g, x), row) && ColOf(g, x) < k
                                 then Pixel(g, line[ColOf(g, x)], DX(g, x), DY(g, y)) else At(fb, x, y))
  {
    hide FbOk, At, ColOf, RowOf, DX, DY, Pixel, DrawChar;
    if k > 0 {
      LineAtPixel(g, fb, line, row, k - 1, x, y);
      CharAt(g, DrawLine(g, fb, line, row, k - 1), k - 1, row, line[k - 1].ch, line[k - 1].fg, line[k - 1].bg, x, y);
    }
  }

  /** Redrawing paints every stored cell of every row, and nothing else. */
  lemma {:induction false} LinesAtPixel(g: Geo, fb: Screen, window: seq<Line>, n: nat, x: nat, y: nat)
    requires FbOk(g, fb) && n <= |window|
    ensures var r := DrawLines(g, fb, window, n);
            && FbOk(g, r)
            && (x < g.width && y < g.height ==>
                  At(r, x, y) ==
                    if g.inset <= x && g.inset <= y && RowOf(g, y) < n && ColOf(g, x) < Min(|window[RowOf(g, y)]|, g.cols)
                    then Pixel(g, window[RowOf(g, y)][ColOf(g, x)], DX(g, x), DY(g, y)) else At(fb, x, y))
  {
    hide FbOk, At, ColOf, RowOf, DX, DY, Pixel, DrawLine;
    if n > 0 {
      LinesAtPixel(g, fb, window, n - 1, x, y);
      var line := window[n - 1];
      LineAtPixel(g, DrawLines(g, fb, window, n - 1), line, n - 1, Min(|line|, g.cols), x, y);
    }
  }

  // ------------------------------------------------------------------- the live view

  /** What the next line of the buffer will hold. */
  function BlankCell(t: Text): Cell { Cell(32, t.defaultFg, t.defaultBg) }

  /** The columns that are both on the screen and in the buffer. */
  function Columns(g: Geo): nat { Min(g.cols, g.lineCols) }

  /** The cell that row `r` shows in the live view; below the last row there is room for part of one more line. */
  function CellAt(g: Geo, t: Text, r: nat, c: nat): Cell {
    if r < g.rows <= |t.log| && c < |t.log[|t.log| - g.rows + r]| then t.log[|t.log| - g.rows + r][c] else BlankCell(t)
  }

  predicate LiveAt(g: Geo, t: Text, x: nat, y: nat) {
    InText(g, x, y) && ColOf(g, x) < Columns(g) ==>
      At(t.fb, x, y) == Pixel(g, CellAt(g, t, RowOf(g, y), ColOf(g, x)), DX(g, x), DY(g, y))
  }

  /** The text area is what a redraw at offset 0 would paint. Below the last row, where no redraw reaches, it looks
      like the line that will scroll into it. */
  ghost predicate Live(g: Geo, t: Text) {
    FbOk(g, t.fb) && forall x: nat, y: nat :: LiveAt(g, t, x, y)
  }

  lemma TextRows(g: Geo, x: nat, y: nat)
    requires Fitted(g) && InText(g, x, y)
    ensures g.inset <= x < g.width - g.inset && g.inset <= y < g.height - g.inset
    ensures RowOf(g, y) <= g.rows && ColOf(g, x) < g.cols
  {
  }

  lemma LineFull(g: Geo, t: Text, r: nat)
    requires GeoOk(g) && RingAgrees(g, t) && r < g.rows
    ensures g.rows <= |t.log| && |t.log[|t.log| - g.rows + r]| == g.lineCols
  {
    var j := g.rows - 1 - r;
    assert LineAt(g, t, j) && Full(g, t, Back(g, t.head, j + 1));
  }

  // ---------------------------------------------------------------------- wiping pixels

  /** The rest of a row, that and everything below it, the whole text area, or some cells of a row, with the top row
      if it goes away. */
  datatype Region = Rest(row: nat, col: nat) | Below(row: nat, col: nat) | Whole | Cells(row: nat, col: nat, end: nat, top: bool)

  predicate Covers(region: Region, r: nat, c: nat) {
    match region
    case Rest(row, col) => r == row && c >= col
    case Below(row, col) => r > row || (r == row && c >= col)
    case Whole => true
    case Cells(row, col, end, top) => (r == row && col <= c < end) || (top && r == 0)
  }

  /** Every pixel of the region, the strip below the last row included, would be drawn in that colour. */
  predicate PlainAt(g: Geo, t: Text, region: Region, color: Color, x: nat, y: nat) {
    InText(g, x, y) && ColOf(g, x) < Columns(g) && Covers(region, RowOf(g, y), ColOf(g, x)) ==>
      Pixel(g, CellAt(g, t, RowOf(g, y), ColOf(g, x)), DX(g, x), DY(g, y)) == color
  }

  ghost predicate Plain(g: Geo, t: Text, region: Region, color: Color) {
    forall x: nat, y: nat :: PlainAt(g, t, region, color, x, y)
  }

  predicate WipedAt(g: Geo, fb: Screen, fb': Screen, region: Region, color: Color, x: nat, y: nat) {
    InText(g, x, y) ==> At(fb', x, y) == if Covers(region, RowOf(g, y), ColOf(g, x)) then color else At(fb, x, y)
  }

  ghost predicate Wiped(g: Geo, fb: Screen, fb': Screen, region: Region, color: Color) {
    FbOk(g, fb') && forall x: nat, y: nat :: WipedAt(g, fb, fb', region, color, x, y)
  }

  predicate SameLog(t: Text, t': Text) {
    t'.log == t.log && t'.defaultFg == t.defaultFg && t'.defaultBg == t.defaultBg
  }

  /** Painting a region in one colour, the buffer unchanged, keeps the live view exactly when the region looked
      like that already. */
  lemma WipeKeeps(g: Geo, t: Text, t': Text, region: Region, color: Color)
    requires Live(g, t) && SameLog(t, t') && Wiped(g, t.fb, t'.fb, region, color)
    ensures Live(g, t') <==> Plain(g, t, region, color)
  {
    hide InText, ColOf, RowOf, DX, DY, At, Pixel, FbOk;
    assert forall r: nat, c: nat :: CellAt(g, t', r, c) == CellAt(g, t, r, c);
    hide CellAt;
    forall x: nat, y: nat ensures LiveAt(g, t', x, y) <==> PlainAt(g, t, region, color, x, y) {
      assert LiveAt(g, t, x, y) && WipedAt(g, t.fb, t'.fb, region, color, x, y);
    }
  }

  lemma FillAt(g: Geo, fb: Screen, x0: nat, y0: nat, x1: nat, y1: nat, c: Color, x: nat, y: nat)
    requires FbOk(g, fb)
    ensures var r := FillRect(fb, x0, y0, x1, y1, c);
            FbOk(g, r) && (x < g.width && y < g.height ==> At(r, x, y) == if In(x, y, x0, y0, x1, y1) then c else At(fb, x, y))
  {
    var r := FillRect(fb, x0, y0, x1, y1, c);
    assert RowWide(fb, g.width, y);
    forall k: nat ensures RowWide(r, g.width, k) { assert RowWide(fb, g.width, k); }
  }

  lemma RestIs(g: Geo, x: nat, y: nat, row: nat, col: nat)
    requires Fitted(g) && InText(g, x, y) && row < g.rows
    ensures In(x, y, CellX(g, col), CellY(g, row), g.width - g.inset, Min(CellY(g, row + 1), g.height - g.inset)) <==>
              RowOf(g, y) == row && ColOf(g, x) >= col
    ensures In(x, y, g.inset, CellY(g, row + 1), g.width - g.inset, g.height - g.inset) <==> RowOf(g, y) > row
    ensures In(x, y, g.inset, g.inset, g.width - g.inset, g.height - g.inset)
  {
    TextRows(g, x, y);
  }

  lemma RestWiped(g: Geo, fb: Screen, row: nat, col: nat, c: Color)
    requires Fitted(g) && FbOk(g, fb) && row < g.rows
    ensures Wiped(g, fb, FillRect(fb, CellX(g, col), CellY(g, row), g.width - g.inset,
                                  Min(CellY(g, row + 1), g.height - g.inset), c), Rest(row, col), c)
  {
    var x0, y0, x1, y1 := CellX(g, col), CellY(g, row), g.width - g.inset, Min(CellY(g, row + 1), g.height - g.inset);
    hide FillRect, FbOk, At, CellX, CellY, InText, ColOf, RowOf, Fitted, In;
    FillAt(g, fb, x0, y0, x1, y1, c, 0, 0);
    forall x: nat, y: nat ensures WipedAt(g, fb, FillRect(fb, x0, y0, x1, y1, c), Rest(row, col), c, x, y) {
      FillAt(g, fb, x0, y0, x1, y1, c, x, y);
      if InText(g, x, y) { TextRows(g, x, y); RestIs(g, x, y, row, col); }
    }
  }

  lemma BelowWiped(g: Geo, fb: Screen, row: nat, col: nat, c: Color)
    requires Fitted(g) && FbOk(g, fb) && row < g.rows
    ensures var fb1 := FillRect(fb, CellX(g, col), CellY(g, row), g.width - g.inset, Min(CellY(g, row + 1), g.height - g.inset), c);
            Wiped(g, fb, FillRect(fb1, g.inset, CellY(g, row + 1), g.width - g.inset, g.height - g.inset, c), Below(row, col), c)
  {
    hide FillRect, FbOk, At, CellX, CellY, InText, ColOf, RowOf, In, Min;
    var fb1 := FillRect(fb, CellX(g, col), CellY(g, row), g.width - g.inset, Min(CellY(g, row + 1), g.height - g.inset), c);
    RestWiped(g, fb, row, col, c);
    FillAt(g, fb1, g.inset, CellY(g, row + 1), g.width - g.inset, g.height - g.inset, c, 0, 0);
    var fb2 := FillRect(fb1, g.inset, CellY(g, row + 1), g.width - g.inset, g.height - g.inset, c);
    forall x: nat, y: nat ensures WipedAt(g, fb, fb2, Below(row, col), c, x, y) {
      assert WipedAt(g, fb, fb1, Rest(row, col), c, x, y);
      BelowPixel(g, fb, fb1, row, col, c, x, y);
    }
  }

  lemma BelowPixel(g: Geo, fb: Screen, fb1: Screen, row: nat, col: nat, c: Color, x: nat, y: nat)
    requires Fitted(g) && FbOk(g, fb1) && row < g.rows && WipedAt(g, fb, fb1, Rest(row, col), c, x, y)
    ensures WipedAt(g, fb, FillRect(fb1, g.inset, CellY(g, row + 1), g.width - g.inset, g.height - g.inset, c), Below(row, col), c, x, y)
  {
    hide FillRect, FbOk, At, CellX, CellY, ColOf, RowOf, In, InText, Min;
    FillAt(g, fb1, g.inset, CellY(g, row + 1), g.width - g.inset, g.height - g.inset, c, x, y);
    if InText(g, x, y) {
      TextRows(g, x, y);
      RestIs(g, x, y, row, col);
    }
  }

  lemma AllWiped(g: Geo, fb: Screen, c: Color)
    requires Fitted(g) && FbOk(g, fb)
    ensures Wiped(g, fb, FillText(g, fb, c), Whole, c)
  {
    var x0, y0, x1, y1 := g.inset, g.inset, g.width - g.inset, g.height - g.inset;
    hide FillRect, FbOk, At, InText, ColOf, RowOf, In;
    FillAt(g, fb, x0, y0, x1, y1, c, 0, 0);
    forall x: nat, y: nat ensures WipedAt(g, fb, FillText(g, fb, c), Whole, c, x, y) {
      FillAt(g, fb, x0, y0, x1, y1, c, x, y);
      if InText(g, x, y) { TextRows(g, x, y); RestIs(g, x, y, 0, 0); }
    }
  }

  // --------------------------------------------------------------------------- scrolling

  lemma MoveAt(g: Geo, fb: Screen, bg: Color, x: nat, y: nat)
    requires GeoOk(g) && FbOk(g, fb)
    ensures var r := MoveUp(g, fb, bg);
            && FbOk(g, r)
            && (g.inset <= x < g.width - g.inset && g.inset <= y < g.height - g.inset ==>
                  At(r, x, y) == if y + FONT_HEIGHT < g.height - g.inset then At(fb, x, y + FONT_HEIGHT) else bg)
  {
    MoveWide(g, fb, bg);
    assert RowWide(fb, g.width, y) && RowWide(fb, g.width, y + FONT_HEIGHT);
    hide FbOk, RowWide, GeoOk;
  }

  lemma MoveWide(g: Geo, fb: Screen, bg: Color)
    requires GeoOk(g) && FbOk(g, fb)
    ensures FbOk(g, MoveUp(g, fb, bg))
  {
    var r := MoveUp(g, fb, bg);
    assert |r| == |fb| && forall k :: 0 <= k < |fb| ==> |r[k]| == |fb[k]|;
    hide MoveUp, GeoOk;
    forall k: nat ensures RowWide(r, g.width, k) { assert RowWide(fb, g.width, k); }
  }

  /** A blank cell of the buffer, drawn, is nothing but the current background. */
  predicate BlankPixel(g: Geo, t: Text, dx: nat, dy: nat) {
    dx < FONT_WIDTH && dy < FONT_HEIGHT ==> Pixel(g, BlankCell(t), dx, dy) == t.bg
  }

  /** Scrolling fills with the current background where the buffer gets a blank line in the default colours. */
  ghost predicate ScrollsClean(g: Geo, t: Text) {
    Columns(g) == 0 || forall dx: nat, dy: nat :: BlankPixel(g, t, dx, dy)
  }

  lemma ScrollCells(g: Geo, t: Text, r: nat, c: nat)
    requires GeoOk(g) && RingAgrees(g, t) && c < g.lineCols
    ensures r < g.rows ==> CellAt(g, Scroll(g, t), r, c) == CellAt(g, t, r + 1, c)
    ensures r >= g.rows ==> CellAt(g, Scroll(g, t), r, c) == BlankCell(t)
  {
    BufferNewLineOk(g, t);
    var t', n := Scroll(g, t), |t.log|;
    LineFull(g, t, 0);
    if r + 1 < g.rows {
      assert t'.log[n + 1 - g.rows + r] == t.log[n - g.rows + (r + 1)];
    } else if r + 1 == g.rows {
      assert t'.log[n] == Blank(g, t.defaultFg, t.defaultBg);
    }
  }

  /** One pixel of the scrolled screen: moved up with its cell, or filled. */
  lemma ScrollPixel(g: Geo, t: Text, x: nat, y: nat)
    requires Fitted(g) && RingAgrees(g, t) && FbOk(g, t.fb) && InText(g, x, y) && ColOf(g, x) < Columns(g)
    ensures y + FONT_HEIGHT + g.inset < g.height ==> (LiveAt(g, Scroll(g, t), x, y) <==> LiveAt(g, t, x, y + FONT_HEIGHT))
    ensures y + FONT_HEIGHT + g.inset >= g.height ==>
              RowOf(g, y) + 1 >= g.rows && (LiveAt(g, Scroll(g, t), x, y) <==> t.bg == Pixel(g, BlankCell(t), DX(g, x), DY(g, y)))
  {
    hide CellAt, At, MoveUp, RingAgrees, ColOf, RowOf, DX, DY, FbOk, Pixel, InText;
    TextRows(g, x, y);
    RowDown(g, x, y);
    MoveAt(g, t.fb, t.bg, x, y);
    ScrollCells(g, t, RowOf(g, y), ColOf(g, x));
    BelowIsBlank(g, t, RowOf(g, y) + 1, ColOf(g, x));
  }

  lemma BelowIsBlank(g: Geo, t: Text, r: nat, c: nat)
    ensures r >= g.rows ==> CellAt(g, t, r, c) == BlankCell(t)
  {
  }

  lemma RowDown(g: Geo, x: nat, y: nat)
    requires Fitted(g) && InText(g, x, y)
    ensures RowOf(g, y + FONT_HEIGHT) == RowOf(g, y) + 1 && DY(g, y + FONT_HEIGHT) == DY(g, y)
    ensures y + FONT_HEIGHT + g.inset < g.height ==> InText(g, x, y + FONT_HEIGHT) && RowOf(g, y) < g.rows
    ensures y + FONT_HEIGHT + g.inset >= g.height ==> RowOf(g, y) + 1 >= g.rows
    ensures x < g.width - g.inset
  {
  }

  /** Outside the region every pixel shows the live view. */
  ghost predicate LiveOutside(g: Geo, t: Text, region: Region) {
    forall x: nat, y: nat :: LiveOrIn(g, t, region, x, y)
  }

  predicate LiveOrIn(g: Geo, t: Text, region: Region, x: nat, y: nat) {
    LiveAt(g, t, x, y) || Covers(region, RowOf(g, y), ColOf(g, x))
  }

  lemma LiveAnywhere(g: Geo, t: Text, region: Region)
    requires Live(g, t)
    ensures LiveOutside(g, t, region)
  {
    hide LiveAt;
    forall x: nat, y: nat ensures LiveOrIn(g, t, region, x, y) { assert LiveAt(g, t, x, y); }
  }

  /** A scroll shows the live view exactly when all but the top row did and its fill looks like a blank line. */
  lemma ScrollShows(g: Geo, t: Text, row: nat, col: nat)
    requires Fitted(g) && RingAgrees(g, t) && FbOk(g, t.fb)
    ensures Live(g, Scroll(g, t)) <==> ScrollsClean(g, t) && LiveOutside(g, t, Cells(row, col, col, true))
  {
    MoveAt(g, t.fb, t.bg, 0, 0);
    hide FbOk, At, CellAt, RingAgrees, Pixel, MoveUp, BufferNewLine, GeoOk;
    if ScrollsClean(g, t) && LiveOutside(g, t, Cells(row, col, col, true)) {
      forall x: nat, y: nat ensures LiveAt(g, Scroll(g, t), x, y) { ScrolledLive(g, t, row, col, x, y); }
    } else if !ScrollsClean(g, t) {
      var dx: nat, dy: nat :| !BlankPixel(g, t, dx, dy);
      var x, y := BottomPixel(g, dx, dy);
      ScrollPixel(g, t, x, y);
      assert !LiveAt(g, Scroll(g, t), x, y);
    } else {
      var x: nat, y: nat :| !LiveOrIn(g, t, Cells(row, col, col, true), x, y);
      var z := RowUp(g, x, y);
      ScrollPixel(g, t, x, z);
      assert !LiveAt(g, Scroll(g, t), x, z);
    }
  }

  lemma ScrolledLive(g: Geo, t: Text, row: nat, col: nat, x: nat, y: nat)
    requires Fitted(g) && RingAgrees(g, t) && FbOk(g, t.fb) && ScrollsClean(g, t) && LiveOutside(g, t, Cells(row, col, col, true))
    ensures LiveAt(g, Scroll(g, t), x, y)
  {
    hide Scroll, At, CellAt, FbOk, RingAgrees, Pixel;
    if InText(g, x, y) && ColOf(g, x) < Columns(g) {
      ScrollPixel(g, t, x, y);
      RowDown(g, x, y);
      assert LiveOrIn(g, t, Cells(row, col, col, true), x, y + FONT_HEIGHT);
      assert BlankPixel(g, t, DX(g, x), DY(g, y));
    }
  }

  lemma RowUp(g: Geo, x: nat, y: nat) returns (z: nat)
    requires Fitted(g) && InText(g, x, y) && RowOf(g, y) > 0
    ensures InText(g, x, z) && y == z + FONT_HEIGHT && z + FONT_HEIGHT + g.inset < g.height
  {
    z := y - FONT_HEIGHT;
  }

  /** Every place within a cell is that of some pixel that scrolling fills. */
  lemma BottomPixel(g: Geo, dx: nat, dy: nat) returns (x: nat, y: nat)
    requires Fitted(g) && Columns(g) > 0 && dx < FONT_WIDTH && dy < FONT_HEIGHT
    ensures InText(g, x, y) && ColOf(g, x) < Columns(g) && DX(g, x) == dx && DY(g, y) == dy
    ensures y + FONT_HEIGHT + g.inset >= g.height
  {
    x := g.inset + dx;
    y := CellY(g, g.rows - 1) + dy;
    if y + FONT_HEIGHT + g.inset < g.height { y := y + FONT_HEIGHT; }
  }

  // ----------------------------------------------------------------------------- text

  lemma PutCells(g: Geo, t: Text, ch: nat, r: nat, c: nat)
    requires GeoOk(g) && TextOk(g, t)
    ensures var t1 := BufferPut(g, t, ch, t.cx, t.cy);
            c < g.lineCols ==> CellAt(g, t1, r, c) == if r == t.cy && c == t.cx then Cell(ch, t.fg, t.bg) else CellAt(g, t, r, c)
  {
    BufferPutOk(g, t, ch, t.cx, t.cy);
    LineFull(g, t, t.cy);
  }

  /** The text after a character was stored and drawn at the cursor. */
  function Stamped(g: Geo, t: Text, ch: nat): Text
    requires GeoOk(g)
  {
    var t1 := BufferPut(g, t, ch, t.cx, t.cy);
    t1.(fb := DrawChar(g, t1.fb, t.cx, t.cy, ch, t.fg, t.bg))
  }

  /** A character goes to the screen and to the buffer alike: its cell is live, and the others are as they were. */
  lemma PutShows(g: Geo, t: Text, ch: nat, x: nat, y: nat)
    requires Fitted(g) && TextOk(g, t) && FbOk(g, t.fb)
    ensures FbOk(g, Stamped(g, t, ch).fb)
    ensures LiveAt(g, Stamped(g, t, ch), x, y) <==> LiveOrIn(g, t, Cells(t.cy, t.cx, t.cx + 1, false), x, y)
  {
    var t1 := BufferPut(g, t, ch, t.cx, t.cy);
    CharAt(g, t.fb, t.cx, t.cy, ch, t.fg, t.bg, x, y);
    assert t1.fb == t.fb;
    hide FbOk, At, DrawChar, Pixel, CellAt, BufferPut;
    if InText(g, x, y) && ColOf(g, x) < Columns(g) {
      TextRows(g, x, y);
      PutCells(g, t, ch, RowOf(g, y), ColOf(g, x));
      SameCells(g, t1, Stamped(g, t, ch), RowOf(g, y), ColOf(g, x));
    }
  }

  /** So what may be wrong before it grows by that cell. */
  lemma PutOutside(g: Geo, t: Text, ch: nat, t': Text, before: Region, after: Region)
    requires Fitted(g) && TextOk(g, t) && FbOk(g, t.fb) && SameLog(Stamped(g, t, ch), t') && t'.fb == Stamped(g, t, ch).fb
    requires forall r, c :: Covers(before, r, c) <==> Covers(after, r, c) || (r == t.cy && c == t.cx)
    ensures FbOk(g, t'.fb) && (LiveOutside(g, t', after) <==> LiveOutside(g, t, before))
  {
    hide FbOk, LiveAt, Stamped, RowOf, ColOf, TextOk, GeoOk, SameLog;
    PutShows(g, t, ch, 0, 0);
    forall x: nat, y: nat ensures LiveOrIn(g, t', after, x, y) <==> LiveOrIn(g, t, before, x, y) {
      PutShows(g, t, ch, x, y);
      SamePixel(g, Stamped(g, t, ch), t', x, y);
    }
  }

  lemma SamePixel(g: Geo, t: Text, t': Text, x: nat, y: nat)
    requires SameLog(t, t') && t'.fb == t.fb
    ensures LiveAt(g, t', x, y) <==> LiveAt(g, t, x, y)
  {
    hide At, Pixel, CellAt, ColOf, RowOf, InText, FbOk;
    SameCells(g, t, t', RowOf(g, y), ColOf(g, x));
  }

  lemma SameCells(g: Geo, t: Text, t': Text, r: nat, c: nat)
    requires SameLog(t, t')
    ensures CellAt(g, t', r, c) == CellAt(g, t, r, c)
  {
  }

  lemma SameLive(g: Geo, t: Text, t': Text)
    requires SameLog(t, t') && t'.fb == t.fb
    ensures Live(g, t') <==> Live(g, t)
  {
    hide LiveAt, FbOk, SameLog;
    forall x: nat, y: nat ensures LiveAt(g, t', x, y) <==> LiveAt(g, t, x, y) { SamePixel(g, t, t', x, y); }
  }

  lemma NothingCovered(g: Geo, t: Text, row: nat, col: nat)
    requires FbOk(g, t.fb)
    ensures Live(g, t) <==> LiveOutside(g, t, Cells(row, col, col, false))
  {
    hide LiveAt, FbOk;
    forall x: nat, y: nat ensures LiveAt(g, t, x, y) <==> LiveOrIn(g, t, Cells(row, col, col, false), x, y) { }
  }

  lemma NewLineShows(g: Geo, t: Text, col: nat)
    requires Fitted(g) && RingAgrees(g, t) && FbOk(g, t.fb)
    ensures var scrolls := t.cy + 1 >= g.rows;
            Live(g, NewLine(g, t)) <==>
              (scrolls ==> ScrollsClean(g, t)) && LiveOutside(g, t, Cells(t.cy, col, col, scrolls))
  {
    hide Live, ScrollsClean, RingAgrees, LiveOutside, FbOk;
    if t.cy + 1 < g.rows {
      NothingCovered(g, t, t.cy, col);
      SameLive(g, t, NewLine(g, t));
    } else {
      ScrollShows(g, t, t.cy, col);
      SameLive(g, Scroll(g, t), NewLine(g, t));
    }
  }

  lemma SameClean(g: Geo, t: Text, t': Text)
    requires t'.defaultFg == t.defaultFg && t'.defaultBg == t.defaultBg && t'.bg == t.bg
    ensures ScrollsClean(g, t') <==> ScrollsClean(g, t)
  {
    forall dx: nat, dy: nat ensures BlankPixel(g, t', dx, dy) <==> BlankPixel(g, t, dx, dy) { }
  }

  lemma GlyphShows(g: Geo, t: Text, ch: nat)
    requires Fitted(g) && TextOk(g, t) && FbOk(g, t.fb)
    ensures var scrolls := t.cx + 1 >= g.cols && t.cy + 1 >= g.rows;
            Live(g, Glyph(g, t, ch)) <==>
              (scrolls ==> ScrollsClean(g, t)) && LiveOutside(g, t, Cells(t.cy, t.cx, t.cx + 1, scrolls))
  {
    hide Live, ScrollsClean, RingAgrees, NewLine, DrawChar, LiveOutside, FbOk;
    var t2, end, scrolls := Stamped(g, t, ch), t.cx + 1, t.cx + 1 >= g.cols && t.cy + 1 >= g.rows;
    PutOutside(g, t, ch, t2, Cells(t.cy, t.cx, end, scrolls), Cells(t.cy, end, end, scrolls));
    BufferPutOk(g, t, ch, t.cx, t.cy);
    SameRing(g, BufferPut(g, t, ch, t.cx, t.cy), t2);
    SameClean(g, t, t2);
    if t.cx + 1 < g.cols {
      NothingCovered(g, t2, t.cy, end);
      SameLive(g, t2, Advance(g, t2));
    } else {
      NewLineShows(g, t2, end);
    }
  }

  /** The tab runs into the end of its line. */
  predicate TabWraps(g: Geo, t: Text) {
    (t.cx / 8 + 1) * 8 >= g.cols
  }

  lemma TabStep(g: Geo, t: Text, t1: Text)
    requires t1.cx == t.cx + 1
    ensures t.cx + 1 >= g.cols ==> TabWraps(g, t) && TabEnd(g, t) == g.cols
    ensures t.cx + 1 < g.cols ==>
              if (t.cx + 1) % 8 == 0 then !TabWraps(g, t) && TabEnd(g, t) == t.cx + 1
              else (TabWraps(g, t1) <==> TabWraps(g, t)) && TabEnd(g, t1) == TabEnd(g, t) > t.cx + 1
  {
  }

  /** The column a tab stops at. */
  function TabEnd(g: Geo, t: Text): nat { Min((t.cx / 8 + 1) * 8, g.cols) }

  lemma {:induction false} TabShows(g: Geo, t: Text)
    requires Fitted(g) && TextOk(g, t) && FbOk(g, t.fb)
    ensures var scrolls := TabWraps(g, t) && t.cy + 1 >= g.rows;
            Live(g, Tab(g, t)) <==>
              (scrolls ==> ScrollsClean(g, t)) && LiveOutside(g, t, Cells(t.cy, t.cx, TabEnd(g, t), scrolls))
    decreases g.cols - t.cx
  {
    hide Live, ScrollsClean, TextOk, Glyph, TabWraps, Fitted, GeoOk, LiveOutside, FbOk, TabEnd, Stamped;
    TabNeeds(g, t);
    GlyphShows(g, t, 32);
    GlyphOk(g, t, 32);
    GlyphPlace(g, t, 32);
    var t1, scrolls := Glyph(g, t, 32), TabWraps(g, t) && t.cy + 1 >= g.rows;
    SameClean(g, t, t1);
    TabStep(g, t, t.(cx := t.cx + 1));
    TabSame(g, t1, t.(cx := t.cx + 1));
    if t1.cx % 8 != 0 && t.cx < t1.cx < g.cols {
      PutOutside(g, t, 32, t1, Cells(t.cy, t.cx, TabEnd(g, t), scrolls), Cells(t.cy, t1.cx, TabEnd(g, t), scrolls));
      TabShows(g, t1);
    }
  }

  lemma TabNeeds(g: Geo, t: Text)
    requires Fitted(g) && TextOk(g, t)
    ensures GeoOk(g) && t.cx < g.cols && t.cy < g.rows
  {
  }

  lemma TabSame(g: Geo, t: Text, t': Text)
    ensures t'.cx == t.cx ==> (TabWraps(g, t') <==> TabWraps(g, t)) && TabEnd(g, t') == TabEnd(g, t)
  {
  }

  lemma GlyphPlace(g: Geo, t: Text, ch: nat)
    requires GeoOk(g) && TextOk(g, t)
    ensures var t1 := Glyph(g, t, ch);
            && t1.defaultFg == t.defaultFg && t1.defaultBg == t.defaultBg && t1.bg == t.bg
            && (if t.cx + 1 < g.cols then t1 == Stamped(g, t, ch).(cx := t.cx + 1) else t1.cx == 0)
            && (t.cx + 1 < g.cols ==> t1.cy == t.cy && SameLog(Stamped(g, t, ch), t1) && t1.fb == Stamped(g, t, ch).fb)
  {
  }

  /** The character makes the text scroll. */
  predicate WillScroll(g: Geo, t: Text, c: nat) {
    t.cy + 1 >= g.rows &&
    (c == 10 || (c == 9 && TabWraps(g, t)) || (32 <= c < 127 && t.cx + 1 >= g.cols))
  }

  /** The cells a character writes, and the top row if the text scrolls. */
  function Repainted(g: Geo, t: Text, c: nat): Region {
    var end := if c == 9 then TabEnd(g, t) else if 32 <= c < 127 then t.cx + 1 else t.cx;
    Cells(t.cy, t.cx, end, WillScroll(g, t, c))
  }

  /** After a character the live view is on the screen exactly when it was outside the cells written and the row
      scrolled away, and what scrolls in looks like a blank line. */
  lemma PrintShows(g: Geo, t: Text, c: nat)
    requires Fitted(g) && TextOk(g, t) && FbOk(g, t.fb)
    ensures Live(g, Print(g, t, c)) <==>
              (WillScroll(g, t, c) ==> ScrollsClean(g, t)) && LiveOutside(g, t, Repainted(g, t, c))
  {
    hide Live, ScrollsClean, NewLine, Tab, Glyph, TabWraps, TabEnd, RingAgrees, LiveOutside, FbOk;
    if c == 10 {
      NewLineShows(g, t, t.cx);
    } else if c == 9 {
      TabShows(g, t);
    } else if 32 <= c < 127 {
      GlyphShows(g, t, c);
    } else {
      NothingCovered(g, t, t.cy, t.cx);
      SameLive(g, t, Print(g, t, c));
    }
  }

  lemma PrintKeeps(g: Geo, t: Text, c: nat)
    requires Fitted(g) && TextOk(g, t) && Live(g, t)
    ensures Live(g, Print(g, t, c)) <==> (WillScroll(g, t, c) ==> ScrollsClean(g, t))
  {
    hide ScrollsClean, Print, LiveAt, LiveOutside, Repainted;
    LiveAnywhere(g, t, Repainted(g, t, c));
    PrintShows(g, t, c);
  }

  /** Output is to bring the live view back from wherever the screen was scrolled to; it does so exactly when no
      pixel was wrong but those it paints over. */
  lemma OutputShows(g: Geo, t: Text, c: nat)
    requires Fitted(g) && TextOk(g, t) && FbOk(g, t.fb) && AnsiStep(t.ansi, c).Out?
    ensures Live(g, PlainPutc(g, t, c)) <==>
              (WillScroll(g, t, c) ==> ScrollsClean(g, t)) && LiveOutside(g, t, Repainted(g, t, c))
  {
    hide Live, LiveAt, ScrollsClean, Print, RingAgrees, TabEnd, TabWraps, FbOk;
    var t1 := t.(ansi := AnsiStep(t.ansi, c).ansi, offset := 0);
    SameRing(g, t, t1);
    SameClean(g, t, t1);
    TabSame(g, t, t1);
    PrintShows(g, t1, c);
    forall x: nat, y: nat ensures LiveOrIn(g, t1, Repainted(g, t, c), x, y) <==> LiveOrIn(g, t, Repainted(g, t, c), x, y) {
      SamePixel(g, t, t1, x, y);
    }
  }

  // ------------------------------------------------------------------------ every call

  /** An erasing command keeps the live view exactly when what it erases looked erased already. */
  ghost predicate CsiClean(g: Geo, t: Text, params: seq<nat>, final: nat) {
    var p := if |params| > 0 then params[0] else 0;
    if final == 74 && p == 0 then Plain(g, t, Below(t.cy, t.cx), t.bg)
    else if final == 74 && (p == 2 || p == 3) then Plain(g, t, Whole, t.bg)
    else if final == 75 && p == 0 then Plain(g, t, Rest(t.cy, t.cx), t.bg)
    else if final == 75 && p == 2 then Plain(g, t, Rest(t.cy, 0), t.bg)
    else true
  }

  lemma LiveFb(g: Geo, t: Text)
    requires Live(g, t)
    ensures FbOk(g, t.fb)
  {
  }

  lemma EraseLineKeeps(g: Geo, t: Text, from: nat)
    requires Fitted(g) && Live(g, t) && t.cy < g.rows
    ensures Live(g, EraseLine(g, t, from)) <==> Plain(g, t, Rest(t.cy, from), t.bg)
  {
    hide Live, Plain, FillRect, Wiped, FbOk, CellX, CellY;
    LiveFb(g, t);
    RestWiped(g, t.fb, t.cy, from, t.bg);
    WipeKeeps(g, t, EraseLine(g, t, from), Rest(t.cy, from), t.bg);
  }

  lemma EraseBelowKeeps(g: Geo, t: Text)
    requires Fitted(g) && Live(g, t) && t.cy < g.rows
    ensures Live(g, EraseDisplay(g, t, 0)) <==> Plain(g, t, Below(t.cy, t.cx), t.bg)
  {
    hide Live, Plain, FillRect, Wiped, FbOk, CellX, CellY;
    LiveFb(g, t);
    BelowWiped(g, t.fb, t.cy, t.cx, t.bg);
    WipeKeeps(g, t, EraseDisplay(g, t, 0), Below(t.cy, t.cx), t.bg);
  }

  lemma EraseAllKeeps(g: Geo, t: Text, t': Text)
    requires Fitted(g) && Live(g, t) && SameLog(t, t') && t'.fb == FillText(g, t.fb, t.bg)
    ensures Live(g, t') <==> Plain(g, t, Whole, t.bg)
  {
    hide Live, Plain, FillText, Wiped, FbOk;
    LiveFb(g, t);
    AllWiped(g, t.fb, t.bg);
    WipeKeeps(g, t, t', Whole, t.bg);
  }

  lemma CsiKeeps(g: Geo, t: Text, params: seq<nat>, final: nat)
    requires Fitted(g) && TextOk(g, t) && Live(g, t) && !Scrolls(params, final)
    ensures Live(g, CsiCommand(g, t, params, final)) <==> CsiClean(g, t, params, final)
  {
    hide Live, Plain, EraseLine, FillRect, FillText, Sgr, ScrollUp, ScrollDown, RingAgrees, CellX, CellY;
    if final == 74 {
      EraseBelowKeeps(g, t);
      EraseAllKeeps(g, t, EraseDisplay(g, t, 2));
    } else if final == 75 {
      EraseLineKeeps(g, t, t.cx);
      EraseLineKeeps(g, t, 0);
    } else {
      if final == 109 { SgrKeeps(t, if params == [] then [0] else params); }
      SameLive(g, t, CsiCommand(g, t, params, final));
    }
  }

  predicate RecolourAt(g: Geo, t: Text, fg: Color, bg: Color, x: nat, y: nat) {
    InText(g, x, y) && ColOf(g, x) < Columns(g) && RowOf(g, y) >= g.rows ==>
      Pixel(g, Cell(32, fg, bg), DX(g, x), DY(g, y)) == Pixel(g, BlankCell(t), DX(g, x), DY(g, y))
  }

  /** New default colours must not show in the strip below the last row. */
  ghost predicate Recolours(g: Geo, t: Text, fg: Color, bg: Color) {
    forall x: nat, y: nat :: RecolourAt(g, t, fg, bg, x, y)
  }

  lemma RecolourKeeps(g: Geo, t: Text, fg: Color, bg: Color)
    requires Fitted(g) && TextOk(g, t) && Live(g, t)
    ensures Live(g, SetColors(t, fg, bg)) <==> Recolours(g, t, fg, bg)
  {
    var t' := SetColors(t, fg, bg);
    hide At, Pixel, FbOk, InText, ColOf, RowOf, DX, DY;
    forall x: nat, y: nat ensures LiveAt(g, t', x, y) <==> RecolourAt(g, t, fg, bg, x, y) {
      assert LiveAt(g, t, x, y);
      if RowOf(g, y) < g.rows { LineFull(g, t, RowOf(g, y)); }
    }
  }

  /** Paging through the scrollback, by a call or by an escape sequence. */
  predicate Pages(t: Text, gui: bool, op: Op) {
    op.OpPageUp? || op.OpPageDown?
    || (op.OpPutc? && !(gui && !op.force)
        && var o := AnsiStep(t.ansi, op.c); o.Command? && !ShowsCursor(o) && !HidesCursor(o) && Scrolls(o.params, o.final))
  }

  /** What the calls that do not page must observe. */
  ghost predicate Clean(g: Geo, t: Text, gui: bool, op: Op) {
    match op
    case OpPutc(c, force) =>
      (gui && !force) ||
      (var o := AnsiStep(t.ansi, c);
       match o
       case Taken(_) => true
       case Out(_) => WillScroll(g, t, c) ==> ScrollsClean(g, t)
       case Command(params, final, _) => ShowsCursor(o) || HidesCursor(o) || CsiClean(g, t, params, final))
    case OpClear => Plain(g, t, Whole, t.bg)
    case OpSetColors(fg, bg) => Recolours(g, t, fg, bg)
    case _ => true
  }

  /** Each call that does not page keeps the live view exactly under its condition. */
  lemma StepKeeps(g: Geo, t: Text, gui: bool, op: Op)
    requires Fitted(g) && TextOk(g, t) && Live(g, t) && !Pages(t, gui, op)
    ensures Live(g, PlainStep(g, t, gui, op)) <==> Clean(g, t, gui, op)
  {
    match op
    case OpPutc(c, force) => if !(gui && !force) { PutcKeeps(g, t, c, gui, force); }
    case OpClear => EraseAllKeeps(g, t, PlainStep(g, t, gui, op));
    case OpSetColors(fg, bg) => RecolourKeeps(g, t, fg, bg);
    case OpSetCursor(x, y) => SameLive(g, t, MoveTo(g, t, x, y));
    case _ =>
  }

  lemma PutcKeeps(g: Geo, t: Text, c: nat, gui: bool, force: bool)
    requires Fitted(g) && TextOk(g, t) && Live(g, t) && !(gui && !force) && !Pages(t, gui, OpPutc(c, force))
    ensures Live(g, PlainPutc(g, t, c)) <==> Clean(g, t, gui, OpPutc(c, force))
  {
    hide Live, Print, CsiCommand, ScrollsClean, CsiClean, RingAgrees, Scrolls;
    var o := AnsiStep(t.ansi, c);
    match o
    case Taken(a) => SameLive(g, t, t.(ansi := a));
    case Out(a) =>
      var t1 := t.(ansi := a, offset := 0);
      SameRing(g, t, t1);
      SameLive(g, t, t1);
      SameClean(g, t, t1);
      PrintKeeps(g, t1, c);
    case Command(params, final, private) =>
      SameLive(g, t, t.(ansi := ANSI_RESET));
      if !ShowsCursor(o) && !HidesCursor(o) {
        CsiKeeps(g, t, params, final);
        SameLive(g, CsiCommand(g, t, params, final), CsiCommand(g, t, params, final).(ansi := ANSI_RESET));
      }
  }

  ghost predicate CleanAt(g: Geo, path: seq<Con>, ops: seq<Op>, k: nat)
    requires k < |ops| < |path|
  {
    Clean(g, Under(g, path[k]), path[k].gui, ops[k])
  }

  ghost predicate LiveIn(g: Geo, path: seq<Con>, k: nat)
    requires k < |path|
  {
    Live(g, Under(g, path[k]))
  }

  /** A run without paging shows the live view throughout exactly when every call observes its condition. */
  lemma {:induction false} LiveThroughout(g: Geo, path: seq<Con>, ops: seq<Op>, n: nat)
    requires Fitted(g) && IsRun(g, path, ops) && n <= |ops| && LiveIn(g, path, 0)
    requires forall k: nat :: k < n ==> !Pages(Under(g, path[k]), path[k].gui, ops[k])
    ensures (forall k: nat :: k <= n ==> LiveIn(g, path, k)) <==> forall k: nat :: k < n ==> CleanAt(g, path, ops, k)
  {
    assert |path| == |ops| + 1;
    hide IsRun, LiveIn, CleanAt, Under, Pages;
    if n > 0 {
      LiveThroughout(g, path, ops, n - 1);
      if LiveIn(g, path, n - 1) { NextLive(g, path, ops, n - 1); }
    }
  }

  lemma NextLive(g: Geo, path: seq<Con>, ops: seq<Op>, k: nat)
    requires Fitted(g) && IsRun(g, path, ops) && k < |ops| && LiveIn(g, path, k)
    requires !Pages(Under(g, path[k]), path[k].gui, ops[k])
    ensures LiveIn(g, path, k + 1) <==> CleanAt(g, path, ops, k)
  {
    CursorDoesNotInterfere(g, path, ops, k);
    NextUnder(g, path, ops, k);
    hide IsRun, Live, Under, TextOk, PlainStep, Clean, Pages, PlainRun;
    StepKeeps(g, Under(g, path[k]), path[k].gui, ops[k]);
  }

  // ---------------------------------------------------------------------------- paging

  /** The rows of the screen, without the strip below them, are what a redraw at offset 0 would paint. */
  ghost predicate Mirrors(g: Geo, t: Text) {
    forall x: nat, y: nat :: MirrorAt(g, t, x, y)
  }

  predicate MirrorAt(g: Geo, t: Text, x: nat, y: nat) {
    RowOf(g, y) < g.rows ==> LiveAt(g, t, x, y)
  }

  /** Where a redraw paints, and the part of the top row where only the mark of the offset goes. */
  predicate Stored(g: Geo, x: nat, y: nat) {
    InText(g, x, y) && RowOf(g, y) < g.rows && ColOf(g, x) < Columns(g)
  }

  predicate Mark(g: Geo, x: nat, y: nat) {
    InText(g, x, y) && RowOf(g, y) == 0 && ColOf(g, x) >= Columns(g)
  }

  predicate KeptAt(g: Geo, fb: Screen, fb': Screen, x: nat, y: nat) {
    x < g.width && y < g.height && !Stored(g, x, y) && !Mark(g, x, y) ==> At(fb', x, y) == At(fb, x, y)
  }

  ghost predicate Kept(g: Geo, fb: Screen, fb': Screen) {
    FbOk(g, fb') && forall x: nat, y: nat :: KeptAt(g, fb, fb', x, y)
  }

  lemma {:induction false} DigitsLength(n: nat, k: nat)
    ensures |Digits(n, k)| <= k
  {
    if k > 0 { DigitsLength(n / 10, k - 1); }
  }

  lemma {:induction false} TextKept(g: Geo, fb: Screen, s: seq<nat>, col: nat, k: nat)
    requires Fitted(g) && FbOk(g, fb) && k <= |s| && col + |s| <= g.cols
    ensures Kept(g, fb, DrawText(g, fb, s, col, k))
  {
    hide FbOk, At, DrawChar, InText, ColOf, RowOf, DX, DY, Pixel, Fitted;
    if k > 0 {
      TextKept(g, fb, s, col, k - 1);
      var fb1 := DrawText(g, fb, s, col, k - 1);
      CharAt(g, fb1, col + k - 1, 0, s[k - 1], VIPER_BLUE, WHITE, 0, 0);
      forall x: nat, y: nat ensures KeptAt(g, fb, DrawText(g, fb, s, col, k), x, y) {
        assert KeptAt(g, fb, fb1, x, y);
        CharAt(g, fb1, col + k - 1, 0, s[k - 1], VIPER_BLUE, WHITE, x, y);
        TopCell(g, x, y, col + k - 1);
      }
    }
  }

  lemma TopCell(g: Geo, x: nat, y: nat, c: nat)
    requires Fitted(g) && c < g.cols
    ensures InCell(g, x, y, c, 0) ==> Stored(g, x, y) || Mark(g, x, y)
  {
  }

  lemma IndicatorKept(g: Geo, fb: Screen, offset: nat)
    requires Fitted(g) && FbOk(g, fb)
    ensures Kept(g, fb, DrawIndicator(g, fb, offset))
  {
    hide FbOk, At, DrawText, Fitted;
    DigitsLength(offset, 3);
    var s := [94] + Digits(offset, 3);
    if !(offset == 0 || g.cols < 6 || g.cols < |s| + 1) {
      TextKept(g, fb, s, g.cols - |s| - 1, |s|);
    }
  }

  lemma KeptThen(g: Geo, a: Screen, b: Screen, c: Screen)
    requires Kept(g, a, b) && Kept(g, b, c)
    ensures Kept(g, a, c)
  {
    hide At, FbOk, Stored, Mark;
    forall x: nat, y: nat ensures KeptAt(g, a, c, x, y) { assert KeptAt(g, a, b, x, y) && KeptAt(g, b, c, x, y); }
  }

  lemma WindowFull(g: Geo, t: Text, offset: nat, r: nat)
    requires GeoOk(g) && RingAgrees(g, t) && offset + g.rows <= t.count && r < g.rows
    ensures |RingWindow(g, t, offset)[r]| == g.lineCols
  {
    WindowIsLog(g, t, offset);
    hide RingWindow;
    var j := g.rows + offset - 1 - r;
    assert LineAt(g, t, j) && Full(g, t, Back(g, t.head, j + 1));
  }

  /** A redraw leaves everything but the stored cells and the mark alone. */
  lemma RedrawKept(g: Geo, t: Text)
    requires Fitted(g) && RingAgrees(g, t) && FbOk(g, t.fb)
    ensures Kept(g, t.fb, Redraw(g, t).fb)
  {
    var w := RingWindow(g, t, t.offset);
    var fb1 := DrawLines(g, t.fb, w, g.rows);
    hide FbOk, At, DrawLines, DrawIndicator, Pixel, RingWindow;
    LinesAtPixel(g, t.fb, w, g.rows, 0, 0);
    forall x: nat, y: nat ensures KeptAt(g, t.fb, fb1, x, y) {
      LinesAtPixel(g, t.fb, w, g.rows, x, y);
      if RowOf(g, y) < g.rows { WindowFull(g, t, t.offset, RowOf(g, y)); }
      StoredIs(g, x, y);
    }
    IndicatorKept(g, fb1, t.offset);
    KeptThen(g, t.fb, fb1, Redraw(g, t).fb);
  }

  lemma StoredIs(g: Geo, x: nat, y: nat)
    requires Fitted(g)
    ensures Stored(g, x, y) <==> g.inset <= x && g.inset <= y && RowOf(g, y) < g.rows && ColOf(g, x) < Min(g.lineCols, g.cols)
  {
  }

  /** Back at offset 0 every stored cell shows its line of the log. */
  lemma RedrawMirrors(g: Geo, t: Text)
    requires Fitted(g) && RingAgrees(g, t) && FbOk(g, t.fb) && t.offset == 0
    ensures Mirrors(g, Redraw(g, t))
  {
    hide RingAgrees, FbOk, Redraw, LiveAt;
    forall x: nat, y: nat ensures MirrorAt(g, Redraw(g, t), x, y) {
      if Stored(g, x, y) { RedrawPixel(g, t, x, y); } else { NotStored(g, Redraw(g, t), x, y); }
    }
  }

  lemma NotStored(g: Geo, t: Text, x: nat, y: nat)
    requires !Stored(g, x, y)
    ensures MirrorAt(g, t, x, y)
  {
  }

  lemma RedrawPixel(g: Geo, t: Text, x: nat, y: nat)
    requires Fitted(g) && RingAgrees(g, t) && FbOk(g, t.fb) && t.offset == 0 && Stored(g, x, y)
    ensures LiveAt(g, Redraw(g, t), x, y)
  {
    hide FbOk, At, DrawLines, Redraw, Pixel, RingWindow, DX, DY, RowOf, ColOf, InText, RingAgrees, CellAt;
    StoredIs(g, x, y);
    TextRows(g, x, y);
    RedrawZero(g, t);
    WindowCell(g, t, RowOf(g, y), ColOf(g, x));
    SameCells(g, t, Redraw(g, t), RowOf(g, y), ColOf(g, x));
    LinesAtPixel(g, t.fb, RingWindow(g, t, 0), g.rows, x, y);
  }

  lemma RedrawZero(g: Geo, t: Text)
    requires GeoOk(g) && t.offset == 0
    ensures Redraw(g, t) == t.(fb := DrawLines(g, t.fb, RingWindow(g, t, 0), g.rows))
  {
  }

  lemma WindowCell(g: Geo, t: Text, r: nat, c: nat)
    requires GeoOk(g) && RingAgrees(g, t) && r < g.rows && c < g.lineCols
    ensures var w := RingWindow(g, t, 0); |w| == g.rows && |w[r]| == g.lineCols && w[r][c] == CellAt(g, t, r, c)
  {
    LineFull(g, t, r);
    WindowIsLog(g, t, 0);
    hide RingWindow, RingHolds;
  }

  // ------------------------------------------------------------------- back and forth

  function Ups(g: Geo, t: Text, n: nat): Text {
    if n == 0 then t else ScrollUp(g, Ups(g, t, n - 1))
  }

  function Downs(g: Geo, t: Text, n: nat): Text {
    if n == 0 then t else ScrollDown(g, Downs(g, t, n - 1))
  }

  /** Somewhere in the scrollback of `t`. */
  ghost predicate PagedFrom(g: Geo, t: Text, u: Text, offset: nat) {
    u == t.(fb := u.fb, offset := offset) && Kept(g, t.fb, u.fb)
  }

  lemma PagedAgain(g: Geo, t: Text, u: Text, offset: nat, to: nat)
    requires Fitted(g) && RingAgrees(g, t) && t.offset == 0 && PagedFrom(g, t, u, offset) && to + g.rows <= t.count
    ensures RingAgrees(g, u.(offset := to)) && g.rows + to <= g.lines && PagedFrom(g, t, Redraw(g, u.(offset := to)), to)
    ensures to == 0 ==> Mirrors(g, Redraw(g, u.(offset := to)))
  {
    MoreOffset(g, t, u.(offset := to));
    hide RingHolds, Redraw, DrawLines;
    RedrawKept(g, u.(offset := to));
    RedrawSame(g, u.(offset := to));
    KeptThen(g, t.fb, u.fb, Redraw(g, u.(offset := to)).fb);
    if to == 0 { RedrawMirrors(g, u.(offset := 0)); }
  }

  lemma RedrawSame(g: Geo, t: Text)
    requires g.rows + t.offset <= g.lines && g.lines > 0
    ensures Redraw(g, t) == t.(fb := Redraw(g, t).fb)
  {
  }

  lemma {:induction false} UpsPaged(g: Geo, t: Text, n: nat)
    requires Fitted(g) && RingAgrees(g, t) && FbOk(g, t.fb) && t.offset == 0 && n + g.rows <= t.count
    ensures PagedFrom(g, t, Ups(g, t, n), n)
  {
    hide FbOk, RingHolds, Redraw;
    if n > 0 {
      UpsPaged(g, t, n - 1);
      PagedAgain(g, t, Ups(g, t, n - 1), n - 1, n);
    }
  }

  lemma {:induction false} DownsPaged(g: Geo, t: Text, u: Text, offset: nat, n: nat)
    requires Fitted(g) && RingAgrees(g, t) && t.offset == 0 && n <= offset && offset + g.rows <= t.count && PagedFrom(g, t, u, offset)
    ensures PagedFrom(g, t, Downs(g, u, n), offset - n)
    ensures 0 < n == offset ==> Mirrors(g, Downs(g, u, n))
  {
    hide RingHolds, Redraw, Mirrors, Kept;
    if n > 0 {
      DownsPaged(g, t, u, offset, n - 1);
      PagedAgain(g, t, Downs(g, u, n - 1), offset - (n - 1), offset - n);
    }
  }

  /** Scrolling back any number of lines and forward again gives back every pixel, except where only the mark of the
      offset is drawn, exactly when the screen showed the end of the log. */
  lemma BackAndForth(g: Geo, t: Text, n: nat)
    requires Fitted(g) && RingAgrees(g, t) && FbOk(g, t.fb) && t.offset == 0 && 0 < n && n + g.rows <= t.count
    ensures var u := Downs(g, Ups(g, t, n), n);
            && u == t.(fb := u.fb)
            && ((forall x: nat, y: nat :: RestoredAt(g, t.fb, u.fb, x, y)) <==> Mirrors(g, t))
  {
    hide FbOk, RingHolds, Ups, Downs;
    UpsPaged(g, t, n);
    DownsPaged(g, t, Ups(g, t, n), n, n);
    var u := Downs(g, Ups(g, t, n), n);
    forall x: nat, y: nat ensures RestoredAt(g, t.fb, u.fb, x, y) <==> MirrorAt(g, t, x, y) {
      assert MirrorAt(g, u, x, y) && KeptAt(g, t.fb, u.fb, x, y);
      PixelRestored(g, t, u, x, y);
    }
  }

  predicate RestoredAt(g: Geo, fb: Screen, fb': Screen, x: nat, y: nat) {
    x < g.width && y < g.height && !Mark(g, x, y) ==> At(fb', x, y) == At(fb, x, y)
  }

  lemma PixelRestored(g: Geo, t: Text, u: Text, x: nat, y: nat)
    requires Fitted(g) && u == t.(fb := u.fb) && MirrorAt(g, u, x, y) && KeptAt(g, t.fb, u.fb, x, y)
    ensures RestoredAt(g, t.fb, u.fb, x, y) <==> MirrorAt(g, t, x, y)
  {
    SameCells(g, t, u, RowOf(g, y), ColOf(g, x));
    if InText(g, x, y) { TextRows(g, x, y); }
    hide At, Pixel, CellAt, RowOf, ColOf, DX, DY, InText, Fitted;
  }

  /** On a screen no wider than the buffer that is all of it. */
  lemma BackAndForthWhole(g: Geo, t: Text, n: nat)
    requires Fitted(g) && RingAgrees(g, t) && FbOk(g, t.fb) && t.offset == 0 && 0 < n && n + g.rows <= t.count
    requires g.cols <= g.lineCols
    ensures Downs(g, Ups(g, t, n), n) == t <==> Mirrors(g, t)
  {
    BackAndForth(g, t, n);
    UpsPaged(g, t, n);
    DownsPaged(g, t, Ups(g, t, n), n, n);
    var u := Downs(g, Ups(g, t, n), n);
    hide RingHolds, Ups, Downs, Mirrors;
    if forall x: nat, y: nat :: RestoredAt(g, t.fb, u.fb, x, y) { Restored(g, t.fb, u.fb); }
  }

  lemma Restored(g: Geo, fb: Screen, fb': Screen)
    requires Fitted(g) && g.cols <= g.lineCols && FbOk(g, fb) && FbOk(g, fb')
    requires forall x: nat, y: nat :: RestoredAt(g, fb, fb', x, y)
    ensures fb' == fb
  {
    forall y | 0 <= y < |fb| ensures |fb'[y]| == |fb[y]| { assert RowWide(fb, g.width, y) && RowWide(fb', g.width, y); }
    forall y, x | 0 <= y < |fb'| && 0 <= x < |fb'[y]| ensures fb'[y][x] == fb[y][x] {
      assert RestoredAt(g, fb, fb', x, y) && RowWide(fb', g.width, y) && RowWide(fb, g.width, y);
      if InText(g, x, y) { TextRows(g, x, y); }
    }
    SameScreen(fb', fb);
  }

  // ---------------------------------------------------------------------------- the start

  lemma {:induction false} PrefillLog(g: Geo, t: Text, k: nat)
    requires GeoOk(g) && t.head == 0 && t.count == 0 && t.log == [] && k <= g.rows
    requires t.ring == seq(g.lines, _ => Blank(g, t.defaultFg, t.defaultBg))
    ensures var t' := Prefill(g, t, k);
            && |t'.log| == k && (forall j :: 0 <= j < k ==> t'.log[j] == Blank(g, t.defaultFg, t.defaultBg))
            && t'.fb == t.fb && t'.defaultFg == t.defaultFg && t'.defaultBg == t.defaultBg
  {
    hide Blank;
    if k > 0 {
      PrefillLog(g, t, k - 1);
      PrefillOk(g, t, k - 1);
      BufferNewLineOk(g, Prefill(g, t, k - 1));
    }
  }

  /** A screen cleared and a buffer of blank lines, as `init` leaves them, are a live view if a blank looks clear. */
  lemma InitLive(g: Geo, t: Text, before: Screen)
    requires Fitted(g) && t.head == 0 && t.count == 0 && t.log == []
    requires t.ring == seq(g.lines, _ => Blank(g, t.defaultFg, t.defaultBg))
    requires FbOk(g, before) && t.fb == FillText(g, before, t.bg)
    ensures Live(g, Prefill(g, t, g.rows)) <==> ScrollsClean(g, t)
  {
    hide Prefill, FillText, FbOk, At, Pixel, CellAt, LiveAt, Blank;
    var t' := Prefill(g, t, g.rows);
    PrefillLog(g, t, g.rows);
    AllWiped(g, before, t.bg);
    if ScrollsClean(g, t) {
      forall x: nat, y: nat ensures LiveAt(g, t', x, y) {
        InitPixel(g, t, before, x, y);
        if InText(g, x, y) && ColOf(g, x) < Columns(g) { assert BlankPixel(g, t, DX(g, x), DY(g, y)); }
      }
    } else {
      var dx: nat, dy: nat :| !BlankPixel(g, t, dx, dy);
      var x, y := BottomPixel(g, dx, dy);
      InitPixel(g, t, before, x, y);
      assert !LiveAt(g, t', x, y);
    }
  }

  lemma InitPixel(g: Geo, t: Text, before: Screen, x: nat, y: nat)
    requires Fitted(g) && t.head == 0 && t.count == 0 && t.log == []
    requires t.ring == seq(g.lines, _ => Blank(g, t.defaultFg, t.defaultBg))
    requires FbOk(g, before) && t.fb == FillText(g, before, t.bg)
    ensures LiveAt(g, Prefill(g, t, g.rows), x, y) <==>
              (InText(g, x, y) && ColOf(g, x) < Columns(g) ==> t.bg == Pixel(g, BlankCell(t), DX(g, x), DY(g, y)))
  {
    hide Prefill, FillText, FbOk, At, Pixel, RowOf, ColOf, DX, DY, InText;
    PrefillLog(g, t, g.rows);
    AllWiped(g, before, t.bg);
    assert WipedAt(g, before, t.fb, Whole, t.bg, x, y);
  }

  // -------------------------------------------------------------------------- witnesses

  /** A screen of one cell; only the letter A has any ink, and it covers the cell. */
  const ONE := Geo(10, 20, 0, 1, 1, 2, 1, (ch: nat, dx: nat, dy: nat) => ch == 65)

  function Solid(c: Color): Screen { seq(20, _ => seq(10, _ => c)) }

  /** The letters `a` and `b` in the two lines of the buffer, `b` on the screen. */
  function OneCell(a: nat, b: nat, c: Color): Text {
    var la, lb := [Cell(a, 1, 0)], [Cell(b, 1, 0)];
    Text(Solid(c), 0, 0, 1, 0, 1, 0, ANSI_RESET, [la, lb], 0, 2, 0, [la, lb])
  }

  lemma OneOk(a: nat, b: nat, c: Color)
    ensures Fitted(ONE) && TextOk(ONE, OneCell(a, b, c)) && FbOk(ONE, Solid(c))
  {
    var t := OneCell(a, b, c);
    forall i: nat ensures Full(ONE, t, i) { }
    forall j: nat ensures LineAt(ONE, t, j) { }
    forall y: nat ensures RowWide(Solid(c), 10, y) { }
  }

  /** The one cell is live exactly when the screen has the colour its last line is drawn in. */
  lemma OneLive(t: Text, c: Color)
    requires t.fb == Solid(c) && |t.log| == 2 && |t.log[1]| == 1
    ensures Live(ONE, t) <==> c == Pixel(ONE, t.log[1][0], 0, 0)
  {
    OneOk(65, 65, c);
    forall x: nat, y: nat ensures LiveAt(ONE, t, x, y) <==> (x < 10 && y < 20 ==> c == Pixel(ONE, t.log[1][0], 0, 0)) { }
    assert LiveAt(ONE, t, 0, 0) <==> c == Pixel(ONE, t.log[1][0], 0, 0);
  }

  lemma SolidIs(fb: Screen, c: Color)
    requires FbOk(ONE, fb) && forall x: nat, y: nat :: SolidAt(fb, c, x, y)
    ensures fb == Solid(c)
  {
    forall y | 0 <= y < |fb| ensures |fb[y]| == 10 { assert RowWide(fb, 10, y); }
    forall y, x | 0 <= y < |fb| && 0 <= x < |fb[y]| ensures fb[y][x] == Solid(c)[y][x] { assert SolidAt(fb, c, x, y); }
    SameScreen(fb, Solid(c));
  }

  predicate SolidAt(fb: Screen, c: Color, x: nat, y: nat) {
    x < 10 && y < 20 ==> At(fb, x, y) == c
  }

  lemma OnePixel(fb: Screen, line: Line, x: nat, y: nat)
    requires FbOk(ONE, fb) && |line| == 1
    ensures FbOk(ONE, DrawLines(ONE, fb, [line], 1))
    ensures SolidAt(DrawLines(ONE, fb, [line], 1), Pixel(ONE, line[0], 0, 0), x, y)
  {
    hide FbOk, At, DrawLines;
    LinesAtPixel(ONE, fb, [line], 1, x, y);
  }

  /** A redraw fills the screen with the colour of the line shown. */
  lemma OneRedraw(fb: Screen, line: Line)
    requires FbOk(ONE, fb) && |line| == 1
    ensures DrawLines(ONE, fb, [line], 1) == Solid(Pixel(ONE, line[0], 0, 0))
  {
    hide FbOk, DrawLines, SolidAt, Pixel, Solid;
    OnePixel(fb, line, 0, 0);
    forall x: nat, y: nat ensures SolidAt(DrawLines(ONE, fb, [line], 1), Pixel(ONE, line[0], 0, 0), x, y) {
      OnePixel(fb, line, x, y);
    }
    SolidIs(DrawLines(ONE, fb, [line], 1), Pixel(ONE, line[0], 0, 0));
  }

  /** One line back and one forward on that screen. */
  lemma OnePages(a: nat, b: nat, c: Color)
    ensures var t := OneCell(a, b, c);
            && ScrollUp(ONE, t) == t.(fb := Solid(Pixel(ONE, Cell(a, 1, 0), 0, 0)), offset := 1)
            && ScrollDown(ONE, ScrollUp(ONE, t)) == t.(fb := Solid(Pixel(ONE, Cell(b, 1, 0), 0, 0)))
  {
    var t := OneCell(a, b, c);
    var u := t.(fb := Solid(Pixel(ONE, Cell(a, 1, 0), 0, 0)), offset := 1);
    OneOk(a, b, c);
    OneOk(a, b, Pixel(ONE, Cell(a, 1, 0), 0, 0));
    assert RingWindow(ONE, t.(offset := 1), 1) == [[Cell(a, 1, 0)]];
    assert RingWindow(ONE, u.(offset := 0), 0) == [[Cell(b, 1, 0)]];
    hide DrawLines, FbOk, RingWindow, Solid;
    OneRedraw(t.fb, [Cell(a, 1, 0)]);
    OneRedraw(u.fb, [Cell(b, 1, 0)]);
    assert ScrollUp(ONE, t) == u;
  }

  /** Output is to bring the live view back, but only the offset is reset: after one line back, a carriage return
      leaves the old line on the screen. */
  lemma StaleAfterOutput() returns (g: Geo, t: Text, u: Text)
    ensures Fitted(g) && TextOk(g, t) && Live(g, t) && u == PlainPutc(g, ScrollUp(g, t), 13)
    ensures u.offset == 0 && u.log == t.log && !Live(g, u)
  {
    hide ScrollUp, ScrollDown, PlainPutc, Solid, Live, TextOk, GeoOk;
    g, t := ONE, OneCell(65, 32, 0);
    OneOk(65, 32, 0);
    OnePages(65, 32, 0);
    OneLive(t, 0);
    CarriageReturn(g, ScrollUp(g, t));
    u := PlainPutc(g, ScrollUp(g, t), 13);
    OneLive(u, 1);
  }

  lemma CarriageReturn(g: Geo, t: Text)
    requires GeoOk(g) && t.ansi == ANSI_RESET
    ensures PlainPutc(g, t, 13) == t.(offset := 0, cx := 0)
  {
  }

  /** Text erased to the end of its line is back after one line back and one forward. */
  lemma ErasedTextReturns() returns (g: Geo, t: Text, u: Text)
    ensures Fitted(g) && TextOk(g, t) && Live(g, t) && u == CsiCommand(g, t, [], 75)
    ensures u.fb != t.fb && !Live(g, u) && ScrollDown(g, ScrollUp(g, u)).fb == t.fb
  {
    hide ScrollUp, ScrollDown, CsiCommand, Solid, Live, TextOk, GeoOk;
    g, t := ONE, OneCell(32, 65, 1);
    OneOk(32, 65, 1);
    OneLive(t, 1);
    ErasedCell();
    u := CsiCommand(g, t, [], 75);
    OneLive(u, 0);
    OnePages(32, 65, 0);
    TwoColours();
  }

  lemma TwoColours()
    ensures Solid(0) != Solid(1)
  {
    assert Solid(0)[0][0] == 0 && Solid(1)[0][0] == 1;
  }

  lemma ErasedCell()
    ensures GeoOk(ONE) && CsiCommand(ONE, OneCell(32, 65, 1), [], 75) == OneCell(32, 65, 0)
  {
    hide FillRect, Solid, FbOk, EraseDisplay, Sgr, ScrollUp, ScrollDown;
    OneOk(32, 65, 1);
    FilledCell(Solid(1));
  }

  lemma FilledCell(fb: Screen)
    requires FbOk(ONE, fb)
    ensures FillRect(fb, 0, 0, 10, 20, 0) == Solid(0)
  {
    hide FillRect, FbOk, Solid;
    FillAt(ONE, fb, 0, 0, 10, 20, 0, 0, 0);
    forall x: nat, y: nat ensures SolidAt(FillRect(fb, 0, 0, 10, 20, 0), 0, x, y) {
      FillAt(ONE, fb, 0, 0, 10, 20, 0, x, y);
    }
    SolidIs(FillRect(fb, 0, 0, 10, 20, 0), 0);
  }
}
