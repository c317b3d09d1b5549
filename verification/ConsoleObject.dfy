/** The console's pixel and scrollback loops (kernel/console/gcon.cpp), in place. */
module ConsoleObject {
  import opened Console
  import opened ConsoleProofs

  /** The screen with the text area copied up by one text row, the bottom row not yet cleared. */
  function Copied(g: Geo, fb: Screen): Screen
    requires GeoOk(g)
  {
    Paint(fb, (x: nat, y: nat, p: Color) =>
      if In(x, y, g.inset, g.inset, g.width - g.inset, g.height - g.inset - FONT_HEIGHT)
         && y + FONT_HEIGHT < |fb| && x < |fb[y + FONT_HEIGHT]|
      then fb[y + FONT_HEIGHT][x] else p)
  }

  lemma CopyThenClear(g: Geo, fb: Screen, bg: Color)
    requires GeoOk(g) && |fb| == g.height && forall y :: 0 <= y < |fb| ==> |fb[y]| == g.width
    ensures FillRect(Copied(g, fb), g.inset, g.height - g.inset - FONT_HEIGHT, g.width - g.inset, g.height - g.inset, bg)
         == MoveUp(g, fb, bg)
  {
    var a := FillRect(Copied(g, fb), g.inset, g.height - g.inset - FONT_HEIGHT, g.width - g.inset, g.height - g.inset, bg);
    var b := MoveUp(g, fb, bg);
    hide GeoOk;
    forall y, x | 0 <= y < |a| && 0 <= x < |a[y]| ensures a[y][x] == b[y][x] { }
    SameScreen(a, b);
  }

  class Frame {
    const pixels: array2<Color>

    /** The console draws on the framebuffer it is given. */
    constructor (framebuffer: array2<Color>)
      ensures pixels == framebuffer
    {
      pixels := framebuffer;
    }

    ghost function Rows(): Screen
      reads pixels
    {
      seq(pixels.Length0, y requires 0 <= y < pixels.Length0 reads pixels =>
        seq(pixels.Length1, x requires 0 <= x < pixels.Length1 && 0 <= y < pixels.Length0 reads pixels => pixels[y, x]))
    }

    lemma RowsAt()
      ensures var r := Rows();
              && |r| == pixels.Length0 && (forall y :: 0 <= y < |r| ==> |r[y]| == pixels.Length1)
              && forall y, x :: 0 <= y < pixels.Length0 && 0 <= x < pixels.Length1 ==> r[y][x] == pixels[y, x]
    {
    }

    lemma SameRows(s: Screen)
      requires |s| == pixels.Length0 && forall y :: 0 <= y < |s| ==> |s[y]| == pixels.Length1
      requires forall y, x :: 0 <= y < pixels.Length0 && 0 <= x < pixels.Length1 ==> pixels[y, x] == s[y][x]
      ensures Rows() == s
    {
      forall y | 0 <= y < |s| ensures Rows()[y] == s[y] { }
    }

    /** `fill_rect`, clamped to the framebuffer. */
    method Fill(x0: nat, y0: nat, x1: nat, y1: nat, c: Color)
      modifies pixels
      ensures Rows() == FillRect(old(Rows()), x0, y0, x1, y1, c)
    {
      RowsAt();
      var xe, ye := Min(x1, pixels.Length1), Min(y1, pixels.Length0);
      var y := y0;
      while y < ye
        invariant y0 <= y && (y <= ye || y == y0)
        invariant forall j, i :: 0 <= j < pixels.Length0 && 0 <= i < pixels.Length1 ==>
          pixels[j, i] == if y0 <= j < y && x0 <= i < xe then c else old(pixels[j, i])
      {
        var x := x0;
        while x < xe
          invariant x0 <= x && (x <= xe || x == x0)
          invariant forall j, i :: 0 <= j < pixels.Length0 && 0 <= i < pixels.Length1 ==>
            pixels[j, i] == if (y0 <= j < y && x0 <= i < xe) || (j == y && x0 <= i < x) then c else old(pixels[j, i])
        {
          pixels[y, x] := c;
          x := x + 1;
        }
        y := y + 1;
      }
      SameRows(FillRect(old(Rows()), x0, y0, x1, y1, c));
    }

    /** `xor_cursor`: flip the pixels of one cell that lie on the screen. */
    method XorCursor(g: Geo, cx: nat, cy: nat)
      requires pixels.Length0 == g.height && pixels.Length1 == g.width
      modifies pixels
      ensures Rows() == XorCell(g, old(Rows()), cx, cy)
    {
      RowsAt();
      var px, py := CellX(g, cx), CellY(g, cy);
      var row := 0;
      while row < FONT_HEIGHT
        invariant 0 <= row <= FONT_HEIGHT
        invariant forall j, i :: 0 <= j < pixels.Length0 && 0 <= i < pixels.Length1 ==>
          pixels[j, i] == if py <= j < py + row && px <= i < px + FONT_WIDTH then Flip(old(pixels[j, i]))
                          else old(pixels[j, i])
      {
        var col := 0;
        while col < FONT_WIDTH
          invariant 0 <= col <= FONT_WIDTH
          invariant forall j, i :: 0 <= j < pixels.Length0 && 0 <= i < pixels.Length1 ==>
            pixels[j, i] == if (py <= j < py + row && px <= i < px + FONT_WIDTH) || (j == py + row && px <= i < px + col)
                            then Flip(old(pixels[j, i])) else old(pixels[j, i])
        {
          if px + col < g.width && py + row < g.height {
            pixels[py + row, px + col] := Flip(pixels[py + row, px + col]);
          }
          col := col + 1;
        }
        row := row + 1;
      }
      SameRows(XorCell(g, old(Rows()), cx, cy));
    }

    /** `scroll`: copying upwards in place, row by row, reads no row it has already overwritten. */
    method ScrollText(g: Geo, bg: Color)
      requires GeoOk(g) && pixels.Length0 == g.height && pixels.Length1 == g.width
      modifies pixels
      ensures Rows() == MoveUp(g, old(Rows()), bg)
    {
      hide Copied, FillRect, MoveUp, Rows, GeoOk;
      MovesUp(g, bg);
      CopyUp(g);
      Fill(g.inset, g.height - g.inset - FONT_HEIGHT, g.width - g.inset, g.height - g.inset, bg);
    }

    lemma MovesUp(g: Geo, bg: Color)
      requires GeoOk(g) && pixels.Length0 == g.height && pixels.Length1 == g.width
      ensures 2 * g.inset + FONT_HEIGHT <= g.height && 2 * g.inset + FONT_WIDTH <= g.width
      ensures FillRect(Copied(g, Rows()), g.inset, g.height - g.inset - FONT_HEIGHT, g.width - g.inset, g.height - g.inset, bg)
           == MoveUp(g, Rows(), bg)
    {
      RowsAt();
      CopyThenClear(g, Rows(), bg);
    }

    method CopyUp(g: Geo)
      requires GeoOk(g) && pixels.Length0 == g.height && pixels.Length1 == g.width
      modifies pixels
      ensures Rows() == Copied(g, old(Rows()))
    {
      RowsAt();
      var x0, x1, ye := g.inset, g.width - g.inset, g.height - g.inset - FONT_HEIGHT;
      assert x0 <= ye && x0 <= x1 && ye + FONT_HEIGHT <= pixels.Length0;
      ghost var was := Rows();
      var y := x0;
      while y < ye
        invariant x0 <= y <= ye
        invariant forall j, i :: 0 <= j < pixels.Length0 && 0 <= i < pixels.Length1 ==>
          pixels[j, i] == if x0 <= j < y && x0 <= i < x1 then was[j + FONT_HEIGHT][i] else was[j][i]
      {
        hide GeoOk, Rows, Copied;
        CopyRow(y, x0, x1);
        y := y + 1;
      }
      hide GeoOk, Rows;
      SameRows(Copied(g, was));
    }

    method CopyRow(y: nat, x0: nat, x1: nat)
      requires y + FONT_HEIGHT < pixels.Length0 && x0 <= x1 <= pixels.Length1
      modifies pixels
      ensures forall j, i :: 0 <= j < pixels.Length0 && 0 <= i < pixels.Length1 ==>
        pixels[j, i] == if j == y && x0 <= i < x1 then old(pixels[y + FONT_HEIGHT, i]) else old(pixels[j, i])
    {
      var x := x0;
      while x < x1
        invariant x0 <= x <= x1
        invariant forall j, i :: 0 <= j < pixels.Length0 && 0 <= i < pixels.Length1 ==>
          pixels[j, i] == if j == y && x0 <= i < x then old(pixels[y + FONT_HEIGHT, i]) else old(pixels[j, i])
      {
        pixels[y, x] := pixels[y + FONT_HEIGHT, x];
        x := x + 1;
      }
    }
  }

  class Scrollback {
    const cells: array2<Cell>
    var head: nat
    var count: nat

    ghost function Lines(): (r: seq<Line>)
      reads cells
      ensures |r| == cells.Length0 && forall j :: 0 <= j < |r| ==> |r[j]| == cells.Length1
      ensures forall j, i :: 0 <= j < cells.Length0 && 0 <= i < cells.Length1 ==> r[j][i] == cells[j, i]
    {
      seq(cells.Length0, j requires 0 <= j < cells.Length0 reads cells =>
        seq(cells.Length1, i requires 0 <= i < cells.Length1 && 0 <= j < cells.Length0 reads cells => cells[j, i]))
    }

    lemma SameLines(s: seq<Line>)
      requires |s| == cells.Length0 && forall j :: 0 <= j < |s| ==> |s[j]| == cells.Length1
      requires forall j, i :: 0 <= j < cells.Length0 && 0 <= i < cells.Length1 ==> cells[j, i] == s[j][i]
      ensures Lines() == s
    {
      forall j | 0 <= j < |s| ensures Lines()[j] == s[j] { }
    }

    /** The text whose scrollback this is. */
    ghost predicate Backs(g: Geo, t: Text)
      reads this, cells
    {
      && t.ring == Lines() && t.head == head < g.lines && t.count == count
      && cells.Length0 == g.lines && cells.Length1 == g.lineCols
    }

    /** The scrollback part of `init`: blank lines, as many of them begun as the screen has rows. */
    constructor (g: Geo, fg: Color, bg: Color, ghost t: Text)
      requires GeoOk(g) && t.head == 0 && t.count == 0 && t.log == [] && t.defaultFg == fg && t.defaultBg == bg
      requires t.ring == seq(g.lines, _ => Blank(g, fg, bg))
      ensures fresh(cells) && Backs(g, Prefill(g, t, g.rows))
    {
      cells := new Cell[g.lines, g.lineCols]((_, _) => Cell(32, fg, bg));
      head, count := 0, 0;
      new;
      SameLines(t.ring);
      for i := 0 to g.rows
        invariant Backs(g, Prefill(g, t, i))
        invariant Prefill(g, t, i).defaultFg == fg && Prefill(g, t, i).defaultBg == bg
      {
        NewLine(g, fg, bg, Prefill(g, t, i));
      }
    }

    method PutChar(g: Geo, c: Cell, col: nat, row: nat, ghost t: Text)
      requires GeoOk(g) && Backs(g, t) && row < g.rows && c.fg == t.fg && c.bg == t.bg
      requires 0 <= |t.log| - g.rows + row && forall j :: 0 <= j < |t.log| ==> |t.log[j]| == g.lineCols
      modifies cells
      ensures Backs(g, BufferPut(g, t, c.ch, col, row))
    {
      if col >= g.lineCols { return; }
      var base := if head >= g.rows then head - g.rows else g.lines + head - g.rows;
      var i := (base + row) % g.lines;
      assert i == RowIndex(g, t, 0, row);
      cells[i, col] := c;
      SameLines(t.ring[i := t.ring[i][col := c]]);
    }

    method NewLine(g: Geo, fg: Color, bg: Color, ghost t: Text)
      requires GeoOk(g) && Backs(g, t) && fg == t.defaultFg && bg == t.defaultBg
      modifies this, cells
      ensures Backs(g, BufferNewLine(g, t))
    {
      var i := 0;
      while i < g.lineCols
        invariant 0 <= i <= g.lineCols && head == old(head) && count == old(count)
        invariant forall j, k :: 0 <= j < cells.Length0 && 0 <= k < cells.Length1 ==>
          cells[j, k] == if j == head && k < i then Cell(32, fg, bg) else old(cells[j, k])
      {
        cells[head, i] := Cell(32, fg, bg);
        i := i + 1;
      }
      SameLines(t.ring[head := Blank(g, fg, bg)]);
      head := (head + 1) % g.lines;
      if count < g.lines { count := count + 1; }
    }
  }
}
