/** The graphics console (kernel/console/gcon.cpp): text drawn into a framebuffer, the escape sequence parser,
    the circular scrollback, and the exclusive-or cursor laid over it all. */
module Console {
  import opened Rings

  const FONT_WIDTH := 10
  const FONT_HEIGHT := 20
  const CURSOR_BLINK_MS := 500
  const MAX_PARAMS := 8
  const WORD := 0x1_0000_0000
  const TIME := 0x1_0000_0000_0000_0000
  const VIPER_BLUE: Color := 0xFF00_55AA
  const WHITE: Color := 0xFFEE_EEEE

  type Color = c: nat | c < 0x1_0000_0000

  /** One framebuffer row after the other. */
  type Screen = seq<seq<Color>>

  datatype Cell = Cell(ch: nat, fg: Color, bg: Color)
  type Line = seq<Cell>

  /** The display and the sizes derived from it; `ink` says which pixels of a glyph are set. */
  datatype Geo = Geo(width: nat, height: nat, inset: nat, cols: nat, rows: nat, lines: nat, lineCols: nat,
                     ink: (nat, nat, nat) -> bool)

  /** At least one cell, and no more rows than the scrollback has lines. */
  predicate GeoOk(g: Geo) {
    && g.cols > 0 && g.inset + g.cols * FONT_WIDTH + g.inset <= g.width
    && g.rows > 0 && g.inset + g.rows * FONT_HEIGHT + g.inset <= g.height
    && g.rows <= g.lines
  }

  /** The escape sequence parser. */
  datatype Mode = Normal | Esc | Csi | Param
  datatype Ansi = Ansi(mode: Mode, params: seq<nat>, current: nat, started: bool, private: bool)

  const ANSI_RESET := Ansi(Normal, [], 0, false, false)

  /** Everything but the cursor's appearance. `log` is a record of every line ever begun, oldest first. */
  datatype Text = Text(fb: Screen, cx: nat, cy: nat, fg: Color, bg: Color, defaultFg: Color, defaultBg: Color,
                       ansi: Ansi, ring: seq<Line>, head: nat, count: nat, offset: nat, log: seq<Line>)

  datatype Cursor = Cursor(visible: bool, blink: bool, drawn: bool, lastBlink: nat)

  datatype Con = Con(text: Text, cursor: Cursor, gui: bool)

  // --------------------------------------------------------------------------- pixels

  function Paint(fb: Screen, f: (nat, nat, Color) -> Color): (r: Screen)
    ensures |r| == |fb|
    ensures forall y :: 0 <= y < |fb| ==> |r[y]| == |fb[y]|
    ensures forall y, x :: 0 <= y < |fb| && 0 <= x < |fb[y]| ==> r[y][x] == f(x, y, fb[y][x])
  {
    seq(|fb|, y requires 0 <= y < |fb| =>
      seq(|fb[y]|, x requires 0 <= x < |fb[y]| => f(x, y, fb[y][x])))
  }

  predicate In(x: nat, y: nat, x0: nat, y0: nat, x1: nat, y1: nat) {
    x0 <= x < x1 && y0 <= y < y1
  }

  function FillRect(fb: Screen, x0: nat, y0: nat, x1: nat, y1: nat, c: Color): Screen {
    Paint(fb, (x: nat, y: nat, p: Color) => if In(x, y, x0, y0, x1, y1) then c else p)
  }

  /** Clear the whole text area. */
  function FillText(g: Geo, fb: Screen, c: Color): Screen
    requires GeoOk(g)
  {
    FillRect(fb, g.inset, g.inset, g.width - g.inset, g.height - g.inset, c)
  }

  /** A pixel with the low 24 bits inverted, which is what exclusive-or with 0x00FFFFFF does. */
  function Flip(c: Color): Color {
    c - c % 0x100_0000 + (0xFF_FFFF - c % 0x100_0000)
  }

  function CellX(g: Geo, cx: nat): nat { g.inset + cx * FONT_WIDTH }
  function CellY(g: Geo, cy: nat): nat { g.inset + cy * FONT_HEIGHT }

  function XorCell(g: Geo, fb: Screen, cx: nat, cy: nat): Screen {
    Paint(fb, (x: nat, y: nat, p: Color) =>
      if In(x, y, CellX(g, cx), CellY(g, cy), CellX(g, cx + 1), CellY(g, cy + 1)) && x < g.width && y < g.height
      then Flip(p) else p)
  }

  function DrawChar(g: Geo, fb: Screen, cx: nat, cy: nat, ch: nat, fg: Color, bg: Color): Screen {
    Paint(fb, (x: nat, y: nat, p: Color) =>
      if In(x, y, CellX(g, cx), CellY(g, cy), CellX(g, cx + 1), CellY(g, cy + 1)) && x < g.width && y < g.height
         && x >= CellX(g, cx) && y >= CellY(g, cy)
      then (if g.ink(ch, x - CellX(g, cx), y - CellY(g, cy)) then fg else bg) else p)
  }

  /** Pixels of the text area move up by one text row; the bottom row is cleared. */
  function MoveUp(g: Geo, fb: Screen, bg: Color): Screen
    requires GeoOk(g)
  {
    var y1, x1 := g.height - g.inset, g.width - g.inset;
    Paint(fb, (x: nat, y: nat, p: Color) =>
      if !In(x, y, g.inset, g.inset, x1, y1) then p
      else if y + FONT_HEIGHT < y1 && y + FONT_HEIGHT < |fb| && x < |fb[y + FONT_HEIGHT]| then fb[y + FONT_HEIGHT][x]
      else if y + FONT_HEIGHT < y1 then p
      else bg)
  }

  // ----------------------------------------------------------------------- scrollback

  function Blank(g: Geo, fg: Color, bg: Color): Line {
    seq(g.lineCols, _ => Cell(32, fg, bg))
  }

  /** Ring index of screen row `row` when scrolled back by `offset` lines. */
  function RowIndex(g: Geo, t: Text, offset: nat, row: nat): nat
    requires g.rows + offset <= g.lines && g.lines > 0
  {
    var base := if t.head >= g.rows + offset then t.head - g.rows - offset else g.lines + t.head - g.rows - offset;
    Around(base + row, g.lines)
  }

  function BufferPut(g: Geo, t: Text, ch: nat, col: nat, row: nat): Text
    requires g.rows <= g.lines && g.lines > 0
  {
    var i, j := RowIndex(g, t, 0, row), |t.log| - g.rows + row;
    if g.rows == 0 || col >= g.lineCols || i >= |t.ring| || col >= |t.ring[i]| || !(0 <= j < |t.log|) || col >= |t.log[j]| then t
    else
      var c := Cell(ch, t.fg, t.bg);
      t.(ring := t.ring[i := t.ring[i][col := c]], log := t.log[j := t.log[j][col := c]])
  }

  function BufferNewLine(g: Geo, t: Text): Text
    requires g.lines > 0
  {
    var b := Blank(g, t.defaultFg, t.defaultBg);
    if t.head >= |t.ring| then t
    else
      t.(ring := t.ring[t.head := b], head := Around(t.head + 1, g.lines),
         count := if t.count < g.lines then t.count + 1 else t.count, log := t.log + [b])
  }

  // ----------------------------------------------------------------------------- text

  /** The cursor has been erased before this is called, so only text moves. */
  function Scroll(g: Geo, t: Text): Text
    requires GeoOk(g)
  {
    var t1 := BufferNewLine(g, t);
    t1.(fb := MoveUp(g, t1.fb, t1.bg))
  }

  function Advance(g: Geo, t: Text): Text
    requires GeoOk(g)
  {
    if t.cx + 1 < g.cols then t.(cx := t.cx + 1)
    else NewLine(g, t)
  }

  function NewLine(g: Geo, t: Text): Text
    requires GeoOk(g)
  {
    if t.cy + 1 < g.rows then t.(cx := 0, cy := t.cy + 1)
    else Scroll(g, t).(cx := 0, cy := g.rows - 1)
  }

  function Glyph(g: Geo, t: Text, ch: nat): Text
    requires GeoOk(g)
  {
    var t1 := BufferPut(g, t, ch, t.cx, t.cy);
    Advance(g, t1.(fb := DrawChar(g, t1.fb, t.cx, t.cy, ch, t.fg, t.bg)))
  }

  /** Blanks up to the next multiple of eight, or to the start of the next line. */
  function Tab(g: Geo, t: Text): Text
    requires GeoOk(g)
    decreases g.cols - t.cx
  {
    var t1 := Glyph(g, t, 32);
    if t1.cx % 8 != 0 && t.cx < t1.cx < g.cols then Tab(g, t1) else t1
  }

  /** One printable or control character. */
  function Print(g: Geo, t: Text, c: nat): Text
    requires GeoOk(g)
  {
    if c == 10 then NewLine(g, t)
    else if c == 13 then t.(cx := 0)
    else if c == 9 then Tab(g, t)
    else if c == 8 then (if t.cx > 0 then t.(cx := t.cx - 1) else t)
    else if 32 <= c < 127 then Glyph(g, t, c)
    else t
  }

  /** Draw given lines, clipped to the screen's columns, row under row. */
  function DrawLine(g: Geo, fb: Screen, line: Line, row: nat, k: nat): Screen
    requires k <= |line|
  {
    if k == 0 then fb
    else DrawChar(g, DrawLine(g, fb, line, row, k - 1), k - 1, row, line[k - 1].ch, line[k - 1].fg, line[k - 1].bg)
  }

  function DrawLines(g: Geo, fb: Screen, window: seq<Line>, n: nat): Screen
    requires n <= |window|
  {
    if n == 0 then fb
    else
      var line := window[n - 1];
      DrawLine(g, DrawLines(g, fb, window, n - 1), line, n - 1, if |line| <= g.cols then |line| else g.cols)
  }

  function RingWindow(g: Geo, t: Text, offset: nat): (r: seq<Line>)
    requires g.rows + offset <= g.lines && g.lines > 0
    ensures |r| == g.rows
    ensures forall k :: 0 <= k < g.rows && RowIndex(g, t, offset, k) < |t.ring| ==> r[k] == t.ring[RowIndex(g, t, offset, k)]
  {
    seq(g.rows, k requires 0 <= k < g.rows =>
      var i := RowIndex(g, t, offset, k); if i < |t.ring| then t.ring[i] else [])
  }

  /** The decimal digits of `n`, at most the `k` lowest. */
  function Digits(n: nat, k: nat): seq<nat> {
    if k == 0 then [] else (if n / 10 > 0 then Digits(n / 10, k - 1) else []) + [48 + n % 10]
  }

  function DrawText(g: Geo, fb: Screen, s: seq<nat>, col: nat, k: nat): Screen
    requires k <= |s|
  {
    if k == 0 then fb else DrawChar(g, DrawText(g, fb, s, col, k - 1), col + k - 1, 0, s[k - 1], VIPER_BLUE, WHITE)
  }

  /** The mark in the top right corner: a caret and up to three digits of the offset. */
  function DrawIndicator(g: Geo, fb: Screen, offset: nat): Screen {
    var s := [94] + Digits(offset, 3);
    if offset == 0 || g.cols < 6 || g.cols < |s| + 1 then fb else DrawText(g, fb, s, g.cols - |s| - 1, |s|)
  }

  function Redraw(g: Geo, t: Text): Text
    requires g.rows + t.offset <= g.lines && g.lines > 0
  {
    t.(fb := DrawIndicator(g, DrawLines(g, t.fb, RingWindow(g, t, t.offset), g.rows), t.offset))
  }

  /** As far back as the scrollback has lines. */
  predicate CanScrollUp(g: Geo, t: Text) {
    t.count > g.rows && t.offset < t.count - g.rows && g.rows + t.offset + 1 <= g.lines && g.lines > 0
  }

  function ScrollUp(g: Geo, t: Text): Text {
    if CanScrollUp(g, t) then Redraw(g, t.(offset := t.offset + 1)) else t
  }

  function ScrollDown(g: Geo, t: Text): Text {
    if t.offset > 0 && g.rows + (t.offset - 1) <= g.lines && g.lines > 0 then Redraw(g, t.(offset := t.offset - 1)) else t
  }

  // ----------------------------------------------------------------- escape sequences

  /** What one character does to the parser: swallowed, the end of a sequence, or left to be printed. */
  datatype Outcome = Taken(ansi: Ansi) | Command(params: seq<nat>, final: nat, private: bool) | Out(ansi: Ansi)

  function FinishParam(a: Ansi): Ansi {
    a.(params := if |a.params| < MAX_PARAMS then a.params + [a.current] else a.params, current := 0, started := false)
  }

  function AnsiStep(a: Ansi, c: nat): Outcome {
    match a.mode
    case Normal => if c == 27 then Taken(a.(mode := Esc)) else Out(a)
    case Esc => if c == 91 then Taken(Ansi(Csi, [], 0, false, a.private)) else Out(ANSI_RESET)
    case _ =>
      if c == 63 && a.mode.Csi? && !a.started then Taken(a.(private := true))
      else if 48 <= c <= 57 then Taken(a.(mode := Param, current := (a.current * 10 + (c - 48)) % WORD, started := true))
      else if c == 59 then Taken(FinishParam(a).(mode := Param))
      else if 0x40 <= c <= 0x7E then
        Command((if a.started || |a.params| > 0 then FinishParam(a) else a).params, c, a.private)
      else Out(ANSI_RESET)
  }

  const COLORS: seq<Color> :=
    [0xFF00_0000, 0xFFCC_3333, 0xFF00_AA44, 0xFFCC_AA00, 0xFF33_66CC, 0xFFCC_33CC, 0xFF33_CCCC, 0xFFEE_EEEE]
  const BRIGHT: seq<Color> :=
    [0xFF66_6666, 0xFFFF_6666, 0xFF66_FF66, 0xFFFF_FF66, 0xFF66_99FF, 0xFFFF_66FF, 0xFF66_FFFF, 0xFFFF_FFFF]

  function SgrOne(t: Text, p: nat): Text {
    if p == 0 then t.(fg := t.defaultFg, bg := t.defaultBg)
    else if 30 <= p <= 37 then t.(fg := COLORS[p - 30])
    else if 40 <= p <= 47 then t.(bg := COLORS[p - 40])
    else if 90 <= p <= 97 then t.(fg := BRIGHT[p - 90])
    else if 100 <= p <= 107 then t.(bg := BRIGHT[p - 100])
    else if p == 39 then t.(fg := t.defaultFg)
    else if p == 49 then t.(bg := t.defaultBg)
    else if p == 7 || p == 27 then t.(fg := t.bg, bg := t.fg)
    else t
  }

  function Sgr(t: Text, params: seq<nat>): Text {
    if params == [] then t else SgrOne(Sgr(t, params[..|params| - 1]), params[|params| - 1])
  }

  function Min(a: nat, b: nat): nat { if a <= b then a else b }

  function EraseLine(g: Geo, t: Text, from: nat): Text
    requires GeoOk(g)
  {
    t.(fb := FillRect(t.fb, CellX(g, from), CellY(g, t.cy), g.width - g.inset,
                      Min(CellY(g, t.cy + 1), g.height - g.inset), t.bg))
  }

  function EraseDisplay(g: Geo, t: Text, mode: nat): Text
    requires GeoOk(g)
  {
    if mode == 0 then
      var t1 := EraseLine(g, t, t.cx);
      t1.(fb := FillRect(t1.fb, g.inset, CellY(g, t.cy + 1), g.width - g.inset, g.height - g.inset, t.bg))
    else if mode == 2 || mode == 3 then
      t.(fb := FillText(g, t.fb, t.bg), cx := 0, cy := 0)
    else t
  }

  /** The commands that are not about the cursor's appearance. Sums of 32-bit words wrap. */
  function CsiCommand(g: Geo, t: Text, params: seq<nat>, final: nat): Text
    requires GeoOk(g)
  {
    var p1, p2 := if |params| > 0 then params[0] else 0, if |params| > 1 then params[1] else 0;
    var n := if p1 > 0 then p1 else 1;
    if final == 72 || final == 102 then
      t.(cy := Min(if p1 > 0 then p1 - 1 else 0, g.rows - 1), cx := Min(if p2 > 0 then p2 - 1 else 0, g.cols - 1))
    else if final == 74 then EraseDisplay(g, t, p1)
    else if final == 75 then (if p1 == 0 then EraseLine(g, t, t.cx) else if p1 == 2 then EraseLine(g, t, 0) else t)
    else if final == 109 then Sgr(t, if params == [] then [0] else params)
    else if final == 65 then (if p2 == 2 then ScrollUp(g, t) else t.(cy := if t.cy >= n then t.cy - n else 0))
    else if final == 66 then (if p2 == 2 then ScrollDown(g, t) else t.(cy := Min((t.cy + n) % WORD, g.rows - 1)))
    else if final == 67 then t.(cx := Min((t.cx + n) % WORD, g.cols - 1))
    else if final == 68 then t.(cx := if t.cx >= n then t.cx - n else 0)
    else if final == 126 then (if p1 == 23 then ScrollUp(g, t) else if p1 == 24 then ScrollDown(g, t) else t)
    else t
  }

  // --------------------------------------------------------------------- with a cursor

  function Erase(g: Geo, s: Con): Con {
    if s.cursor.drawn then
      s.(text := s.text.(fb := XorCell(g, s.text.fb, s.text.cx, s.text.cy)), cursor := s.cursor.(drawn := false))
    else s
  }

  function Draw(g: Geo, s: Con): Con {
    if s.cursor.visible && s.cursor.blink && !s.cursor.drawn then
      s.(text := s.text.(fb := XorCell(g, s.text.fb, s.text.cx, s.text.cy)), cursor := s.cursor.(drawn := true))
    else s
  }

  predicate ShowsCursor(o: Outcome) {
    o.Command? && o.final == 104 && o.private && |o.params| > 0 && o.params[0] == 25
  }

  predicate HidesCursor(o: Outcome) {
    o.Command? && o.final == 108 && o.private && |o.params| > 0 && o.params[0] == 25
  }

  function Show(g: Geo, s: Con): Con {
    Draw(g, s.(cursor := s.cursor.(visible := true, blink := true)))
  }

  function Hide(g: Geo, s: Con): Con {
    var s1 := Erase(g, s);
    s1.(cursor := s1.cursor.(visible := false, blink := false))
  }

  function Blink(g: Geo, s: Con, now: nat): Con {
    if !s.cursor.visible || (now - s.cursor.lastBlink) % TIME < CURSOR_BLINK_MS then s
    else
      var s1 := s.(cursor := s.cursor.(lastBlink := now));
      if s.cursor.blink then
        var s2 := Erase(g, s1);
        s2.(cursor := s2.cursor.(blink := false))
      else Draw(g, s1.(cursor := s1.cursor.(blink := true)))
  }

  /** `putc`, and `putc_force` when `force` is set. */
  function Putc(g: Geo, s: Con, c: nat, force: bool): Con
    requires GeoOk(g)
  {
    if s.gui && !force then s
    else
      var o := AnsiStep(s.text.ansi, c);
      match o
      case Taken(a) => s.(text := s.text.(ansi := a))
      case Out(a) =>
        var s1 := Erase(g, s.(text := s.text.(ansi := a, offset := 0)));
        Draw(g, s1.(text := Print(g, s1.text, c)))
      case Command(params, final, private) =>
        var s1 := Erase(g, s);
        var s2 := if ShowsCursor(o) then Show(g, s1)
                  else if HidesCursor(o) then Hide(g, s1)
                  else s1.(text := CsiCommand(g, s1.text, params, final));
        var s3 := Draw(g, s2);
        s3.(text := s3.text.(ansi := ANSI_RESET))
  }

  /** The clear counts on its fill to erase the cursor. */
  function Clear(g: Geo, s: Con): Con
    requires GeoOk(g)
  {
    var t := s.text;
    Draw(g, s.(text := t.(fb := FillText(g, t.fb, t.bg), cx := 0, cy := 0),
               cursor := s.cursor.(drawn := false)))
  }

  function MoveTo(g: Geo, t: Text, x: nat, y: nat): Text {
    t.(cx := if x < g.cols then x else t.cx, cy := if y < g.rows then y else t.cy)
  }

  function SetCursor(g: Geo, s: Con, x: nat, y: nat): Con {
    var s1 := Erase(g, s);
    Draw(g, s1.(text := MoveTo(g, s1.text, x, y)))
  }

  /** Scrolling back erases the cursor and leaves it so; coming back to the live view shows it. */
  function PageUp(g: Geo, s: Con): Con {
    if !CanScrollUp(g, s.text) then s
    else var s1 := Erase(g, s); s1.(text := ScrollUp(g, s1.text))
  }

  function PageDown(g: Geo, s: Con): Con {
    if s.text.offset == 0 then s
    else
      var s1 := Erase(g, s);
      var s2 := s1.(text := ScrollDown(g, s1.text));
      if s2.text.offset > 0 then s2 else Draw(g, s2)
  }

  function SetColors(t: Text, fg: Color, bg: Color): Text {
    t.(fg := fg, bg := bg, defaultFg := fg, defaultBg := bg)
  }
}
