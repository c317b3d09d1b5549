/** What the console keeps: the cursor inside the screen, the scrollback ring equal to the end of an unbounded
    log, and text untouched by the cursor drawn over it. */
module ConsoleProofs {
  import opened Rings
  import opened Console

  // ----------------------------------------------------------------------- scrollback

  /** The ring index `k` lines before the write position. */
  function Back(g: Geo, head: nat, k: nat): int {
    if head >= k then head - k else g.lines + head - k
  }

  predicate LineAt(g: Geo, t: Text, j: nat) {
    j < t.count && j < |t.log| ==>
      0 <= Back(g, t.head, j + 1) < |t.ring| && t.ring[Back(g, t.head, j + 1)] == t.log[|t.log| - 1 - j]
  }

  predicate Full(g: Geo, t: Text, i: nat) {
    i < |t.ring| ==> |t.ring[i]| == g.lineCols
  }

  /** The ring holds the last `count` lines of the log. */
  ghost predicate RingHolds(g: Geo, t: Text) {
    && |t.ring| == g.lines && t.head < g.lines && t.count == Min(|t.log|, g.lines)
    && (forall i: nat :: Full(g, t, i))
    && forall j: nat :: LineAt(g, t, j)
  }

  /** And the view never reaches beyond them. */
  ghost predicate RingAgrees(g: Geo, t: Text) {
    RingHolds(g, t) && t.offset + g.rows <= t.count
  }

  predicate InBounds(g: Geo, t: Text) {
    t.cx < g.cols && t.cy < g.rows
  }

  ghost predicate TextOk(g: Geo, t: Text) {
    RingAgrees(g, t) && InBounds(g, t)
  }

  lemma BufferPutOk(g: Geo, t: Text, ch: nat, col: nat, row: nat)
    requires GeoOk(g) && RingAgrees(g, t) && row < g.rows
    ensures RingAgrees(g, BufferPut(g, t, ch, col, row))
    ensures 0 <= |t.log| - g.rows + row < |t.log|
    ensures var j := |t.log| - g.rows + row;
            col < g.lineCols ==>
              col < |t.log[j]| && BufferPut(g, t, ch, col, row).log == t.log[j := t.log[j][col := Cell(ch, t.fg, t.bg)]]
  {
    hide Around;
    var t', i := BufferPut(g, t, ch, col, row), RowIndex(g, t, 0, row);
    var j := g.rows - 1 - row;
    assert LineAt(g, t, j) && Full(g, t, i);
    assert i == Back(g, t.head, j + 1);
    forall k: nat ensures LineAt(g, t', k) { assert LineAt(g, t, k); }
    forall k: nat ensures Full(g, t', k) { assert Full(g, t, k); }
  }

  lemma BufferNewLineOk(g: Geo, t: Text)
    requires GeoOk(g) && RingHolds(g, t)
    ensures RingHolds(g, BufferNewLine(g, t)) && BufferNewLine(g, t).count >= t.count
    ensures BufferNewLine(g, t).log == t.log + [Blank(g, t.defaultFg, t.defaultBg)]
  {
    hide Around;
    var t' := BufferNewLine(g, t);
    forall k: nat ensures LineAt(g, t', k) {
      if k > 0 { assert LineAt(g, t, k - 1); }
    }
    forall k: nat ensures Full(g, t', k) { assert Full(g, t, k); }
  }

  /** `init` leaves every line of the ring blank and begins as many as the screen has rows. */
  function Prefill(g: Geo, t: Text, k: nat): Text
    requires GeoOk(g)
  {
    if k == 0 then t else BufferNewLine(g, Prefill(g, t, k - 1))
  }

  lemma {:induction false} PrefillOk(g: Geo, t: Text, k: nat)
    requires GeoOk(g) && t.head == 0 && t.count == 0 && t.log == [] && k <= g.rows
    requires t.ring == seq(g.lines, _ => Blank(g, t.defaultFg, t.defaultBg))
    ensures RingHolds(g, Prefill(g, t, k)) && |Prefill(g, t, k).log| == k
    ensures Prefill(g, t, k).offset == t.offset && Prefill(g, t, k).cx == t.cx && Prefill(g, t, k).cy == t.cy
  {
    if k == 0 {
      forall i: nat ensures Full(g, t, i) { }
    } else {
      PrefillOk(g, t, k - 1);
      BufferNewLineOk(g, Prefill(g, t, k - 1));
    }
  }

  lemma InitOk(g: Geo, t: Text)
    requires GeoOk(g) && t.head == 0 && t.count == 0 && t.log == [] && t.offset == 0 && t.cx == 0 && t.cy == 0
    requires t.ring == seq(g.lines, _ => Blank(g, t.defaultFg, t.defaultBg))
    ensures TextOk(g, Prefill(g, t, g.rows))
  {
    PrefillOk(g, t, g.rows);
  }

  /** Redrawing at offset `offset` reads exactly the window of the log that many lines before its end. */
  lemma WindowIsLog(g: Geo, t: Text, offset: nat)
    requires GeoOk(g) && RingAgrees(g, t) && offset + g.rows <= t.count
    ensures RingWindow(g, t, offset) == t.log[|t.log| - g.rows - offset..|t.log| - offset]
  {
    hide Around;
    var w := RingWindow(g, t, offset);
    forall k | 0 <= k < g.rows ensures w[k] == t.log[|t.log| - g.rows - offset + k] {
      var j := g.rows + offset - 1 - k;
      assert LineAt(g, t, j);
      assert RowIndex(g, t, offset, k) == Back(g, t.head, j + 1);
    }
  }

  lemma ScrollOk(g: Geo, t: Text)
    requires GeoOk(g) && RingAgrees(g, t)
    ensures RingAgrees(g, Scroll(g, t))
  {
    var t1, t' := BufferNewLine(g, t), Scroll(g, t);
    BufferNewLineOk(g, t);
    SameRing(g, t1, t');
  }

  lemma SameRing(g: Geo, t: Text, t': Text)
    requires RingAgrees(g, t)
    requires t'.ring == t.ring && t'.head == t.head && t'.count == t.count && t'.log == t.log && t'.offset <= t.offset
    ensures RingAgrees(g, t')
  {
    forall k: nat ensures LineAt(g, t', k) { assert LineAt(g, t, k); }
    forall k: nat ensures Full(g, t', k) { assert Full(g, t, k); }
  }

  lemma NewLineOk(g: Geo, t: Text)
    requires GeoOk(g) && RingAgrees(g, t)
    ensures TextOk(g, NewLine(g, t))
  {
    if t.cy + 1 < g.rows {
      SameRing(g, t, NewLine(g, t));
    } else {
      ScrollOk(g, t);
      SameRing(g, Scroll(g, t), NewLine(g, t));
    }
  }

  lemma GlyphOk(g: Geo, t: Text, ch: nat)
    requires GeoOk(g) && TextOk(g, t)
    ensures TextOk(g, Glyph(g, t, ch))
  {
    BufferPutOk(g, t, ch, t.cx, t.cy);
    var t1 := BufferPut(g, t, ch, t.cx, t.cy);
    var t2 := t1.(fb := DrawChar(g, t1.fb, t.cx, t.cy, ch, t.fg, t.bg));
    SameRing(g, t1, t2);
    if t2.cx + 1 < g.cols {
      SameRing(g, t2, Advance(g, t2));
    } else {
      NewLineOk(g, t2);
    }
  }

  lemma {:induction false} TabOk(g: Geo, t: Text)
    requires GeoOk(g) && TextOk(g, t)
    ensures TextOk(g, Tab(g, t))
    decreases g.cols - t.cx
  {
    GlyphOk(g, t, 32);
    var t1 := Glyph(g, t, 32);
    if t1.cx % 8 != 0 && t.cx < t1.cx < g.cols { TabOk(g, t1); }
  }

  lemma PrintOk(g: Geo, t: Text, c: nat)
    requires GeoOk(g) && TextOk(g, t)
    ensures TextOk(g, Print(g, t, c))
  {
    if c == 10 {
      NewLineOk(g, t);
    } else if c == 9 {
      TabOk(g, t);
    } else if 32 <= c < 127 {
      GlyphOk(g, t, c);
    } else {
      SameRing(g, t, Print(g, t, c));
    }
  }

  lemma ScrollUpOk(g: Geo, t: Text)
    requires GeoOk(g) && TextOk(g, t)
    ensures TextOk(g, ScrollUp(g, t)) && TextOk(g, ScrollDown(g, t))
  {
    hide LineAt, Full, RingWindow, DrawLines, DrawIndicator;
    MoreOffset(g, t, ScrollUp(g, t));
    SameRing(g, t, ScrollDown(g, t));
  }

  lemma MoreOffset(g: Geo, t: Text, t': Text)
    requires RingAgrees(g, t) && t'.offset + g.rows <= t.count
    requires t'.ring == t.ring && t'.head == t.head && t'.count == t.count && t'.log == t.log
    ensures RingAgrees(g, t')
  {
    forall k: nat ensures LineAt(g, t', k) { assert LineAt(g, t, k); }
    forall k: nat ensures Full(g, t', k) { assert Full(g, t, k); }
  }

  lemma {:induction false} SgrKeeps(t: Text, params: seq<nat>)
    ensures var t' := Sgr(t, params);
            t' == t.(fg := t'.fg, bg := t'.bg)
  {
    if params != [] { SgrKeeps(t, params[..|params| - 1]); }
  }

  predicate Scrolls(params: seq<nat>, final: nat) {
    ((final == 65 || final == 66) && |params| > 1 && params[1] == 2) || final == 126
  }

  lemma CsiOk(g: Geo, t: Text, params: seq<nat>, final: nat)
    requires GeoOk(g) && TextOk(g, t)
    ensures TextOk(g, CsiCommand(g, t, params, final))
  {
    if Scrolls(params, final) {
      CsiScrolls(g, t, params, final);
    } else {
      hide CsiCommand;
      CsiKeepsRing(g, t, params, final);
      SameRing(g, t, CsiCommand(g, t, params, final));
    }
  }

  lemma CsiScrolls(g: Geo, t: Text, params: seq<nat>, final: nat)
    requires GeoOk(g) && TextOk(g, t) && Scrolls(params, final)
    ensures TextOk(g, CsiCommand(g, t, params, final))
  {
    ScrollUpOk(g, t);
    hide CsiCommand, TextOk, ScrollUp, ScrollDown;
    CsiTurns(g, t, params, final);
  }

  lemma CsiTurns(g: Geo, t: Text, params: seq<nat>, final: nat)
    requires GeoOk(g) && Scrolls(params, final)
    ensures CsiCommand(g, t, params, final) in {t, ScrollUp(g, t), ScrollDown(g, t)}
  {
    hide ScrollUp, ScrollDown, EraseDisplay, EraseLine, Sgr;
  }

  /** The other commands move the cursor within the screen, erase pixels or change colours. */
  lemma {:induction false} CsiKeepsRing(g: Geo, t: Text, params: seq<nat>, final: nat)
    requires GeoOk(g) && InBounds(g, t) && !Scrolls(params, final)
    ensures var t' := CsiCommand(g, t, params, final);
            && InBounds(g, t')
            && t'.ring == t.ring && t'.head == t.head && t'.count == t.count && t'.log == t.log && t'.offset == t.offset
  {
    hide ScrollUp, ScrollDown, FillRect, CellX, CellY;
    if final == 109 {
      SgrKeeps(t, if params == [] then [0] else params);
    }
  }

  // -------------------------------------------------------------------- cursor overlay

  lemma FlipTwice(c: Color)
    ensures Flip(Flip(c)) == c
  {
    var hi, lo := c - c % 0x100_0000, c % 0x100_0000;
    assert Flip(c) % 0x100_0000 == 0xFF_FFFF - lo by {
      assert Flip(c) == (c / 0x100_0000) * 0x100_0000 + (0xFF_FFFF - lo);
    }
  }

  lemma SameScreen(a: Screen, b: Screen)
    requires |a| == |b| && (forall y :: 0 <= y < |a| ==> |a[y]| == |b[y]|)
    requires forall y, x :: 0 <= y < |a| && 0 <= x < |a[y]| ==> a[y][x] == b[y][x]
    ensures a == b
  {
    forall y | 0 <= y < |a| ensures a[y] == b[y] { }
  }

  /** Drawing the cursor twice restores every pixel. */
  lemma XorTwice(g: Geo, fb: Screen, cx: nat, cy: nat)
    ensures XorCell(g, XorCell(g, fb, cx, cy), cx, cy) == fb
  {
    var a := XorCell(g, fb, cx, cy);
    var b := XorCell(g, a, cx, cy);
    forall y, x | 0 <= y < |fb| && 0 <= x < |fb[y]| ensures b[y][x] == fb[y][x] {
      FlipTwice(fb[y][x]);
    }
    SameScreen(b, fb);
  }

  lemma CellInside(g: Geo, cx: nat, cy: nat)
    requires GeoOk(g) && cx < g.cols && cy < g.rows
    ensures g.inset <= CellX(g, cx) && CellX(g, cx + 1) <= g.width - g.inset
    ensures g.inset <= CellY(g, cy) && CellY(g, cy + 1) <= g.height - g.inset
  {
  }

  /** Clearing the text area erases a cursor that stands inside it. */
  lemma FillCovers(g: Geo, fb: Screen, cx: nat, cy: nat, c: Color)
    requires GeoOk(g) && cx < g.cols && cy < g.rows
    ensures FillText(g, XorCell(g, fb, cx, cy), c) == FillText(g, fb, c)
  {
    CellInside(g, cx, cy);
    hide CellX, CellY, Flip, GeoOk;
    var a, b := FillText(g, XorCell(g, fb, cx, cy), c), FillText(g, fb, c);
    forall y, x | 0 <= y < |a| && 0 <= x < |a[y]| ensures a[y][x] == b[y][x] { }
    SameScreen(a, b);
  }

  /** The text under the cursor. */
  function Under(g: Geo, s: Con): Text {
    Erase(g, s).text
  }

  lemma UnderDraw(g: Geo, s: Con)
    ensures Under(g, Draw(g, s)) == Under(g, s) && Under(g, Erase(g, s)) == Under(g, s)
    ensures Under(g, Show(g, s)) == Under(g, s) && Under(g, Hide(g, s)) == Under(g, s)
  {
    XorTwice(g, s.text.fb, s.text.cx, s.text.cy);
  }

  /** The console that has no cursor to show. */
  function PlainPutc(g: Geo, t: Text, c: nat): Text
    requires GeoOk(g)
  {
    var o := AnsiStep(t.ansi, c);
    match o
    case Taken(a) => t.(ansi := a)
    case Out(a) => Print(g, t.(ansi := a, offset := 0), c)
    case Command(params, final, private) =>
      (if ShowsCursor(o) || HidesCursor(o) then t else CsiCommand(g, t, params, final)).(ansi := ANSI_RESET)
  }

  datatype Op =
    | OpPutc(c: nat, force: bool)
    | OpClear
    | OpSetColors(fg: Color, bg: Color)
    | OpSetCursor(x: nat, y: nat)
    | OpPageUp
    | OpPageDown
    | OpGui(on: bool)
    | OpShow
    | OpHide
    | OpBlink(now: nat)

  function Step(g: Geo, s: Con, op: Op): Con
    requires GeoOk(g)
  {
    match op
    case OpPutc(c, force) => Putc(g, s, c, force)
    case OpClear => Clear(g, s)
    case OpSetColors(fg, bg) => s.(text := SetColors(s.text, fg, bg))
    case OpSetCursor(x, y) => SetCursor(g, s, x, y)
    case OpPageUp => PageUp(g, s)
    case OpPageDown => PageDown(g, s)
    case OpGui(on) => s.(gui := on)
    case OpShow => Show(g, s)
    case OpHide => Hide(g, s)
    case OpBlink(now) => Blink(g, s, now)
  }

  /** The same calls on the console without a cursor; showing, hiding and blinking do nothing. */
  function PlainStep(g: Geo, t: Text, gui: bool, op: Op): Text
    requires GeoOk(g)
  {
    match op
    case OpPutc(c, force) => if gui && !force then t else PlainPutc(g, t, c)
    case OpClear => t.(fb := FillText(g, t.fb, t.bg), cx := 0, cy := 0)
    case OpSetColors(fg, bg) => SetColors(t, fg, bg)
    case OpSetCursor(x, y) => MoveTo(g, t, x, y)
    case OpPageUp => ScrollUp(g, t)
    case OpPageDown => if t.offset == 0 then t else ScrollDown(g, t)
    case _ => t
  }

  lemma PutcUnder(g: Geo, s: Con, c: nat, force: bool)
    requires GeoOk(g) && !(s.gui && !force)
    ensures Under(g, Putc(g, s, c, force)) == PlainPutc(g, Under(g, s), c)
  {
    hide XorCell, Print, CsiCommand;
    var o := AnsiStep(s.text.ansi, c);
    match o
    case Taken(a) =>
    case Out(a) =>
      var s1 := Erase(g, s.(text := s.text.(ansi := a, offset := 0)));
      UnderDraw(g, s1.(text := Print(g, s1.text, c)));
    case Command(params, final, private) =>
      CommandUnder(g, s, o);
  }

  lemma CommandUnder(g: Geo, s: Con, o: Outcome)
    requires GeoOk(g) && o.Command?
    ensures var s1 := Erase(g, s);
            var s2 := if ShowsCursor(o) then Show(g, s1)
                      else if HidesCursor(o) then Hide(g, s1)
                      else s1.(text := CsiCommand(g, s1.text, o.params, o.final));
            var s3 := Draw(g, s2);
            Under(g, s3.(text := s3.text.(ansi := ANSI_RESET))) ==
              (if ShowsCursor(o) || HidesCursor(o) then Under(g, s)
               else CsiCommand(g, Under(g, s), o.params, o.final)).(ansi := ANSI_RESET)
  {
    hide XorCell, CsiCommand;
    var s1 := Erase(g, s);
    var s2 := if ShowsCursor(o) then Show(g, s1)
              else if HidesCursor(o) then Hide(g, s1)
              else s1.(text := CsiCommand(g, s1.text, o.params, o.final));
    UnderDraw(g, s1);
    UnderDraw(g, s2);
  }

  /** One call with a cursor is the same call without one, under the cursor. */
  lemma StepUnder(g: Geo, s: Con, op: Op)
    requires GeoOk(g) && InBounds(g, Under(g, s))
    ensures Under(g, Step(g, s, op)) == PlainStep(g, Under(g, s), s.gui, op)
  {
    hide XorCell, PlainPutc, Putc, Clear, PageUp, PageDown, ScrollUp, ScrollDown, Blink, FillText;
    match op
    case OpPutc(c, force) => PutcAnyUnder(g, s, c, force);
    case OpClear => ClearUnder(g, s);
    case OpSetCursor(x, y) =>
      var s1 := Erase(g, s);
      UnderDraw(g, s1.(text := MoveTo(g, s1.text, x, y)));
    case OpPageUp => PageUpUnder(g, s);
    case OpPageDown => PageDownUnder(g, s);
    case OpShow => UnderDraw(g, s);
    case OpHide => UnderDraw(g, s);
    case OpBlink(now) => BlinkUnder(g, s, now);
    case _ =>
  }

  lemma PutcAnyUnder(g: Geo, s: Con, c: nat, force: bool)
    requires GeoOk(g)
    ensures Under(g, Step(g, s, OpPutc(c, force))) == PlainStep(g, Under(g, s), s.gui, OpPutc(c, force))
  {
    if !(s.gui && !force) {
      PutcUnder(g, s, c, force);
    }
    hide XorCell, PlainPutc, AnsiStep, Print, CsiCommand;
  }

  lemma ClearUnder(g: Geo, s: Con)
    requires GeoOk(g) && InBounds(g, Under(g, s))
    ensures Under(g, Clear(g, s)) == PlainStep(g, Under(g, s), s.gui, OpClear)
  {
    var t := s.text;
    FillCovers(g, t.fb, t.cx, t.cy, t.bg);
    hide FillText, XorCell, GeoOk;
    UnderDraw(g, s.(text := t.(fb := FillText(g, t.fb, t.bg), cx := 0, cy := 0), cursor := s.cursor.(drawn := false)));
  }

  lemma PageUpUnder(g: Geo, s: Con)
    requires GeoOk(g)
    ensures Under(g, PageUp(g, s)) == PlainStep(g, Under(g, s), s.gui, OpPageUp)
  {
    hide XorCell;
  }

  lemma PageDownUnder(g: Geo, s: Con)
    requires GeoOk(g)
    ensures Under(g, PageDown(g, s)) == PlainStep(g, Under(g, s), s.gui, OpPageDown)
  {
    hide XorCell, ScrollDown;
    if s.text.offset > 0 {
      var s1 := Erase(g, s);
      UnderDraw(g, s1.(text := ScrollDown(g, s1.text)));
    }
  }

  lemma BlinkUnder(g: Geo, s: Con, now: nat)
    requires GeoOk(g)
    ensures Under(g, Blink(g, s, now)) == Under(g, s)
  {
    hide XorCell;
    UnderDraw(g, s);
    var s1 := s.(cursor := s.cursor.(lastBlink := now));
    UnderDraw(g, s1.(cursor := s1.cursor.(blink := true)));
  }

  lemma PlainOk(g: Geo, t: Text, gui: bool, op: Op)
    requires GeoOk(g) && TextOk(g, t)
    ensures TextOk(g, PlainStep(g, t, gui, op))
  {
    hide Print, CsiCommand, ScrollUp, ScrollDown, LineAt, Full;
    match op
    case OpPutc(c, force) =>
      if !(gui && !force) {
        var o := AnsiStep(t.ansi, c);
        match o
        case Taken(a) => SameRing(g, t, t.(ansi := a));
        case Out(a) =>
          SameRing(g, t, t.(ansi := a, offset := 0));
          PrintOk(g, t.(ansi := a, offset := 0), c);
        case Command(params, final, private) =>
          CsiOk(g, t, params, final);
          SameRing(g, t, t.(ansi := ANSI_RESET));
          SameRing(g, CsiCommand(g, t, params, final), CsiCommand(g, t, params, final).(ansi := ANSI_RESET));
      }
    case OpPageUp => ScrollUpOk(g, t);
    case OpPageDown => ScrollUpOk(g, t);
    case _ => SameRing(g, t, PlainStep(g, t, gui, op));
  }

  // ----------------------------------------------------------------------------- runs

  ghost predicate StepAt(g: Geo, path: seq<Con>, ops: seq<Op>, k: nat)
    requires GeoOk(g) && k < |ops| && |path| == |ops| + 1
  {
    path[k + 1] == Step(g, path[k], ops[k])
  }

  /** A run of the console, from any state in order. */
  ghost predicate IsRun(g: Geo, path: seq<Con>, ops: seq<Op>)
    requires GeoOk(g)
  {
    && |path| == |ops| + 1 && TextOk(g, Under(g, path[0]))
    && forall k: nat :: k < |ops| ==> StepAt(g, path, ops, k)
  }

  /** The same calls on the console without a cursor, from the same text. */
  function PlainRun(g: Geo, start: Text, path: seq<Con>, ops: seq<Op>, k: nat): Text
    requires GeoOk(g) && k <= |ops| < |path|
  {
    if k == 0 then start else PlainStep(g, PlainRun(g, start, path, ops, k - 1), path[k - 1].gui, ops[k - 1])
  }

  /** In every run the screen under the cursor is the screen of the same run with every cursor operation
      deleted; the cursor stays on the screen; and the scrollback agrees with the log, the view never reaching
      past what it holds. */
  lemma {:induction false} CursorDoesNotInterfere(g: Geo, path: seq<Con>, ops: seq<Op>, k: nat)
    requires GeoOk(g) && IsRun(g, path, ops) && k <= |ops|
    ensures Under(g, path[k]) == PlainRun(g, Under(g, path[0]), path, ops, k)
    ensures TextOk(g, Under(g, path[k]))
  {
    hide Under, TextOk, PlainStep, GeoOk, StepAt, Step;
    if k > 0 {
      CursorDoesNotInterfere(g, path, ops, k - 1);
      NextUnder(g, path, ops, k - 1);
    }
  }

  lemma NextUnder(g: Geo, path: seq<Con>, ops: seq<Op>, k: nat)
    requires GeoOk(g) && IsRun(g, path, ops) && k < |ops| && TextOk(g, Under(g, path[k]))
    ensures Under(g, path[k + 1]) == PlainStep(g, Under(g, path[k]), path[k].gui, ops[k])
    ensures TextOk(g, Under(g, path[k + 1]))
  {
    assert StepAt(g, path, ops, k);
    hide Under, TextOk, PlainStep, Step, GeoOk;
    StepUnder(g, path[k], ops[k]);
    PlainOk(g, Under(g, path[k]), path[k].gui, ops[k]);
  }
}
