/** Drawing: runs of cells batched into strings, dirty cells gathered into strips. */
module Render {
  import opened Cells
  import opened CellBuffers
  import opened TermModel
  import opened GridFacts
  import opened Fidelity

  // ---- what a cell should look like -------------------------------------------------

  const RGB := 0x100_0000
  const DEFAULT_FG := 256
  const DEFAULT_BG := 257
  const BOLD_FG := 260
  const UNDER_FG := 261
  const BOLD_UNDER_FG := 262
  const PALETTE := 266

  datatype ColorMode = Normal | BlackWhite | Green | Amber | AmberTint

  /** Palette, cursor colours (256^3 and up means "none") and the character cell in pixels. */
  datatype Conf = Conf(tty: seq<nat>, selFg: nat, selBg: nat, amberFg: nat, amberBg: nat, underlines: bool,
                       colorMode: int, cursorFg: seq<nat>, cursorBg: seq<nat>,
                       charWidth: nat, charHeight: nat, ascent: nat)

  predicate ConfOk(c: Conf) {
    |c.tty| == PALETTE && (forall i :: 0 <= i < PALETTE ==> c.tty[i] < RGB) &&
    c.selFg < RGB && c.selBg < RGB && c.amberFg < RGB && c.amberBg < RGB &&
    |c.cursorFg| == 2 && |c.cursorBg| == 3 && c.charWidth > 0 && c.charHeight > 0
  }

  /** What one character cell of the window shows; `frame` is the unfocused cursor's box. */
  datatype Glyph = Glyph(ch: nat, fg: nat, bg: nat, under: bool, frame: Option<nat>)

  predicate PrintableCp(cp: nat) {
    0 < cp <= 0x024f || 0x0390 <= cp <= 0x0482 || 0x048a <= cp <= 0x052f || 0x1e00 <= cp <= 0x1eff ||
    0x2000 <= cp <= 0x2c7f || 0x2e00 <= cp <= 0x2e42 || 0xab30 <= cp <= 0xab65
  }

  function Printable(ch: nat): nat { if PrintableCp(ch) then ch else 0xfffd }

  /** The palette entry of a terminal colour, and whether the text is underlined for it. */
  function PaletteIndex(c: nat, style: Style, isFg: bool, underlines: bool): (r: (nat, bool))
    ensures r.0 < PALETTE && (r.0 > 255 <==> c > 255)
    ensures c < 8 ==> r.0 == if style.blink || (isFg && style.bold) then c + 8 else c
    ensures 8 <= c <= 255 ==> r.0 == c
    ensures r.1 ==> isFg && style.underline && underlines
  {
    var base := if c > 255 then if isFg then DEFAULT_FG else DEFAULT_BG else c;
    var bright := if style.blink then 3 else 0;
    if isFg && style.bold && base > 255 then
      ((if style.underline then BOLD_UNDER_FG else BOLD_FG) + bright, false)
    else if isFg && !style.bold && style.underline && base > 255 then (UNDER_FG + bright, false)
    else
      var high := style.blink || (isFg && style.bold);
      var index := if !high then base
                   else if base < 8 then base + 8
                   else if base == DEFAULT_FG || base == DEFAULT_BG then base + 2 else base;
      (index, isFg && style.underline && underlines && (style.bold ==> base >= 8))
  }

  /** The entry of a default colour tells foreground from background, and every attribute that picks it. */
  lemma DefaultsApart(c: nat, style: Style, isFg: bool, c1: nat, style1: Style, isFg1: bool, underlines: bool)
    requires c > 255 && c1 > 255
    requires PaletteIndex(c, style, isFg, underlines).0 == PaletteIndex(c1, style1, isFg1, underlines).0
    ensures isFg == isFg1 && style.blink == style1.blink
    ensures isFg ==> style.bold == style1.bold && style.underline == style1.underline
  {
  }

  function Red(c: nat): nat { c / 0x1_0000 % 256 }
  function GreenOf(c: nat): nat { c / 256 % 256 }
  function Blue(c: nat): nat { c % 256 }
  function Mix(r: nat, g: nat, b: nat): nat { r * 0x1_0000 + g * 256 + b }

  function Luminance(c: nat): (l: nat)
    ensures l <= 255
  {
    (19660 * Red(c) + 38666 * GreenOf(c) + 7208 * Blue(c)) / 0x1_0000
  }

  function ModeOf(mode: int): ColorMode {
    match mode
    case 1 => BlackWhite
    case 2 => Green
    case 3 => Amber
    case 4 => AmberTint
    case _ => Normal
  }

  function Tint(conf: Conf, mode: ColorMode, c: nat, isFg: bool): (r: nat)
    requires ConfOk(conf) && c < RGB
    ensures r < RGB
  {
    var amber := if isFg then conf.amberFg else conf.amberBg;
    match mode
    case Normal => c
    case Amber => amber
    case BlackWhite => Mix(Luminance(c), Luminance(c), Luminance(c))
    case Green => Luminance(c) * 256
    case AmberTint =>
      if Luminance(c) >= 128 then amber else Mix(Red(amber) / 2, GreenOf(amber) / 2, Blue(amber) / 2)
  }

  /** A colour word: direct when below 256^3, else a palette index. */
  function DecodeColor(conf: Conf, mode: ColorMode, c: nat, style: Style, isFg: bool): (r: (nat, bool))
    requires ConfOk(conf)
    ensures r.0 < RGB
  {
    if c < RGB then (Tint(conf, mode, c, isFg), false)
    else
      var (index, under) := PaletteIndex(c % RGB, style, isFg, conf.underlines);
      (Tint(conf, mode, conf.tty[index], isFg), under)
  }

  /** What the colour modes promise: a direct colour as it is, shades of grey, shades of green. */
  lemma ModeTints(conf: Conf, mode: ColorMode, c: nat, style: Style, isFg: bool)
    requires ConfOk(conf)
    ensures var r := DecodeColor(conf, mode, c, style, isFg).0;
      (mode.Normal? && c < RGB ==> r == c) &&
      (mode.BlackWhite? ==> Red(r) == GreenOf(r) == Blue(r)) &&
      (mode.Green? ==> Red(r) == 0 && Blue(r) == 0) &&
      (mode.Amber? ==> r == if isFg then conf.amberFg else conf.amberBg)
  {
    hide PaletteIndex, Tint, Red, GreenOf, Blue;
    var entry := PaletteIndex(c % RGB, style, isFg, conf.underlines).0;
    TintShades(conf, mode, if c < RGB then c else conf.tty[entry], isFg);
  }

  lemma TintShades(conf: Conf, mode: ColorMode, c: nat, isFg: bool)
    requires ConfOk(conf) && c < RGB
    ensures var r := Tint(conf, mode, c, isFg);
      (mode.Normal? ==> r == c) && (mode.Amber? ==> r == if isFg then conf.amberFg else conf.amberBg) &&
      (mode.BlackWhite? ==> Red(r) == GreenOf(r) == Blue(r)) && (mode.Green? ==> Red(r) == 0 && Blue(r) == 0)
  {
    hide Luminance, Red, GreenOf, Blue;
    var l := Luminance(c);
    Channels(l, l, l);
    Channels(0, l, 0);
    assert Mix(0, l, 0) == l * 256;
  }

  lemma Channels(r: nat, g: nat, b: nat)
    requires r < 256 && g < 256 && b < 256
    ensures Red(Mix(r, g, b)) == r && GreenOf(Mix(r, g, b)) == g && Blue(Mix(r, g, b)) == b
  {
  }

  /** Foreground, background and underline of a cell. */
  datatype Look = Look(fg: nat, bg: nat, under: bool)

  function DecodeLook(conf: Conf, style: Style, fg: nat, bg: nat, reverse: bool, colorMode: int): (r: Look)
    requires ConfOk(conf)
    ensures r.fg < RGB && r.bg < RGB
  {
    var mode := ModeOf(if colorMode >= 0 then colorMode else conf.colorMode);
    if style.selection then Look(conf.selFg, conf.selBg, false)
    else
      var (f, under) := DecodeColor(conf, mode, fg, style, true);
      var (b, _) := DecodeColor(conf, mode, bg, style, false);
      if style.inverse == reverse then Look(f, b, under) else Look(b, f, under)
  }

  function PhaseIndex(shape: CursorShape): nat { if shape.phase == 0 then 0 else 1 }

  /** One cell drawn on its own: what batched drawing has to amount to. */
  function Paint(conf: Conf, ink: Ink): Glyph
    requires ConfOk(conf)
  {
    var look := DecodeLook(conf, ink.style, ink.fg, ink.bg, ink.reverse, ink.colorMode);
    var ch := Printable(ink.ch);
    var plain := Glyph(ch, look.fg, look.bg, look.under, None);
    if ink.cursor.None? then plain
    else
      var k := PhaseIndex(ink.cursor.value);
      if ink.cursor.value.focused then
        if conf.cursorFg[k] < RGB && conf.cursorBg[k] < RGB
        then Glyph(ch, conf.cursorFg[k], conf.cursorBg[k], look.under, None) else plain
      else if conf.cursorBg[2] < RGB && conf.charWidth > 1 && conf.charHeight > 1
      then plain.(frame := Some(conf.cursorBg[2])) else plain
  }

  /** How the screen is drawn: cursor cell, cursor shape, reverse video, colour mode. */
  datatype View = View(cursor: Option<(int, int)>, shape: CursorShape, reverse: bool, colorMode: int)

  function InkOf(c: Cell, at: bool, view: View): Ink {
    Ink(c.ch, c.style, c.fg, c.bg, if at then Some(view.shape) else None, view.reverse, view.colorMode)
  }

  /** The cursor is drawn in column `x` of row `y`. */
  predicate CursorIn(view: View, x: int, y: int) { view.cursor == Some((x, y)) }

  /** Column `x` of row `y`, drawn on its own. */
  function Goal(conf: Conf, view: View, c: Cell, x: int, y: int): Glyph
    requires ConfOk(conf)
  {
    Paint(conf, InkOf(c, CursorIn(view, x, y), view))
  }

  // ---- the window -------------------------------------------------------------------

  /** Columns `x0` up to `x1` of the row that starts at `base` are drawn, the rest is as it was. */
  ghost predicate Drew(conf: Conf, view: View, cells: seq<Cell>, was: seq<Glyph>, now: seq<Glyph>,
                       base: int, y: int, x0: int, x1: int)
    requires ConfOk(conf)
  {
    |now| == |was| && 0 <= base + x0 && base + x1 <= |was| && |cells| == |was| &&
    forall i :: 0 <= i < |was| ==>
      now[i] == if base + x0 <= i < base + x1 then Goal(conf, view, cells[i], i - base, y) else was[i]
  }

  /** Characters collected but not drawn yet will come out right with the colours in force. */
  ghost predicate Collected(conf: Conf, view: View, cells: seq<Cell>, text: seq<nat>, base: int, y: int, x: int,
                            look: Look)
    requires ConfOk(conf)
  {
    0 <= base + x && base + x + |text| <= |cells| &&
    forall k :: 0 <= k < |text| ==>
      Glyph(text[k], look.fg, look.bg, look.under, None) == Goal(conf, view, cells[base + x + k], x + k, y)
  }

  /** A copy of `m` cells from `src` to `dst`. */
  datatype Plan = Plan(src: int, dst: int, m: int)

  ghost predicate CopiedBy(p: Plan, was: seq<Glyph>, now: seq<Glyph>) {
    |was| == |now| && 0 <= p.src && p.src + p.m <= |was| && 0 <= p.dst && p.dst + p.m <= |was| &&
    forall i {:trigger now[i]} :: 0 <= i < |was| ==>
      now[i] == if p.dst <= i < p.dst + p.m then was[i - p.dst + p.src] else was[i]
  }

  class Window {
    const conf: Conf
    const columns: nat
    const rows: nat
    const glyphs: array<Glyph>
    var lastFG: nat
    var lastBG: nat

    ghost predicate Valid()
      reads this
    {
      ConfOk(conf) && glyphs.Length == columns * rows
    }

    constructor (conf: Conf, columns: nat, rows: nat)
      requires ConfOk(conf)
      ensures Valid() && fresh(glyphs) && this.conf == conf && this.columns == columns && this.rows == rows
    {
      MulMono(0, rows, columns);
      this.conf, this.columns, this.rows := conf, columns, rows;
      glyphs := new Glyph[columns * rows](_ => Glyph(0, 0, 0, false, None));
      lastFG, lastBG := 0xffff_ffff, 0xffff_ffff;
    }

    /** Copies `n` rows of the window's own contents, overlap allowed. */
    method CopyRows(srcY: int, dstY: int, height: int, ghost src: nat, ghost dst: nat, ghost n: nat)
      requires Valid() && srcY == src * conf.charHeight && dstY == dst * conf.charHeight &&
        height == n * conf.charHeight
      requires src + n <= rows && dst + n <= rows
      modifies glyphs
      ensures CopiedBy(Plan(src * columns, dst * columns, n * columns), old(glyphs[..]), glyphs[..])
    {
      hide CopiedBy;
      DivMul(src, conf.charHeight);
      DivMul(dst, conf.charHeight);
      DivMul(n, conf.charHeight);
      CopyFits(src, n, rows, columns);
      CopyFits(dst, n, rows, columns);
      CopyRun(srcY / conf.charHeight * columns, dstY / conf.charHeight * columns, height / conf.charHeight * columns);
    }

    method CopyRun(from: nat, to: nat, count: nat)
      requires from + count <= glyphs.Length && to + count <= glyphs.Length
      modifies glyphs
      ensures CopiedBy(Plan(from, to, count), old(glyphs[..]), glyphs[..])
    {
      ghost var was := glyphs[..];
      forall i | to <= i < to + count { glyphs[i] := glyphs[i - to + from]; }
      ghost var now := glyphs[..];
      forall i | 0 <= i < |was|
        ensures now[i] == if to <= i < to + count then was[i - to + from] else was[i]
      {
        assert now[i] == glyphs[i];
      }
    }

    /** Colours are set as 24-bit values. */
    method SetForeground(color: nat)
      modifies this`lastFG
      ensures lastFG == color % RGB
    {
      lastFG := color % RGB;
    }

    method SetBackground(color: nat)
      modifies this`lastBG
      ensures lastBG == color % RGB
    {
      lastBG := color % RGB;
    }

    method SetColors(fg: nat, bg: nat)
      modifies this`lastFG, this`lastBG
      ensures lastFG == fg && lastBG == bg
    {
      if lastBG != bg { lastBG := bg; }
      if lastFG != fg { lastFG := fg; }
    }

    /** Draws a string at pixel `winx`, baseline `winy`, with the colours in force. */
    method DrawString(winx: int, winy: int, text: seq<nat>, under: bool, ghost x: nat, ghost y: nat)
      requires Valid() && winx == x * conf.charWidth && winy == y * conf.charHeight + conf.ascent
      requires x + |text| <= columns && y < rows
      modifies glyphs
      ensures 0 <= y * columns + x && y * columns + x + |text| <= glyphs.Length
      ensures forall i :: 0 <= i < glyphs.Length ==>
        glyphs[i] == if y * columns + x <= i < y * columns + x + |text|
                     then Glyph(text[i - (y * columns + x)], lastFG, lastBG, under, None) else old(glyphs[i])
    {
      hide ConfOk;
      PixelsOf(winx, winy, x, y, |text|);
      PutGlyphs(CellOf(winx, winy), text, under);
    }

    /** The cell whose column starts at pixel `winx` and whose baseline is `winy`. */
    function CellOf(winx: int, winy: int): int
      requires Valid()
      reads this
    {
      (winy - conf.ascent) / conf.charHeight * columns + winx / conf.charWidth
    }

    lemma PixelsOf(winx: int, winy: int, x: nat, y: nat, n: nat)
      requires Valid() && winx == x * conf.charWidth && winy == y * conf.charHeight + conf.ascent
      requires x + n <= columns && y < rows
      ensures 0 <= y * columns + x && y * columns + x + n <= glyphs.Length && CellOf(winx, winy) == y * columns + x
    {
      DivMul(x, conf.charWidth);
      DivMul(y, conf.charHeight);
      MulMono(0, y, columns);
      MulMono(y + 1, rows, columns);
    }

    /** Character by character, from cell `at` on. */
    method PutGlyphs(at: int, text: seq<nat>, under: bool)
      requires 0 <= at && at + |text| <= glyphs.Length
      modifies glyphs
      ensures forall i :: 0 <= i < glyphs.Length ==>
        glyphs[i] == if at <= i < at + |text| then Glyph(text[i - at], lastFG, lastBG, under, None) else old(glyphs[i])
    {
      var k := 0;
      while k < |text|
        invariant 0 <= k <= |text|
        invariant forall i :: 0 <= i < glyphs.Length ==>
          glyphs[i] == if at <= i < at + k then Glyph(text[i - at], lastFG, lastBG, under, None) else old(glyphs[i])
      {
        glyphs[at + k] := Glyph(text[k], lastFG, lastBG, under, None);
        k := k + 1;
      }
    }

    /** Draws the box of an unfocused cursor around the cell at pixel `winx`. */
    method DrawFrame(winx: int, winy: int, ghost x: nat, ghost y: nat)
      requires Valid() && winx == x * conf.charWidth && winy == y * conf.charHeight + conf.ascent
      requires x < columns && y < rows
      modifies glyphs
      ensures 0 <= y * columns + x < glyphs.Length
      ensures forall i :: 0 <= i < glyphs.Length ==>
        glyphs[i] == if i == y * columns + x then old(glyphs[i]).(frame := Some(lastFG)) else old(glyphs[i])
    {
      PixelsOf(winx, winy, x, y, 1);
      var at := CellOf(winx, winy);
      glyphs[at] := glyphs[at].(frame := Some(lastFG));
    }
  }

  lemma CopyFits(y: nat, n: nat, rows: nat, columns: nat)
    requires y + n <= rows
    ensures 0 <= y * columns && 0 <= n * columns && y * columns + n * columns <= columns * rows
  {
    MulMono(0, y, columns);
    MulMono(0, n, columns);
    MulAdd(y, n, columns);
    MulMono(y + n, rows, columns);
  }

  lemma DivMul(x: nat, w: nat)
    requires w > 0
    ensures x * w / w == x
  {
    Quotient(x * w, w, x);
  }

  lemma Quotient(n: nat, w: nat, x: nat)
    requires w > 0 && n == x * w
    ensures n / w == x
  {
    var d, m := n / w, n % w;
    assert n == d * w + m && 0 <= m < w;
    assert (d + 1) * w == d * w + w && (x + 1) * w == x * w + w;
    if d < x { MulMono(d + 1, x, w); }
    if d > x { MulMono(x + 1, d, w); }
  }

  // ---- one line ---------------------------------------------------------------------

  ghost predicate Fits(win: Window, cbuf: CellBuffer)
    reads win, cbuf, cbuf.buf
  {
    win.Valid() && cbuf.InUse() && cbuf.width == win.columns && cbuf.height == win.rows
  }

  /** The row is drawn up to the collected text, which the colours in force suit. */
  ghost predicate Pen(win: Window, view: View, cells: seq<Cell>, was: seq<Glyph>, y: nat, x0: nat, cx: nat,
                      winx: int, text: seq<nat>, under: int)
    reads win, win.glyphs
  {
    win.Valid() && |cells| == win.glyphs.Length && y < win.rows && x0 <= cx - |text| && cx <= win.columns &&
    winx == (cx - |text|) * win.conf.charWidth &&
    Drew(win.conf, view, cells, was, win.glyphs[..], y * win.columns, y, x0, cx - |text|) &&
    Collected(win.conf, view, cells, text, y * win.columns, y, cx - |text|, Look(win.lastFG, win.lastBG, under == 1))
  }

  /** Draws the collected string with the colours in force; the pen moves past it. */
  method FlushStr(win: Window, winx: int, text: seq<nat>, under: int, view: View,
                  ghost cells: seq<Cell>, ghost was: seq<Glyph>, y: nat, ghost x0: nat, ghost cx: nat)
    returns (next: int)
    requires Pen(win, view, cells, was, y, x0, cx, winx, text, under)
    modifies win.glyphs
    ensures Pen(win, view, cells, was, y, x0, cx, next, [], under)
  {
    hide Goal, Drew, Collected, ConfOk;
    next := winx;
    CollectedNone(win.conf, view, cells, text, y * win.columns, y, cx - |text|,
                  Look(win.lastFG, win.lastBG, under == 1));
    if text != [] {
      ghost var mid := win.glyphs[..];
      win.DrawString(winx, y * win.conf.charHeight + win.conf.ascent, text, under == 1, cx - |text|, y);
      next := next + |text| * win.conf.charWidth;
      MulAdd(cx - |text|, |text|, win.conf.charWidth);
      DrewMore(win.conf, view, cells, was, mid, win.glyphs[..], text, y * win.columns, y, x0, cx - |text|,
               Look(win.lastFG, win.lastBG, under == 1));
    }
  }

  lemma CollectedNone(conf: Conf, view: View, cells: seq<Cell>, text: seq<nat>, base: int, y: int, x: int, look: Look)
    requires ConfOk(conf) && Collected(conf, view, cells, text, base, y, x, look)
    ensures Collected(conf, view, cells, [], base, y, x + |text|, look)
  {
    hide Goal, ConfOk;
  }

  /** Drawing the collected text extends the part of the row that is drawn. */
  lemma DrewMore(conf: Conf, view: View, cells: seq<Cell>, was: seq<Glyph>, mid: seq<Glyph>, now: seq<Glyph>,
                 text: seq<nat>, base: int, y: int, x0: int, x: int, look: Look)
    requires ConfOk(conf) && Drew(conf, view, cells, was, mid, base, y, x0, x) && x0 <= x
    requires Collected(conf, view, cells, text, base, y, x, look) && |now| == |mid|
    requires forall i :: 0 <= i < |now| ==>
      now[i] == if base + x <= i < base + x + |text|
                then Glyph(text[i - (base + x)], look.fg, look.bg, look.under, None) else mid[i]
    ensures Drew(conf, view, cells, was, now, base, y, x0, x + |text|)
  {
    hide Goal, ConfOk;
    forall i | base + x <= i < base + x + |text| ensures now[i] == Goal(conf, view, cells[i], i - base, y) {
      var k := i - (base + x);
      assert Glyph(text[k], look.fg, look.bg, look.under, None) == Goal(conf, view, cells[base + x + k], x + k, y);
    }
  }

  /** Draws what is collected, then takes new colours. */
  method Flush(win: Window, winx: int, text: seq<nat>, under: int, look: Look, view: View,
               ghost cells: seq<Cell>, ghost was: seq<Glyph>, y: nat, ghost x0: nat, ghost cx: nat)
    returns (next: int, uu: int)
    requires Pen(win, view, cells, was, y, x0, cx, winx, text, under)
    modifies win.glyphs, win`lastFG, win`lastBG
    ensures Pen(win, view, cells, was, y, x0, cx, next, [], uu) && uu == (if look.under then 1 else 0)
    ensures win.lastFG == look.fg && win.lastBG == look.bg
  {
    hide Goal, Drew;
    next := FlushStr(win, winx, text, under, view, cells, was, y, x0, cx);
    win.SetColors(look.fg, look.bg);
    uu := if look.under then 1 else 0;
  }

  /** The cursor would not show in this state: it is drawn as any other cell. */
  predicate Unseen(conf: Conf, shape: CursorShape)
    requires ConfOk(conf)
  {
    if shape.focused then !(conf.cursorFg[PhaseIndex(shape)] < RGB && conf.cursorBg[PhaseIndex(shape)] < RGB)
    else conf.cursorBg[2] >= RGB
  }

  /** The look a cell is drawn with, the cursor aside. */
  function LookOf(conf: Conf, view: View, c: Cell): (r: Look)
    requires ConfOk(conf)
    ensures r.fg < RGB && r.bg < RGB
  {
    DecodeLook(conf, c.style, c.fg, c.bg, view.reverse, view.colorMode)
  }

  /** Any other cell than a visible cursor's. */
  lemma PlainGoal(conf: Conf, view: View, c: Cell, x: int, y: int)
    requires ConfOk(conf) && (!CursorIn(view, x, y) || Unseen(conf, view.shape))
    ensures var l := LookOf(conf, view, c);
      Goal(conf, view, c, x, y) == Glyph(Printable(c.ch), l.fg, l.bg, l.under, None)
  {
    hide DecodeLook;
  }

  /** A visible cursor's cell. */
  lemma CursorGoal(conf: Conf, view: View, c: Cell, x: int, y: int)
    requires ConfOk(conf) && CursorIn(view, x, y) && !Unseen(conf, view.shape)
    ensures var l := LookOf(conf, view, c); var k := PhaseIndex(view.shape); var ch := Printable(c.ch);
      Goal(conf, view, c, x, y) ==
        if view.shape.focused then Glyph(ch, conf.cursorFg[k], conf.cursorBg[k], l.under, None)
        else Glyph(ch, l.fg, l.bg, l.under,
                   if conf.charWidth > 1 && conf.charHeight > 1 then Some(conf.cursorBg[2]) else None)
  {
    hide DecodeLook;
  }

  /** The cell under a visible cursor, drawn by itself. */
  method DrawCursor(win: Window, winx: int, c: Cell, look: Look, under: int, view: View,
                    ghost cells: seq<Cell>, ghost was: seq<Glyph>, y: nat, ghost x0: nat, ghost cx: nat)
    returns (next: int)
    requires Pen(win, view, cells, was, y, x0, cx, winx, [], under) && cx < win.columns
    requires 0 <= y * win.columns && y * win.columns + cx < |cells| && SameLook(c, cells[y * win.columns + cx])
    requires CursorIn(view, cx, y) && !Unseen(win.conf, view.shape)
    requires look == LookOf(win.conf, view, c)
    modifies win.glyphs, win`lastFG, win`lastBG
    ensures Pen(win, view, cells, was, y, x0, cx + 1, next, [], under)
  {
    hide Goal, DecodeLook, Unseen;
    CursorGoal(win.conf, view, cells[y * win.columns + cx], cx, y);
    var k := PhaseIndex(view.shape);
    var winy := y * win.conf.charHeight + win.conf.ascent;
    next := winx + win.conf.charWidth;
    MulAdd(cx, 1, win.conf.charWidth);
    if view.shape.focused {
      win.SetBackground(win.conf.cursorBg[k]);
      win.SetForeground(win.conf.cursorFg[k]);
      CursorColours(win.conf, view.shape);
      win.DrawString(winx, winy, [Printable(c.ch)], look.under, cx, y);
      win.SetColors(look.fg, look.bg);
    } else {
      DrawBoxed(win, winx, winy, c, look, view, cx, y);
    }
  }

  lemma CursorColours(conf: Conf, shape: CursorShape)
    requires ConfOk(conf) && !Unseen(conf, shape)
    ensures shape.focused ==>
      conf.cursorFg[PhaseIndex(shape)] % RGB == conf.cursorFg[PhaseIndex(shape)] &&
      conf.cursorBg[PhaseIndex(shape)] % RGB == conf.cursorBg[PhaseIndex(shape)]
    ensures !shape.focused ==> conf.cursorBg[2] % RGB == conf.cursorBg[2]
  {
  }

  /** The unfocused cursor: the cell as it is, and a box around it. */
  method DrawBoxed(win: Window, winx: int, winy: int, c: Cell, look: Look, view: View, ghost x: nat, ghost y: nat)
    requires win.Valid() && look.fg < RGB && look.bg < RGB && !view.shape.focused && !Unseen(win.conf, view.shape)
    requires winx == x * win.conf.charWidth && winy == y * win.conf.charHeight + win.conf.ascent
    requires x < win.columns && y < win.rows
    modifies win.glyphs, win`lastFG, win`lastBG
    ensures 0 <= y * win.columns + x < win.glyphs.Length
    ensures forall i :: 0 <= i < win.glyphs.Length ==>
      win.glyphs[i] ==
        if i == y * win.columns + x
        then Glyph(Printable(c.ch), look.fg, look.bg, look.under,
                   if win.conf.charWidth > 1 && win.conf.charHeight > 1 then Some(win.conf.cursorBg[2]) else None)
        else old(win.glyphs[i])
  {
    hide Unseen;
    win.SetBackground(look.bg);
    win.SetForeground(look.fg);
    win.DrawString(winx, winy, [Printable(c.ch)], look.under, x, y);
    win.SetColors(look.fg, look.bg);
    CursorColours(win.conf, view.shape);
    win.SetForeground(win.conf.cursorBg[2]);
    if win.conf.charWidth > 1 && win.conf.charHeight > 1 { win.DrawFrame(winx, winy, x, y); }
  }

  /** Where the loop still has to look for the cursor. */
  ghost predicate Watches(conf: Conf, view: View, y: int, curx: int)
    requires ConfOk(conf)
  {
    (forall x :: CursorIn(view, x, y) ==> curx == x || Unseen(conf, view.shape)) &&
    (curx >= 0 ==> CursorIn(view, curx, y))
  }

  /** One more collected character, of the colours in force and not a visible cursor's. */
  lemma CollectNext(win: Window, view: View, cells: seq<Cell>, was: seq<Glyph>, y: nat, x0: nat, cx: nat,
                    winx: int, text: seq<nat>, under: int, c: Cell, curx: int)
    requires Pen(win, view, cells, was, y, x0, cx, winx, text, under) && cx < win.columns
    requires 0 <= y * win.columns && y * win.columns + cx < |cells| && SameLook(c, cells[y * win.columns + cx])
    requires Look(win.lastFG, win.lastBG, under == 1) == LookOf(win.conf, view, c)
    requires Watches(win.conf, view, y, curx) && cx != curx
    ensures Pen(win, view, cells, was, y, x0, cx + 1, winx, text + [Printable(c.ch)], under)
  {
    hide Goal, DecodeLook, Unseen, Drew;
    PlainGoal(win.conf, view, cells[y * win.columns + cx], cx, y);
  }

  lemma StartPen(win: Window, view: View, cells: seq<Cell>, y: nat, x0: nat, curx: int)
    requires win.Valid() && |cells| == win.glyphs.Length && y < win.rows && x0 <= win.columns
    requires curx == if view.cursor.Some? && view.cursor.value.1 == y then view.cursor.value.0 else -666
    ensures Pen(win, view, cells, win.glyphs[..], y, x0, x0, x0 * win.conf.charWidth, [], -1)
    ensures Watches(win.conf, view, y, curx)
  {
    MulMono(0, y, win.columns);
    MulMono(y + 1, win.rows, win.columns);
  }

  /** An invisible cursor is forgotten; a visible one is where the loop looks for it. */
  lemma LoseCursor(conf: Conf, view: View, y: int, curx: int)
    requires ConfOk(conf) && curx >= 0 && Watches(conf, view, y, curx)
    ensures Unseen(conf, view.shape) ==> Watches(conf, view, y, -666)
    ensures CursorIn(view, curx, y)
  {
  }

  lemma StillLooks(cells: seq<Cell>, now: seq<Cell>, from: int, i: nat)
    requires Walked(cells, now, from, i, Clean) && from <= i < |cells|
    ensures now[i] == cells[i] && Walked(cells, now[i := Apply(Clean, now[i])], from, i + 1, Clean)
  {
  }

  /** Columns `x0` up to `x1` of row `y`: runs of cells that look alike become one string each. */
  method RenderClipped(win: Window, cbuf: CellBuffer, view: View, x0: nat, y: nat, x1: nat)
    requires Fits(win, cbuf) && x0 < x1 <= cbuf.width && y < cbuf.height
    modifies win`lastFG, win`lastBG, win.glyphs, cbuf`dirtyCount, cbuf.buf
    ensures Fits(win, cbuf) && 0 <= y * cbuf.width
    ensures Walked(old(cbuf.buf[..]), cbuf.buf[..], y * cbuf.width + x0, y * cbuf.width + x1, Clean)
    ensures Drew(win.conf, view, old(cbuf.buf[..]), old(win.glyphs[..]), win.glyphs[..], y * cbuf.width, y, x0, x1)
  {
    hide DirtyCount, LookOf, Goal, Unseen, Watches, Pen, Walked, Drew;
    ghost var cells, was := cbuf.buf[..], win.glyphs[..];
    LineFits(cbuf.G(), x1 - 1, y);
    var base := y * cbuf.width;
    var winx, cx, count, text, under := x0 * win.conf.charWidth, x0, x1 - x0, [], -1;
    var curx := if view.cursor.Some? && view.cursor.value.1 == y then view.cursor.value.0 else -666;
    StartPen(win, view, cells, y, x0, curx);
    StartWalk(cells, base + x0);
    ghost var settled := false;
    while count > 0
      invariant cx + count == x1 && x0 <= cx && count >= 0
      invariant cbuf.InUse() && cbuf.width == win.columns && cbuf.height == win.rows && base + x1 <= cbuf.buf.Length
      invariant Walked(cells, cbuf.buf[..], base + x0, base + cx, Clean)
      invariant Pen(win, view, cells, was, y, x0, cx, winx, text, under)
      invariant Watches(win.conf, view, y, curx)
      invariant settled && count > 0 ==> Agrees(win, view, cbuf.buf[base + cx], under)
      decreases count, if cx == curx then 1 else 0, if settled then 0 else 1
    {
      StillLooks(cells, cbuf.buf[..], base + x0, base + cx);
      var c := cbuf.buf[base + cx];
      var look := LookOf(win.conf, view, c);
      if cx == curx {
        winx, under := Flush(win, winx, text, under, look, view, cells, was, y, x0, cx);
        text := [];
        LoseCursor(win.conf, view, y, curx);
        if Unseen(win.conf, view.shape) {
          curx, settled := -666, true;
        } else {
          winx := DrawCursor(win, winx, c, look, under, view, cells, was, y, x0, cx);
          cbuf.CleanCell(base + cx);
          cx, count, settled := cx + 1, count - 1, false;
        }
      } else if win.lastFG != look.fg || win.lastBG != look.bg || under != (if look.under then 1 else 0) {
        winx, under := Flush(win, winx, text, under, look, view, cells, was, y, x0, cx);
        text, settled := [], true;
      } else {
        CollectNext(win, view, cells, was, y, x0, cx, winx, text, under, c, curx);
        text := text + [Printable(c.ch)];
        cbuf.CleanCell(base + cx);
        cx, count, settled := cx + 1, count - 1, false;
      }
    }
    winx := FlushStr(win, winx, text, under, view, cells, was, y, x0, cx);
    PenDrew(win, view, cells, was, y, x0, cx, winx, under);
  }

  /** The colours in force are those of the next cell. */
  ghost predicate Agrees(win: Window, view: View, c: Cell, under: int)
    requires ConfOk(win.conf)
    reads win
  {
    win.lastFG == LookOf(win.conf, view, c).fg && win.lastBG == LookOf(win.conf, view, c).bg &&
    under == (if LookOf(win.conf, view, c).under then 1 else 0)
  }

  lemma StartWalk(cells: seq<Cell>, i: int)
    ensures Walked(cells, cells, i, i, Clean)
  {
  }

  lemma PenDrew(win: Window, view: View, cells: seq<Cell>, was: seq<Glyph>, y: nat, x0: nat, cx: nat, winx: int,
                under: int)
    requires Pen(win, view, cells, was, y, x0, cx, winx, [], under)
    ensures win.Valid() && Drew(win.conf, view, cells, was, win.glyphs[..], y * win.columns, y, x0, cx)
  {
  }

  // ---- strips, lines, the whole screen ----------------------------------------------

  /** Cell `i` of the window: drawn as its cell should look. */
  function GoalAt(conf: Conf, view: View, g: Grid, i: nat): Glyph
    requires ConfOk(conf) && Live(g) && i < |g.cells|
  {
    Goal(conf, view, g.cells[i], Col(i, g.width), Row(i, g.width))
  }

  /** The cells of a rectangle are drawn and clean, the others as before. */
  ghost predicate DrewRect(conf: Conf, view: View, g: Grid, now: Grid, was: seq<Glyph>, shown: seq<Glyph>,
                           x0: int, y0: int, x1: int, y1: int)
    requires ConfOk(conf) && Live(g)
  {
    now == Region(g, x0, y0, x1, y1, Clean) && |was| == |shown| == |g.cells| &&
    forall i :: 0 <= i < |was| ==>
      shown[i] == if InRect(i, g.width, x0, y0, x1, y1) then GoalAt(conf, view, g, i) else was[i]
  }

  lemma DrewIsRect(conf: Conf, view: View, g: Grid, now: Grid, was: seq<Glyph>, shown: seq<Glyph>, x0: nat, y: nat,
                   x1: nat)
    requires ConfOk(conf) && Live(g) && SameSize(now, g) && x0 < x1 <= g.width && y < g.height && |was| == |g.cells|
    requires Walked(g.cells, now.cells, y * g.width + x0, y * g.width + x1, Clean)
    requires Drew(conf, view, g.cells, was, shown, y * g.width, y, x0, x1)
    ensures DrewRect(conf, view, g, now, was, shown, x0, y, x1 - 1, y)
  {
    hide Row, Col, Apply, InRect, Goal;
    OneLine(g, now.cells, x0, y, x1 - x0, Clean);
    forall i | 0 <= i < |was|
      ensures shown[i] == if InRect(i, g.width, x0, y, x1 - 1, y) then GoalAt(conf, view, g, i) else was[i]
    {
      InRun(i, g.width, x0, y, x1 - x0);
      if y * g.width + x0 <= i < y * g.width + x1 { ColInRow(i, g.width, y); }
    }
  }

  lemma ClipRect(conf: Conf, view: View, g: Grid, now: Grid, was: seq<Glyph>, shown: seq<Glyph>, x0: int, y: nat,
                 x1: int)
    requires ConfOk(conf) && Live(g) && DrewRect(conf, view, g, now, was, shown, Max(x0, 0), y, Min(x1, g.width - 1), y)
    ensures DrewRect(conf, view, g, now, was, shown, x0, y, x1, y)
  {
    hide Row, Col, Apply, Goal;
    forall i | 0 <= i < |g.cells|
      ensures InRect(i, g.width, x0, y, x1, y) == InRect(i, g.width, Max(x0, 0), y, Min(x1, g.width - 1), y)
    {
    }
    assert now.cells == Region(g, x0, y, x1, y, Clean).cells;
  }

  lemma NothingDrawn(conf: Conf, view: View, g: Grid, was: seq<Glyph>, x0: int, y: int, x1: int)
    requires ConfOk(conf) && Live(g) && |was| == |g.cells|
    requires x1 < x0 || y < 0 || y >= g.height || x1 < 0 || x0 >= g.width
    ensures DrewRect(conf, view, g, g, was, was, x0, y, x1, y)
  {
    hide Row, Col, Apply, Goal;
    forall i | 0 <= i < |g.cells| ensures !InRect(i, g.width, x0, y, x1, y) {
      RowInGrid(i, g.width, g.height);
    }
    assert g.cells == Region(g, x0, y, x1, y, Clean).cells;
  }

  /** Draws `count` cells of a line, clipped to the buffer. */
  method RenderLine(win: Window, cbuf: CellBuffer, view: View, cx: int, cy: int, count: int)
    requires Fits(win, cbuf)
    modifies win`lastFG, win`lastBG, win.glyphs, cbuf`dirtyCount, cbuf.buf
    ensures Fits(win, cbuf)
    ensures DrewRect(win.conf, view, old(cbuf.G()), cbuf.G(), old(win.glyphs[..]), win.glyphs[..], cx, cy,
                     cx + count - 1, cy)
  {
    hide DirtyCount, DrewRect, Drew, Walked, Region;
    ghost var g, was := cbuf.G(), win.glyphs[..];
    if count <= 0 || cy < 0 || cy >= cbuf.height || (cx < 0 && cx + count <= 0) || cx >= cbuf.width {
      NothingDrawn(win.conf, view, g, was, cx, cy, cx + count - 1);
      return;
    }
    var x, n := cx, count;
    if x < 0 { n := n + x; x := 0; }
    if x + n > cbuf.width { n := cbuf.width - x; }
    RenderClipped(win, cbuf, view, x, cy, x + n);
    DrewIsRect(win.conf, view, g, cbuf.G(), was, win.glyphs[..], x, cy, x + n);
    ClipRect(win.conf, view, g, cbuf.G(), was, win.glyphs[..], cx, cy, cx + count - 1);
  }

  /** Cell `i` is drawn and clean. */
  ghost predicate Made(conf: Conf, view: View, g: Grid, now: seq<Cell>, shown: seq<Glyph>, i: nat)
    requires ConfOk(conf) && Live(g) && |now| == |shown| == |g.cells| && i < |g.cells|
  {
    shown[i] == GoalAt(conf, view, g, i) && now[i] == Apply(Clean, g.cells[i])
  }

  /** Cell `i` is as it was. */
  ghost predicate Left(g: Grid, now: seq<Cell>, was: seq<Glyph>, shown: seq<Glyph>, i: nat)
    requires |now| == |was| == |shown| == |g.cells| && i < |g.cells|
  {
    shown[i] == was[i] && now[i] == g.cells[i]
  }

  /** A scan that has looked at the cells before `upto` and holds back those from `hold` on:
      what it left alone of the rest was clean. */
  ghost predicate Scanned(conf: Conf, view: View, g: Grid, now: seq<Cell>, was: seq<Glyph>, shown: seq<Glyph>,
                          hold: int, held: int, upto: int)
    requires ConfOk(conf) && Live(g)
  {
    |now| == |was| == |shown| == |g.cells| &&
    forall i :: 0 <= i < |g.cells| ==>
      (Made(conf, view, g, now, shown, i) || Left(g, now, was, shown, i)) &&
      (i >= hold ==> Left(g, now, was, shown, i)) &&
      (i < upto && !(hold <= i < held) && Left(g, now, was, shown, i) ==> !g.cells[i].dirty)
  }

  /** A strip is drawn. */
  lemma StripDrawn(conf: Conf, view: View, g: Grid, mid: Grid, now: Grid, was: seq<Glyph>, between: seq<Glyph>,
                   shown: seq<Glyph>,
                   y: nat, rsx: nat, rct: nat, upto: int)
    requires ConfOk(conf) && Live(g) && SameSize(mid, g) && y < g.height
    requires 0 < rct && rsx + rct <= g.width && y * g.width + rsx + rct <= upto
    requires Scanned(conf, view, g, mid.cells, was, between, y * g.width + rsx, y * g.width + rsx + rct, upto)
    requires DrewRect(conf, view, mid, now, between, shown, rsx, y, rsx + rct - 1, y)
    ensures Scanned(conf, view, g, now.cells, was, shown, upto, upto, upto)
  {
    hide Row, Col, Apply, InRect, Goal, Made, Left;
    forall i: nat | i < |g.cells|
      ensures Made(conf, view, g, now.cells, shown, i) || Left(g, now.cells, was, shown, i)
      ensures i >= upto ==> Left(g, now.cells, was, shown, i)
      ensures i < upto && Left(g, now.cells, was, shown, i) ==> !g.cells[i].dirty
    {
      StripCell(conf, view, g, mid, now, was, between, shown, y, rsx, rct, upto, i);
    }
  }

  lemma StripCell(conf: Conf, view: View, g: Grid, mid: Grid, now: Grid, was: seq<Glyph>, between: seq<Glyph>,
                  shown: seq<Glyph>,
                  y: nat, rsx: nat, rct: nat, upto: int, i: nat)
    requires ConfOk(conf) && Live(g) && SameSize(mid, g) && y < g.height && i < |g.cells|
    requires 0 < rct && rsx + rct <= g.width && y * g.width + rsx + rct <= upto
    requires Scanned(conf, view, g, mid.cells, was, between, y * g.width + rsx, y * g.width + rsx + rct, upto)
    requires DrewRect(conf, view, mid, now, between, shown, rsx, y, rsx + rct - 1, y)
    ensures |now.cells| == |shown| == |g.cells| == |was|
    ensures Made(conf, view, g, now.cells, shown, i) || Left(g, now.cells, was, shown, i)
    ensures i >= upto ==> Left(g, now.cells, was, shown, i)
    ensures i < upto && Left(g, now.cells, was, shown, i) ==> !g.cells[i].dirty
  {
    hide Row, Col, InRect, Goal;
    InRun(i, g.width, rsx, y, rct);
  }

  /** Draws the dirty cells of a line; a few clean cells between two strips join them. */
  method RenderDirtyLine(win: Window, cbuf: CellBuffer, view: View, cy: int, ghost g: Grid, ghost was: seq<Glyph>)
    requires Fits(win, cbuf) && Live(g) && SameSize(g, cbuf.G()) && 0 <= cy < cbuf.height
    requires var at := cy * cbuf.width; Scanned(win.conf, view, g, cbuf.buf[..], was, win.glyphs[..], at, at, at)
    modifies win`lastFG, win`lastBG, win.glyphs, cbuf`dirtyCount, cbuf.buf
    ensures Fits(win, cbuf) && SameSize(g, cbuf.G())
    ensures var at := (cy + 1) * cbuf.width; Scanned(win.conf, view, g, cbuf.buf[..], was, win.glyphs[..], at, at, at)
  {
    hide DirtyCount, DrewRect, Scanned;
    var rsx, rct, ecc, cx, wdt := 0, 0, 0, 0, cbuf.width;
    var base := cy * wdt;
    LineFits(g, 0, cy);
    MulAdd(cy, 1, wdt);
    while cx < wdt
      invariant Fits(win, cbuf) && SameSize(g, cbuf.G()) && wdt == cbuf.width && 0 <= cx <= wdt
      invariant 0 <= rsx && 0 <= rct && rsx + rct <= cx
      invariant rct > 0 ==>
        Scanned(win.conf, view, g, cbuf.buf[..], was, win.glyphs[..], base + rsx, base + rsx + rct, base + cx)
      invariant rct == 0 ==>
        Scanned(win.conf, view, g, cbuf.buf[..], was, win.glyphs[..], base + cx, base + cx, base + cx)
    {
      NextCell(win.conf, view, g, cbuf.buf[..], was, win.glyphs[..],
               if rct > 0 then base + rsx else base + cx, if rct > 0 then base + rsx + rct else base + cx, base + cx);
      if !cbuf.buf[base + cx].dirty {
        if rct > 0 {
          ecc := ecc + 1;
          if ecc > 3 {
            DrawStrip(win, cbuf, view, cy, rsx, rct, base + cx + 1, g, was);
            rct := 0;
          }
        }
      } else {
        if rct == 0 { rsx := cx; }
        rct := cx - rsx + 1;
      }
      cx := cx + 1;
    }
    if rct > 0 { DrawStrip(win, cbuf, view, cy, rsx, rct, base + cx, g, was); }
  }

  method DrawStrip(win: Window, cbuf: CellBuffer, view: View, cy: int, rsx: int, rct: int, ghost upto: int,
                   ghost g: Grid, ghost was: seq<Glyph>)
    requires Fits(win, cbuf) && Live(g) && SameSize(g, cbuf.G()) && 0 <= cy < cbuf.height
    requires 0 <= rsx && 0 < rct && rsx + rct <= cbuf.width && cy * cbuf.width + rsx + rct <= upto
    requires Scanned(win.conf, view, g, cbuf.buf[..], was, win.glyphs[..], cy * cbuf.width + rsx,
                     cy * cbuf.width + rsx + rct, upto)
    modifies win`lastFG, win`lastBG, win.glyphs, cbuf`dirtyCount, cbuf.buf
    ensures Fits(win, cbuf) && SameSize(g, cbuf.G())
    ensures Scanned(win.conf, view, g, cbuf.buf[..], was, win.glyphs[..], upto, upto, upto)
  {
    hide DirtyCount, Scanned, Region, GoalAt;
    ghost var mid, between := cbuf.G(), win.glyphs[..];
    RenderLine(win, cbuf, view, rsx, cy, rct);
    StripDrawn(win.conf, view, g, mid, cbuf.G(), was, between, win.glyphs[..], cy, rsx, rct, upto);
  }

  /** One more cell looked at: a clean one may be passed over, a dirty one joins or starts a strip. */
  lemma NextCell(conf: Conf, view: View, g: Grid, now: seq<Cell>, was: seq<Glyph>, shown: seq<Glyph>, hold: int,
                 held: int, upto: int)
    requires ConfOk(conf) && Live(g) && 0 <= hold <= held <= upto < |g.cells|
    requires Scanned(conf, view, g, now, was, shown, hold, held, upto)
    ensures now[upto] == g.cells[upto]
    ensures !now[upto].dirty && hold == held ==> Scanned(conf, view, g, now, was, shown, upto + 1, upto + 1, upto + 1)
    ensures !now[upto].dirty && hold != held ==> Scanned(conf, view, g, now, was, shown, hold, held, upto + 1)
    ensures Scanned(conf, view, g, now, was, shown, hold, upto + 1, upto + 1)
  {
    hide Made;
  }

  /** Draws every dirty cell; when the counter says so, the remaining rows are skipped. */
  method RenderDirty(win: Window, cbuf: CellBuffer, view: View)
    requires Fits(win, cbuf)
    modifies win`lastFG, win`lastBG, win.glyphs, cbuf`dirtyCount, cbuf.buf
    ensures Fits(win, cbuf) && SameSize(cbuf.G(), old(cbuf.G())) && cbuf.dirtyCount == 0
    ensures cbuf.G() == Region(old(cbuf.G()), 0, 0, cbuf.width - 1, cbuf.height - 1, Clean)
    ensures |win.glyphs[..]| == |old(cbuf.G()).cells|
    ensures forall i :: 0 <= i < |old(cbuf.G()).cells| ==>
      win.glyphs[i] == GoalAt(win.conf, view, old(cbuf.G()), i) ||
      (win.glyphs[i] == old(win.glyphs[i]) && !old(cbuf.G()).cells[i].dirty)
    ensures old(cbuf.dirtyCount) == 0 ==> win.glyphs[..] == old(win.glyphs[..])
  {
    hide DirtyCount, Scanned, Region, GoalAt;
    ghost var g, was := cbuf.G(), win.glyphs[..];
    StartScan(win.conf, view, g, was);
    var cy := 0;
    while cy < cbuf.height && cbuf.dirtyCount != 0
      invariant Fits(win, cbuf) && SameSize(g, cbuf.G()) && 0 <= cy <= cbuf.height
      invariant var at := cy * cbuf.width; Scanned(win.conf, view, g, cbuf.buf[..], was, win.glyphs[..], at, at, at)
      invariant old(cbuf.dirtyCount) == 0 ==> cy == 0 && cbuf.dirtyCount == 0 && win.glyphs[..] == was
    {
      RenderDirtyLine(win, cbuf, view, cy, g, was);
      cy := cy + 1;
    }
    AllScanned(win.conf, view, g, cbuf.buf[..], was, win.glyphs[..], cy);
  }

  lemma StartScan(conf: Conf, view: View, g: Grid, was: seq<Glyph>)
    requires ConfOk(conf) && Live(g) && |was| == |g.cells|
    ensures Scanned(conf, view, g, g.cells, was, was, 0, 0, 0)
  {
    hide Made;
  }

  /** Nothing is dirty any more, whether the rows or the dirty cells ran out. */
  lemma AllScanned(conf: Conf, view: View, g: Grid, now: seq<Cell>, was: seq<Glyph>, shown: seq<Glyph>, cy: nat)
    requires ConfOk(conf) && Live(g) && cy <= g.height && (cy == g.height || DirtyCount(now) == 0)
    requires Scanned(conf, view, g, now, was, shown, cy * g.width, cy * g.width, cy * g.width)
    ensures DirtyCount(now) == 0 && now == Region(g, 0, 0, g.width - 1, g.height - 1, Clean).cells
    ensures forall i :: 0 <= i < |g.cells| ==>
      shown[i] == GoalAt(conf, view, g, i) || (shown[i] == was[i] && !g.cells[i].dirty)
  {
    hide Region, GoalAt, DirtyCount;
    WholeGrid(g, Clean);
    forall i | 0 <= i < |g.cells|
      ensures !now[i].dirty && now[i] == Apply(Clean, g.cells[i])
      ensures shown[i] == GoalAt(conf, view, g, i) || (shown[i] == was[i] && !g.cells[i].dirty)
    {
      if Left(g, now, was, shown, i) && cy < g.height && now[i].dirty { DirtyCountSome(now, i); }
    }
    DirtyCountNone(now);
  }
}
