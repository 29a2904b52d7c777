/** What a painted character cell looks like, colour by colour. */
module Painting {
  import opened Cells
  import opened CsiModel
  import opened Fidelity
  import opened Render

  // ---- colours ----------------------------------------------------------------------

  /** Neither the terminal nor the configuration asks for a tinted screen. */
  predicate NormalColors(conf: Conf, colorMode: int) {
    var mode := if colorMode >= 0 then colorMode else conf.colorMode;
    mode < 1 || mode > 4
  }

  /** The palette entries that default colours stand for, by attribute. */
  function DefaultEntry(style: Style, isFg: bool): nat {
    if !isFg then (if style.blink then 259 else 257)
    else if style.bold then
      if style.underline then (if style.blink then 265 else 262) else (if style.blink then 263 else 260)
    else if style.underline then (if style.blink then 264 else 261)
    else (if style.blink then 258 else 256)
  }

  /** A colour word as it is shown: a direct colour is itself, a number is its palette entry, the first
      eight brightened by blink and by a bold foreground, and the defaults have entries of their own. */
  predicate ShownAs(conf: Conf, word: nat, style: Style, isFg: bool, shown: nat)
    requires |conf.tty| == PALETTE
  {
    (word < RGB ==> shown == word) &&
    (STD_COLOR <= word < STD_COLOR + 8 && (style.blink || (isFg && style.bold)) ==>
       shown == conf.tty[word - STD_COLOR + 8]) &&
    (STD_COLOR <= word < STD_COLOR + 8 && !style.blink && !(isFg && style.bold) ==>
       shown == conf.tty[word - STD_COLOR]) &&
    (STD_COLOR + 8 <= word < STD_COLOR + 256 ==> shown == conf.tty[word - STD_COLOR]) &&
    (word == DEFAULT_COLOR ==> shown == conf.tty[DefaultEntry(style, isFg)])
  }

  lemma DecodedAs(conf: Conf, word: nat, style: Style, isFg: bool)
    requires ConfOk(conf)
    ensures ShownAs(conf, word, style, isFg, DecodeColor(conf, Normal, word, style, isFg).0)
  {
  }

  // ---- cells ------------------------------------------------------------------------

  /** Ordinary text: not selected, and the cursor is elsewhere. */
  predicate PlainText(ink: Ink) { !ink.style.selection && ink.cursor.None? }

  /** The same glyph with its two colours exchanged. */
  function Exchanged(g: Glyph): Glyph { g.(fg := g.bg, bg := g.fg) }

  /** The two colours the right way round, or exchanged when exactly one of the cell and the screen is inverse. */
  predicate TextColors(conf: Conf, ink: Ink, g: Glyph)
    requires |conf.tty| == PALETTE
  {
    if ink.style.inverse == ink.reverse then
      ShownAs(conf, ink.fg, ink.style, true, g.fg) && ShownAs(conf, ink.bg, ink.style, false, g.bg)
    else
      ShownAs(conf, ink.fg, ink.style, true, g.bg) && ShownAs(conf, ink.bg, ink.style, false, g.fg)
  }

  /** A line is drawn under palette colours only, and not where bold has brightened the colour. */
  predicate TextUnderline(conf: Conf, ink: Ink, g: Glyph) {
    g.under <==>
      ink.style.underline && conf.underlines && RGB <= ink.fg && ink.fg % RGB <= 255 &&
      (ink.style.bold ==> ink.fg % RGB >= 8)
  }

  lemma PlainShown(conf: Conf, ink: Ink)
    requires ConfOk(conf) && PlainText(ink)
    ensures var g := Paint(conf, ink);
      g.ch == (if PrintableCp(ink.ch) then ink.ch else 0xfffd) && g.frame == None && TextUnderline(conf, ink, g) &&
      (NormalColors(conf, ink.colorMode) ==> TextColors(conf, ink, g))
  {
    hide DecodeColor, ShownAs, ConfOk;
    LineUnder(conf, ink.fg, ink.style, ModeOf(if ink.colorMode >= 0 then ink.colorMode else conf.colorMode));
    DecodedAs(conf, ink.fg, ink.style, true);
    DecodedAs(conf, ink.bg, ink.style, false);
  }

  lemma LineUnder(conf: Conf, word: nat, style: Style, mode: ColorMode)
    requires ConfOk(conf)
    ensures DecodeColor(conf, mode, word, style, true).1 <==>
      style.underline && conf.underlines && RGB <= word && word % RGB <= 255 && (style.bold ==> word % RGB >= 8)
  {
    hide Tint;
  }

  /** In every colour mode: turning one of inverse text and reverse video over exchanges the colours,
      turning both over changes nothing. */
  lemma InverseExchanges(conf: Conf, ink: Ink)
    requires ConfOk(conf) && PlainText(ink)
    ensures var turned := ink.style.(inverse := !ink.style.inverse);
      Paint(conf, ink.(style := turned)) == Exchanged(Paint(conf, ink)) &&
      Paint(conf, ink.(reverse := !ink.reverse)) == Exchanged(Paint(conf, ink)) &&
      Paint(conf, ink.(style := turned, reverse := !ink.reverse)) == Paint(conf, ink)
  {
    hide Tint, ConfOk, Printable;
    StyleApart(conf, ink.fg, ink.style, true);
    StyleApart(conf, ink.bg, ink.style, false);
  }

  /** The inverse bit picks no palette entry. */
  lemma StyleApart(conf: Conf, word: nat, style: Style, isFg: bool)
    requires ConfOk(conf)
    ensures var turned := style.(inverse := !style.inverse);
      forall mode: ColorMode ::
        DecodeColor(conf, mode, word, turned, isFg) == DecodeColor(conf, mode, word, style, isFg)
  {
    hide Tint;
    var turned, lines := style.(inverse := !style.inverse), conf.underlines;
    assert PaletteIndex(word % RGB, turned, isFg, lines) == PaletteIndex(word % RGB, style, isFg, lines);
  }

  /** Selected text has the colours of selections, whatever its own are. */
  lemma SelectedShown(conf: Conf, ink: Ink)
    requires ConfOk(conf) && ink.style.selection && ink.cursor.None?
    ensures var ch := if PrintableCp(ink.ch) then ink.ch else 0xfffd;
      Paint(conf, ink) == Glyph(ch, conf.selFg, conf.selBg, false, None)
  {
  }

  /** The cell under the cursor: its own glyph, in the cursor's colours of this phase when the window has
      the focus, in a box when it has not; colours that are switched off leave it alone. */
  lemma CursorShown(conf: Conf, ink: Ink)
    requires ConfOk(conf) && ink.cursor.Some?
    ensures var plain := Paint(conf, ink.(cursor := None));
      var k := if ink.cursor.value.phase == 0 then 0 else 1;
      Paint(conf, ink) ==
        if ink.cursor.value.focused && conf.cursorFg[k] < RGB && conf.cursorBg[k] < RGB
        then plain.(fg := conf.cursorFg[k], bg := conf.cursorBg[k])
        else if !ink.cursor.value.focused && conf.cursorBg[2] < RGB && conf.charWidth > 1 && conf.charHeight > 1
        then plain.(frame := Some(conf.cursorBg[2]))
        else plain
  {
    hide DecodeLook, Printable;
  }

  /** What a reader sees in a cell the cursor is not in. */
  ghost predicate Legible(conf: Conf, ink: Ink, g: Glyph)
    requires |conf.tty| == PALETTE
  {
    ink.cursor.None? ==>
      g.ch == (if PrintableCp(ink.ch) then ink.ch else 0xfffd) && g.frame == None &&
      if ink.style.selection then g.fg == conf.selFg && g.bg == conf.selBg && !g.under
      else TextUnderline(conf, ink, g) && (NormalColors(conf, ink.colorMode) ==> TextColors(conf, ink, g))
  }

  lemma PaintLegible(conf: Conf, ink: Ink)
    requires ConfOk(conf)
    ensures Legible(conf, ink, Paint(conf, ink))
  {
    hide Paint, TextColors, TextUnderline;
    if ink.cursor.None? {
      if ink.style.selection { SelectedShown(conf, ink); } else { PlainShown(conf, ink); }
    }
  }

  // ---- shades -----------------------------------------------------------------------

  /** The brightness of greys and of the three primaries: green counts most, blue least. */
  lemma Shades(v: nat)
    requires v < 256
    ensures Luminance(Mix(v, v, v)) == if v == 0 then 0 else v - 1
    ensures Luminance(Mix(255, 0, 0)) == 76 && Luminance(Mix(0, 255, 0)) == 150 && Luminance(Mix(0, 0, 255)) == 28
  {
    hide Red, GreenOf, Blue;
    Channels(v, v, v);
    Channels(255, 0, 0);
    Channels(0, 255, 0);
    Channels(0, 0, 255);
  }
}
