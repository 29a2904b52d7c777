/** Attributes: what the codes of a list do to the pen, from the bytes of the list to the colours of
    the text typed after it. */
module Attributes {
  import opened Cells
  import opened TermModel
  import opened CsiModel
  import opened ScrollbackRuns
  import opened Commands
  import CursorMoves
  import Fidelity
  import Painting
  import Render
  import Typing
  import Utf8

  /** The pen after a list of codes. */
  function Pen(a: Cell, codes: seq<int>): Cell { Sgr(a, codes, |codes|) }

  // ---- single codes -----------------------------------------------------------------

  lemma PlainCodes(a: Cell)
    ensures Pen(a, []) == Pen(a, [0]) == a.(style := PLAIN, fg := DEFAULT_COLOR, bg := DEFAULT_COLOR)
    ensures Pen(a, [39]) == a.(fg := DEFAULT_COLOR) && Pen(a, [49]) == a.(bg := DEFAULT_COLOR)
  {
    One(a, 0);
    One(a, 39);
    One(a, 49);
  }

  /** Each attribute is one bit, set by one code and cleared by another. */
  lemma StyleCodes(a: Cell)
    ensures Pen(a, [1]) == a.(style := a.style.(bold := true)) && Pen(a, [22]) == a.(style := a.style.(bold := false))
    ensures Pen(a, [4]) == a.(style := a.style.(underline := true))
    ensures Pen(a, [24]) == a.(style := a.style.(underline := false))
    ensures Pen(a, [5]) == a.(style := a.style.(blink := true)) && Pen(a, [25]) == a.(style := a.style.(blink := false))
    ensures Pen(a, [7]) == a.(style := a.style.(inverse := true))
    ensures Pen(a, [27]) == a.(style := a.style.(inverse := false))
  {
    One(a, 1);
    One(a, 22);
    One(a, 4);
    One(a, 24);
    One(a, 5);
    One(a, 25);
    One(a, 7);
    One(a, 27);
  }

  /** Foreground codes set the foreground and nothing else, background codes the background. */
  lemma ColorCodes(a: Cell, k: nat)
    requires k < 8
    ensures Pen(a, [30 + k]) == a.(fg := STD_COLOR + k) && Pen(a, [40 + k]) == a.(bg := STD_COLOR + k)
    ensures Pen(a, [90 + k]) == a.(fg := STD_COLOR + 8 + k) && Pen(a, [100 + k]) == a.(bg := STD_COLOR + 8 + k)
  {
    One(a, 30 + k);
    One(a, 40 + k);
    One(a, 90 + k);
    One(a, 100 + k);
  }

  lemma One(a: Cell, n: nat)
    requires n != 38 && n != 48
    ensures Pen(a, [n]) == SgrOne(a, n)
  {
    assert SgrFrom(SgrOne(a, n), [n], 1, 1) == SgrOne(a, n);
  }

  /** The first sixteen of the 256 colours are those of the short codes. */
  lemma IndexedCodes(a: Cell, k: nat)
    requires k < 256
    ensures Pen(a, [38, 5, k]) == a.(fg := STD_COLOR + k) && Pen(a, [48, 5, k]) == a.(bg := STD_COLOR + k)
    ensures k < 8 ==> Pen(a, [38, 5, k]) == Pen(a, [30 + k]) && Pen(a, [48, 5, k]) == Pen(a, [40 + k])
    ensures 8 <= k < 16 ==> Pen(a, [38, 5, k]) == Pen(a, [82 + k]) && Pen(a, [48, 5, k]) == Pen(a, [92 + k])
  {
    hide SgrOne;
    Extended(a, 38, [38, 5, k]);
    Extended(a, 48, [48, 5, k]);
    if k < 8 { ColorCodes(a, k); } else if k < 16 { ColorCodes(a, k - 8); }
  }

  /** Direct colours have exactly the channels given. */
  lemma DirectCodes(a: Cell, r: nat, g: nat, b: nat)
    requires r < 256 && g < 256 && b < 256
    ensures var p, q := Pen(a, [38, 2, r, g, b]), Pen(a, [48, 2, r, g, b]);
      p == a.(fg := p.fg) && q == a.(bg := q.bg) && p.fg == q.bg && p.fg < Render.RGB &&
      Render.Red(p.fg) == r && Render.GreenOf(p.fg) == g && Render.Blue(p.fg) == b
  {
    hide SgrFrom, Render.Red, Render.GreenOf, Render.Blue;
    Extended(a, 38, [38, 2, r, g, b]);
    Extended(a, 48, [48, 2, r, g, b]);
    Render.Channels(r, g, b);
    assert Render.Mix(r, g, b) == r * 0x1_0000 + g * 256 + b;
  }

  /** An extended colour that takes the rest of the list. */
  lemma Extended(a: Cell, n: int, codes: seq<int>)
    requires (n == 38 || n == 48) && |codes| > 0 && codes[0] == n && SgrColor(codes, |codes|, 1).1 == |codes|
    ensures var c := SgrColor(codes, |codes|, 1).0;
      Pen(a, codes) == if c.None? then a else if n == 38 then a.(fg := c.value) else a.(bg := c.value)
  {
    hide SgrColor, SgrOne;
    var (c, next) := SgrColor(codes, |codes|, 1);
    var a1 := if c.None? then a else if n == 38 then a.(fg := c.value) else a.(bg := c.value);
    assert SgrFrom(a1, codes, |codes|, next) == a1;
    assert SgrFrom(a, codes, |codes|, 0) == SgrFrom(a1, codes, |codes|, next);
  }

  // ---- lists of codes ---------------------------------------------------------------

  /** A code with everything that belongs to it. */
  predicate Whole(codes: seq<int>) {
    (|codes| == 1 && codes[0] != 38 && codes[0] != 48) ||
    (|codes| == 3 && (codes[0] == 38 || codes[0] == 48) && codes[1] == 5) ||
    (|codes| == 5 && (codes[0] == 38 || codes[0] == 48) && codes[1] == 2)
  }

  /** The codes before do not matter, but for the pen they left. */
  lemma {:induction false} SgrShift(a: Cell, before: seq<int>, codes: seq<int>, i: nat)
    requires i <= |codes| + 4
    ensures SgrFrom(a, before + codes, |before| + |codes|, |before| + i) == SgrFrom(a, codes, |codes|, i)
    decreases |codes| + 4 - i
  {
    hide SgrOne, SgrColor;
    if i < |codes| {
      var all, n := before + codes, Max(0, codes[i]);
      assert all[|before| + i] == codes[i];
      if n == 38 || n == 48 {
        ColorShift(before, codes, i + 1);
        var (c, next) := SgrColor(codes, |codes|, i + 1);
        var a1 := if c.None? then a else if n == 38 then a.(fg := c.value) else a.(bg := c.value);
        SgrShift(a1, before, codes, next);
      } else {
        SgrShift(SgrOne(a, n), before, codes, i + 1);
      }
    }
  }

  lemma ColorShift(before: seq<int>, codes: seq<int>, i: nat)
    requires i <= |codes|
    ensures var all := before + codes;
      var (c, next) := SgrColor(codes, |codes|, i);
      SgrColor(all, |all|, |before| + i) == (c, |before| + next) && next <= |codes| + 4
  {
    var all := before + codes;
    forall k | i <= k < |codes| ensures all[|before| + k] == codes[k] {}
    assert i < |codes| ==> all[|before| + i] == codes[i];
    assert i + 1 < |codes| ==> all[|before| + i + 1] == codes[i + 1];
    assert i + 2 < |codes| ==> all[|before| + i + 2] == codes[i + 2];
    assert i + 3 < |codes| ==> all[|before| + i + 3] == codes[i + 3];
  }

  /** A list of codes is its codes one after the other. */
  lemma OneByOne(a: Cell, code: seq<int>, rest: seq<int>)
    requires Whole(code) && rest != []
    ensures Pen(a, code + rest) == Pen(Pen(a, code), rest)
  {
    hide SgrOne, SgrColor;
    var all := code + rest;
    FirstCode(a, code, rest);
    SgrShift(Pen(a, code), code, rest, 0);
  }

  lemma FirstCode(a: Cell, code: seq<int>, rest: seq<int>)
    requires Whole(code)
    ensures var all := code + rest; SgrFrom(a, all, |all|, 0) == SgrFrom(Pen(a, code), all, |all|, |code|)
  {
    hide SgrOne;
    var all := code + rest;
    assert all[0] == code[0];
    if |code| == 1 {
      assert Pen(a, code) == SgrOne(a, Max(0, code[0]));
    } else {
      FirstColor(code, rest);
      Extended(a, code[0], code);
      hide SgrColor;
    }
  }

  lemma FirstColor(code: seq<int>, rest: seq<int>)
    requires Whole(code) && |code| > 1
    ensures var all := code + rest;
      SgrColor(all, |all|, 1) == SgrColor(code, |code|, 1) && SgrColor(code, |code|, 1).1 == |code|
  {
    var all := code + rest;
    assert all[1] == code[1] && all[2] == code[2];
    if |code| == 5 { assert all[3] == code[3] && all[4] == code[4]; }
  }

  // ---- from bytes to colours --------------------------------------------------------

  const ATTRS: Utf8.Byte := 'm' as int

  /** Only the pen differs, and the parser and decoder stand between two sequences. */
  ghost predicate PenSet(t: Term, r: Term, a: Cell) {
    Ready(r) && r == t.(esc := r.esc, rdcp := r.rdcp, mainScr := r.mainScr, altScr := r.altScr) &&
    S(r) == S(t).(attr := a)
  }

  lemma AttrsRun(t: Term, args: seq<int>, accel: bool)
    requires Safe(t) && GoodArgs(args) && t.esc.argv == Padded(args) && t.esc.argc == |args|
    requires t.esc.cmd == ATTRS && t.esc.priv == 0
    ensures CsiRun(t, accel) == WithS(t, S(t).(attr := Pen(S(t).attr, args)))
  {
    hide EscOk, Safe, Among, Padded, Sgr;
    CursorMoves.Grouped(ATTRS);
    SamePen(S(t).attr, args);
  }

  lemma SamePen(a: Cell, args: seq<int>)
    requires |args| <= ARG_SIZE
    ensures Sgr(a, Padded(args), |args|) == Pen(a, args)
  {
    hide SgrFrom, SgrOne;
    if args != [] { SgrReadsOnly(a, Padded(args), args, |args|, 0); }
  }

  /** The bytes of an attribute list, read between two sequences, set the pen and do nothing else. */
  lemma AttrsRead(t: Term, args: seq<int>, envs: seq<Env>)
    requires Ready(t) && GoodArgs(args) && |envs| == |CommandText(0, args, ATTRS)|
    ensures PenSet(t, ReadAll(t, CommandText(0, args, ATTRS), envs), Pen(S(t).attr, args))
  {
    hide EscOk, Safe, CsiRun, Padded, CommandText, Pen, ReadAll, Utf8.AtBoundary;
    CommandRuns(t, 0, args, ATTRS, envs);
    Utf8.Accepted(ATTRS);
    AttrsRun(Ordered(t, 0, args, ATTRS), args, envs[|envs| - 1].accel);
  }

  /** Where the next character goes does not depend on the pen. */
  lemma SameRoom(t: Term, r: Term, a: Cell)
    requires Safe(t) && PenSet(t, r, a)
    ensures Typing.NextCell(r) == Typing.NextCell(t) && Typing.Limit(r) == Typing.Limit(t) && G(r) == G(t)
    ensures r.modes == t.modes && r.colorMode == t.colorMode && S(r).attr == a && S(r).hidden == S(t).hidden
  {
    hide EscOk, Safe, Ready;
  }

  /** One character is in its cell, in the pen's colours and style, and the cursor has left the cell
      unless it is the last one of its row. */
  lemma TypedCell(t: Term, u: Term, cp: nat)
    requires Typing.Typed(t, u, [cp])
    ensures var i := Typing.NextCell(t);
      0 <= i < |G(u).cells| && SameSize(G(u), G(t)) && 0 < G(t).width && u.modes == t.modes &&
      u.colorMode == t.colorMode &&
      var c := G(u).cells[i];
      c.fg == S(t).attr.fg && c.bg == S(t).attr.bg && c.style == S(t).attr.style &&
      (S(t).hidden || Col(i, G(t).width) != G(t).width - 1 ==> !Fidelity.CursorAt(u, i))
  {
    hide EscOk, Row, Col;
    var i := Typing.NextCell(t);
    Typing.TextFits(t, u, [cp]);
    OnScreen(t);
    OnScreen(u);
    Typing.Place(t);
    assert Typing.TypedCell(t, u, [cp], i);
    RowColOf(Pos(u).x, Pos(u).y, G(u).width);
  }

  /** Text in colour, end to end: a character typed after `ESC [ 3k m` is painted in palette colour `k`,
      on the background the pen had before. */
  lemma ColoredText(conf: Render.Conf, t: Term, k: nat, cp: nat, e0: seq<Env>, e1: seq<Env>)
    requires Render.ConfOk(conf) && Ready(t) && k < 8 && Utf8.ValidCp(cp) && Typing.Printable(cp)
    requires t.modes.wrap && !t.modes.insert && !t.modes.reverse && Painting.NormalColors(conf, t.colorMode)
    requires Typing.NextCell(t) + 1 <= Typing.Limit(t)
    requires var s := S(t).attr.style; !s.selection && !s.inverse && !s.bold && !s.blink
    requires |e0| == |CommandText(0, [30 + k], ATTRS)| && |e1| == |Utf8.EncodeAll([cp])|
    ensures var u := ReadAll(ReadAll(t, CommandText(0, [30 + k], ATTRS), e0), Utf8.EncodeAll([cp]), e1);
      var i := Typing.NextCell(t);
      0 <= i < |G(u).cells| && 0 < G(t).width &&
      (S(t).hidden || Col(i, G(t).width) != G(t).width - 1 ==>
         var g := Render.Paint(conf, Fidelity.InkAt(u, i));
         g.fg == conf.tty[k] && Painting.ShownAs(conf, S(t).attr.bg, S(t).attr.style, false, g.bg))
  {
    hide EscOk, Safe, ReadAll, CommandText, Pen, Typing.Typed, Typing.NextCell, Typing.Limit, Render.Paint, Col,
         Utf8.EncodeAll, Utf8.AtBoundary;
    ColorCodes(S(t).attr, k);
    AttrsRead(t, [30 + k], e0);
    var t1 := ReadAll(t, CommandText(0, [30 + k], ATTRS), e0);
    SameRoom(t, t1, Pen(S(t).attr, [30 + k]));
    Typing.TextShown(t1, [cp], e1);
    var u := ReadAll(t1, Utf8.EncodeAll([cp]), e1);
    TypedCell(t1, u, cp);
    Painting.PaintLegible(conf, Fidelity.InkAt(u, Typing.NextCell(t)));
  }
}
