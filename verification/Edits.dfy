/** Commands that move lines and characters about: what every row and every cell holds afterwards. */
module Edits {
  import opened Cells
  import opened TermModel
  import opened CsiModel
  import opened Scrollback
  import opened ScrollbackRuns
  import opened LineSplice
  import opened Commands
  import CursorMoves
  import Erasing
  import Typing
  import Utf8

  // ---- rows -------------------------------------------------------------------------

  /** What row `j` holds when the rows between `top` and `bot` are taken from `shift` rows below. */
  function FromBelow(g: Grid, attr: Cell, top: int, bot: int, shift: int, j: nat): (r: seq<Cell>)
    requires Live(g) && 0 <= top && bot < g.height && j < g.height
    ensures |r| == g.width
  {
    if j < top || j > bot then RowOf(g, j)
    else if top <= j + shift <= bot then RowOf(g, j + shift) else BlankRow(g.width, attr)
  }

  /** Between rows `top` and `bot` each row shows what was `shift` rows below it, or is blank; the rows
      outside stay. */
  ghost predicate RowsShifted(g: Grid, r: Grid, attr: Cell, top: int, bot: int, shift: int) {
    Live(g) && Live(r) && SameSize(r, g) && 0 <= top && bot < g.height &&
    forall j: nat :: j < g.height ==> LooksAlike(RowOf(r, j), FromBelow(g, attr, top, bot, shift, j))
  }

  /** Everything of the active screen but its cells stays, and a wrap that was pending is not any more. */
  ghost predicate OnlyRows(t: Term, r: Term) {
    r.onAlt == t.onAlt && r.modes == t.modes && S(r) == S(t).(curpos := Pos(r)) &&
    Pos(r).x == Pos(t).x && Pos(r).y == Pos(t).y && !Pos(r).lastCol
  }

  lemma ScrollShifts(t: Term, lines: int, accel: bool)
    requires Safe(t) && lines != 0
    ensures RowsShifted(G(t), G(ScrollInternal(t, lines, accel)), S(t).attr, S(t).scTop, S(t).scBot, -lines)
  {
    hide EscOk, Safe, ScrollInternal, RowOf, LooksAlike, BlankRow;
    OnScreen(t);
    Erasing.SafeGrid(t);
    var r := ScrollInternal(t, lines, accel);
    Erasing.SafeGrid(r);
    forall j: nat | j < G(t).height
      ensures LooksAlike(RowOf(G(r), j), FromBelow(G(t), S(t).attr, S(t).scTop, S(t).scBot, -lines, j))
    {
      ScrollInternalRow(t, lines, accel, j);
    }
  }

  /** The history is no part of the screen. */
  lemma ScrollUpShifts(t: Term, n: int, accel: bool)
    requires Safe(t) && n > 0
    ensures RowsShifted(G(t), G(ScrollUp(t, n, accel)), S(t).attr, S(t).scTop, S(t).scBot, n)
    ensures var r := ScrollUp(t, n, accel); S(r) == S(t) && r.modes == t.modes && r.onAlt == t.onAlt
  {
    hide EscOk, Safe, ScrollInternal, RowOf, RowsShifted;
    var t1 := if n == 1 && t.historyEnabled && !t.onAlt && t.mainScr.scTop == 0 then AppendHistory(t) else t;
    ScrollShifts(t1, -n, accel);
    ScrollKept(t1, -n, accel);
  }

  lemma ScrollDownShifts(t: Term, n: int, accel: bool)
    requires Safe(t) && n > 0
    ensures RowsShifted(G(t), G(ScrollDown(t, n, accel)), S(t).attr, S(t).scTop, S(t).scBot, -n)
    ensures var r := ScrollDown(t, n, accel); S(r) == S(t) && r.modes == t.modes && r.onAlt == t.onAlt
  {
    hide EscOk, Safe, ScrollInternal, RowsShifted;
    ScrollShifts(t, n, accel);
    ScrollKept(t, n, accel);
  }

  /** Lines are inserted and deleted between the cursor's row and the region's bottom. */
  lemma BelowShifts(t: Term, lines: int, accel: bool)
    requires Safe(t) && lines != 0 && S(t).scTop <= Pos(t).y <= S(t).scBot
    ensures RowsShifted(G(t), G(ScrollBelow(t, lines, accel)), S(t).attr, Pos(t).y, S(t).scBot, -lines)
    ensures var r := ScrollBelow(t, lines, accel); S(r) == S(t) && r.modes == t.modes && r.onAlt == t.onAlt
  {
    hide EscOk, ScrollInternal, RowsShifted;
    OnScreen(t);
    var t1 := WithS(t, S(t).(scTop := Max(S(t).scTop, Pos(t).y)));
    ScrollShifts(t1, lines, accel);
    ScrollKept(t1, lines, accel);
  }

  /** A row that stays looks like itself. */
  lemma NothingShifted(g: Grid, attr: Cell, top: int, bot: int)
    requires Live(g) && 0 <= top && bot < g.height
    ensures RowsShifted(g, g, attr, top, bot, 0)
  {
    hide RowOf;
  }

  const INSERT_LINES: Utf8.Byte := 'L' as int
  const DELETE_LINES: Utf8.Byte := 'M' as int
  const SCROLL_UP: Utf8.Byte := 'S' as int
  const SCROLL_DOWN: Utf8.Byte := 'T' as int

  /** What each of the four line commands does to the rows. */
  ghost predicate LinesAsAsked(t: Term, r: Term, cmd: Utf8.Byte, n: int) {
    var y, top, bot, g, a := Pos(t).y, S(t).scTop, S(t).scBot, G(t), S(t).attr;
    (cmd == INSERT_LINES ==> RowsShifted(g, G(r), a, y, bot, if top <= y <= bot then -n else 0)) &&
    (cmd == DELETE_LINES ==> RowsShifted(g, G(r), a, y, bot, if top <= y <= bot then n else 0)) &&
    (cmd == SCROLL_UP ==> RowsShifted(g, G(r), a, top, bot, n)) &&
    (cmd == SCROLL_DOWN ==> RowsShifted(g, G(r), a, top, bot, -n))
  }

  lemma ScrollAsAsked(t: Term, accel: bool)
    requires Safe(t) && t.esc.cmd in {0x4c, 0x4d, 0x53, 0x54}
    ensures OnlyRows(t, CsiScroll(t, accel)) && LinesAsAsked(t, CsiScroll(t, accel), t.esc.cmd, Arg1(t, 0))
  {
    hide EscOk, Safe, ScrollBelow, ScrollUp, ScrollDown, RowsShifted, LcfReset;
    var t1, n := LcfReset(t), Arg1(t, 0);
    var y, top, bot := Pos(t).y, S(t).scTop, S(t).scBot;
    if top <= y <= bot {
      BelowShifts(t1, n, accel);
      BelowShifts(t1, -n, accel);
    } else {
      OutsideStays(t1, n, accel);
      OutsideStays(t1, -n, accel);
    }
    ScrollUpShifts(t1, n, accel);
    ScrollDownShifts(t1, n, accel);
  }

  lemma OutsideStays(t: Term, lines: int, accel: bool)
    requires Safe(t) && !(S(t).scTop <= Pos(t).y <= S(t).scBot)
    ensures ScrollBelow(t, lines, accel) == t && RowsShifted(G(t), G(t), S(t).attr, Pos(t).y, S(t).scBot, 0)
  {
    hide EscOk, Safe, RowsShifted;
    OnScreen(t);
    Erasing.SafeGrid(t);
    NothingShifted(G(t), S(t).attr, Pos(t).y, S(t).scBot);
  }

  lemma LinesRun(t: Term, args: seq<int>, cmd: Utf8.Byte, accel: bool)
    requires Safe(t) && |args| <= ARG_SIZE && t.esc.argv == Padded(args) && t.esc.cmd == cmd && t.esc.priv == 0
    requires cmd in {INSERT_LINES, DELETE_LINES, SCROLL_UP, SCROLL_DOWN}
    ensures OnlyRows(t, CsiRun(t, accel)) && LinesAsAsked(t, CsiRun(t, accel), cmd, CursorMoves.Given(args, 0, 1))
  {
    hide EscOk, Safe, CsiScroll, OnlyRows, LinesAsAsked, Padded, Among;
    CursorMoves.Grouped(cmd);
    ScrollAsAsked(t, accel);
  }

  /** Inserting and deleting lines and scrolling the region, from the bytes of the command: whether or
      not the scroll is replayed as a window copy, the rows end up as asked and the cursor stays. */
  lemma LinesRead(t: Term, args: seq<int>, cmd: Utf8.Byte, envs: seq<Env>)
    requires Ready(t) && GoodArgs(args) && cmd in {INSERT_LINES, DELETE_LINES, SCROLL_UP, SCROLL_DOWN}
    requires |envs| == |CommandText(0, args, cmd)|
    ensures var u := ReadAll(t, CommandText(0, args, cmd), envs);
      OnlyRows(t, u) && LinesAsAsked(t, u, cmd, CursorMoves.Given(args, 0, 1))
  {
    hide EscOk, Safe, CsiRun, RowsShifted, Padded, CommandText, ReadAll;
    CommandRuns(t, 0, args, cmd, envs);
    LinesRun(Ordered(t, 0, args, cmd), args, cmd, envs[|envs| - 1].accel);
  }

  // ---- characters -------------------------------------------------------------------

  /** Row `y` is spliced at column `x`; no other row is touched. */
  ghost predicate RowSpliced(g: Grid, r: Grid, x: int, y: int, n: int, insert: bool, attr: Option<Cell>) {
    Live(g) && Live(r) && SameSize(r, g) && 0 <= x < g.width && n > 0 &&
    forall i: nat :: i < |g.cells| ==>
      if Row(i, g.width) != y then r.cells[i] == g.cells[i]
      else SameLook(r.cells[i], Spliced(g, x, n, insert, attr, i))
  }

  lemma ShiftSplices(g: Grid, x: int, y: int, n: int, insert: bool, attr: Option<Cell>)
    requires Live(g) && 0 <= y < g.height && 0 <= x < g.width && n > 0
    ensures RowSpliced(g, ShiftChars(g, x, y, n, insert, attr), x, y, n, insert, attr)
  {
    hide Row, Col, ShiftChars, Spliced;
    var r := ShiftChars(g, x, y, n, insert, attr);
    forall i: nat | i < |g.cells|
      ensures if Row(i, g.width) != y then r.cells[i] == g.cells[i]
        else SameLook(r.cells[i], Spliced(g, x, n, insert, attr, i))
    {
      ShiftIsSplice(g, x, y, n, insert, attr, i);
    }
  }

  const INSERT_CHARS: Utf8.Byte := '@' as int
  const DELETE_CHARS: Utf8.Byte := 'P' as int

  lemma CharsRun(t: Term, args: seq<int>, cmd: Utf8.Byte, accel: bool)
    requires Safe(t) && |args| <= ARG_SIZE && t.esc.argv == Padded(args) && t.esc.cmd == cmd && t.esc.priv == 0
    requires cmd == INSERT_CHARS || cmd == DELETE_CHARS
    ensures OnlyRows(t, CsiRun(t, accel))
    ensures RowSpliced(G(t), G(CsiRun(t, accel)), Pos(t).x, Pos(t).y, CursorMoves.Given(args, 0, 1),
                       cmd == INSERT_CHARS, Some(S(t).attr))
  {
    hide EscOk, Safe, ShiftChars, RowSpliced, Padded, Among;
    CursorMoves.Grouped(cmd);
    OnScreen(t);
    Erasing.SafeGrid(t);
    ShiftSplices(G(t), Pos(t).x, Pos(t).y, Arg1(t, 0), cmd == INSERT_CHARS, Some(S(t).attr));
  }

  /** Inserting and deleting characters, from the bytes of the command. */
  lemma CharsRead(t: Term, args: seq<int>, cmd: Utf8.Byte, envs: seq<Env>)
    requires Ready(t) && GoodArgs(args) && (cmd == INSERT_CHARS || cmd == DELETE_CHARS)
    requires |envs| == |CommandText(0, args, cmd)|
    ensures var u := ReadAll(t, CommandText(0, args, cmd), envs);
      OnlyRows(t, u) &&
      RowSpliced(G(t), G(u), Pos(t).x, Pos(t).y, CursorMoves.Given(args, 0, 1), cmd == INSERT_CHARS, Some(S(t).attr))
  {
    hide EscOk, Safe, CsiRun, RowSpliced, Padded, CommandText, ReadAll;
    CommandRuns(t, 0, args, cmd, envs);
    CharsRun(Ordered(t, 0, args, cmd), args, cmd, envs[|envs| - 1].accel);
  }

  // ---- insert mode ------------------------------------------------------------------

  /** A character written in insert mode: it stands in the cursor's cell, what was there and to the
      right of it stands one column further on, and the rest of the screen is as before. */
  ghost predicate SqueezedAt(t: Term, r: Term, ch: nat, i: nat)
    requires Safe(t) && SameSize(G(r), G(t)) && i < |G(t).cells|
  {
    Erasing.PlaceFits(t);
    var p, w, y := Erasing.Place(t), G(t).width, Pos(t).y;
    SameLook(G(r).cells[i],
             if i == p then S(t).attr.(ch := StoredChar(ch))
             else if p < i < y * w + w then G(t).cells[i - 1] else G(t).cells[i])
  }

  /** And so for every cell. */
  ghost predicate Squeezed(t: Term, r: Term, ch: nat)
    requires Safe(t)
  {
    SameSize(G(r), G(t)) && forall i: nat :: i < |G(t).cells| ==> SqueezedAt(t, r, ch, i)
  }

  lemma SplicedOne(g: Grid, x: nat, y: nat, i: nat)
    requires Live(g) && y < g.height && x < g.width && i < |g.cells| && i != y * g.width + x && Row(i, g.width) == y
    ensures i > 0 || i <= y * g.width + x
    ensures Spliced(g, x, 1, true, None, i) == if i > y * g.width + x then g.cells[i - 1] else g.cells[i]
  {
    hide Row, Col;
    InLine(i, g.width, y);
    InRowOf(g, i);
  }

  lemma WriteSqueezes(t: Term, ch: nat)
    requires Safe(t) && t.modes.insert
    ensures Squeezed(t, WriteHere(t, ch), ch)
  {
    hide EscOk, Safe, Row, Col, ShiftChars, Spliced, RowSpliced, Region;
    OnScreen(t);
    Erasing.SafeGrid(t);
    Erasing.PlaceFits(t);
    var g, x, y, w, p := G(t), Pos(t).x, Pos(t).y, G(t).width, Erasing.Place(t);
    ShiftSplices(g, x, y, 1, true, None);
    var g1, r := ShiftChars(g, x, y, 1, true, None), WriteHere(t, ch);
    assert SameSize(G(r), g);
    forall i: nat | i < |g.cells| ensures SqueezedAt(t, r, ch, i) { SqueezedCell(t, g1, ch, i); }
  }

  lemma SqueezedCell(t: Term, g1: Grid, ch: nat, i: nat)
    requires Safe(t) && t.modes.insert && g1 == ShiftChars(G(t), Pos(t).x, Pos(t).y, 1, true, None)
    requires RowSpliced(G(t), g1, Pos(t).x, Pos(t).y, 1, true, None) && i < |G(t).cells|
    ensures SqueezedAt(t, WriteHere(t, ch), ch, i)
  {
    hide EscOk, Safe, Row, Col, ShiftChars, Spliced;
    OnScreen(t);
    Erasing.PlaceFits(t);
    InLine(i, G(t).width, Pos(t).y);
    if Row(i, G(t).width) == Pos(t).y && i != Erasing.Place(t) { SplicedOne(G(t), Pos(t).x, Pos(t).y, i); }
  }

  /** Stepping on changes no look. */
  lemma AdvanceLooks(v: Term)
    requires Safe(v) && !Pos(v).lastCol
    ensures SameGrid(G(v), G(Advance(v)))
  {
    hide EscOk, MoveTo, MarkWrap;
    OnScreen(v);
    if Pos(v).x != G(v).width - 1 {
      Typing.MoveSame(v, Pos(v).x + 1, Pos(v).y);
    } else {
      var t1 := if v.modes.wrap then WithPos(v, Pos(v).(lastCol := true)) else v;
      WaitLooks(t1, Pos(v).y);
    }
  }

  lemma WaitLooks(t: Term, y: int)
    requires Safe(t)
    ensures SameGrid(G(t), G(MarkWrap(t, y, false)))
  {
    hide EscOk, SetWrap, SameGrid;
    Erasing.SafeGrid(t);
    WrapLooks(G(t), y, false);
  }

  /** Typing in insert mode, no wrap pending: one character more in its row. */
  lemma InsertTyped(t: Term, cp: nat, accel: bool)
    requires Safe(t) && t.modes.insert && !Pos(t).lastCol && Typing.Printable(cp)
    ensures Squeezed(t, PutChar(t, cp, accel), Translate(t, cp))
  {
    hide EscOk, Safe, StaleWrap, WriteHere, Advance, Translate, SameGrid;
    var t1, ch := StaleWrap(t), Translate(t, cp);
    Typing.TranslateOk(t, cp);
    Typing.StaleArrives(t);
    var v := WriteHere(t1, ch);
    WriteSqueezes(t1, ch);
    AdvanceLooks(v);
    SqueezedOn(t, t1, v, Advance(v), ch);
  }

  lemma SqueezedOn(t: Term, t1: Term, v: Term, r: Term, ch: nat)
    requires Safe(t) && Safe(t1) && Squeezed(t1, v, ch) && SameGrid(G(v), G(r)) && SameSize(G(t1), G(t))
    requires Pos(t1).x == Pos(t).x && Pos(t1).y == Pos(t).y && S(t1).attr == S(t).attr
    requires forall i :: 0 <= i < |G(t).cells| ==> SameLook(G(t1).cells[i], G(t).cells[i])
    ensures Squeezed(t, r, ch)
  {
    hide EscOk, Safe;
    forall i: nat | i < |G(t).cells| ensures SqueezedAt(t, r, ch, i) {
      Erasing.PlaceFits(t);
      assert SqueezedAt(t1, v, ch, i) && Erasing.Place(t1) == Erasing.Place(t);
      assert SameLook(G(v).cells[i], G(r).cells[i]) && SameLook(G(t1).cells[i], G(t).cells[i]);
      assert i > 0 ==> SameLook(G(t1).cells[i - 1], G(t).cells[i - 1]);
    }
  }
}
