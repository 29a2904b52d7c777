/** The terminal's state as a value, and what its screen-level procedures do to it:
    cursor, pending wrap, scroll region, accumulated scroll, screen switching. */
module TermModel {
  import opened Cells
  import Utf8

  const MAX_SIDE := 32767
  const LOCKED: int := 0x7fff_ffff
  const HISTORY_CAP := 0xff_ffff
  const ARG_SIZE := 16
  const SBUF_SIZE := 256

  /** `lastCol` is the pending wrap; `justMoved` says a wrap mark on this row has become stale. */
  datatype CursorPos = CursorPos(x: int, y: int, lastCol: bool, justMoved: bool)

  const HOME := CursorPos(0, 0, false, false)

  datatype Modes = Modes(wrap: bool, insert: bool, crlf: bool, reverse: bool,
                         gfx0: bool, gfx1: bool, noAltScreen: bool, origin: bool)

  const NO_MODES := Modes(false, false, false, false, false, false, false, false)

  datatype GfxSet = GfxSet(g0: bool, g1: bool)

  /** One screen's own fields, without its cell buffer. */
  datatype Screen = Screen(curpos: CursorPos, cursaved: CursorPos, attr: Cell, hidden: bool,
                           scTop: int, scBot: int,
                           attrSaved: Cell, charsetSaved: GfxSet, modesSaved: Modes)

  const PLAIN_ATTR := Cell(0x20, PLAIN, DEFAULT_COLOR, DEFAULT_COLOR, false, false)

  datatype ParseState =
    Ground | Escape | Csi | CsiIgnore | CharsetG0 | CharsetG1 | Hash | Percent | Osc | Dcs | IgnoreString

  /** `argv[i] == -1` is an omitted argument; `sbuf` holds a zero-terminated string. */
  datatype EscSeq = EscSeq(state: ParseState, priv: int, cmd: int, argv: seq<int>, argc: int,
                           sbuf: seq<int>, sbufpos: int)

  /** What the cursor looks like: keyboard focus and blink phase. */
  datatype CursorShape = CursorShape(focused: bool, phase: int)

  datatype Term = Term(main: Grid, alt: Grid, mainScr: Screen, altScr: Screen, onAlt: bool,
                       modes: Modes, charset: GfxSet,
                       scrollCount: int, scrollY0: int, scrollY1: int,
                       esc: EscSeq, colorMode: int,
                       historyEnabled: bool, history: seq<seq<Cell>>,
                       shape: CursorShape, terminusGfx: bool, rdcp: nat)

  // ---- the active screen ------------------------------------------------------------

  function G(t: Term): Grid { if t.onAlt then t.alt else t.main }
  function S(t: Term): Screen { if t.onAlt then t.altScr else t.mainScr }
  function WithG(t: Term, g: Grid): Term { if t.onAlt then t.(alt := g) else t.(main := g) }
  function WithS(t: Term, s: Screen): Term { if t.onAlt then t.(altScr := s) else t.(mainScr := s) }
  function Pos(t: Term): CursorPos { S(t).curpos }
  function WithPos(t: Term, c: CursorPos): Term { WithS(t, S(t).(curpos := c)) }

  // ---- what every reachable state satisfies -----------------------------------------

  predicate CursorOk(c: CursorPos, g: Grid) {
    0 <= c.x < g.width && 0 <= c.y < g.height && (c.lastCol ==> c.x == g.width - 1)
  }

  predicate ScreenOk(s: Screen, g: Grid) {
    CursorOk(s.curpos, g) && CursorOk(s.cursaved, g) && 0 <= s.scTop <= s.scBot < g.height
  }

  predicate GridOk(g: Grid) {
    Live(g) && g.width <= MAX_SIDE && g.height <= MAX_SIDE
  }

  predicate Locked(t: Term) { t.scrollCount == LOCKED }

  /** A scroll is waiting to be replayed as a window copy. */
  predicate Pending(t: Term) { t.scrollCount != 0 && !Locked(t) }

  predicate ScrollOk(t: Term) {
    Pending(t) ==>
      0 <= t.scrollY0 <= t.scrollY1 < t.main.height &&
      -(t.scrollY1 - t.scrollY0) <= t.scrollCount <= t.scrollY1 - t.scrollY0
  }

  predicate Terminated(s: seq<int>) { exists i :: 0 <= i < |s| && s[i] == 0 }

  predicate EscOk(e: EscSeq) {
    |e.argv| == ARG_SIZE && 0 <= e.argc <= ARG_SIZE &&
    (forall i :: 0 <= i < ARG_SIZE ==> -1 <= e.argv[i] <= 0xffff) &&
    |e.sbuf| == SBUF_SIZE && 0 <= e.sbufpos <= SBUF_SIZE && Terminated(e.sbuf) &&
    (e.state in {Osc, Dcs} && e.sbufpos < SBUF_SIZE ==> e.sbuf[e.sbufpos] == 0)
  }

  predicate Safe(t: Term) {
    GridOk(t.main) && ScreenOk(t.mainScr, t.main) &&
    (t.alt == NO_GRID || (GridOk(t.alt) && SameSize(t.alt, t.main) && ScreenOk(t.altScr, t.alt))) &&
    (t.onAlt ==> t.alt != NO_GRID) && ScrollOk(t) && EscOk(t.esc) && Utf8.Packed(t.rdcp)
  }

  /** The cursor is on the active screen and the scroll region inside it. */
  lemma OnScreen(t: Term)
    requires Safe(t)
    ensures CursorOk(Pos(t), G(t)) && CursorOk(S(t).cursaved, G(t)) && 0 <= S(t).scTop <= S(t).scBot < G(t).height
    ensures G(t).width > 0 && SameSize(G(t), t.main)
  {
    hide EscOk;
  }

  /** Everything but the active screen's cells and cursor position is as before. */
  predicate Untouched(t: Term, r: Term) {
    r == WithPos(WithG(t, G(r)), Pos(r)) && SameSize(G(r), G(t))
  }

  // ---- cursor -----------------------------------------------------------------------

  function MarkRows(t: Term, y0: int, y1: int): (r: Term)
    requires Safe(t)
    ensures Safe(r) && r == WithG(t, G(r)) && SameSize(G(r), G(t))
  {
    WithG(t, Region(G(t), 0, y0, G(t).width - 1, y1, Dirty))
  }

  function MarkAllDirty(t: Term): (r: Term)
    requires Safe(t)
    ensures Safe(r) && r == WithG(t, G(r)) && SameSize(G(r), G(t))
  {
    MarkRows(t, 0, G(t).height - 1)
  }

  /** Marks the cursor's cell for redrawing. */
  function InvalidateCursor(t: Term): (r: Term)
    requires Safe(t)
    ensures Safe(r) && r == WithG(t, G(r)) && SameSize(G(r), G(t))
  {
    if S(t).hidden then t
    else WithG(t, Region(G(t), Pos(t).x, Pos(t).y, Pos(t).x, Pos(t).y, Dirty))
  }

  /** Redraws the old and the new place of the cursor. */
  function MoveTo(t: Term, x: int, y: int): (r: Term)
    requires Safe(t) && 0 <= x < G(t).width && 0 <= y < G(t).height
    requires Pos(t).lastCol ==> x == G(t).width - 1
    ensures Safe(r) && Untouched(t, r) && Pos(r) == Pos(t).(x := x, y := y)
  {
    var t1 := InvalidateCursor(t);
    InvalidateCursor(WithPos(t1, Pos(t1).(x := x, y := y)))
  }

  datatype SaveKind = SaveSimple | SaveDec | SaveAnsi | SaveXTerm

  function SaveCursor(t: Term, kind: SaveKind): (r: Term)
    requires Safe(t)
    ensures Safe(r)
  {
    var s := S(t).(cursaved := Pos(t));
    WithS(t, if kind.SaveSimple? then s else s.(attrSaved := s.attr, charsetSaved := t.charset, modesSaved := t.modes))
  }

  /** Puts the cursor back where it was saved, pending wrap included. */
  function RestorePos(t: Term): (r: Term)
    requires Safe(t)
    ensures Safe(r) && Untouched(t, r) && Pos(r) == S(t).cursaved
  {
    hide EscOk, InvalidateCursor;
    var saved := S(t).cursaved;
    if saved.x != Pos(t).x || saved.y != Pos(t).y then
      InvalidateCursor(WithPos(InvalidateCursor(t), saved))
    else WithPos(t, saved)
  }

  function RestoreCursor(t: Term, kind: SaveKind): (r: Term)
    requires Safe(t)
    ensures Safe(r)
  {
    hide EscOk, RestorePos;
    var t1 := RestorePos(t);
    if kind.SaveSimple? then t1
    else
      var was := S(t1).modesSaved;
      var m := t1.modes.(gfx0 := was.gfx0, gfx1 := was.gfx1);
      WithS(t1, S(t1).(attr := S(t1).attrSaved)).(
        modes := if kind.SaveXTerm? then m.(wrap := was.wrap) else m,
        charset := S(t1).charsetSaved)
  }

  function LcfReset(t: Term): (r: Term)
    requires Safe(t)
    ensures Safe(r) && r == WithPos(t, Pos(t).(lastCol := false, justMoved := true)) && SameSize(G(r), G(t))
  {
    WithPos(t, Pos(t).(lastCol := false, justMoved := true))
  }

  function LcfResetNoMove(t: Term): (r: Term)
    requires Safe(t)
    ensures Safe(r) && r == WithPos(t, Pos(t).(lastCol := false)) && SameSize(G(r), G(t))
  {
    WithPos(t, Pos(t).(lastCol := false))
  }

  function GoTo(t: Term, x: int, y: int): (r: Term)
    requires Safe(t) && 0 <= x < G(t).width && 0 <= y < G(t).height && !Pos(t).lastCol
    ensures Safe(r) && Untouched(t, r) && Pos(r).x == x && Pos(r).y == y && !Pos(r).lastCol
  {
    hide EscOk, InvalidateCursor;
    if x != Pos(t).x || y != Pos(t).y then
      var t1 := InvalidateCursor(t);
      InvalidateCursor(WithPos(t1, CursorPos(x, y, false, true)))
    else t
  }

  /** The row an absolute move goes to: in origin mode rows count from the region's top. */
  function AbsRow(t: Term, ny: int): (y: int)
    requires Safe(t)
    ensures 0 <= y < G(t).height
  {
    hide EscOk;
    var y := Clamp(ny, 0, G(t).height - 1);
    if t.modes.origin then Min(y + S(t).scTop, S(t).scBot) else y
  }

  /** The row a relative move goes to: in origin mode it never leaves the region. */
  function RelRow(t: Term, dy: int): (y: int)
    requires Safe(t)
    ensures 0 <= y < G(t).height
  {
    hide EscOk;
    var step := Clamp(dy, -32767, 32767);
    if t.modes.origin then Clamp(Clamp(Pos(t).y, S(t).scTop, S(t).scBot) + step, S(t).scTop, S(t).scBot)
    else Clamp(Pos(t).y + step, 0, G(t).height - 1)
  }

  function RelCol(t: Term, dx: int): (x: int)
    requires Safe(t)
    ensures 0 <= x < G(t).width
  {
    hide EscOk;
    Clamp(Pos(t).x + Clamp(dx, -32767, 32767), 0, G(t).width - 1)
  }

  function CurMoveAbs(t: Term, nx: int, ny: int): (r: Term)
    requires Safe(t)
    ensures Safe(r) && Untouched(t, r) && !Pos(r).lastCol
  {
    hide EscOk, AbsRow;
    GoTo(LcfReset(t), Clamp(nx, 0, G(t).width - 1), AbsRow(t, ny))
  }

  function CurMoveRel(t: Term, dx: int, dy: int): (r: Term)
    requires Safe(t)
    ensures Safe(r) && Untouched(t, r) && !Pos(r).lastCol
  {
    hide EscOk, RelRow, RelCol;
    GoTo(LcfReset(t), RelCol(t, dx), RelRow(t, dy))
  }

  // ---- scrolling --------------------------------------------------------------------

  function LockScroll(t: Term): (r: Term)
    requires Safe(t)
    ensures Safe(r) && Locked(r) && r == t.(scrollCount := LOCKED, scrollY0 := r.scrollY0, scrollY1 := r.scrollY1)
  {
    if Locked(t) then t
    else if t.scrollCount == 0 then t.(scrollCount := LOCKED, scrollY0 := S(t).scTop, scrollY1 := S(t).scBot)
    else t.(scrollCount := LOCKED)
  }

  /** The rows of a pending scroll can no longer be copied, so they must be drawn. */
  function GiveUpPending(t: Term): (r: Term)
    requires Safe(t)
    ensures Safe(r)
  {
    if Pending(t) then LockScroll(MarkRows(t, t.scrollY0, t.scrollY1)) else t
  }

  function Abs(n: int): nat { if n < 0 then -n else n }
  function Sign(n: int): int { if n < 0 then -1 else if n > 0 then 1 else 0 }

  /** Decides whether the window copy of this scroll can be added to the pending one. */
  function Accumulate(t: Term, dir: int, n: nat, accel: bool): (r: (Term, bool))
    requires Safe(t) && (dir == 1 || dir == -1) && 0 < n <= S(t).scBot - S(t).scTop
    ensures Safe(r.0) && G(r.0).width == G(t).width && G(r.0).height == G(t).height
    ensures S(r.0) == S(t) && r.0.onAlt == t.onAlt
    ensures r.1 ==> Pending(r.0)
  {
    hide EscOk, Region, Row, Col;
    var top, bot := S(t).scTop, S(t).scBot;
    if !accel || Locked(t) then (GiveUpPending(t), false)
    else if t.scrollCount == 0 then (t.(scrollY0 := top, scrollY1 := bot, scrollCount := dir * n), true)
    else if Sign(t.scrollCount) != dir || Abs(t.scrollCount) + n >= bot - top + 1 ||
            t.scrollY0 != top || t.scrollY1 != bot then
      (GiveUpPending(t), false)
    else (t.(scrollCount := t.scrollCount + dir * n), true)
  }

  /** The rows of a pending scroll, to be drawn. */
  function DropPending(t: Term): (r: Term)
    requires Safe(t)
    ensures Safe(r) && S(r) == S(t) && r.onAlt == t.onAlt && SameSize(G(r), G(t))
  {
    hide EscOk, Region;
    if Pending(t) then MarkRows(t, t.scrollY0, t.scrollY1) else t
  }

  function FillRegion(t: Term): (r: Term)
    requires Safe(t)
    ensures Safe(r) && r == WithG(t, G(r)) && S(r) == S(t) && SameSize(G(r), G(t))
  {
    hide EscOk, Region;
    WithG(t, Region(G(t), 0, S(t).scTop, G(t).width - 1, S(t).scBot, FillWith(Some(S(t).attr))))
  }

  /** A scroll by the whole region: nothing of it stays. */
  function Cleared(t: Term): (r: Term)
    requires Safe(t)
    ensures Safe(r) && S(r) == S(t) && r.onAlt == t.onAlt && SameSize(G(r), G(t))
  {
    hide EscOk, Region, DropPending, FillRegion;
    LockScroll(FillRegion(DropPending(t)))
  }

  /** A scroll by part of the region, drawn as a window copy or cell by cell. */
  function ScrollBy(t: Term, dir: int, n: nat, accel: bool): (r: Term)
    requires Safe(t) && (dir == 1 || dir == -1) && 0 < n <= S(t).scBot - S(t).scTop
    ensures Safe(r) && S(r) == S(t) && r.onAlt == t.onAlt && SameSize(G(r), G(t))
  {
    hide EscOk, Region, ScrollArea, InvalidateCursor, Accumulate;
    var (t2, copy) := Accumulate(InvalidateCursor(t), dir, n, accel);
    InvalidateCursor(WithG(t2, ScrollArea(G(t2), S(t).scTop, S(t).scBot, n, dir, !copy, Some(S(t).attr))))
  }

  /** Scrolls the region by `lines`, up when negative; `accel` is the guard for window copies. */
  function ScrollInternal(t: Term, lines: int, accel: bool): (r: Term)
    requires Safe(t)
    ensures Safe(r) && S(r) == S(t) && r.onAlt == t.onAlt && SameSize(G(r), G(t))
  {
    hide EscOk, Cleared, ScrollBy;
    if lines == 0 then t
    else if Abs(lines) >= S(t).scBot - S(t).scTop + 1 then Cleared(t)
    else ScrollBy(t, Sign(lines), Abs(lines), accel)
  }

  function RowOf(g: Grid, y: nat): (r: seq<Cell>)
    requires Live(g) && y < g.height
    ensures |r| == g.width
  {
    LineFits(g, 0, y);
    g.cells[y * g.width..y * g.width + g.width]
  }

  /** The line leaving the top; an overlong history is wiped first. */
  function AppendHistory(t: Term): (r: Term)
    requires Safe(t)
    ensures Safe(r) && r == t.(history := r.history)
  {
    t.(history := (if |t.history| > HISTORY_CAP then [] else t.history) + [RowOf(G(t), 0)])
  }

  function ScrollUp(t: Term, lines: int, accel: bool): (r: Term)
    requires Safe(t)
    ensures Safe(r) && S(r) == S(t) && r.onAlt == t.onAlt
  {
    if lines <= 0 then t
    else
      var t1 := if lines == 1 && t.historyEnabled && !t.onAlt && t.mainScr.scTop == 0 then AppendHistory(t) else t;
      ScrollInternal(t1, -lines, accel)
  }

  function ScrollDown(t: Term, lines: int, accel: bool): (r: Term)
    requires Safe(t)
    ensures Safe(r) && S(r) == S(t) && r.onAlt == t.onAlt
  {
    if lines <= 0 then t else ScrollInternal(t, lines, accel)
  }

  // ---- writing ----------------------------------------------------------------------

  function MarkWrap(t: Term, y: int, mark: bool): (r: Term)
    requires Safe(t)
    ensures Safe(r) && r == WithG(t, G(r)) && SameSize(G(r), G(t))
  {
    WithG(t, SetWrap(G(t), y, mark))
  }

  /** The pending wrap is taken: its row is marked as wrapped and the cursor will leave its cell. */
  function LcfStart(t: Term): (r: Term)
    requires Safe(t)
    ensures Safe(r) && Untouched(t, r) && Pos(r) == Pos(t).(lastCol := false, justMoved := false)
  {
    hide EscOk, Region, SetWrap;
    var t1 := WithPos(t, Pos(t).(lastCol := false, justMoved := false));
    InvalidateCursor(MarkWrap(t1, Pos(t1).y, true))
  }

  /** Down a row, but not off the screen. */
  function NextRow(t: Term): (r: Term)
    requires Safe(t) && !Pos(t).lastCol
    ensures Safe(r) && Untouched(t, r) && !Pos(r).lastCol
  {
    hide EscOk, InvalidateCursor;
    if Pos(t).y != G(t).height - 1 then InvalidateCursor(WithPos(t, Pos(t).(y := Pos(t).y + 1))) else t
  }

  /** To the start of the next row, scrolling at the bottom of the region. */
  function LcfRest(t: Term, accel: bool): (r: Term)
    requires Safe(t) && !Pos(t).lastCol
    ensures Safe(r) && !Pos(r).lastCol && r.onAlt == t.onAlt
  {
    hide EscOk, Region, ScrollUp, NextRow;
    var t1 := WithPos(t, Pos(t).(x := 0));
    if Pos(t1).y == S(t1).scBot then ScrollUp(t1, 1, accel) else NextRow(t1)
  }

  /** Carries out a pending wrap; it can only be pending in the last column. */
  function LcfDo(t: Term, accel: bool): (r: Term)
    requires Safe(t)
    ensures Safe(r) && !Pos(r).lastCol && r.onAlt == t.onAlt
  {
    hide EscOk, LcfRest, LcfStart;
    if !Pos(t).lastCol then t
    else
      assert Pos(t).x == G(t).width - 1;
      LcfRest(LcfStart(t), accel)
  }

  const GFX_TABLE: seq<nat> := [
    0x25c6, 0x2592, 0x0062, 0x0063, 0x0064, 0x0065, 0x00b0, 0x00b1,
    0x0068, 0x0069, 0x2518, 0x2510, 0x250c, 0x2514, 0x253c, 0x006f,
    0x0070, 0x2500, 0x0072, 0x0073, 0x251c, 0x2524, 0x2534, 0x252c,
    0x2502, 0x2264, 0x2265, 0x03c0, 0x2260, 0x00a3, 0x00b7, 0x0020]

  /** The line-drawing character sets. */
  function Translate(t: Term, cp: nat): nat {
    if ((t.modes.gfx0 && t.charset.g0) || (t.modes.gfx1 && t.charset.g1)) && 0x60 <= cp < 0x7f then
      if t.terminusGfx then cp - 0x5f else GFX_TABLE[cp - 0x60]
    else cp
  }

  /** In the last column the cursor stays, with a wrap pending if wrapping is on. */
  function Wait(t: Term): (r: Term)
    requires Safe(t) && Pos(t).x == G(t).width - 1
    ensures Safe(r) && Untouched(t, r)
  {
    hide EscOk, SetWrap;
    var t1 := if t.modes.wrap then WithPos(t, Pos(t).(lastCol := true)) else t;
    MarkWrap(t1, Pos(t).y, false)
  }

  /** After a character the cursor steps right, or waits in the last column. */
  function Advance(t: Term): (r: Term)
    requires Safe(t) && !Pos(t).lastCol
    ensures Safe(r) && Untouched(t, r)
  {
    hide EscOk, MoveTo, Wait;
    if Pos(t).x != G(t).width - 1 then MoveTo(t, Pos(t).x + 1, Pos(t).y) else Wait(t)
  }

  function WriteHere(t: Term, ch: nat): (r: Term)
    requires Safe(t)
    ensures Safe(r) && r == WithG(t, G(r)) && SameSize(G(r), G(t))
  {
    hide EscOk, ShiftChars, WriteRun;
    var t1 := if t.modes.insert then WithG(t, ShiftChars(G(t), Pos(t).x, Pos(t).y, 1, true, None)) else t;
    WithG(t1, WriteRun(G(t1), Pos(t1).x, Pos(t1).y, ch, 1, Some(S(t1).attr)))
  }

  /** Writing on a row the cursor was moved to drops that row's old wrap mark. */
  function StaleWrap(t: Term): (r: Term)
    requires Safe(t)
    ensures Safe(r) && r.onAlt == t.onAlt
  {
    if Pos(t).justMoved then MarkWrap(WithPos(t, Pos(t).(justMoved := false)), Pos(t).y, false) else t
  }

  function PutChar(t: Term, cp: nat, accel: bool): (r: Term)
    requires Safe(t)
    ensures Safe(r) && r.onAlt == t.onAlt
  {
    hide EscOk, StaleWrap, WriteHere, LcfDo, Advance, Translate;
    var ch := Translate(t, cp);
    if ch == 0x7f then t else Advance(WriteHere(LcfDo(StaleWrap(t), accel), ch))
  }

  function BackSpace(t: Term): (r: Term)
    requires Safe(t)
    ensures Safe(r)
  {
    var t1 := LcfReset(t);
    if Pos(t1).x != 0 then MoveTo(t1, Pos(t1).x - 1, Pos(t1).y) else t1
  }

  /** The next multiple of eight columns, within the row. */
  function NextTab(x: int, w: int): int { Min((if x < 0 then 0 else x / 8 * 8) + 8, w - 1) }

  function Tab(t: Term): (r: Term)
    requires Safe(t)
    ensures Safe(r)
  {
    var t1 := LcfReset(t);
    var nx := NextTab(Pos(t1).x, G(t1).width);
    if nx != Pos(t1).x then MoveTo(t1, nx, Pos(t1).y) else t1
  }

  /** A line feed at the bottom of the region. */
  function FeedScroll(t: Term, accel: bool): (r: Term)
    requires Safe(t) && !Pos(t).lastCol
    ensures Safe(r)
  {
    hide EscOk, ScrollUp, InvalidateCursor;
    var t1 := ScrollUp(t, 1, accel);
    if t1.modes.crlf && Pos(t1).x != 0 then InvalidateCursor(WithPos(t1, Pos(t1).(x := 0))) else t1
  }

  /** A line feed anywhere else. */
  function FeedStep(t: Term): (r: Term)
    requires Safe(t) && !Pos(t).lastCol
    ensures Safe(r) && Untouched(t, r)
  {
    hide EscOk, MoveTo;
    MoveTo(t, if t.modes.crlf then 0 else Pos(t).x, if Pos(t).y != G(t).height - 1 then Pos(t).y + 1 else Pos(t).y)
  }

  function LineFeed(t: Term, accel: bool): (r: Term)
    requires Safe(t)
    ensures Safe(r)
  {
    hide EscOk, MarkWrap, FeedScroll, FeedStep;
    var t1 := LcfReset(t);
    var t2 := MarkWrap(t1, Pos(t1).y, false);
    if Pos(t2).y == S(t2).scBot then FeedScroll(t2, accel) else FeedStep(t2)
  }

  function CarriageReturn(t: Term): (r: Term)
    requires Safe(t)
    ensures Safe(r)
  {
    var t1 := LcfReset(t);
    var t2 := MarkWrap(t1, Pos(t1).y, false);
    if Pos(t2).x != 0 then MoveTo(t2, 0, Pos(t2).y) else t2
  }

  /** Writes a character, or carries out one of the basic control characters. */
  function PutC(t: Term, cp: nat, accel: bool): (r: Term)
    requires Safe(t)
    ensures Safe(r)
  {
    if cp >= 0x20 then PutChar(t, cp, accel)
    else if cp == 0x08 then BackSpace(t)
    else if cp == 0x09 then Tab(t)
    else if cp == 0x0a || cp == 0x0b || cp == 0x0c then LineFeed(t, accel)
    else if cp == 0x0d then CarriageReturn(t)
    else if cp == 0x1a then LcfResetNoMove(t)
    else t
  }

  // ---- screens ----------------------------------------------------------------------

  function FreshGrid(w: nat, h: nat): (g: Grid)
    requires w > 0 && h > 0
    ensures Live(g) && g.width == w && g.height == h && forall i :: 0 <= i < |g.cells| ==> g.cells[i] == DEFAULT_CELL
  {
    MulMono(0, h, w);
    Grid(w, h, seq(w * h, _ => DEFAULT_CELL))
  }

  function EnsureAlt(t: Term): (r: Term)
    requires Safe(t)
    ensures Safe(r) && r.alt != NO_GRID && r == t.(alt := r.alt, altScr := r.altScr)
  {
    if t.alt.width == 0 then
      t.(alt := FreshGrid(t.main.width, t.main.height),
         altScr := Screen(HOME, HOME, PLAIN_ATTR, false, 0, t.main.height - 1,
                          PLAIN_ATTR, GfxSet(false, false), NO_MODES))
    else t
  }

  function ReleaseAlt(t: Term): (r: Term)
    requires Safe(t)
    ensures Safe(r)
  {
    if t.alt.width != 0 && !t.onAlt then t.(alt := NO_GRID) else t
  }

  function MarkAllClean(g: Grid): (r: Grid)
    requires Live(g)
    ensures Live(r) && SameSize(r, g)
  {
    Region(g, 0, 0, g.width - 1, g.height - 1, Clean)
  }

  /** With a scroll pending, the new screen is redrawn from scratch. */
  function SwitchRedrawing(t: Term): (r: Term)
    requires Safe(t)
    ensures Safe(r) && r.onAlt == !t.onAlt && r.scrollCount == 0
  {
    hide EscOk, Region, EnsureAlt;
    var t1 := WithG(t.(scrollCount := 0), MarkAllClean(G(t)));
    MarkAllDirty(if t1.onAlt then t1.(onAlt := false) else EnsureAlt(t1).(onAlt := true))
  }

  function MergeToMain(t: Term): (r: Term)
    requires Safe(t) && t.onAlt
    ensures Safe(r) && !r.onAlt && r.scrollCount == t.scrollCount
  {
    hide EscOk, Region, MergeAllDirty;
    t.(main := MergeAllDirty(t.main, t.alt), alt := MarkAllClean(t.alt), onAlt := false)
  }

  function MergeToAlt(t: Term): (r: Term)
    requires Safe(t) && !t.onAlt && t.alt != NO_GRID
    ensures Safe(r) && r.onAlt && r.scrollCount == t.scrollCount
  {
    hide EscOk, Region, MergeAllDirty;
    t.(alt := MergeAllDirty(t.alt, t.main), main := MarkAllClean(t.main), onAlt := true)
  }

  /** Otherwise only the cells on which the two screens differ are. */
  function SwitchMerging(t: Term): (r: Term)
    requires Safe(t)
    ensures Safe(r) && r.onAlt == !t.onAlt && r.scrollCount == t.scrollCount
  {
    hide EscOk, EnsureAlt, MergeToMain, MergeToAlt;
    if t.onAlt then MergeToMain(t) else MergeToAlt(EnsureAlt(t))
  }

  function SwitchScreen(t: Term): (r: Term)
    requires Safe(t)
    ensures Safe(r) && r.onAlt == !t.onAlt && r.scrollCount == 0
  {
    hide EscOk, InvalidateCursor, SwitchRedrawing, SwitchMerging;
    var t1 := InvalidateCursor(t);
    InvalidateCursor(if t1.scrollCount != 0 then SwitchRedrawing(t1) else SwitchMerging(t1))
  }

  /** The full reset (`ESC c`). */
  function ResetMode(t: Term): (r: Term)
    requires Safe(t)
    ensures Safe(r)
  {
    var scr := Screen(HOME, HOME, PLAIN_ATTR, false, 0, t.main.height - 1, PLAIN_ATTR, GfxSet(false, false), NO_MODES);
    t.(onAlt := false, esc := t.esc.(state := Ground), modes := NO_MODES.(wrap := true), charset := GfxSet(true, false),
       mainScr := scr, altScr := scr.(scBot := t.alt.height - 1), alt := NO_GRID)
  }

  /** A new parser: everything zeroed. */
  function NewEsc(): (e: EscSeq)
    ensures EscOk(e)
  {
    var zeros := seq(SBUF_SIZE, _ => 0);
    assert zeros[0] == 0;
    EscSeq(Ground, 0, 0, seq(ARG_SIZE, _ => 0), 0, zeros, 0)
  }

  /** A new terminal: everything zeroed, then reset. */
  function NewTerm(w: nat, h: nat, historyOn: bool, gfx: bool, shape: CursorShape): (r: Term)
    requires 0 < w <= MAX_SIDE && 0 < h <= MAX_SIDE
    ensures Safe(r) && forall i :: 0 <= i < |G(r).cells| ==> G(r).cells[i].dirty
  {
    var scr := Screen(HOME, HOME, PLAIN_ATTR, false, 0, h - 1, PLAIN_ATTR, GfxSet(false, false), NO_MODES);
    Term(FreshGrid(w, h), NO_GRID, scr, scr.(scBot := -1), false, NO_MODES.(wrap := true), GfxSet(true, false),
         0, 0, 0, NewEsc(), -1, historyOn, [], shape, gfx, 0)
  }
}
