/** The terminal object: the fields the emulator updates in place, over two cell buffers. Every
    method is tied to the state function it performs. */
module Terminals {
  import opened Cells
  import opened CellBuffers
  import opened EscParsers
  import C = CsiModel
  import T = TermModel
  import Utf8

  lemma NewGrid(w: nat, h: nat)
    requires w > 0 && h > 0
    ensures 0 <= w * h && Grid(w, h, seq(w * h, _ => DEFAULT_CELL)) == T.FreshGrid(w, h)
  {
    MulMono(0, h, w);
    assert seq(w * h, _ => DEFAULT_CELL) == T.FreshGrid(w, h).cells;
  }

  /** The alignment test, `n` rows done. */
  ghost function FilledRows(t: T.Term, n: nat): (r: T.Term)
    requires T.Safe(t)
    ensures T.Safe(r) && (n == T.G(t).height ==> r == C.FillScreen(t))
  {
    hide T.EscOk, Region;
    T.WithG(t, Region(T.G(t), 0, 0, T.G(t).width - 1, n - 1, C.AlignPen(T.S(t).attr)))
  }

  lemma NoRowsFilled(t: T.Term)
    requires T.Safe(t)
    ensures FilledRows(t, 0) == t
  {
    hide T.EscOk;
    var g := T.G(t);
    assert Region(g, 0, 0, g.width - 1, -1, C.AlignPen(T.S(t).attr)).cells == g.cells;
  }

  /** One more row. */
  lemma RowFilled(t: T.Term, y: nat)
    requires T.Safe(t) && y < T.G(t).height
    ensures var r := FilledRows(t, y);
      FilledRows(t, y + 1) == T.WithG(r, WriteRun(T.G(r), 0, y, 'E' as int, T.G(r).width, Some(T.S(r).attr)))
  {
    hide T.EscOk, Row, Col;
    var g := T.G(t);
    var op := C.AlignPen(T.S(t).attr);
    var r := Region(g, 0, 0, g.width - 1, y - 1, op);
    RunIsRow(g, r, y, op, T.S(t).attr);
  }

  lemma RunIsRow(g: Grid, r: Grid, y: nat, op: RegionOp, attr: Cell)
    requires Live(g) && y < g.height && op == C.AlignPen(attr) && r == Region(g, 0, 0, g.width - 1, y - 1, op)
    ensures WriteRun(r, 0, y, 'E' as int, g.width, Some(attr)) == Region(g, 0, 0, g.width - 1, y, op)
  {
    hide Row, Col;
    assert WriteRun(r, 0, y, 'E' as int, g.width, Some(attr)).cells == Region(g, 0, 0, g.width - 1, y, op).cells;
  }

  lemma BothLive(t: T.Term)
    requires T.Safe(t)
    ensures Live(t.main) && (t.alt == NO_GRID || Live(t.alt)) && (t.onAlt ==> t.alt != NO_GRID)
  {
    hide T.EscOk;
  }

  /** A buffer in use, all its cells due. */
  method FreshBuffer(w: nat, h: nat) returns (b: CellBuffer)
    requires w > 0 && h > 0
    ensures fresh(b) && fresh(b.buf) && b.Valid() && b.G() == T.FreshGrid(w, h)
  {
    b := new CellBuffer();
    b.New(w, h);
    NewGrid(w, h);
  }

  /** A screen with its cursor at home and the whole screen as its region. */
  function NewScreen(h: nat): T.Screen {
    T.Screen(T.HOME, T.HOME, T.PLAIN_ATTR, false, 0, h - 1, T.PLAIN_ATTR, T.GfxSet(false, false), T.NO_MODES)
  }

  /** The new terminal, field by field. */
  lemma NewFields(w: nat, h: nat, historyOn: bool, gfx: bool, look: T.CursorShape)
    requires 0 < w <= T.MAX_SIDE && 0 < h <= T.MAX_SIDE
    ensures T.NewTerm(w, h, historyOn, gfx, look) ==
      T.Term(T.FreshGrid(w, h), NO_GRID, NewScreen(h), NewScreen(h).(scBot := -1), false, T.NO_MODES.(wrap := true),
             T.GfxSet(true, false), 0, 0, 0, T.NewEsc(), -1, historyOn, [], look, gfx, 0)
  {
  }

  /** Another grid of the same size may take the active one's place. */
  lemma GridSafe(t: T.Term, g: Grid)
    requires T.Safe(t) && Live(g) && SameSize(g, T.G(t))
    ensures T.Safe(T.WithG(t, g))
  {
    hide T.EscOk;
  }

  class Terminal {
    const mainBuf: CellBuffer
    const altBuf: CellBuffer
    var mainScr: T.Screen
    var altScr: T.Screen
    var onAlt: bool
    var modes: T.Modes
    var charset: T.GfxSet
    var scrollCount: int
    var scrollY0: int
    var scrollY1: int
    const esc: EscParser
    var colorMode: int
    var historyEnabled: bool
    var history: seq<seq<Cell>>
    var shape: T.CursorShape
    var terminusGfx: bool
    var rdcp: nat

    /** The state as a value. */
    ghost function Abs(): T.Term
      reads this, mainBuf, mainBuf.buf, altBuf, altBuf.buf, esc, esc.argv, esc.sbuf
    {
      T.Term(mainBuf.G(), altBuf.G(), mainScr, altScr, onAlt, modes, charset, scrollCount, scrollY0, scrollY1,
             esc.E(), colorMode, historyEnabled, history, shape, terminusGfx, rdcp)
    }

    ghost function Repr(): set<object>
      reads this, mainBuf, altBuf
    {
      {this, mainBuf, altBuf, mainBuf.buf, altBuf.buf, esc, esc.argv, esc.sbuf}
    }

    ghost predicate Valid()
      reads this, mainBuf, mainBuf.buf, altBuf, altBuf.buf, esc, esc.argv, esc.sbuf
    {
      mainBuf != altBuf && mainBuf.buf != altBuf.buf && esc.argv != esc.sbuf &&
      mainBuf.Valid() && altBuf.Valid() && T.Safe(Abs())
    }

    constructor (w: nat, h: nat, historyOn: bool, gfx: bool, look: T.CursorShape)
      requires 0 < w <= T.MAX_SIDE && 0 < h <= T.MAX_SIDE
      ensures Valid() && fresh(Repr()) && Abs() == T.NewTerm(w, h, historyOn, gfx, look)
    {
      hide T.Safe, T.EscOk, DirtyCount, T.FreshGrid, T.NewEsc, T.NewTerm, CellBuffer.Valid, CellBuffer.G, EscParser.E,
           EscParser.Valid;
      var main := FreshBuffer(w, h);
      var alt := new CellBuffer();
      var parser := new EscParser();
      mainBuf, altBuf, esc := main, alt, parser;
      var scr := NewScreen(h);
      mainScr, altScr, onAlt := scr, scr.(scBot := -1), false;
      modes, charset := T.NO_MODES.(wrap := true), T.GfxSet(true, false);
      scrollCount, scrollY0, scrollY1 := 0, 0, 0;
      colorMode, historyEnabled, history := -1, historyOn, [];
      shape, terminusGfx, rdcp := look, gfx, 0;
      new;
      NewFields(w, h, historyOn, gfx, look);
    }

    // ---- the active screen ----------------------------------------------------------

    /** The buffer of the screen shown. */
    function Buf(): CellBuffer
      reads this
    {
      if onAlt then altBuf else mainBuf
    }

    function Width(): nat
      reads this, mainBuf, altBuf
    {
      Buf().width
    }

    function Height(): nat
      reads this, mainBuf, altBuf
    {
      Buf().height
    }

    function Scr(): T.Screen
      reads this
    {
      if onAlt then altScr else mainScr
    }

    function Pos(): T.CursorPos
      reads this
    {
      Scr().curpos
    }

    /** What the fields say about the abstract state. */
    lemma Fields()
      requires Valid()
      ensures Scr() == T.S(Abs()) && Pos() == T.Pos(Abs()) && Width() == T.G(Abs()).width &&
        Height() == T.G(Abs()).height
      ensures onAlt == Abs().onAlt && modes == Abs().modes && charset == Abs().charset &&
        terminusGfx == Abs().terminusGfx
      ensures scrollCount == Abs().scrollCount && scrollY0 == Abs().scrollY0 && scrollY1 == Abs().scrollY1
      ensures historyEnabled == Abs().historyEnabled && history == Abs().history && colorMode == Abs().colorMode &&
        T.Safe(Abs())
    {
      hide T.Safe, DirtyCount;
    }

    /** The cursor and the size, as far as moves need them. */
    lemma PosField()
      requires Valid()
      ensures Pos() == T.Pos(Abs())
    {
      hide T.Safe, DirtyCount;
    }

    method SetScr(s: T.Screen)
      requires Valid() && T.ScreenOk(s, T.G(Abs()))
      modifies Repr()
      ensures Valid() && Repr() == old(Repr()) && Abs() == T.WithS(old(Abs()), s)
    {
      hide T.EscOk, DirtyCount;
      if onAlt { altScr := s; } else { mainScr := s; }
    }

    method SetPos(c: T.CursorPos)
      requires Valid() && T.CursorOk(c, T.G(Abs()))
      modifies Repr()
      ensures Valid() && Repr() == old(Repr()) && Abs() == T.WithPos(old(Abs()), c)
    {
      hide T.EscOk, DirtyCount;
      if onAlt { altScr := altScr.(curpos := c); } else { mainScr := mainScr.(curpos := c); }
    }

    method SetScroll(count: int, y0: int, y1: int)
      requires Valid() && T.ScrollOk(Abs().(scrollCount := count, scrollY0 := y0, scrollY1 := y1))
      modifies Repr()
      ensures Valid() && Repr() == old(Repr())
      ensures Abs() == old(Abs()).(scrollCount := count, scrollY0 := y0, scrollY1 := y1)
    {
      hide T.EscOk, DirtyCount;
      scrollCount, scrollY0, scrollY1 := count, y0, y1;
    }

    method SetModes(m: T.Modes)
      requires Valid()
      modifies Repr()
      ensures Valid() && Repr() == old(Repr()) && Abs() == old(Abs()).(modes := m)
    {
      hide T.EscOk, DirtyCount;
      modes := m;
    }

    // ---- the active cell buffer -----------------------------------------------------

    /** Any region walk over the active buffer. */
    method Process(x0: int, y0: int, x1: int, y1: int, op: RegionOp)
      requires Valid()
      modifies Repr()
      ensures Valid() && Repr() == old(Repr())
      ensures Abs() == T.WithG(old(Abs()), Region(T.G(old(Abs())), x0, y0, x1, y1, op))
    {
      hide T.EscOk, DirtyCount, Region;
      Buf().ProcessRegion(x0, y0, x1, y1, op);
    }

    method PutWrap(y: int, mark: bool)
      requires Valid()
      modifies Repr()
      ensures Valid() && Repr() == old(Repr()) && Abs() == T.MarkWrap(old(Abs()), y, mark)
    {
      hide T.EscOk, T.Safe, DirtyCount, SetWrap;
      BothLive(Abs());
      GridSafe(Abs(), SetWrap(T.G(Abs()), y, mark));
      if mark { Buf().MarkLineAutowrap(y); } else { Buf().UnmarkLineAutowrap(y); }
    }

    method ScrollBuf(y0: int, y1: int, lines: int, dir: int, merge: bool, attr: Cell)
      requires Valid()
      modifies Repr()
      ensures Valid() && Repr() == old(Repr())
      ensures Abs() == T.WithG(old(Abs()), ScrollArea(T.G(old(Abs())), y0, y1, lines, dir, merge, Some(attr)))
    {
      hide T.EscOk, DirtyCount, ScrollArea;
      Buf().ScrollRows(y0, y1, lines, dir, merge, Some(attr));
    }

    // ---- cursor ---------------------------------------------------------------------

    method InvalidateCursor()
      requires Valid()
      modifies Repr()
      ensures Valid() && Repr() == old(Repr()) && Abs() == T.InvalidateCursor(old(Abs()))
    {
      hide Valid, Abs, Repr, Scr, Pos, Width, Height, T.EscOk, T.Safe, Region;
      Fields();
      if !Scr().hidden { Process(Pos().x, Pos().y, Pos().x, Pos().y, Dirty); }
    }

    method MarkRows(y0: int, y1: int)
      requires Valid()
      modifies Repr()
      ensures Valid() && Repr() == old(Repr()) && Abs() == T.MarkRows(old(Abs()), y0, y1)
    {
      hide Valid, Abs, Repr, Scr, Pos, Width, Height, T.EscOk, T.Safe, Region;
      Fields();
      Process(0, y0, Width() - 1, y1, Dirty);
    }

    /** Moves the cursor; its old and its new cell are redrawn. */
    method MoveTo(x: int, y: int)
      requires Valid() && 0 <= x < T.G(Abs()).width && 0 <= y < T.G(Abs()).height
      requires T.Pos(Abs()).lastCol ==> x == T.G(Abs()).width - 1
      modifies Repr()
      ensures Valid() && Repr() == old(Repr()) && Abs() == T.MoveTo(old(Abs()), x, y)
    {
      hide Valid, Abs, Repr, Scr, Pos, Width, Height, T.EscOk, T.Safe, Region, T.InvalidateCursor;
      Fields();
      InvalidateCursor();
      Fields();
      SetPos(Pos().(x := x, y := y));
      InvalidateCursor();
    }

    method GoTo(x: int, y: int)
      requires Valid() && 0 <= x < T.G(Abs()).width && 0 <= y < T.G(Abs()).height && !T.Pos(Abs()).lastCol
      modifies Repr()
      ensures Valid() && Repr() == old(Repr()) && Abs() == T.GoTo(old(Abs()), x, y)
    {
      hide Valid, Abs, Repr, Scr, Pos, Width, Height, T.EscOk, T.Safe, Region, T.InvalidateCursor;
      Fields();
      if x != Pos().x || y != Pos().y {
        InvalidateCursor();
        SetPos(T.CursorPos(x, y, false, true));
        InvalidateCursor();
      }
    }

    method LcfReset()
      requires Valid()
      modifies Repr()
      ensures Valid() && Repr() == old(Repr()) && Abs() == T.LcfReset(old(Abs()))
    {
      hide T.EscOk, DirtyCount;
      SetPos(Pos().(lastCol := false, justMoved := true));
    }

    method CurMoveAbs(nx: int, ny: int)
      requires Valid()
      modifies Repr()
      ensures Valid() && Repr() == old(Repr()) && Abs() == T.CurMoveAbs(old(Abs()), nx, ny)
    {
      hide Valid, Abs, Repr, Scr, Width, Height, T.EscOk, T.Safe, T.GoTo, T.LcfReset;
      Fields();
      T.OnScreen(Abs());
      var x := Clamp(nx, 0, Width() - 1);
      var y := Clamp(ny, 0, Height() - 1);
      if modes.origin { y := Min(y + Scr().scTop, Scr().scBot); }
      assert y == T.AbsRow(Abs(), ny);
      ResetAndGo(x, y);
    }

    method CurMoveRel(dx: int, dy: int)
      requires Valid()
      modifies Repr()
      ensures Valid() && Repr() == old(Repr()) && Abs() == T.CurMoveRel(old(Abs()), dx, dy)
    {
      hide T.EscOk, DirtyCount;
      var x := Clamp(Pos().x + Clamp(dx, -32767, 32767), 0, Width() - 1);
      var y := Pos().y;
      if modes.origin {
        y := Clamp(y, Scr().scTop, Scr().scBot);
        y := Clamp(y + Clamp(dy, -32767, 32767), Scr().scTop, Scr().scBot);
      } else {
        y := Clamp(y + Clamp(dy, -32767, 32767), 0, Height() - 1);
      }
      assert x == T.RelCol(Abs(), dx) && y == T.RelRow(Abs(), dy);
      ResetAndGo(x, y);
    }

    method ResetAndGo(x: int, y: int)
      requires Valid() && 0 <= x < T.G(Abs()).width && 0 <= y < T.G(Abs()).height
      modifies Repr()
      ensures Valid() && Repr() == old(Repr()) && Abs() == T.GoTo(T.LcfReset(old(Abs())), x, y)
    {
      hide T.EscOk, T.Safe, DirtyCount, T.GoTo;
      LcfReset();
      GoTo(x, y);
    }

    method LockScroll()
      requires Valid()
      modifies Repr()
      ensures Valid() && Repr() == old(Repr()) && Abs() == T.LockScroll(old(Abs()))
    {
      hide Valid, Abs, Repr, Scr, Pos, Width, Height, T.EscOk, T.Safe;
      Fields();
      if scrollCount != T.LOCKED {
        if scrollCount == 0 { SetScroll(T.LOCKED, Scr().scTop, Scr().scBot); }
        else { SetScroll(T.LOCKED, scrollY0, scrollY1); }
      }
    }

    // ---- scrolling ------------------------------------------------------------------

    method GiveUpPending()
      requires Valid()
      modifies Repr()
      ensures Valid() && Repr() == old(Repr()) && Abs() == T.GiveUpPending(old(Abs()))
    {
      hide Valid, Abs, Repr, Scr, Pos, Width, Height, T.EscOk, T.Safe, T.MarkRows, T.LockScroll;
      Fields();
      if scrollCount != 0 && scrollCount != T.LOCKED {
        MarkRows(scrollY0, scrollY1);
        LockScroll();
      }
    }

    /** Tries to add a scroll to the pending window copy; the answer says whether it was added. */
    method Accumulate(dir: int, n: nat, accel: bool) returns (copy: bool)
      requires Valid() && (dir == 1 || dir == -1) && 0 < n <= T.S(Abs()).scBot - T.S(Abs()).scTop
      modifies Repr()
      ensures Valid() && Repr() == old(Repr()) && (Abs(), copy) == T.Accumulate(old(Abs()), dir, n, accel)
    {
      hide Valid, Abs, Repr, Scr, T.EscOk, T.Safe, T.GiveUpPending;
      Fields();
      T.OnScreen(Abs());
      var top, bot := Scr().scTop, Scr().scBot;
      copy := accel && scrollCount != T.LOCKED;
      if !copy { GiveUpPending(); }
      else if scrollCount == 0 { SetScroll(dir * n, top, bot); }
      else if T.Sign(scrollCount) != dir || T.Abs(scrollCount) + n >= bot - top + 1 ||
              scrollY0 != top || scrollY1 != bot {
        GiveUpPending();
        copy := false;
      } else {
        assert T.Sign(scrollCount) == dir;
        SetScroll(scrollCount + dir * n, top, bot);
      }
    }

    method DropPending()
      requires Valid()
      modifies Repr()
      ensures Valid() && Repr() == old(Repr()) && Abs() == T.DropPending(old(Abs()))
    {
      hide Valid, Abs, Repr, T.EscOk, T.Safe, T.MarkRows;
      Fields();
      if scrollCount != 0 && scrollCount != T.LOCKED { MarkRows(scrollY0, scrollY1); }
    }

    /** A scroll by the whole region: nothing of it stays. */
    method ClearScroll()
      requires Valid()
      modifies Repr()
      ensures Valid() && Repr() == old(Repr()) && Abs() == T.Cleared(old(Abs()))
    {
      hide Valid, Abs, Repr, Scr, Width, Height, T.EscOk, T.Safe, T.DropPending, T.LockScroll, Region, FillWith;
      DropPending();
      Fields();
      Process(0, Scr().scTop, Width() - 1, Scr().scBot, FillWith(Some(Scr().attr)));
      LockScroll();
    }

    method ScrollBy(dir: int, lines: nat, accel: bool)
      requires Valid() && (dir == 1 || dir == -1) && 0 < lines <= T.S(Abs()).scBot - T.S(Abs()).scTop
      modifies Repr()
      ensures Valid() && Repr() == old(Repr()) && Abs() == T.ScrollBy(old(Abs()), dir, lines, accel)
    {
      hide Valid, Abs, Repr, Scr, T.EscOk, T.Safe, ScrollArea, T.InvalidateCursor, T.Accumulate;
      Fields();
      var top, bot, attr := Scr().scTop, Scr().scBot, Scr().attr;
      InvalidateCursor();
      var copy := Accumulate(dir, lines, accel);
      ScrollBuf(top, bot, lines, dir, !copy, attr);
      InvalidateCursor();
    }

    method ScrollInternal(amount: int, accel: bool)
      requires Valid()
      modifies Repr()
      ensures Valid() && Repr() == old(Repr()) && Abs() == T.ScrollInternal(old(Abs()), amount, accel)
    {
      hide Valid, Abs, Repr, Scr, T.EscOk, T.Safe, T.Cleared, T.ScrollBy;
      Fields();
      if amount == 0 { return; }
      var dir := if amount < 0 then -1 else 1;
      var lines := T.Abs(amount);
      if lines >= Scr().scBot - Scr().scTop + 1 { ClearScroll(); } else { ScrollBy(dir, lines, accel); }
    }

    /** The line that leaves the top goes to the history; an overlong history is wiped first. */
    method AppendHistory()
      requires Valid()
      modifies Repr()
      ensures Valid() && Repr() == old(Repr()) && Abs() == T.AppendHistory(old(Abs()))
    {
      hide Valid, Abs, Repr, T.EscOk, T.Safe, T.RowOf;
      Fields();
      TopRow();
      var line := Buf().buf[0..Buf().width];
      SetLines((if |history| > T.HISTORY_CAP then [] else history) + [line]);
    }

    lemma TopRow()
      requires Valid()
      ensures Buf().width <= Buf().buf.Length && Live(T.G(Abs())) && Buf().buf[0..Buf().width] == T.RowOf(T.G(Abs()), 0)
    {
      hide T.EscOk, DirtyCount;
      LineFits(T.G(Abs()), 0, 0);
    }

    method SetLines(h: seq<seq<Cell>>)
      requires Valid()
      modifies Repr()
      ensures Valid() && Repr() == old(Repr()) && Abs() == old(Abs()).(history := h)
    {
      hide T.EscOk, DirtyCount;
      history := h;
    }

    method ScrollUp(lines: int, accel: bool)
      requires Valid()
      modifies Repr()
      ensures Valid() && Repr() == old(Repr()) && Abs() == T.ScrollUp(old(Abs()), lines, accel)
    {
      hide Valid, Abs, Repr, Scr, Pos, Width, Height, T.EscOk, T.Safe, T.AppendHistory, T.ScrollInternal;
      Fields();
      if lines > 0 {
        if lines == 1 && historyEnabled && !onAlt && Scr().scTop == 0 { AppendHistory(); }
        ScrollInternal(-lines, accel);
      }
    }

    method ScrollDown(lines: int, accel: bool)
      requires Valid()
      modifies Repr()
      ensures Valid() && Repr() == old(Repr()) && Abs() == T.ScrollDown(old(Abs()), lines, accel)
    {
      hide Valid, Abs, Repr, Scr, Pos, Width, Height, T.EscOk, T.Safe, T.ScrollInternal;
      Fields();
      if lines > 0 { ScrollInternal(lines, accel); }
    }

    // ---- writing --------------------------------------------------------------------

    /** The pending wrap is taken. */
    method LcfStart()
      requires Valid()
      modifies Repr()
      ensures Valid() && Repr() == old(Repr()) && Abs() == T.LcfStart(old(Abs()))
    {
      hide Valid, Abs, Repr, Scr, Pos, Width, Height, T.EscOk, T.Safe, T.MarkWrap, T.InvalidateCursor;
      Fields();
      T.OnScreen(Abs());
      SetPos(Pos().(lastCol := false, justMoved := false));
      Fields();
      PutWrap(Pos().y, true);
      InvalidateCursor();
    }

    method LcfRest(accel: bool)
      requires Valid() && !T.Pos(Abs()).lastCol
      modifies Repr()
      ensures Valid() && Repr() == old(Repr()) && Abs() == T.LcfRest(old(Abs()), accel)
    {
      hide Valid, Abs, Repr, Scr, Pos, Width, Height, T.EscOk, T.Safe, T.ScrollUp, T.NextRow;
      Fields();
      T.OnScreen(Abs());
      SetPos(Pos().(x := 0));
      Fields();
      if Pos().y == Scr().scBot { ScrollUp(1, accel); } else { NextRow(); }
    }

    method NextRow()
      requires Valid() && !T.Pos(Abs()).lastCol
      modifies Repr()
      ensures Valid() && Repr() == old(Repr()) && Abs() == T.NextRow(old(Abs()))
    {
      hide Valid, Abs, Repr, Scr, Pos, Width, Height, T.EscOk, T.Safe, T.InvalidateCursor;
      Fields();
      T.OnScreen(Abs());
      if Pos().y != Height() - 1 {
        SetPos(Pos().(y := Pos().y + 1));
        InvalidateCursor();
      }
    }

    /** Carries out a pending wrap; it can only be pending in the last column. */
    method LcfDo(accel: bool)
      requires Valid()
      modifies Repr()
      ensures Valid() && Repr() == old(Repr()) && Abs() == T.LcfDo(old(Abs()), accel)
    {
      hide Valid, Abs, Repr, Scr, Pos, Width, Height, T.EscOk, T.Safe, T.LcfStart, T.LcfRest;
      Fields();
      T.OnScreen(Abs());
      if Pos().lastCol {
        assert Pos().x == Width() - 1;
        LcfStart();
        LcfRest(accel);
      }
    }

    /** Writing on a row the cursor was moved to drops that row's old wrap mark. */
    method StaleWrap()
      requires Valid()
      modifies Repr()
      ensures Valid() && Repr() == old(Repr()) && Abs() == T.StaleWrap(old(Abs()))
    {
      hide Valid, Abs, Repr, Scr, Pos, Width, Height, T.EscOk, T.Safe, T.MarkWrap;
      Fields();
      T.OnScreen(Abs());
      if Pos().justMoved {
        SetPos(Pos().(justMoved := false));
        Fields();
        PutWrap(Pos().y, false);
      }
    }

    method Shift(count: int, insert: bool, attr: Option<Cell>)
      requires Valid()
      modifies Repr()
      ensures Valid() && Repr() == old(Repr())
      ensures Abs() ==
        var t := old(Abs());
        T.WithG(t, ShiftChars(T.G(t), T.Pos(t).x, T.Pos(t).y, count, insert, attr))
    {
      hide T.EscOk, T.Safe, DirtyCount, ShiftChars;
      BothLive(Abs());
      GridSafe(Abs(), ShiftChars(T.G(Abs()), Pos().x, Pos().y, count, insert, attr));
      if insert { Buf().InsertChars(Pos().x, Pos().y, count, attr); }
      else { Buf().DeleteChars(Pos().x, Pos().y, count, attr); }
    }

    method WriteChar(ch: nat)
      requires Valid()
      modifies Repr()
      ensures Valid() && Repr() == old(Repr())
      ensures Abs() ==
        var t := old(Abs());
        T.WithG(t, WriteRun(T.G(t), T.Pos(t).x, T.Pos(t).y, ch, 1, Some(T.S(t).attr)))
    {
      hide T.EscOk, DirtyCount, WriteRun;
      Buf().WriteWcharCount(Pos().x, Pos().y, ch, 1, Some(Scr().attr));
    }

    method WriteHere(ch: nat)
      requires Valid()
      modifies Repr()
      ensures Valid() && Repr() == old(Repr()) && Abs() == T.WriteHere(old(Abs()), ch)
    {
      hide Valid, Abs, Repr, Scr, Pos, Width, Height, T.EscOk, T.Safe, ShiftChars, WriteRun;
      Fields();
      if modes.insert { Shift(1, true, None); }
      WriteChar(ch);
    }

    /** In the last column the cursor stays, with a wrap pending if wrapping is on. */
    method Wait()
      requires Valid() && T.Pos(Abs()).x == T.G(Abs()).width - 1
      modifies Repr()
      ensures Valid() && Repr() == old(Repr()) && Abs() == T.Wait(old(Abs()))
    {
      hide Valid, Abs, Repr, Scr, Pos, Width, Height, T.EscOk, T.Safe, T.MarkWrap;
      Fields();
      T.OnScreen(Abs());
      if modes.wrap { SetPos(Pos().(lastCol := true)); }
      Fields();
      PutWrap(Pos().y, false);
    }

    /** After a character the cursor steps right, or waits in the last column. */
    method Advance()
      requires Valid() && !T.Pos(Abs()).lastCol
      modifies Repr()
      ensures Valid() && Repr() == old(Repr()) && Abs() == T.Advance(old(Abs()))
    {
      hide Valid, Abs, Repr, Scr, Pos, Width, Height, T.EscOk, T.Safe, T.MoveTo, T.Wait;
      Fields();
      T.OnScreen(Abs());
      if Pos().x != Width() - 1 { MoveTo(Pos().x + 1, Pos().y); } else { Wait(); }
    }

    /** The line-drawing character sets. */
    method Translate(cp: nat) returns (ch: nat)
      requires Valid()
      ensures ch == T.Translate(Abs(), cp)
    {
      hide Valid, Abs;
      Fields();
      ch := cp;
      if ((modes.gfx0 && charset.g0) || (modes.gfx1 && charset.g1)) && 0x60 <= cp < 0x7f {
        ch := if terminusGfx then cp - 0x5f else T.GFX_TABLE[cp - 0x60];
      }
    }

    method PutChar(cp: nat, accel: bool)
      requires Valid()
      modifies Repr()
      ensures Valid() && Repr() == old(Repr()) && Abs() == T.PutChar(old(Abs()), cp, accel)
    {
      hide Valid, Abs, Repr, T.EscOk, T.Safe, T.Translate, T.StaleWrap, T.LcfDo, T.WriteHere, T.Advance;
      var ch := Translate(cp);
      if ch == 0x7f { return; }
      StaleWrap();
      LcfDo(accel);
      WriteHere(ch);
      Advance();
    }

    method BackSpace()
      requires Valid()
      modifies Repr()
      ensures Valid() && Repr() == old(Repr()) && Abs() == T.BackSpace(old(Abs()))
    {
      hide Valid, Abs, Repr, Scr, Pos, Width, Height, T.EscOk, T.Safe, T.MoveTo;
      Fields();
      T.OnScreen(Abs());
      LcfReset();
      Fields();
      if Pos().x != 0 { MoveTo(Pos().x - 1, Pos().y); }
    }

    method Tab()
      requires Valid()
      modifies Repr()
      ensures Valid() && Repr() == old(Repr()) && Abs() == T.Tab(old(Abs()))
    {
      hide Valid, Abs, Repr, Scr, Pos, Width, Height, T.EscOk, T.Safe, T.MoveTo;
      Fields();
      T.OnScreen(Abs());
      LcfReset();
      Fields();
      var nx := T.NextTab(Pos().x, Width());
      if nx != Pos().x { MoveTo(nx, Pos().y); }
    }

    method LineFeed(accel: bool)
      requires Valid()
      modifies Repr()
      ensures Valid() && Repr() == old(Repr()) && Abs() == T.LineFeed(old(Abs()), accel)
    {
      hide Valid, Abs, Repr, Scr, Pos, Width, Height, T.EscOk, T.Safe, T.MarkWrap, T.FeedScroll, T.FeedStep;
      LcfReset();
      Fields();
      PutWrap(Pos().y, false);
      Fields();
      if Pos().y == Scr().scBot { FeedScroll(accel); } else { FeedStep(); }
    }

    method FeedScroll(accel: bool)
      requires Valid() && !T.Pos(Abs()).lastCol
      modifies Repr()
      ensures Valid() && Repr() == old(Repr()) && Abs() == T.FeedScroll(old(Abs()), accel)
    {
      hide Valid, Abs, Repr, Scr, Pos, Width, Height, T.EscOk, T.Safe, T.ScrollUp, T.InvalidateCursor;
      ScrollUp(1, accel);
      Fields();
      T.OnScreen(Abs());
      if modes.crlf && Pos().x != 0 {
        SetPos(Pos().(x := 0));
        InvalidateCursor();
      }
    }

    method FeedStep()
      requires Valid() && !T.Pos(Abs()).lastCol
      modifies Repr()
      ensures Valid() && Repr() == old(Repr()) && Abs() == T.FeedStep(old(Abs()))
    {
      hide Valid, Abs, Repr, Scr, Pos, Width, Height, T.EscOk, T.Safe, T.MoveTo;
      Fields();
      T.OnScreen(Abs());
      var x := if modes.crlf then 0 else Pos().x;
      var y := if Pos().y != Height() - 1 then Pos().y + 1 else Pos().y;
      MoveTo(x, y);
    }

    method CarriageReturn()
      requires Valid()
      modifies Repr()
      ensures Valid() && Repr() == old(Repr()) && Abs() == T.CarriageReturn(old(Abs()))
    {
      hide Valid, Abs, Repr, Scr, Pos, Width, Height, T.EscOk, T.Safe, T.MarkWrap, T.MoveTo;
      LcfReset();
      Fields();
      PutWrap(Pos().y, false);
      Fields();
      T.OnScreen(Abs());
      if Pos().x != 0 { MoveTo(0, Pos().y); }
    }

    method LcfResetNoMove()
      requires Valid()
      modifies Repr()
      ensures Valid() && Repr() == old(Repr()) && Abs() == T.LcfResetNoMove(old(Abs()))
    {
      hide T.EscOk, DirtyCount;
      SetPos(Pos().(lastCol := false));
    }

    /** Writes a character, or carries out one of the basic control characters. */
    method PutC(cp: nat, accel: bool)
      requires Valid()
      modifies Repr()
      ensures Valid() && Repr() == old(Repr()) && Abs() == T.PutC(old(Abs()), cp, accel)
    {
      hide Valid, Abs, Repr, Scr, Pos, Width, Height, T.EscOk, T.Safe, T.PutChar, T.BackSpace, T.Tab, T.LineFeed,
           T.CarriageReturn, T.LcfResetNoMove;
      Fields();
      if cp >= 0x20 { PutChar(cp, accel); }
      else if cp == 0x08 { BackSpace(); }
      else if cp == 0x09 { Tab(); }
      else if cp == 0x0a || cp == 0x0b || cp == 0x0c { LineFeed(accel); }
      else if cp == 0x0d { CarriageReturn(); }
      else if cp == 0x1a { LcfResetNoMove(); }
    }

    // ---- saved state ----------------------------------------------------------------

    method SaveCursor(kind: T.SaveKind)
      requires Valid()
      modifies Repr()
      ensures Valid() && Repr() == old(Repr()) && Abs() == T.SaveCursor(old(Abs()), kind)
    {
      hide Valid, Abs, Repr, Scr, Pos, T.EscOk, T.Safe;
      Fields();
      T.OnScreen(Abs());
      var s := Scr().(cursaved := Pos());
      if kind != T.SaveSimple { s := s.(attrSaved := s.attr, charsetSaved := charset, modesSaved := modes); }
      SetScr(s);
    }

    method RestorePos()
      requires Valid()
      modifies Repr()
      ensures Valid() && Repr() == old(Repr()) && Abs() == T.RestorePos(old(Abs()))
    {
      hide Valid, Abs, Repr, Scr, Pos, T.EscOk, T.Safe, T.InvalidateCursor;
      Fields();
      T.OnScreen(Abs());
      var saved := Scr().cursaved;
      var moved := saved.x != Pos().x || saved.y != Pos().y;
      if moved { InvalidateCursor(); }
      SetPos(saved);
      if moved { InvalidateCursor(); }
    }

    method SetCharset(c: T.GfxSet)
      requires Valid()
      modifies Repr()
      ensures Valid() && Repr() == old(Repr()) && Abs() == old(Abs()).(charset := c)
    {
      hide T.EscOk, DirtyCount;
      charset := c;
    }

    method RestoreCursor(kind: T.SaveKind)
      requires Valid()
      modifies Repr()
      ensures Valid() && Repr() == old(Repr()) && Abs() == T.RestoreCursor(old(Abs()), kind)
    {
      hide Valid, Abs, Repr, Scr, T.EscOk, T.Safe, T.RestorePos;
      RestorePos();
      if kind != T.SaveSimple {
        Fields();
        T.OnScreen(Abs());
        var was := Scr().modesSaved;
        var m := modes.(gfx0 := was.gfx0, gfx1 := was.gfx1);
        if kind == T.SaveXTerm { m := m.(wrap := was.wrap); }
        SetScr(Scr().(attr := Scr().attrSaved));
        SetModes(m);
        Fields();
        SetCharset(Scr().charsetSaved);
      }
    }

    // ---- screens --------------------------------------------------------------------

    method MarkAllDirty()
      requires Valid()
      modifies Repr()
      ensures Valid() && Repr() == old(Repr()) && Abs() == T.MarkAllDirty(old(Abs()))
    {
      hide Valid, Abs, Repr, Width, Height, T.EscOk, T.Safe, T.MarkRows;
      Fields();
      MarkRows(0, Height() - 1);
    }

    method MarkAllClean()
      requires Valid()
      modifies Repr()
      ensures Valid() && Repr() == old(Repr()) && Abs() == T.WithG(old(Abs()), T.MarkAllClean(T.G(old(Abs()))))
    {
      hide Valid, Abs, Repr, Width, Height, T.EscOk, T.Safe, Region;
      Fields();
      Process(0, 0, Width() - 1, Height() - 1, Clean);
    }

    /** Creates the alternate screen when there is none. */
    method EnsureAlt()
      requires Valid()
      modifies Repr()
      ensures Valid() && fresh(Repr() - old(Repr())) && Abs() == T.EnsureAlt(old(Abs()))
    {
      hide T.EscOk, T.Safe, DirtyCount;
      T.OnScreen(Abs());
      ghost var t := Abs();
      if altBuf.width == 0 {
        NewGrid(mainBuf.width, mainBuf.height);
        altScr := T.Screen(T.HOME, T.HOME, T.PLAIN_ATTR, false, 0, mainBuf.height - 1,
                           T.PLAIN_ATTR, T.GfxSet(false, false), T.NO_MODES);
        altBuf.New(mainBuf.width, mainBuf.height);
        assert mainBuf.Valid() && altBuf.Valid();
        assert Abs() == T.EnsureAlt(t);
      }
    }

    /** Frees the alternate screen when it is not the one shown. */
    method ReleaseAlt()
      requires Valid()
      modifies Repr()
      ensures Valid() && fresh(Repr() - old(Repr())) && Abs() == T.ReleaseAlt(old(Abs()))
    {
      hide T.EscOk, T.Safe, DirtyCount;
      ghost var t := Abs();
      if altBuf.width != 0 && !onAlt {
        altBuf.Free();
        assert mainBuf.Valid() && altBuf.Valid();
        assert Abs() == T.ReleaseAlt(t);
      }
    }

    method SetOnAlt(on: bool)
      requires Valid() && (on ==> Abs().alt != NO_GRID)
      modifies Repr()
      ensures Valid() && Repr() == old(Repr()) && Abs() == old(Abs()).(onAlt := on)
    {
      hide T.EscOk, DirtyCount;
      onAlt := on;
    }

    /** With a scroll pending, the new screen is redrawn from scratch. */
    method SwitchRedrawing()
      requires Valid()
      modifies Repr()
      ensures Valid() && fresh(Repr() - old(Repr())) && Abs() == T.SwitchRedrawing(old(Abs()))
    {
      hide Valid, Abs, T.EscOk, T.Safe, T.MarkAllClean, T.MarkAllDirty, T.EnsureAlt;
      Fields();
      SetScroll(0, scrollY0, scrollY1);
      MarkAllClean();
      Fields();
      if onAlt {
        SetOnAlt(false);
      } else {
        EnsureAlt();
        SetOnAlt(true);
      }
      MarkAllDirty();
    }

    /** What the other screen's cells need to show, once this one is shown. */
    method MergeInto(to: CellBuffer, from: CellBuffer)
      requires Valid() && to.InUse() && from.InUse()
      requires (to == mainBuf && from == altBuf) || (to == altBuf && from == mainBuf)
      modifies to`dirtyCount, to.buf, from`dirtyCount, from.buf
      ensures mainBuf.Valid() && altBuf.Valid() && to.InUse() && from.InUse()
      ensures to.G() == MergeAllDirty(old(to.G()), old(from.G())) && from.G() == T.MarkAllClean(old(from.G()))
    {
      hide T.Safe, DirtyCount, Region, MergeAllDirty;
      to.MergeAllDirtyFrom(from);
      from.ProcessRegion(0, 0, from.width - 1, from.height - 1, Clean);
    }

    method MergeToMain()
      requires Valid() && Abs().onAlt
      modifies Repr()
      ensures Valid() && Repr() == old(Repr()) && Abs() == T.MergeToMain(old(Abs()))
    {
      hide T.EscOk, T.Safe, DirtyCount, T.MarkAllClean, MergeAllDirty;
      BothLive(Abs());
      ghost var t := Abs();
      MergeInto(mainBuf, altBuf);
      onAlt := false;
      assert Abs() == T.MergeToMain(t);
    }

    method MergeToAlt()
      requires Valid() && !Abs().onAlt && Abs().alt != NO_GRID
      modifies Repr()
      ensures Valid() && Repr() == old(Repr()) && Abs() == T.MergeToAlt(old(Abs()))
    {
      hide T.EscOk, T.Safe, DirtyCount, T.MarkAllClean, MergeAllDirty;
      BothLive(Abs());
      ghost var t := Abs();
      MergeInto(altBuf, mainBuf);
      onAlt := true;
      assert Abs() == T.MergeToAlt(t);
    }

    /** Otherwise only the cells on which the two screens differ are redrawn. */
    method SwitchMerging()
      requires Valid()
      modifies Repr()
      ensures Valid() && fresh(Repr() - old(Repr())) && Abs() == T.SwitchMerging(old(Abs()))
    {
      hide Valid, Abs, Repr, T.EscOk, T.Safe, T.EnsureAlt, T.MergeToMain, T.MergeToAlt;
      Fields();
      if onAlt {
        MergeToMain();
      } else {
        EnsureAlt();
        MergeToAlt();
      }
    }

    method SwitchScreen()
      requires Valid()
      modifies Repr()
      ensures Valid() && fresh(Repr() - old(Repr())) && Abs() == T.SwitchScreen(old(Abs()))
    {
      hide Valid, Abs, T.EscOk, T.Safe, T.InvalidateCursor, T.SwitchRedrawing, T.SwitchMerging;
      InvalidateCursor();
      Fields();
      if scrollCount != 0 {
        SwitchRedrawing();
      } else {
        SwitchMerging();
      }
      InvalidateCursor();
    }

    // ---- control sequences ----------------------------------------------------------

    /** What the parser's fields say about the abstract state. */
    lemma EscFields()
      requires Valid()
      ensures esc.Valid() && esc.E() == Abs().esc && T.EscOk(Abs().esc) && T.Safe(Abs())
      ensures esc.argv.Length == T.ARG_SIZE && esc.argv[..] == Abs().esc.argv && esc.state == Abs().esc.state
      ensures esc.priv == Abs().esc.priv && esc.cmd == Abs().esc.cmd && esc.argc == Abs().esc.argc &&
        0 <= esc.argc <= T.ARG_SIZE
    {
      hide T.GridOk, DirtyCount;
    }

    method Erase(x0: int, y0: int, x1: int, y1: int)
      requires Valid()
      modifies Repr()
      ensures Valid() && Repr() == old(Repr()) && Abs() == C.Erase(old(Abs()), x0, y0, x1, y1)
    {
      hide Valid, Abs, Repr, Scr, T.EscOk, T.Safe, Region, FillWith;
      Fields();
      Process(x0, y0, x1, y1, FillWith(Some(Scr().attr)));
    }

    method EraseAll()
      requires Valid()
      modifies Repr()
      ensures Valid() && Repr() == old(Repr()) && Abs() == C.EraseAll(old(Abs()))
    {
      hide Valid, Abs, Repr, Width, Height, T.EscOk, T.Safe, C.Erase;
      Fields();
      Erase(0, 0, Width() - 1, Height() - 1);
    }

    /** An argument, 0 when omitted. */
    method Arg0(i: nat) returns (n: int)
      requires Valid() && i < T.ARG_SIZE
      ensures n == C.Arg0(Abs(), i)
    {
      EscFields();
      n := if esc.argv[i] != -1 then esc.argv[i] else 0;
    }

    /** An argument, `default` when omitted or 0. */
    method Arg1(i: nat, default: int) returns (n: int)
      requires Valid() && i < T.ARG_SIZE
      ensures n == C.Arg1(Abs(), i, default) && (default >= 0 ==> n >= 0)
    {
      EscFields();
      n := if esc.argv[i] > 0 then esc.argv[i] else default;
    }

    method EraseBelow()
      requires Valid()
      modifies Repr()
      ensures Valid() && Repr() == old(Repr()) && Abs() == C.EraseBelow(old(Abs()))
    {
      hide Valid, Abs, Repr, Width, Height, Pos, T.EscOk, T.Safe, C.Erase;
      Fields();
      var w: int, h: int, x: int, y: int := Width(), Height(), Pos().x, Pos().y;
      Erase(x, y, w - 1, y);
      Erase(0, y + 1, w - 1, h - 1);
    }

    method EraseAbove()
      requires Valid()
      modifies Repr()
      ensures Valid() && Repr() == old(Repr()) && Abs() == C.EraseAbove(old(Abs()))
    {
      hide Valid, Abs, Repr, Width, Height, Pos, T.EscOk, T.Safe, C.Erase;
      Fields();
      var w: int, x: int, y: int := Width(), Pos().x, Pos().y;
      Erase(0, y, x, y);
      Erase(0, 0, w - 1, y - 1);
    }

    method EraseDisplay()
      requires Valid()
      modifies Repr()
      ensures Valid() && Repr() == old(Repr()) && Abs() == C.EraseDisplay(old(Abs()))
    {
      hide Valid, Abs, Repr, T.EscOk, T.Safe, C.EraseBelow, C.EraseAbove, C.EraseAll, C.Arg0;
      var n := Arg0(0);
      if n == 0 { EraseBelow(); } else if n == 1 { EraseAbove(); } else if n == 2 || n == 3 { EraseAll(); }
    }

    method EraseLine()
      requires Valid()
      modifies Repr()
      ensures Valid() && Repr() == old(Repr()) && Abs() == C.EraseLine(old(Abs()))
    {
      hide Valid, Abs, Repr, Width, Height, Pos, T.EscOk, T.Safe, C.Erase, C.Arg0;
      Fields();
      var w: int, x: int, y: int := Width(), Pos().x, Pos().y;
      var n := Arg0(0);
      if n == 0 { Erase(x, y, w - 1, y); }
      else if n == 1 { Erase(0, y, x, y); }
      else if n == 2 { Erase(0, y, w - 1, y); }
    }

    /** Scrolls the part of the region from the cursor down; never into the history. */
    method ScrollBelow(lines: int, accel: bool)
      requires Valid()
      modifies Repr()
      ensures Valid() && Repr() == old(Repr()) && Abs() == C.ScrollBelow(old(Abs()), lines, accel)
    {
      hide Valid, Abs, Repr, Scr, Pos, Width, Height, T.EscOk, T.Safe, T.ScrollInternal;
      Fields();
      T.OnScreen(Abs());
      var top := Scr().scTop;
      if top <= Pos().y <= Scr().scBot {
        SetScr(Scr().(scTop := Max(top, Pos().y)));
        ScrollInternal(lines, accel);
        Fields();
        SetScr(Scr().(scTop := top));
      }
    }

    method MoveToTab(nx: int)
      requires Valid() && 0 <= nx < T.G(Abs()).width && !T.Pos(Abs()).lastCol
      modifies Repr()
      ensures Valid() && Repr() == old(Repr()) && Abs() == C.MoveToTab(old(Abs()), nx)
    {
      hide Valid, Abs, Repr, Scr, Pos, Width, Height, T.EscOk, T.Safe, T.MoveTo;
      Fields();
      if nx != Pos().x {
        T.OnScreen(Abs());
        MoveTo(nx, Pos().y);
        Fields();
        T.OnScreen(Abs());
        SetPos(Pos().(justMoved := true));
      }
    }

    /** `n` tab stops forward. */
    method TabForward(n: nat)
      requires Valid()
      modifies Repr()
      ensures Valid() && Repr() == old(Repr())
      ensures var t := old(Abs()); var x := C.TabForward(T.Pos(t).x, T.G(t).width, n);
        0 <= x < T.G(t).width && Abs() == C.MoveToTab(T.LcfReset(t), x)
    {
      hide Valid, Abs, Repr, T.EscOk, T.Safe, C.MoveToTab;
      Fields();
      T.OnScreen(Abs());
      C.TabForwardOk(Pos().x, Width(), n);
      ghost var t := Abs();
      LcfReset();
      Fields();
      var nx: int, left: int, wdt: int := Pos().x, n, Width();
      while left != 0 && nx != wdt - 1
        invariant 0 <= left <= n && 0 <= nx < wdt
        invariant C.TabForward(nx, wdt, left) == C.TabForward(T.Pos(t).x, wdt, n)
      {
        left, nx := left - 1, T.NextTab(nx, wdt);
      }
      MoveToTab(nx);
    }

    method TabBack(n: nat)
      requires Valid()
      modifies Repr()
      ensures Valid() && Repr() == old(Repr())
      ensures Abs() == C.MoveToTab(T.LcfReset(old(Abs())), C.TabBack(T.Pos(old(Abs())).x, n))
    {
      hide Valid, Abs, Repr, T.EscOk, T.Safe, C.MoveToTab;
      Fields();
      T.OnScreen(Abs());
      ghost var t := Abs();
      LcfReset();
      Fields();
      var nx, left := Pos().x, n;
      while left != 0 && nx != 0
        invariant 0 <= left <= n && 0 <= nx <= T.Pos(t).x
        invariant C.TabBack(nx, left) == C.TabBack(T.Pos(t).x, n)
      {
        left, nx := left - 1, (nx - 1) / 8 * 8;
      }
      MoveToTab(nx);
    }

    method SetRegion()
      requires Valid()
      modifies Repr()
      ensures Valid() && Repr() == old(Repr()) && Abs() == C.SetRegion(old(Abs()))
    {
      hide Valid, Abs, Repr, T.EscOk, T.Safe, C.WithRegion, T.CurMoveAbs;
      PutRegion();
      CurMoveAbs(0, 0);
    }

    method PutRegion()
      requires Valid()
      modifies Repr()
      ensures Valid() && Repr() == old(Repr()) && Abs() == C.WithRegion(old(Abs()))
    {
      hide Valid, Abs, Repr, T.EscOk, T.Safe, C.Arg1, C.WithRows;
      Fields();
      T.OnScreen(Abs());
      var h: int := Height();
      var arg0 := Arg1(0, 1);
      var arg1 := Arg1(1, h);
      var first, last := Clamp(arg0, 1, h) - 1, Clamp(arg1, 1, h) - 1;
      assert (first, last) == C.RegionRows(Abs());
      ResetAndPut(first, last);
    }

    method ResetAndPut(first: int, last: int)
      requires Valid() && (first, last) == C.RegionRows(Abs())
      modifies Repr()
      ensures Valid() && Repr() == old(Repr()) && Abs() == C.WithRegion(old(Abs()))
    {
      hide Valid, Abs, Repr, T.EscOk, T.Safe, C.RegionRows, C.WithRows;
      LcfResetNoMove();
      PutRows(first, last);
    }

    method PutRows(first: int, last: int)
      requires Valid() && 0 <= first < T.G(Abs()).height && 0 <= last < T.G(Abs()).height
      modifies Repr()
      ensures Valid() && Repr() == old(Repr()) && Abs() == C.WithRows(old(Abs()), first, last)
    {
      hide Valid, Abs, Repr, Scr, Width, Height, T.EscOk, T.Safe;
      Fields();
      T.OnScreen(Abs());
      var top, bot := first, last;
      if top > bot { top, bot := 0, Height() - 1; }
      SetScr(Scr().(scTop := top, scBot := bot));
    }

    /** Commands that clear or shift cells of the screen. */
    method CsiErase()
      requires Valid()
      modifies Repr()
      ensures Valid() && Repr() == old(Repr()) && Abs() == C.CsiErase(old(Abs()))
    {
      hide Valid, Abs, Repr, Scr, Pos, T.EscOk, T.Safe, C.Erase, C.EraseDisplay, C.EraseLine, C.Arg1, ShiftChars;
      var n := Arg1(0, 1);
      EscFields();
      var c := esc.cmd;
      LcfReset();
      Fields();
      if c == '@' as int { Shift(n, true, Some(Scr().attr)); }
      else if c == 'P' as int { Shift(n, false, Some(Scr().attr)); }
      else if c == 'X' as int { Erase(Pos().x, Pos().y, Pos().x + n - 1, Pos().y); }
      else if c == 'J' as int { EraseDisplay(); }
      else if c == 'K' as int { EraseLine(); }
    }

    /** Commands that scroll. */
    method CsiScroll(accel: bool)
      requires Valid()
      modifies Repr()
      ensures Valid() && Repr() == old(Repr()) && Abs() == C.CsiScroll(old(Abs()), accel)
    {
      hide Valid, Abs, Repr, T.EscOk, T.Safe, C.ScrollBelow, T.ScrollUp, T.ScrollDown, C.Arg1;
      var n := Arg1(0, 1);
      EscFields();
      var c := esc.cmd;
      LcfReset();
      if c == 'L' as int { ScrollBelow(n, accel); }
      else if c == 'M' as int { ScrollBelow(-n, accel); }
      else if c == 'S' as int { ScrollUp(n, accel); }
      else if c == 'T' as int { ScrollDown(n, accel); }
    }

    /** Relative moves. */
    method CsiStep()
      requires Valid()
      modifies Repr()
      ensures Valid() && Repr() == old(Repr()) && Abs() == C.CsiStep(old(Abs()))
    {
      hide Valid, Abs, Repr, Pos, Scr, Buf, Width, Height, T.EscOk, T.Safe, T.CurMoveRel, C.Arg1;
      PosField();
      var n := Arg1(0, 1);
      EscFields();
      var c, dx, dy := esc.cmd, 0, 0;
      if c == 'A' as int { dy := -n; }
      else if c == 'B' as int || c == 'e' as int { dy := n; }
      else if c == 'C' as int || c == 'a' as int { dx := n; }
      else if c == 'D' as int { dx := -n; }
      else if c == 'E' as int { dx, dy := -Pos().x, n; }
      else if c == 'F' as int { dx, dy := -Pos().x, -n; }
      assert (dx, dy) == C.StepOf(c, n, Pos().x);
      MoveBy(dx, dy, n);
    }

    method MoveBy(dx: int, dy: int, n: int)
      requires Valid() && n == C.Arg1(Abs(), 0) && (dx, dy) == C.StepOf(Abs().esc.cmd, n, T.Pos(Abs()).x)
      modifies Repr()
      ensures Valid() && Repr() == old(Repr()) && Abs() == C.CsiStep(old(Abs()))
    {
      hide Valid, Abs, Repr, T.EscOk, T.Safe, T.CurMoveRel, C.Arg1, C.StepOf;
      CurMoveRel(dx, dy);
    }

    /** Absolute moves. */
    method CsiGoTo()
      requires Valid()
      modifies Repr()
      ensures Valid() && Repr() == old(Repr()) && Abs() == C.CsiGoTo(old(Abs()))
    {
      hide Valid, Abs, Repr, Pos, T.EscOk, T.Safe, T.CurMoveAbs, C.Arg1;
      PosField();
      var n := Arg1(0, 1);
      var n1 := Arg1(1, 1);
      EscFields();
      var c, x, y := esc.cmd, n1 - 1, n - 1;
      if c == 'G' as int || c == '`' as int { x, y := n - 1, Pos().y; }
      else if c == 'd' as int { x := Pos().x; }
      assert (x, y) == C.GoToOf(c, n, n1, Pos());
      MoveOn(x, y, n, n1);
    }

    method MoveOn(x: int, y: int, n: int, n1: int)
      requires Valid() && n == C.Arg1(Abs(), 0) && n1 == C.Arg1(Abs(), 1)
      requires (x, y) == C.GoToOf(Abs().esc.cmd, n, n1, T.Pos(Abs()))
      modifies Repr()
      ensures Valid() && Repr() == old(Repr()) && Abs() == C.CsiGoTo(old(Abs()))
    {
      hide Valid, Abs, Repr, T.EscOk, T.Safe, T.CurMoveAbs, C.Arg1, C.GoToOf;
      CurMoveAbs(x, y);
    }

    /** Tabs and the scroll region. */
    method CsiMove()
      requires Valid()
      modifies Repr()
      ensures Valid() && Repr() == old(Repr()) && Abs() == C.CsiMove(old(Abs()))
    {
      hide Valid, Abs, Repr, T.EscOk, T.Safe, C.MoveToTab, C.TabForward, C.TabBack, C.SetRegion, C.Arg1, T.LcfReset;
      var n := Arg1(0, 1);
      EscFields();
      var c := esc.cmd;
      if c == 'I' as int { TabForward(n); }
      else if c == 'Z' as int { TabBack(n); }
      else if c == 'r' as int { SetRegion(); }
    }

    // ---- attributes and modes -------------------------------------------------------

    /** The colour after 38 or 48, if one is set, and where the next attribute starts. */
    method SgrColor(i: nat) returns (color: Option<nat>, next: nat)
      requires Valid() && i <= Abs().esc.argc
      ensures (color, next) == C.SgrColor(Abs().esc.argv, Abs().esc.argc, i)
    {
      EscFields();
      var v, n := esc.argv, esc.argc;
      color, next := Some(DEFAULT_COLOR), i;
      if i + 1 < n && v[i] == 5 {
        color, next := Some(C.STD_COLOR + Max(0, v[i + 1]) % 256), i + 2;
      } else if i < n && v[i] == 2 {
        color, next := None, i + 4;
        if i + 3 < n && v[i + 1] >= 0 && v[i + 2] >= 0 && v[i + 3] >= 0 {
          color := Some(v[i + 1] % 256 * 0x1_0000 + v[i + 2] % 256 * 0x100 + v[i + 3] % 256);
        }
      }
    }

    /** Attributes, one after the other; colours take further arguments. */
    method SetAttr() returns (a: Cell)
      requires Valid()
      ensures a == C.Sgr(T.S(Abs()).attr, Abs().esc.argv, Abs().esc.argc)
    {
      hide Valid, Abs, T.Safe, T.EscOk, C.SgrOne, C.SgrColor;
      Fields();
      EscFields();
      a := Scr().attr;
      if esc.argc == 0 { a := C.SgrOne(a, 0); return; }
      ghost var e := Abs().esc;
      ghost var a0 := a;
      var i := 0;
      while i < esc.argc
        invariant C.SgrFrom(a, e.argv, e.argc, i) == C.SgrFrom(a0, e.argv, e.argc, 0)
        decreases esc.argc - i
      {
        var n := Max(0, esc.argv[i]);
        if n == 38 || n == 48 {
          var color, next := SgrColor(i + 1);
          if color.Some? { a := if n == 38 then a.(fg := color.value) else a.(bg := color.value); }
          i := next;
        } else {
          a := C.SgrOne(a, n);
          i := i + 1;
        }
      }
    }

    method PlainModes(on: bool) returns (m: T.Modes)
      requires Valid()
      ensures m == C.PlainModes(Abs().modes, Abs().esc.argv, Abs().esc.argc, 0, on)
    {
      hide Valid, Abs, T.Safe, T.EscOk, C.SetPlainMode;
      Fields();
      EscFields();
      m := modes;
      ghost var e := Abs().esc;
      var i := 0;
      while i < esc.argc
        invariant 0 <= i <= esc.argc
        invariant C.PlainModes(m, e.argv, e.argc, i, on) == C.PlainModes(modes, e.argv, e.argc, 0, on)
      {
        m := C.SetPlainMode(m, esc.argv[i], on);
        i := i + 1;
      }
    }

    method CsiModes()
      requires Valid()
      modifies Repr()
      ensures Valid() && Repr() == old(Repr()) && Abs() == C.CsiModes(old(Abs()))
    {
      hide Abs, Repr, T.Safe, T.EscOk, C.PlainModes, C.Sgr;
      EscFields();
      var c := esc.cmd;
      if c == 'h' as int || c == 'l' as int {
        var m := PlainModes(c == 'h' as int);
        SetModes(m);
      } else if c == 'm' as int {
        var a := SetAttr();
        PutAttr(a);
      }
    }

    method PutAttr(a: Cell)
      requires Valid()
      modifies Repr()
      ensures Valid() && Repr() == old(Repr()) && Abs() == T.WithS(old(Abs()), T.S(old(Abs())).(attr := a))
    {
      hide Valid, Abs, Repr, Scr, T.Safe, T.EscOk;
      Fields();
      T.OnScreen(Abs());
      SetScr(Scr().(attr := a));
    }

    method CsiNormal(accel: bool)
      requires Valid()
      modifies Repr()
      ensures Valid() && Repr() == old(Repr()) && Abs() == C.CsiNormal(old(Abs()), accel)
    {
      hide Valid, Abs, Repr, T.Safe, T.EscOk, C.Among, C.CsiErase, C.CsiScroll, C.CsiStep, C.CsiGoTo, C.CsiMove,
           C.CsiModes,
        T.SaveCursor, T.RestoreCursor;
      EscFields();
      var c := esc.cmd;
      if C.Among(c, C.ERASES) { CsiErase(); }
      else if C.Among(c, C.SCROLLS) { CsiScroll(accel); }
      else if C.Among(c, C.STEPS) { CsiStep(); }
      else if C.Among(c, C.GOTOS) { CsiGoTo(); }
      else if C.Among(c, C.MOVES) { CsiMove(); }
      else if c == 's' as int { SaveCursor(T.SaveAnsi); }
      else if c == 'u' as int { RestoreCursor(T.SaveAnsi); }
      else { CsiModes(); }
    }

    // ---- private modes --------------------------------------------------------------

    method SetColorMode(mode: int)
      requires Valid()
      modifies Repr()
      ensures Valid() && Repr() == old(Repr()) && Abs() == C.SetColorMode(old(Abs()), mode)
    {
      hide Valid, Abs, Repr, T.Safe, T.EscOk, T.MarkAllDirty;
      PutColorMode(mode);
      MarkAllDirty();
    }

    method PutColorMode(mode: int)
      requires Valid()
      modifies Repr()
      ensures Valid() && Repr() == old(Repr()) && Abs() == old(Abs()).(colorMode := mode)
    {
      hide T.EscOk, DirtyCount;
      colorMode := mode;
    }

    /** Turns the history on, or closes it. */
    method SetHistory(on: bool)
      requires Valid()
      modifies Repr()
      ensures Valid() && Repr() == old(Repr()) && Abs() == C.PrivateCode(old(Abs()), 69, on)
    {
      hide T.EscOk, DirtyCount, C.SetColorMode;
      if on { historyEnabled := true; } else { history := []; }
    }

    method PrivateCode(code: int, on: bool)
      requires Valid()
      modifies Repr()
      ensures Valid() && Repr() == old(Repr()) && Abs() == C.PrivateCode(old(Abs()), code, on)
    {
      hide Valid, Abs, Repr, T.Safe, T.EscOk, C.SetColorMode;
      if code == 1 { SetColorMode(0); }
      else if code == 2 { SetColorMode(1); }
      else if code == 3 { SetColorMode(2); }
      else if code == 69 { SetHistory(on); }
    }

    /** The parser stays as it is while the arguments are worked through. */
    method PrivateCodes(on: bool)
      requires Valid() && Abs().esc.argc >= 3
      modifies Repr()
      ensures Valid() && Repr() == old(Repr())
      ensures Abs() == C.PrivateCodes(old(Abs()), old(Abs()).esc.argv, old(Abs()).esc.argc, 3, on)
    {
      hide Valid, Abs, Repr, T.Safe, T.EscOk, C.PrivateCode;
      EscFields();
      ghost var t := Abs();
      var f := 3;
      while f < esc.argc
        invariant Valid() && Repr() == old(Repr()) && T.Safe(Abs()) && 3 <= f <= esc.argc
        invariant Abs().esc == t.esc && esc.argc == t.esc.argc <= |t.esc.argv|
        invariant C.PrivateCodes(Abs(), t.esc.argv, t.esc.argc, f, on) ==
          C.PrivateCodes(t, t.esc.argv, t.esc.argc, 3, on)
      {
        EscFields();
        C.PrivateCodeEsc(Abs(), esc.argv[f], on);
        PrivateCode(esc.argv[f], on);
        EscFields();
        f := f + 1;
      }
    }

    method PlainPen()
      requires Valid()
      modifies Repr()
      ensures Valid() && Repr() == old(Repr()) && Abs() == C.PlainPen(old(Abs()))
    {
      hide Valid, Abs, Repr, Scr, T.Safe, T.EscOk;
      Fields();
      PutAttr(Scr().attr.(style := PLAIN, fg := DEFAULT_COLOR, bg := DEFAULT_COLOR));
    }

    method SetReverse(on: bool)
      requires Valid()
      modifies Repr()
      ensures Valid() && Repr() == old(Repr()) && Abs() == C.SetReverse(old(Abs()), on)
    {
      hide Valid, Abs, Repr, T.Safe, T.EscOk, T.MarkAllDirty;
      Fields();
      if modes.reverse != on {
        SetModes(modes.(reverse := on));
        MarkAllDirty();
      }
    }

    method SetOrigin(on: bool)
      requires Valid()
      modifies Repr()
      ensures Valid() && Repr() == old(Repr()) && Abs() == C.SetOrigin(old(Abs()), on)
    {
      hide Valid, Abs, Repr, T.Safe, T.EscOk, T.CurMoveAbs, T.LcfResetNoMove;
      LcfResetNoMove();
      Fields();
      SetModes(modes.(origin := on));
      CurMoveAbs(0, 0);
    }

    method ClearAndHome()
      requires Valid()
      modifies Repr()
      ensures Valid() && Repr() == old(Repr()) && Abs() == C.ClearAndHome(old(Abs()))
    {
      hide Valid, Abs, Repr, T.Safe, T.EscOk, T.CurMoveAbs, C.EraseAll, T.LcfReset;
      LcfReset();
      EraseAll();
      CurMoveAbs(0, 0);
    }

    method HideCursor(hidden: bool)
      requires Valid()
      modifies Repr()
      ensures Valid() && Repr() == old(Repr()) && Abs() == T.WithS(old(Abs()), T.S(old(Abs())).(hidden := hidden))
    {
      hide Valid, Abs, Repr, Scr, T.Safe, T.EscOk;
      Fields();
      T.OnScreen(Abs());
      SetScr(Scr().(hidden := hidden));
    }

    method ShowCursor(on: bool)
      requires Valid()
      modifies Repr()
      ensures Valid() && Repr() == old(Repr()) && Abs() == C.ShowCursor(old(Abs()), on)
    {
      hide Valid, Abs, Repr, Scr, T.Safe, T.EscOk, T.InvalidateCursor;
      Fields();
      if on && Scr().hidden {
        HideCursor(false);
        InvalidateCursor();
      } else if !on && !Scr().hidden {
        InvalidateCursor();
        HideCursor(true);
      }
    }

    /** Default attributes, and the whole screen cleared with them. */
    method ClearPlain()
      requires Valid()
      modifies Repr()
      ensures Valid() && Repr() == old(Repr()) && Abs() == C.ClearPlain(old(Abs()))
    {
      hide Valid, Abs, Repr, T.Safe, T.EscOk, C.EraseAll, C.PlainPen;
      PlainPen();
      EraseAll();
    }

    method EnterAlt(arg: int)
      requires Valid()
      modifies Repr()
      ensures Valid() && fresh(Repr() - old(Repr())) && Abs() == C.EnterAlt(old(Abs()), arg)
    {
      hide Valid, Abs, T.Safe, T.EscOk, T.SwitchScreen, T.SaveCursor, C.ClearPlain;
      Fields();
      if !onAlt && !modes.noAltScreen {
        if arg == 1049 { SaveCursor(T.SaveXTerm); }
        SwitchScreen();
        if arg == 1049 { ClearPlain(); }
      }
    }

    method LeaveAlt(arg: int)
      requires Valid()
      modifies Repr()
      ensures Valid() && fresh(Repr() - old(Repr())) && Abs() == C.LeaveAlt(old(Abs()), arg)
    {
      hide Valid, Abs, T.Safe, T.EscOk, C.LeaveSwitch, C.ClearPlain;
      Fields();
      if onAlt && !modes.noAltScreen {
        if arg != 47 { ClearPlain(); }
        LeaveSwitch(arg);
      }
    }

    method LeaveSwitch(arg: int)
      requires Valid()
      modifies Repr()
      ensures Valid() && fresh(Repr() - old(Repr())) && Abs() == C.LeaveSwitch(old(Abs()), arg)
    {
      hide Valid, Abs, T.Safe, T.EscOk, T.SwitchScreen, T.RestoreCursor;
      SwitchScreen();
      if arg == 1049 { RestoreCursor(T.SaveXTerm); }
    }

    method PutBit(arg: int, on: bool)
      requires Valid()
      modifies Repr()
      ensures Valid() && Repr() == old(Repr()) && Abs() == old(Abs()).(modes := C.PrivBit(old(Abs()).modes, arg, on))
    {
      hide Valid, Abs, Repr, T.Safe, T.EscOk, C.PrivBit;
      Fields();
      SetModes(C.PrivBit(modes, arg, on));
    }

    method PrivSet(arg: int)
      requires Valid()
      modifies Repr()
      ensures Valid() && fresh(Repr() - old(Repr())) && Abs() == C.PrivSet(old(Abs()), arg)
    {
      hide Valid, Abs, T.Safe, T.EscOk, C.ClearAndHome, C.SetReverse, C.SetOrigin, C.ShowCursor, C.EnterAlt,
           T.SaveCursor,
        C.PrivBit;
      if arg == 3 { ClearAndHome(); }
      else if arg == 5 { SetReverse(true); }
      else if arg == 6 { SetOrigin(true); }
      else if arg == 25 { ShowCursor(true); }
      else if arg == 47 || arg == 1047 || arg == 1049 { EnterAlt(arg); }
      else if arg == 1048 { SaveCursor(T.SaveXTerm); }
      else { PutBit(arg, true); }
    }

    method WrapOff()
      requires Valid()
      modifies Repr()
      ensures Valid() && Repr() == old(Repr()) && Abs() == C.WrapOff(old(Abs()))
    {
      hide Valid, Abs, Repr, T.Safe, T.EscOk, T.LcfResetNoMove;
      LcfResetNoMove();
      Fields();
      SetModes(modes.(wrap := false));
    }

    method AltOff()
      requires Valid()
      modifies Repr()
      ensures Valid() && fresh(Repr() - old(Repr())) && Abs() == C.AltOff(old(Abs()))
    {
      hide Valid, Abs, T.Safe, T.EscOk, T.SwitchScreen;
      PutBit(1046, false);
      Fields();
      if onAlt { SwitchScreen(); }
    }

    method PrivReset(arg: int)
      requires Valid()
      modifies Repr()
      ensures Valid() && fresh(Repr() - old(Repr())) && Abs() == C.PrivReset(old(Abs()), arg)
    {
      hide Valid, Abs, T.Safe, T.EscOk, C.ClearAndHome, C.SetReverse, C.SetOrigin, C.ShowCursor, C.LeaveAlt,
           T.RestoreCursor,
        C.PrivBit, C.WrapOff, C.AltOff;
      if arg == 3 { ClearAndHome(); }
      else if arg == 5 { SetReverse(false); }
      else if arg == 6 { SetOrigin(false); }
      else if arg == 7 { WrapOff(); }
      else if arg == 25 { ShowCursor(false); }
      else if arg == 1046 { AltOff(); }
      else if arg == 47 || arg == 1047 || arg == 1049 { LeaveAlt(arg); }
      else if arg == 1048 { RestoreCursor(T.SaveXTerm); }
      else { PutBit(arg, false); }
    }

    method PrivStep(arg: int, on: bool)
      requires Valid()
      modifies Repr()
      ensures Valid() && fresh(Repr() - old(Repr())) && Abs() == C.PrivStep(old(Abs()), arg, on)
    {
      hide Valid, Abs, T.Safe, T.EscOk, C.PrivSet, C.PrivReset;
      if on { PrivSet(arg); } else { PrivReset(arg); }
    }

    method PrivModes(on: bool)
      requires Valid()
      modifies Repr()
      ensures Valid() && fresh(Repr() - old(Repr()))
      ensures Abs() == C.PrivModes(old(Abs()), old(Abs()).esc.argv, old(Abs()).esc.argc, 0, on)
    {
      hide Valid, Abs, T.Safe, T.EscOk, C.PrivStep, C.PrivModes;
      EscFields();
      ghost var t := Abs();
      var argv, argc := esc.argv[..], esc.argc;
      PrivFrom(argv, argc, on);
    }

    method PrivFrom(argv: seq<int>, argc: nat, on: bool)
      requires Valid() && argc <= |argv|
      modifies Repr()
      ensures Valid() && fresh(Repr() - old(Repr())) && Abs() == C.PrivModes(old(Abs()), argv, argc, 0, on)
    {
      hide Valid, Abs, T.Safe, T.EscOk, C.PrivStep, C.PrivModes;
      ghost var t := Abs();
      Fields();
      var aidx := 0;
      while aidx < argc
        invariant Valid() && T.Safe(Abs()) && fresh(Repr() - old(Repr())) && 0 <= aidx <= argc
        invariant C.PrivModes(Abs(), argv, argc, aidx, on) == C.PrivModes(t, argv, argc, 0, on)
      {
        ghost var u := Abs();
        PrivStep(argv[aidx], on);
        C.PrivModesNext(u, argv, argc, aidx, on);
        aidx := aidx + 1;
      }
      C.PrivModesNext(Abs(), argv, argc, aidx, on);
    }

    method CsiPriv()
      requires Valid()
      modifies Repr()
      ensures Valid() && fresh(Repr() - old(Repr())) && Abs() == C.CsiPriv(old(Abs()))
    {
      hide Valid, Abs, T.Safe, T.EscOk, C.PrivateCodes, C.PrivModes;
      EscFields();
      var isPrivate := esc.argc >= 4 && esc.argv[0] == 666 && esc.argv[1] == 69 && esc.argv[2] == 669;
      assert isPrivate == C.IsPrivate(Abs().esc);
      var c := esc.cmd;
      if c == 'h' as int || c == 'l' as int {
        if isPrivate { PrivateCodes(c == 'h' as int); } else { PrivModes(c == 'h' as int); }
      }
    }

    // ---- the parser's states --------------------------------------------------------

    method ToState(s: T.ParseState)
      requires Valid() && s !in {T.Osc, T.Dcs}
      modifies Repr()
      ensures Valid() && Repr() == old(Repr()) && Abs() == C.ToState(old(Abs()), s)
    {
      hide T.GridOk, DirtyCount;
      esc.SetState(s);
    }

    method ToGround()
      requires Valid()
      modifies Repr()
      ensures Valid() && Repr() == old(Repr()) && Abs() == C.ToGround(old(Abs()))
    {
      hide Valid, Abs, Repr, T.Safe, T.EscOk;
      ToState(T.Ground);
    }

    method StartCsi()
      requires Valid()
      modifies Repr()
      ensures Valid() && Repr() == old(Repr()) && Abs() == old(Abs()).(esc := C.StartCsi(old(Abs()).esc))
    {
      hide T.GridOk, DirtyCount;
      esc.StartCsi();
    }

    method StartString(s: T.ParseState)
      requires Valid()
      modifies Repr()
      ensures Valid() && Repr() == old(Repr()) && Abs() == old(Abs()).(esc := C.StartString(old(Abs()).esc, s))
    {
      hide T.GridOk, DirtyCount;
      esc.StartString(s);
    }

    method FillArgs()
      requires Valid()
      modifies Repr()
      ensures Valid() && Repr() == old(Repr()) && Abs() == old(Abs()).(esc := C.FillArgs(old(Abs()).esc))
    {
      hide T.GridOk, DirtyCount;
      esc.FillArgs();
    }

    method NextChar(cp: nat) returns (done: bool)
      requires Valid() && Abs().esc.state in {T.Csi, T.CsiIgnore}
      modifies Repr()
      ensures Valid() && Repr() == old(Repr()) && done == C.CsiNextChar(old(Abs()).esc, cp).1
      ensures Abs() == old(Abs()).(esc := C.CsiNextChar(old(Abs()).esc, cp).0)
    {
      hide T.GridOk, DirtyCount, C.CsiNextChar;
      done := esc.NextChar(cp);
    }

    /** Executes the finished sequence, unless it was marked as unsupported. */
    method CsiHandle(accel: bool)
      requires Valid()
      modifies Repr()
      ensures Valid() && fresh(Repr() - old(Repr())) && Abs() == C.CsiHandle(old(Abs()), accel)
    {
      hide Valid, Abs, T.Safe, T.EscOk, C.FillArgs, C.CsiPriv, C.CsiNormal;
      EscFields();
      var ignored := esc.state == T.CsiIgnore || esc.cmd == 0;
      ToGround();
      if !ignored {
        FillArgs();
        CsiRun(accel);
      }
    }

    method CsiRun(accel: bool)
      requires Valid()
      modifies Repr()
      ensures Valid() && fresh(Repr() - old(Repr())) && Abs() == C.CsiRun(old(Abs()), accel)
    {
      hide Valid, Abs, T.Safe, T.EscOk, C.CsiPriv, C.CsiNormal;
      EscFields();
      var c := esc.cmd;
      if esc.priv > 0 && c != 'J' as int && c != 'K' as int { CsiPriv(); }
      else if esc.priv >= 0 { CsiNormal(accel); }
    }

    method ProcessCsi(cp: nat, accel: bool)
      requires Valid() && Abs().esc.state in {T.Csi, T.CsiIgnore}
      modifies Repr()
      ensures Valid() && fresh(Repr() - old(Repr())) && Abs() == C.ProcessCsi(old(Abs()), cp, accel)
    {
      hide Valid, Abs, T.Safe, T.EscOk, C.CsiNextChar, C.CsiHandle;
      var done := NextChar(cp);
      if done { CsiHandle(accel); }
    }

    // ---- strings --------------------------------------------------------------------

    method OscText(cp: nat)
      requires Valid() && Abs().esc.state == T.Osc
      modifies Repr()
      ensures Valid() && Repr() == old(Repr()) && Abs() == old(Abs()).(esc := C.OscText(old(Abs()).esc, cp))
    {
      hide T.GridOk, DirtyCount, C.OscText;
      esc.OscText(cp);
    }

    method AppendChar(cp: nat)
      requires Valid() && Abs().esc.state == T.Dcs
      modifies Repr()
      ensures Valid() && Repr() == old(Repr()) && Abs() == old(Abs()).(esc := C.AppendChar(old(Abs()).esc, cp))
    {
      hide T.GridOk, DirtyCount, C.AppendChar;
      esc.AppendChar(cp);
    }

    method FinishOsc(newGroup: bool)
      requires Valid()
      modifies Repr()
      ensures Valid() && fresh(Repr() - old(Repr())) && Abs() == C.FinishOsc(old(Abs()), newGroup)
    {
      hide Valid, Abs, T.Safe, T.EscOk, T.ReleaseAlt;
      EscFields();
      if esc.state == T.Osc && esc.cmd == 2 && newGroup { ReleaseAlt(); }
    }

    /** Control characters that end any string; the answer says whether this one does. */
    method StringControl(cp: nat, accel: bool) returns (ended: bool)
      requires Valid()
      modifies Repr()
      ensures Valid() && Repr() == old(Repr()) && (Abs(), ended) == C.StringControl(old(Abs()), cp, accel)
      ensures cp == 0x07 || cp == 0x1b ==> ended
    {
      hide Valid, Abs, Repr, T.Safe, T.EscOk, T.PutC, C.ToGround, C.ToState;
      ended := cp == 0x07 || 0x08 <= cp <= 0x0f || cp == 0x18 || cp == 0x1a || cp == 0x1b;
      if ended {
        ToGround();
        if 0x08 <= cp <= 0x0d { PutC(cp, accel); }
        else if cp == 0x0e { SetCharset(T.GfxSet(false, true)); }
        else if cp == 0x0f { SetCharset(T.GfxSet(true, false)); }
        else if cp == 0x1a { PutC('?' as int, accel); }
        else if cp == 0x1b { ToState(T.Escape); }
      }
    }

    method ProcessOsc(cp: nat, env: C.Env)
      requires Valid() && Abs().esc.state == T.Osc
      modifies Repr()
      ensures Valid() && fresh(Repr() - old(Repr())) && Abs() == C.ProcessOsc(old(Abs()), cp, env)
    {
      hide Valid, Abs, T.Safe, T.EscOk, C.FinishOsc, C.StringControl, C.OscText;
      Fields();
      ghost var t := Abs();
      if cp == 0x07 || cp == 0x1b { FinishOsc(env.newGroup); } else { C.StringGoesOn(t, cp, env); }
      var ended := StringControl(cp, env.accel);
      if !ended && cp != 0x7f && cp >= 0x20 { OscText(cp); }
    }

    method ProcessDcs(cp: nat)
      requires Valid() && Abs().esc.state == T.Dcs
      modifies Repr()
      ensures Valid() && Repr() == old(Repr()) && Abs() == C.ProcessDcs(old(Abs()), cp)
    {
      hide Valid, Abs, Repr, T.Safe, T.EscOk, C.AppendChar, C.ToState, C.ToGround;
      if cp == 0x18 || cp == 0x1a { ToGround(); }
      else if cp == 0x1b { ToState(T.Escape); }
      else { AppendChar(cp); }
    }

    // ---- the dispatcher -------------------------------------------------------------

    method Index(accel: bool)
      requires Valid()
      modifies Repr()
      ensures Valid() && Repr() == old(Repr()) && Abs() == C.Index(old(Abs()), accel)
    {
      hide Valid, Abs, Repr, Scr, T.Safe, T.EscOk, T.LcfReset, T.ScrollUp, T.CurMoveRel;
      LcfReset();
      Fields();
      var s := Scr();
      if s.scTop <= s.curpos.y <= s.scBot {
        if s.curpos.y == s.scBot { ScrollUp(1, accel); } else { CurMoveRel(0, 1); }
      }
    }

    method ReverseIndex(accel: bool)
      requires Valid()
      modifies Repr()
      ensures Valid() && Repr() == old(Repr()) && Abs() == C.ReverseIndex(old(Abs()), accel)
    {
      hide Valid, Abs, Repr, Scr, T.Safe, T.EscOk, T.LcfReset, T.ScrollDown, T.CurMoveRel;
      LcfReset();
      Fields();
      var s := Scr();
      if s.scTop <= s.curpos.y <= s.scBot {
        if s.curpos.y == s.scTop { ScrollDown(1, accel); } else { CurMoveRel(0, -1); }
      }
    }

    /** The full reset: nothing is marked for redrawing. */
    method ResetMode()
      requires Valid()
      modifies Repr()
      ensures Valid() && fresh(Repr() - old(Repr())) && Abs() == T.ResetMode(old(Abs()))
    {
      hide T.EscOk, T.Safe, DirtyCount;
      ghost var t := Abs();
      var blank := T.Screen(T.HOME, T.HOME, T.PLAIN_ATTR, false, 0, 0, T.PLAIN_ATTR, T.GfxSet(false, false),
                            T.NO_MODES);
      esc.state := T.Ground;
      onAlt := false;
      modes, charset := T.NO_MODES.(wrap := true), T.GfxSet(true, false);
      mainScr := blank.(scBot := mainBuf.height - 1);
      altScr := blank.(scBot := altBuf.height - 1);
      altBuf.Free();
      assert mainBuf.Valid() && altBuf.Valid();
      assert Abs() == T.ResetMode(t);
    }

    /** The first character after ESC, when it starts a longer sequence; the answer says whether it does. */
    method EscStart(cp: nat) returns (started: bool)
      requires Valid()
      modifies Repr()
      ensures Valid() && Repr() == old(Repr()) && (Abs(), started) == C.EscStart(old(Abs()), cp)
    {
      hide Valid, Abs, Repr, T.Safe, T.EscOk, C.StartCsi, C.StartString, C.ToState;
      started := true;
      if cp == '[' as int { StartCsi(); }
      else if cp == ']' as int { StartString(T.Osc); }
      else if cp == 'P' as int { StartString(T.Dcs); }
      else if cp == '(' as int { ToState(T.CharsetG0); }
      else if cp == ')' as int { ToState(T.CharsetG1); }
      else if cp == '#' as int { ToState(T.Hash); }
      else if cp == '%' as int { ToState(T.Percent); }
      else if cp == '^' as int { ToState(T.IgnoreString); }
      else { started := false; }
    }

    method NextLine(accel: bool)
      requires Valid()
      modifies Repr()
      ensures Valid() && Repr() == old(Repr()) &&
        Abs() == T.PutC(T.PutC(T.LcfReset(old(Abs())), 0x0a, accel), 0x0d, accel)
    {
      hide Valid, Abs, Repr, T.Safe, T.EscOk, T.PutC, T.LcfReset;
      LcfReset();
      PutC(0x0a, accel);
      PutC(0x0d, accel);
    }

    /** The one-character sequences. */
    method EscRun(cp: nat, accel: bool)
      requires Valid()
      modifies Repr()
      ensures Valid() && fresh(Repr() - old(Repr())) && Abs() == C.EscRun(old(Abs()), cp, accel)
    {
      hide Valid, Abs, Width, Height, T.Safe, T.EscOk, T.PutC, T.LcfReset, C.Index, C.ReverseIndex, T.CurMoveAbs,
           T.SaveCursor,
        T.RestoreCursor, T.ResetMode;
      Fields();
      if cp == 'D' as int { Index(accel); }
      else if cp == 'E' as int { NextLine(accel); }
      else if cp == 'F' as int { CurMoveAbs(0, Height() - 1); }
      else if cp == 'M' as int { ReverseIndex(accel); }
      else if cp == 'c' as int { ResetMode(); }
      else if cp == '7' as int { SaveCursor(T.SaveDec); }
      else if cp == '8' as int { RestoreCursor(T.SaveDec); }
    }

    method ProcessEsc(cp: nat, accel: bool)
      requires Valid()
      modifies Repr()
      ensures Valid() && fresh(Repr() - old(Repr())) && Abs() == C.ProcessEsc(old(Abs()), cp, accel)
    {
      hide Valid, Abs, T.Safe, T.EscOk, C.ToGround, C.EscStart, C.EscRun;
      ToGround();
      var started := EscStart(cp);
      if !started { EscRun(cp, accel); }
    }

    method WriteRow(y: int, ch: nat)
      requires Valid()
      modifies Repr()
      ensures Valid() && Repr() == old(Repr())
      ensures Abs() ==
        var t := old(Abs());
        T.WithG(t, WriteRun(T.G(t), 0, y, ch, T.G(t).width, Some(T.S(t).attr)))
    {
      hide T.EscOk, DirtyCount, WriteRun;
      Buf().WriteWcharCount(0, y, ch, Buf().width, Some(Scr().attr));
    }

    /** The alignment test fills the screen with E's, row by row. */
    method FillScreen()
      requires Valid()
      modifies Repr()
      ensures Valid() && Repr() == old(Repr()) && Abs() == C.FillScreen(old(Abs()))
    {
      hide Valid, Abs, Repr, T.EscOk, T.Safe, FilledRows;
      Fields();
      ghost var t := Abs();
      var y, hgt := 0, Height();
      NoRowsFilled(t);
      while y < hgt
        invariant 0 <= y <= hgt && Valid() && Repr() == old(Repr()) && Abs() == FilledRows(t, y)
      {
        RowFilled(t, y);
        WriteRow(y, 'E' as int);
        y := y + 1;
      }
    }

    method ProcessHash(cp: nat)
      requires Valid()
      modifies Repr()
      ensures Valid() && Repr() == old(Repr()) && Abs() == C.ProcessHash(old(Abs()), cp)
    {
      hide Valid, Abs, Repr, T.EscOk, T.Safe, C.ToGround, C.FillScreen;
      ToGround();
      if cp == '8' as int { FillScreen(); }
    }

    /** Control characters outside strings; the answer says whether this was one. */
    method ControlChar(cp: nat, accel: bool) returns (eaten: bool)
      requires Valid()
      modifies Repr()
      ensures Valid() && Repr() == old(Repr()) && (Abs(), eaten) == C.ControlChar(old(Abs()), cp, accel)
    {
      hide Valid, Abs, Repr, T.EscOk, T.Safe, T.PutC, C.ToGround, C.ToState;
      EscFields();
      eaten := esc.state != T.Osc && esc.state != T.Dcs && (cp < 0x20 || cp == 0x7f);
      if eaten && cp != 0x07 && cp != 0x7f {
        if cp == 0x0e { SetCharset(T.GfxSet(false, true)); }
        else if cp == 0x0f { SetCharset(T.GfxSet(true, false)); }
        else if cp == 0x1a { PutC('?' as int, accel); ToGround(); }
        else if cp == 0x18 { ToGround(); }
        else if cp == 0x1b { ToState(T.Escape); }
        else { PutC(cp, accel); }
      }
    }

    /** Which line-drawing set a designation selects. */
    method Designate(g1: bool, cp: nat)
      requires Valid()
      modifies Repr()
      ensures Valid() && Repr() == old(Repr()) && Abs() == C.Designate(old(Abs()), g1, cp)
    {
      hide Valid, Abs, Repr, T.EscOk, T.Safe, C.ToGround;
      ToGround();
      Fields();
      if g1 { SetModes(modes.(gfx1 := cp == '0' as int)); } else { SetModes(modes.(gfx0 := cp == '0' as int)); }
    }

    /** One decoded character from the child process. */
    method ProcessChar(cp: nat, env: C.Env)
      requires Valid()
      modifies Repr()
      ensures Valid() && fresh(Repr() - old(Repr())) && Abs() == C.ProcessChar(old(Abs()), cp, env)
    {
      hide Valid, Abs, T.EscOk, T.Safe, C.ControlChar, C.ProcessState;
      var eaten := ControlChar(cp, env.accel);
      if !eaten { ProcessState(cp, env); }
    }

    /** A character that is no control character, by the parser's state. */
    method ProcessState(cp: nat, env: C.Env)
      requires Valid()
      modifies Repr()
      ensures Valid() && fresh(Repr() - old(Repr())) && Abs() == C.ProcessState(old(Abs()), cp, env)
    {
      hide Valid, Abs, T.EscOk, T.Safe, T.PutC, C.ProcessEsc, C.ProcessCsi, C.ProcessHash, C.ProcessOsc, C.ProcessDcs,
        C.StringControl, C.Designate, C.ToGround;
      EscFields();
      match esc.state
      case Ground => PutC(cp, env.accel);
      case Escape => ProcessEsc(cp, env.accel);
      case Csi => ProcessCsi(cp, env.accel);
      case CsiIgnore => ProcessCsi(cp, env.accel);
      case CharsetG0 => Designate(false, cp);
      case CharsetG1 => Designate(true, cp);
      case Hash => ProcessHash(cp);
      case Percent => ToGround();
      case Osc => ProcessOsc(cp, env);
      case Dcs => ProcessDcs(cp);
      case IgnoreString => var _ := StringControl(cp, env.accel);
    }

    lemma WordField()
      requires Valid()
      ensures rdcp == Abs().rdcp && Utf8.Packed(rdcp) && T.Safe(Abs())
    {
      hide T.EscOk, DirtyCount;
    }

    method SetWord(w: nat)
      requires Valid() && Utf8.Packed(w)
      modifies Repr()
      ensures Valid() && Repr() == old(Repr()) && Abs() == old(Abs()).(rdcp := w)
    {
      hide T.EscOk, DirtyCount, Utf8.Packed;
      rdcp := w;
    }

    /** One byte from the child process, outside selection mode. */
    method ReadByte(b: Utf8.Byte, env: C.Env)
      requires Valid()
      modifies Repr()
      ensures Valid() && fresh(Repr() - old(Repr())) && Abs() == C.ReadByte(old(Abs()), b, env)
    {
      hide Valid, Abs, T.EscOk, T.Safe, T.PutC, C.ProcessChar, Utf8.Packed, Utf8.Consume;
      WordField();
      Utf8.ConsumePacked(rdcp, b);
      var w := Utf8.Consume(rdcp, b);
      SetWord(w);
      if Utf8.ValidCp(w) { ProcessChar(w, env); }
      else if Utf8.Rejected(w) { PutC(Utf8.REPLACEMENT, env.accel); }
    }
  }
}
