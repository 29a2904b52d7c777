/** Every character of the escape-sequence machine, but the full reset, keeps the window faithful. */
module FidelitySteps {
  import opened Cells
  import opened TermModel
  import opened CsiModel
  import opened GridFacts
  import opened Fidelity
  import Utf8

  // ---- writing ----------------------------------------------------------------------

  lemma MarkWrapKeeps(t: Term, y: int, mark: bool, win: seq<Ink>)
    requires Safe(t) && Faithful(t, win)
    ensures Faithful(MarkWrap(t, y, mark), win)
  {
    hide EscOk, FaithfulBut, SetWrap, Honest;
    SetWrapHonest(G(t), y, mark);
    Carry(t, MarkWrap(t, y, mark), win, -1);
  }

  lemma Weaken(t: Term, win: seq<Ink>)
    requires Safe(t) && Faithful(t, win)
    ensures FaithfulBut(t, win, CursorIndex(t))
  {
    hide EscOk, Safe;
  }

  lemma WrapTaken(t: Term, win: seq<Ink>)
    requires Safe(t) && Faithful(t, win)
    ensures var t1 := WithPos(t, Pos(t).(lastCol := false, justMoved := false)); Safe(t1) && Faithful(t1, win)
  {
    hide EscOk, FaithfulBut;
    CarryAll(t, WithPos(t, Pos(t).(lastCol := false, justMoved := false)), win);
  }

  lemma LcfStartKeeps(t: Term, win: seq<Ink>)
    requires Safe(t) && Faithful(t, win)
    ensures Faithful(LcfStart(t), win) && CursorDirty(LcfStart(t))
  {
    hide EscOk, Safe, FaithfulBut, MarkWrap, InvalidateCursor, CursorDirty;
    var t1 := WithPos(t, Pos(t).(lastCol := false, justMoved := false));
    WrapTaken(t, win);
    MarkWrapKeeps(t1, Pos(t1).y, true, win);
    InvalidateKeeps(MarkWrap(t1, Pos(t1).y, true), win, -1);
  }

  lemma NextRowKeeps(t: Term, t1: Term, win: seq<Ink>)
    requires Safe(t) && Faithful(t, win) && CursorDirty(t) && !Pos(t).lastCol && t1 == WithPos(t, Pos(t).(x := 0)) &&
      Safe(t1)
    ensures FaithfulBut(NextRow(t1), win, CursorIndex(NextRow(t1)))
  {
    hide EscOk, FaithfulBut, InvalidateCursor, CursorDirty;
    CursorChange(t, t1, win);
    if Pos(t1).y != G(t1).height - 1 {
      var t2 := WithPos(t1, Pos(t1).(y := Pos(t1).y + 1));
      CursorMoved(t, t2, win);
      Weaken(InvalidateCursor(t2), win);
    }
  }

  /** On the last row, below the region, the new cursor cell is left to the write that follows. */
  lemma LcfRestKeeps(t: Term, accel: bool, win: seq<Ink>)
    requires Safe(t) && Faithful(t, win) && CursorDirty(t) && !Pos(t).lastCol
    ensures FaithfulBut(LcfRest(t, accel), win, CursorIndex(LcfRest(t, accel)))
  {
    hide EscOk, FaithfulBut, InvalidateCursor, CursorDirty, ScrollUp, NextRow;
    var t1 := WithPos(t, Pos(t).(x := 0));
    CursorChange(t, t1, win);
    if Pos(t1).y == S(t1).scBot {
      ScrollUpKeeps(t1, 1, accel, win, CursorIndex(t1));
      Weaken(ScrollUp(t1, 1, accel), win);
    } else {
      NextRowKeeps(t, t1, win);
    }
  }

  lemma LcfDoKeeps(t: Term, accel: bool, win: seq<Ink>)
    requires Safe(t) && Faithful(t, win)
    ensures FaithfulBut(LcfDo(t, accel), win, CursorIndex(LcfDo(t, accel)))
  {
    hide EscOk, FaithfulBut, LcfStart, LcfRest, CursorDirty;
    if Pos(t).lastCol {
      LcfStartKeeps(t, win);
      LcfRestKeeps(LcfStart(t), accel, win);
    } else {
      Weaken(t, win);
    }
  }

  lemma FilledCell(g: Grid, x: int, y: int, op: RegionOp)
    requires Live(g) && 0 <= x < g.width && 0 <= y < g.height && op.Fill?
    ensures Region(g, x, y, x, y, op).cells[At(g, x, y)].dirty
  {
    hide Apply, Row, Col;
    RowColOf(x, y, g.width);
    FillDirty(op, g.cells[At(g, x, y)]);
  }

  /** The written cell is redrawn, so the write repairs whatever the cursor left behind. */
  lemma WriteHereKeeps(t: Term, ch: nat, win: seq<Ink>)
    requires Safe(t) && FaithfulBut(t, win, CursorIndex(t))
    ensures Faithful(WriteHere(t, ch), win)
  {
    hide EscOk, FaithfulBut, ShiftChars, Region, Honest, FillWith, Row, Col, Apply;
    var e := CursorIndex(t);
    var t1 := if t.modes.insert then WithG(t, ShiftChars(G(t), Pos(t).x, Pos(t).y, 1, true, None)) else t;
    if t.modes.insert {
      ShiftCharsHonest(G(t), Pos(t).x, Pos(t).y, 1, true, None);
      Carry(t, t1, win, e);
    }
    var fill := FillWith(Some(S(t1).attr));
    var pen := fill.(ch := StoredChar(ch));
    var x, y := Pos(t1).x, Pos(t1).y;
    CarryRegion(t1, x, y, x, y, pen, win, e);
    FilledCell(G(t1), x, y, pen);
    var t2 := WithG(t1, Region(G(t1), x, y, x, y, pen));
    Strengthen(t2, win, e);
  }

  lemma AdvanceKeeps(t: Term, win: seq<Ink>)
    requires Safe(t) && Faithful(t, win) && !Pos(t).lastCol
    ensures Faithful(Advance(t), win)
  {
    hide EscOk, FaithfulBut, MarkWrap, MoveTo;
    if Pos(t).x != G(t).width - 1 {
      MoveToKeeps(t, Pos(t).x + 1, Pos(t).y, win);
    } else {
      var t1 := WithPos(t, Pos(t).(lastCol := true));
      CarryAll(t, t1, win);
      MarkWrapKeeps(t1, Pos(t).y, false, win);
      MarkWrapKeeps(t, Pos(t).y, false, win);
    }
  }

  lemma StaleWrapKeeps(t: Term, win: seq<Ink>)
    requires Safe(t) && Faithful(t, win)
    ensures Faithful(StaleWrap(t), win)
  {
    hide EscOk, FaithfulBut, MarkWrap;
    var t0 := WithPos(t, Pos(t).(justMoved := false));
    CarryAll(t, t0, win);
    MarkWrapKeeps(t0, Pos(t).y, false, win);
  }

  lemma PutCharKeeps(t: Term, cp: nat, accel: bool, win: seq<Ink>)
    requires Safe(t) && Faithful(t, win)
    ensures Faithful(PutChar(t, cp, accel), win)
  {
    hide EscOk, FaithfulBut, StaleWrap, LcfDo, WriteHere, Advance, Translate, Safe;
    var ch := Translate(t, cp);
    if ch != 0x7f {
      var t1 := StaleWrap(t);
      StaleWrapKeeps(t, win);
      LcfDoKeeps(t1, accel, win);
      WriteHereKeeps(LcfDo(t1, accel), ch, win);
      AdvanceKeeps(WriteHere(LcfDo(t1, accel), ch), win);
    }
  }

  /** A scroll with the cursor in its region always redraws the cursor's cell. */
  lemma ScrollRedrawsCursor(t: Term, accel: bool)
    requires Safe(t) && Pos(t).y == S(t).scBot
    ensures CursorDirty(ScrollUp(t, 1, accel))
  {
    hide EscOk, Safe, ScrollInternal, AppendHistory, CursorDirty;
    InternalRedraws(if t.historyEnabled && !t.onAlt && t.mainScr.scTop == 0 then AppendHistory(t) else t, accel);
  }

  lemma InternalRedraws(t: Term, accel: bool)
    requires Safe(t) && Pos(t).y == S(t).scBot
    ensures CursorDirty(ScrollInternal(t, -1, accel))
  {
    hide EscOk, Cleared, ScrollArea, InvalidateCursor, Accumulate, CursorDirty;
    OnScreen(t);
    if S(t).scBot - S(t).scTop + 1 <= 1 {
      ClearedIs(t, -1, accel);
      ClearedRedrawsCursor(t);
    } else {
      var (t2, copy) := Accumulate(InvalidateCursor(t), -1, 1, accel);
      InvalidateDirties(WithG(t2, ScrollArea(G(t2), S(t).scTop, S(t).scBot, 1, -1, !copy, Some(S(t).attr))));
    }
  }

  lemma ClearedRedrawsCursor(t: Term)
    requires Safe(t) && S(t).scTop <= Pos(t).y <= S(t).scBot
    ensures CursorDirty(Cleared(t))
  {
    hide EscOk, MarkRows, Region, Apply, Row, Col;
    var t1 := if Pending(t) then MarkRows(t, t.scrollY0, t.scrollY1) else t;
    var op := FillWith(Some(S(t).attr));
    WholeRows(G(t1), S(t).scTop, S(t).scBot, G(t1).width - 1, op);
    CursorInRegion(t);
    FillDirty(op, G(t1).cells[CursorIndex(t)]);
  }

  lemma FeedKeeps(t: Term, accel: bool, win: seq<Ink>)
    requires Safe(t) && Faithful(t, win) && !Pos(t).lastCol
    ensures Pos(t).y == S(t).scBot ==> Faithful(FeedScroll(t, accel), win)
    ensures Faithful(FeedStep(t), win)
  {
    hide EscOk, FaithfulBut, ScrollUp, MoveTo, InvalidateCursor, CursorDirty;
    if Pos(t).y == S(t).scBot {
      ScrollUpKeeps(t, 1, accel, win, -1);
      ScrollRedrawsCursor(t, accel);
      var t1 := ScrollUp(t, 1, accel);
      if t1.modes.crlf && Pos(t1).x != 0 { CursorMoved(t1, WithPos(t1, Pos(t1).(x := 0)), win); }
    }
    MoveToKeeps(t, if t.modes.crlf then 0 else Pos(t).x,
                if Pos(t).y != G(t).height - 1 then Pos(t).y + 1 else Pos(t).y, win);
  }

  lemma LineFeedKeeps(t: Term, accel: bool, win: seq<Ink>)
    requires Safe(t) && Faithful(t, win)
    ensures Faithful(LineFeed(t, accel), win)
  {
    hide EscOk, FaithfulBut, MarkWrap, FeedScroll, FeedStep;
    var t1 := LcfReset(t);
    LcfResetKeeps(t, win);
    MarkWrapKeeps(t1, Pos(t1).y, false, win);
    FeedKeeps(MarkWrap(t1, Pos(t1).y, false), accel, win);
  }

  lemma CarriageReturnKeeps(t: Term, win: seq<Ink>)
    requires Safe(t) && Faithful(t, win)
    ensures Faithful(CarriageReturn(t), win)
  {
    hide EscOk, FaithfulBut, MarkWrap, MoveTo;
    var t1 := LcfReset(t);
    LcfResetKeeps(t, win);
    MarkWrapKeeps(t1, Pos(t1).y, false, win);
    var t2 := MarkWrap(t1, Pos(t1).y, false);
    if Pos(t2).x != 0 { MoveToKeeps(t2, 0, Pos(t2).y, win); }
  }

  lemma StepsKeep(t: Term, win: seq<Ink>)
    requires Safe(t) && Faithful(t, win)
    ensures Faithful(BackSpace(t), win) && Faithful(Tab(t), win)
  {
    hide EscOk, FaithfulBut, MoveTo;
    var t1 := LcfReset(t);
    LcfResetKeeps(t, win);
    if Pos(t1).x != 0 { MoveToKeeps(t1, Pos(t1).x - 1, Pos(t1).y, win); }
    var nx := NextTab(Pos(t1).x, G(t1).width);
    if nx != Pos(t1).x { MoveToKeeps(t1, nx, Pos(t1).y, win); }
  }

  lemma PutCKeeps(t: Term, cp: nat, accel: bool, win: seq<Ink>)
    requires Safe(t) && Faithful(t, win)
    ensures Faithful(PutC(t, cp, accel), win)
  {
    hide EscOk, FaithfulBut, PutChar, BackSpace, Tab, LineFeed, CarriageReturn, LcfResetNoMove;
    if cp >= 0x20 { PutCharKeeps(t, cp, accel, win); }
    else if cp == 0x0a || cp == 0x0b || cp == 0x0c { LineFeedKeeps(t, accel, win); }
    else if cp == 0x0d { CarriageReturnKeeps(t, win); }
    else if cp == 0x1a { LcfResetKeeps(t, win); }
    else { StepsKeep(t, win); }
  }

  // ---- screens ----------------------------------------------------------------------

  lemma AllDirtyKeeps(t: Term, win: seq<Ink>)
    requires Safe(t) && |win| == |G(t).cells|
    ensures Faithful(MarkAllDirty(t), win)
  {
    hide EscOk, Region, Shown;
    WholeGrid(G(t), Dirty);
  }

  /** Switching: what stays clean on the new screen is what the old one already showed. */
  lemma SwitchMergingKeeps(t: Term, win: seq<Ink>)
    requires Safe(t) && Faithful(t, win) && CursorDirty(t) && t.scrollCount == 0
    ensures var r := SwitchMerging(t);
      FaithfulBut(r, win, CursorIndex(r)) && (S(r).hidden ==> Faithful(r, win))
  {
    hide EscOk, CursorIndex, CursorDirty, MergeAllDirty, Region, Safe, Shown, SameLook;
    var r := SwitchMerging(t);
    MergedCells(t);
    forall i | 0 <= i < |win| && !G(r).cells[i].dirty && (i != CursorIndex(r) || S(r).hidden)
      ensures Shown(r, win, i)
    {
      assert Shown(t, win, i);
      InkMoved(t, r, i, i);
      StillShown(t, r, win, i);
    }
  }

  lemma StillShown(t: Term, r: Term, win: seq<Ink>, i: nat)
    requires Safe(t) && Safe(r) && i < |G(t).cells| && i < |G(r).cells|
    requires t.scrollCount == 0 && r.scrollCount == 0 && Shown(t, win, i) && InkAt(r, i) == InkAt(t, i)
    ensures Shown(r, win, i)
  {
    hide Safe, InkAt;
  }

  lemma MergedCells(t: Term)
    requires Safe(t)
    ensures var r := SwitchMerging(t);
      |G(r).cells| == |G(t).cells| && forall i :: 0 <= i < |G(t).cells| && !G(r).cells[i].dirty ==>
        !G(t).cells[i].dirty && SameLook(G(r).cells[i], G(t).cells[i])
  {
    hide EscOk, MergeAllDirty, Region;
    if t.onAlt {
      MergeAligned(t.main, t.alt);
    } else {
      MergeAligned(EnsureAlt(t).alt, t.main);
    }
  }

  lemma SwitchRedrawingKeeps(t: Term, win: seq<Ink>)
    requires Safe(t) && |win| == |G(t).cells|
    ensures Faithful(SwitchRedrawing(t), win)
  {
    hide EscOk, FaithfulBut, MarkAllDirty, Region;
    var t1 := WithG(t.(scrollCount := 0), MarkAllClean(G(t)));
    var t2 := if t1.onAlt then t1.(onAlt := false) else EnsureAlt(t1).(onAlt := true);
    AllDirtyKeeps(t2, win);
  }

  lemma SwitchKeeps(t: Term, win: seq<Ink>)
    requires Safe(t) && Faithful(t, win)
    ensures Faithful(SwitchScreen(t), win)
  {
    hide EscOk, InvalidateCursor, CursorDirty, SwitchRedrawing, SwitchMerging, Safe, Shown;
    var t1 := InvalidateCursor(t);
    InvalidateKeeps(t, win, -1);
    if t1.scrollCount != 0 {
      SwitchRedrawingKeeps(t1, win);
      InvalidateKeeps(SwitchRedrawing(t1), win, -1);
    } else {
      SwitchMergingKeeps(t1, win);
      InvalidateWhole(SwitchMerging(t1), win);
    }
  }

  // ---- control sequences ------------------------------------------------------------

  lemma EraseKeeps(t: Term, x0: int, y0: int, x1: int, y1: int, win: seq<Ink>)
    requires Safe(t) && Faithful(t, win)
    ensures Faithful(Erase(t, x0, y0, x1, y1), win)
  {
    hide EscOk, FaithfulBut, Region;
    CarryRegion(t, x0, y0, x1, y1, FillWith(Some(S(t).attr)), win, -1);
  }

  lemma EraseDisplayKeeps(t: Term, win: seq<Ink>)
    requires Safe(t) && Faithful(t, win)
    ensures Faithful(EraseDisplay(t), win)
  {
    hide EscOk, FaithfulBut, Erase, Safe;
    var w: int, h: int, x: int, y: int := G(t).width, G(t).height, Pos(t).x, Pos(t).y;
    EraseKeeps(t, 0, 0, w - 1, h - 1, win);
    EraseKeeps(t, x, y, w - 1, y, win);
    EraseKeeps(Erase(t, x, y, w - 1, y), 0, y + 1, w - 1, h - 1, win);
    EraseKeeps(t, 0, y, x, y, win);
    EraseKeeps(Erase(t, 0, y, x, y), 0, 0, w - 1, y - 1, win);
  }

  lemma EraseLineKeeps(t: Term, win: seq<Ink>)
    requires Safe(t) && Faithful(t, win)
    ensures Faithful(EraseLine(t), win)
  {
    hide EscOk, FaithfulBut, Erase;
    var w, x, y := G(t).width, Pos(t).x, Pos(t).y;
    EraseKeeps(t, x, y, w - 1, y, win);
    EraseKeeps(t, 0, y, x, y, win);
    EraseKeeps(t, 0, y, w - 1, y, win);
  }

  lemma ScrollBelowKeeps(t: Term, lines: int, accel: bool, win: seq<Ink>)
    requires Safe(t) && Faithful(t, win)
    ensures Faithful(ScrollBelow(t, lines, accel), win)
  {
    hide EscOk, FaithfulBut, ScrollInternal;
    var s := S(t);
    if s.scTop <= s.curpos.y <= s.scBot {
      var t1 := WithS(t, s.(scTop := Max(s.scTop, s.curpos.y)));
      CarryAll(t, t1, win);
      ScrollKeeps(t1, lines, accel, win, -1);
      CarryAll(ScrollInternal(t1, lines, accel), ScrollBelow(t, lines, accel), win);
    }
  }

  lemma ShiftKeeps(t: Term, n: int, insert: bool, win: seq<Ink>)
    requires Safe(t) && Faithful(t, win)
    ensures var r := WithG(t, ShiftChars(G(t), Pos(t).x, Pos(t).y, n, insert, Some(S(t).attr)));
      Safe(r) && Faithful(r, win)
  {
    hide EscOk, FaithfulBut, ShiftChars, Honest;
    ShiftCharsHonest(G(t), Pos(t).x, Pos(t).y, n, insert, Some(S(t).attr));
    Carry(t, WithG(t, ShiftChars(G(t), Pos(t).x, Pos(t).y, n, insert, Some(S(t).attr))), win, -1);
  }

  lemma CsiEraseKeeps(t: Term, win: seq<Ink>)
    requires Safe(t) && Faithful(t, win)
    ensures Faithful(CsiErase(t), win)
  {
    hide EscOk, FaithfulBut, ShiftChars, Erase, EraseDisplay, EraseLine, LcfReset, Safe;
    var n := Arg1(t, 0);
    var t1 := LcfReset(t);
    LcfResetKeeps(t, win);
    var c := t.esc.cmd;
    if c == '@' as int { ShiftKeeps(t1, n, true, win); }
    else if c == 'P' as int { ShiftKeeps(t1, n, false, win); }
    else if c == 'X' as int { EraseKeeps(t1, Pos(t1).x, Pos(t1).y, Pos(t1).x + n - 1, Pos(t1).y, win); }
    else if c == 'J' as int { EraseDisplayKeeps(t1, win); }
    else if c == 'K' as int { EraseLineKeeps(t1, win); }
  }

  lemma CsiScrollKeeps(t: Term, accel: bool, win: seq<Ink>)
    requires Safe(t) && Faithful(t, win)
    ensures Faithful(CsiScroll(t, accel), win)
  {
    hide EscOk, FaithfulBut, ScrollBelow, ScrollUp, ScrollDown, LcfReset, Safe;
    var n := Arg1(t, 0);
    var t1 := LcfReset(t);
    LcfResetKeeps(t, win);
    var c := t.esc.cmd;
    if c == 'L' as int { ScrollBelowKeeps(t1, n, accel, win); }
    else if c == 'M' as int { ScrollBelowKeeps(t1, -n, accel, win); }
    else if c == 'S' as int { ScrollUpKeeps(t1, n, accel, win, -1); }
    else if c == 'T' as int { ScrollDownKeeps(t1, n, accel, win); }
  }

  lemma MoveToTabKeeps(t: Term, nx: int, win: seq<Ink>)
    requires Safe(t) && 0 <= nx < G(t).width && !Pos(t).lastCol && Faithful(t, win)
    ensures Faithful(MoveToTab(t, nx), win)
  {
    hide EscOk, FaithfulBut, MoveTo;
    if nx != Pos(t).x {
      MoveToKeeps(t, nx, Pos(t).y, win);
      CarryAll(MoveTo(t, nx, Pos(t).y), MoveToTab(t, nx), win);
    }
  }

  lemma SetRegionKeeps(t: Term, win: seq<Ink>)
    requires Safe(t) && Faithful(t, win)
    ensures Faithful(SetRegion(t), win)
  {
    hide EscOk, Safe, FaithfulBut, CurMoveAbs, WithRegion;
    WithRegionKeeps(t, win);
    CurMoveAbsKeeps(WithRegion(t), 0, 0, win);
  }

  lemma WithRegionKeeps(t: Term, win: seq<Ink>)
    requires Safe(t) && Faithful(t, win)
    ensures Faithful(WithRegion(t), win)
  {
    hide EscOk, Safe, FaithfulBut, RegionRows;
    CarryAll(t, WithRegion(t), win);
  }

  lemma CsiStepKeeps(t: Term, win: seq<Ink>)
    requires Safe(t) && Faithful(t, win)
    ensures Faithful(CsiStep(t), win)
  {
    hide EscOk, FaithfulBut, CurMoveRel, Safe;
    var d := StepOf(t.esc.cmd, Arg1(t, 0), Pos(t).x);
    CurMoveRelKeeps(t, d.0, d.1, win);
  }

  lemma CsiGoToKeeps(t: Term, win: seq<Ink>)
    requires Safe(t) && Faithful(t, win)
    ensures Faithful(CsiGoTo(t), win)
  {
    hide EscOk, FaithfulBut, CurMoveAbs, Safe;
    var to := GoToOf(t.esc.cmd, Arg1(t, 0), Arg1(t, 1), Pos(t));
    CurMoveAbsKeeps(t, to.0, to.1, win);
  }

  lemma CsiMoveKeeps(t: Term, win: seq<Ink>)
    requires Safe(t) && Faithful(t, win)
    ensures Faithful(CsiMove(t), win)
  {
    hide EscOk, FaithfulBut, MoveToTab, TabForward, TabBack, SetRegion;
    var n := Arg1(t, 0);
    SetRegionKeeps(t, win);
    LcfResetKeeps(t, win);
    TabForwardOk(Pos(t).x, G(t).width, n);
    MoveToTabKeeps(LcfReset(t), TabForward(Pos(t).x, G(t).width, n), win);
    MoveToTabKeeps(LcfReset(t), TabBack(Pos(t).x, n), win);
  }

  lemma SaveKeeps(t: Term, kind: SaveKind, win: seq<Ink>)
    requires Safe(t) && Faithful(t, win)
    ensures Faithful(SaveCursor(t, kind), win)
  {
    hide EscOk, FaithfulBut;
    CarryAll(t, SaveCursor(t, kind), win);
  }

  lemma {:induction false} PlainModesView(m: Modes, argv: seq<int>, argc: nat, i: nat, on: bool)
    requires argc <= |argv|
    ensures PlainModes(m, argv, argc, i, on).reverse == m.reverse
    decreases argc - i
  {
    hide SetPlainMode;
    if i < argc {
      PlainModeView(m, argv[i], on);
      PlainModesView(SetPlainMode(m, argv[i], on), argv, argc, i + 1, on);
    }
  }

  lemma PlainModeView(m: Modes, arg: int, on: bool)
    ensures SetPlainMode(m, arg, on).reverse == m.reverse
  {
  }

  lemma ModeOnlyKeeps(t: Term, m: Modes, win: seq<Ink>)
    requires Safe(t) && Faithful(t, win) && m.reverse == t.modes.reverse
    ensures Safe(t.(modes := m)) && Faithful(t.(modes := m), win)
  {
    hide EscOk, FaithfulBut;
    CarryAll(t, t.(modes := m), win);
  }

  lemma AttrKeeps(t: Term, a: Cell, win: seq<Ink>)
    requires Safe(t) && Faithful(t, win)
    ensures Safe(WithS(t, S(t).(attr := a))) && Faithful(WithS(t, S(t).(attr := a)), win)
  {
    hide EscOk, FaithfulBut;
    CarryAll(t, WithS(t, S(t).(attr := a)), win);
  }

  lemma CsiModesKeeps(t: Term, win: seq<Ink>)
    requires Safe(t) && Faithful(t, win)
    ensures Faithful(CsiModes(t), win)
  {
    assert 0 <= t.esc.argc <= |t.esc.argv|;
    hide Safe, FaithfulBut, PlainModes, Sgr, Faithful;
    var e := t.esc;
    if e.cmd == 'm' as int {
      AttrKeeps(t, Sgr(S(t).attr, e.argv, e.argc), win);
    } else if e.cmd == 'h' as int || e.cmd == 'l' as int {
      PlainModesView(t.modes, e.argv, e.argc, 0, e.cmd == 'h' as int);
      ModeOnlyKeeps(t, PlainModes(t.modes, e.argv, e.argc, 0, e.cmd == 'h' as int), win);
    }
  }

  lemma CsiNormalKeeps(t: Term, accel: bool, win: seq<Ink>)
    requires Safe(t) && Faithful(t, win)
    ensures Faithful(CsiNormal(t, accel), win)
  {
    hide EscOk, FaithfulBut, CsiErase, CsiScroll, CsiStep, CsiGoTo, CsiMove, Among, CsiModes, SaveCursor, RestoreCursor,
         Safe;
    var c := t.esc.cmd;
    if Among(c, ERASES) { CsiEraseKeeps(t, win); }
    else if Among(c, SCROLLS) { CsiScrollKeeps(t, accel, win); }
    else if Among(c, STEPS) { CsiStepKeeps(t, win); }
    else if Among(c, GOTOS) { CsiGoToKeeps(t, win); }
    else if Among(c, MOVES) { CsiMoveKeeps(t, win); }
    else if c == 's' as int { SaveKeeps(t, SaveAnsi, win); }
    else if c == 'u' as int { RestoreKeeps(t, SaveAnsi, win); }
    else { CsiModesKeeps(t, win); }
  }

  // ---- private modes ----------------------------------------------------------------

  lemma RedrawKeeps(t: Term, r: Term, win: seq<Ink>)
    requires Safe(t) && Safe(r) && Faithful(t, win) && SameSize(G(t), G(r))
    ensures Faithful(MarkAllDirty(r), win)
  {
    hide EscOk, Region;
    AllDirtyKeeps(r, win);
  }

  lemma SetColorModeKeeps(t: Term, mode: int, win: seq<Ink>)
    requires Safe(t) && Faithful(t, win)
    ensures Faithful(SetColorMode(t, mode), win)
  {
    hide EscOk, FaithfulBut, MarkAllDirty;
    RedrawKeeps(t, t.(colorMode := mode), win);
  }

  lemma PrivateCodeKeeps(t: Term, code: int, on: bool, win: seq<Ink>)
    requires Safe(t) && Faithful(t, win)
    ensures Faithful(PrivateCode(t, code, on), win)
  {
    hide EscOk, FaithfulBut, SetColorMode;
    SetColorModeKeeps(t, 0, win);
    SetColorModeKeeps(t, 1, win);
    SetColorModeKeeps(t, 2, win);
    if code == 69 { CarryAll(t, PrivateCode(t, code, on), win); }
  }

  lemma {:induction false} PrivateCodesKeep(t: Term, argv: seq<int>, argc: nat, i: nat, on: bool, win: seq<Ink>)
    requires Safe(t) && Faithful(t, win) && argc <= |argv|
    ensures Faithful(PrivateCodes(t, argv, argc, i, on), win)
    decreases argc - i
  {
    hide EscOk, FaithfulBut, PrivateCode, Safe;
    if i < argc {
      PrivateCodeKeeps(t, argv[i], on, win);
      PrivateCodesKeep(PrivateCode(t, argv[i], on), argv, argc, i + 1, on, win);
    }
  }

  lemma EraseAllKeeps(t: Term, win: seq<Ink>)
    requires Safe(t) && Faithful(t, win)
    ensures Faithful(EraseAll(t), win) && Faithful(PlainPen(t), win) && Faithful(EraseAll(PlainPen(t)), win)
  {
    hide EscOk, FaithfulBut, Erase;
    EraseKeeps(t, 0, 0, G(t).width - 1, G(t).height - 1, win);
    var t1 := PlainPen(t);
    CarryAll(t, t1, win);
    EraseKeeps(t1, 0, 0, G(t1).width - 1, G(t1).height - 1, win);
  }

  lemma SetReverseKeeps(t: Term, on: bool, win: seq<Ink>)
    requires Safe(t) && Faithful(t, win)
    ensures Faithful(SetReverse(t, on), win)
  {
    hide EscOk, FaithfulBut, MarkAllDirty;
    RedrawKeeps(t, t.(modes := t.modes.(reverse := on)), win);
  }

  lemma SetOriginKeeps(t: Term, on: bool, win: seq<Ink>)
    requires Safe(t) && Faithful(t, win)
    ensures Faithful(SetOrigin(t, on), win)
  {
    hide EscOk, FaithfulBut, CurMoveAbs;
    var t1 := LcfResetNoMove(t);
    var t2 := t1.(modes := t1.modes.(origin := on));
    CarryAll(t, t2, win);
    CurMoveAbsKeeps(t2, 0, 0, win);
  }

  lemma ClearAndHomeKeeps(t: Term, win: seq<Ink>)
    requires Safe(t) && Faithful(t, win)
    ensures Faithful(ClearAndHome(t), win)
  {
    hide EscOk, FaithfulBut, CurMoveAbs, EraseAll, LcfReset;
    LcfResetKeeps(t, win);
    EraseAllKeeps(LcfReset(t), win);
    CurMoveAbsKeeps(EraseAll(LcfReset(t)), 0, 0, win);
  }

  lemma ShowCursorKeeps(t: Term, on: bool, win: seq<Ink>)
    requires Safe(t) && Faithful(t, win)
    ensures Faithful(ShowCursor(t, on), win)
  {
    hide EscOk, FaithfulBut, InvalidateCursor, CursorDirty;
    if on && S(t).hidden {
      HiddenClean(t);
      CursorMoved(t, WithS(t, S(t).(hidden := false)), win);
    } else if !on && !S(t).hidden {
      var t1 := InvalidateCursor(t);
      InvalidateKeeps(t, win, -1);
      CursorChange(t1, WithS(t1, S(t1).(hidden := true)), win);
    }
  }

  lemma HiddenClean(t: Term)
    requires Safe(t) && S(t).hidden
    ensures CursorDirty(t)
  {
  }

  lemma ClearPlainKeeps(t: Term, win: seq<Ink>)
    requires Safe(t) && Faithful(t, win)
    ensures Faithful(ClearPlain(t), win)
  {
    hide EscOk, FaithfulBut, PlainPen, EraseAll, Safe;
    EraseAllKeeps(t, win);
  }

  lemma EnterAltKeeps(t: Term, arg: int, win: seq<Ink>)
    requires Safe(t) && Faithful(t, win)
    ensures Faithful(EnterAlt(t, arg), win)
  {
    hide EscOk, FaithfulBut, SwitchScreen, SaveCursor, ClearPlain, Safe;
    SwitchKeeps(t, win);
    SaveKeeps(t, SaveXTerm, win);
    SwitchKeeps(SaveCursor(t, SaveXTerm), win);
    ClearPlainKeeps(SwitchScreen(SaveCursor(t, SaveXTerm)), win);
  }

  lemma LeaveAltKeeps(t: Term, arg: int, win: seq<Ink>)
    requires Safe(t) && Faithful(t, win)
    ensures Faithful(LeaveAlt(t, arg), win)
  {
    hide EscOk, FaithfulBut, SwitchScreen, RestoreCursor, ClearPlain, Safe;
    ClearPlainKeeps(t, win);
    var t1 := if arg != 47 then ClearPlain(t) else t;
    SwitchKeeps(t1, win);
    RestoreKeeps(SwitchScreen(t1), SaveXTerm, win);
  }

  lemma PrivSetKeeps(t: Term, arg: int, win: seq<Ink>)
    requires Safe(t) && Faithful(t, win)
    ensures Faithful(PrivSet(t, arg), win)
  {
    hide EscOk, FaithfulBut, ClearAndHome, SetReverse, SetOrigin, ShowCursor, EnterAlt, SaveCursor, Safe;
    if arg == 3 { ClearAndHomeKeeps(t, win); }
    else if arg == 5 { SetReverseKeeps(t, true, win); }
    else if arg == 6 { SetOriginKeeps(t, true, win); }
    else if arg == 25 { ShowCursorKeeps(t, true, win); }
    else if arg == 47 || arg == 1047 || arg == 1049 { EnterAltKeeps(t, arg, win); }
    else if arg == 1048 { SaveKeeps(t, SaveXTerm, win); }
    else { ModeOnlyKeeps(t, PrivBit(t.modes, arg, true), win); }
  }

  lemma WrapOffKeeps(t: Term, win: seq<Ink>)
    requires Safe(t) && Faithful(t, win)
    ensures Faithful(WrapOff(t), win)
  {
    hide EscOk, FaithfulBut, LcfResetNoMove, Safe;
    LcfResetKeeps(t, win);
    var t1 := LcfResetNoMove(t);
    ModeOnlyKeeps(t1, t1.modes.(wrap := false), win);
  }

  lemma AltOffKeeps(t: Term, win: seq<Ink>)
    requires Safe(t) && Faithful(t, win)
    ensures Faithful(AltOff(t), win)
  {
    hide EscOk, FaithfulBut, SwitchScreen, Safe;
    ModeOnlyKeeps(t, PrivBit(t.modes, 1046, false), win);
    SwitchKeeps(t.(modes := PrivBit(t.modes, 1046, false)), win);
  }

  lemma PrivResetKeeps(t: Term, arg: int, win: seq<Ink>)
    requires Safe(t) && Faithful(t, win)
    ensures Faithful(PrivReset(t, arg), win)
  {
    hide EscOk, FaithfulBut, ClearAndHome, SetReverse, SetOrigin, ShowCursor, LeaveAlt, RestoreCursor, WrapOff,
      AltOff, Safe;
    if arg == 3 { ClearAndHomeKeeps(t, win); }
    else if arg == 5 { SetReverseKeeps(t, false, win); }
    else if arg == 6 { SetOriginKeeps(t, false, win); }
    else if arg == 7 { WrapOffKeeps(t, win); }
    else if arg == 25 { ShowCursorKeeps(t, false, win); }
    else if arg == 1046 { AltOffKeeps(t, win); }
    else if arg == 47 || arg == 1047 || arg == 1049 { LeaveAltKeeps(t, arg, win); }
    else if arg == 1048 { RestoreKeeps(t, SaveXTerm, win); }
    else { ModeOnlyKeeps(t, PrivBit(t.modes, arg, false), win); }
  }

  lemma {:induction false} PrivModesKeep(t: Term, argv: seq<int>, argc: nat, i: nat, on: bool, win: seq<Ink>)
    requires Safe(t) && Faithful(t, win) && argc <= |argv|
    ensures Faithful(PrivModes(t, argv, argc, i, on), win)
    decreases argc - i
  {
    hide EscOk, FaithfulBut, PrivSet, PrivReset, Safe;
    if i < argc {
      PrivSetKeeps(t, argv[i], win);
      PrivResetKeeps(t, argv[i], win);
      PrivModesKeep(PrivStep(t, argv[i], on), argv, argc, i + 1, on, win);
    }
  }

  lemma CsiPrivKeeps(t: Term, win: seq<Ink>)
    requires Safe(t) && Faithful(t, win)
    ensures Faithful(CsiPriv(t), win)
  {
    assert EscOk(t.esc) && 0 <= t.esc.argc <= |t.esc.argv|;
    hide EscOk, FaithfulBut, PrivateCodes, PrivModes, Safe;
    var e := t.esc;
    PrivateCodesKeep(t, e.argv, e.argc, 3, e.cmd == 'h' as int, win);
    PrivModesKeep(t, e.argv, e.argc, 0, e.cmd == 'h' as int, win);
  }

  // ---- the dispatcher ---------------------------------------------------------------

  /** The parser's own state is not part of the view. */
  lemma EscOnlyKeeps(t: Term, r: Term, win: seq<Ink>)
    requires Safe(t) && Safe(r) && Faithful(t, win) && r == t.(esc := r.esc, charset := r.charset, rdcp := r.rdcp)
    ensures Faithful(r, win)
  {
    hide EscOk, FaithfulBut;
    CarryAll(t, r, win);
  }

  lemma CsiRunKeeps(t: Term, accel: bool, win: seq<Ink>)
    requires Safe(t) && Faithful(t, win)
    ensures Faithful(CsiRun(t, accel), win)
  {
    hide EscOk, Safe, FaithfulBut, CsiPriv, CsiNormal;
    CsiPrivKeeps(t, win);
    CsiNormalKeeps(t, accel, win);
  }

  lemma ProcessCsiKeeps(t: Term, cp: nat, accel: bool, win: seq<Ink>)
    requires Safe(t) && t.esc.state in {Csi, CsiIgnore} && Faithful(t, win)
    ensures Faithful(ProcessCsi(t, cp, accel), win)
  {
    hide FaithfulBut, CsiNextChar, FillArgs, CsiRun;
    var (e, done) := CsiNextChar(t.esc, cp);
    var t1 := t.(esc := e.(state := Ground));
    EscOnlyKeeps(t, t1, win);
    if !done {
      EscOnlyKeeps(t, ProcessCsi(t, cp, accel), win);
    } else if e.state != CsiIgnore && e.cmd != 0 {
      var t2 := t1.(esc := FillArgs(t1.esc));
      EscOnlyKeeps(t1, t2, win);
      CsiRunKeeps(t2, accel, win);
    }
  }

  lemma IndexKeeps(t: Term, accel: bool, win: seq<Ink>)
    requires Safe(t) && Faithful(t, win)
    ensures Faithful(Index(t, accel), win) && Faithful(ReverseIndex(t, accel), win)
  {
    hide EscOk, FaithfulBut, ScrollUp, ScrollDown, CurMoveRel, LcfReset, Safe;
    var t1 := LcfReset(t);
    LcfResetKeeps(t, win);
    ScrollUpKeeps(t1, 1, accel, win, -1);
    ScrollDownKeeps(t1, 1, accel, win);
    CurMoveRelKeeps(t1, 0, 1, win);
    CurMoveRelKeeps(t1, 0, -1, win);
  }

  lemma GroundKeeps(t: Term, win: seq<Ink>)
    requires Safe(t) && Faithful(t, win)
    ensures Faithful(ToGround(t), win)
  {
    hide EscOk, FaithfulBut;
    EscOnlyKeeps(t, ToGround(t), win);
  }

  lemma NextLineKeeps(t: Term, accel: bool, win: seq<Ink>)
    requires Safe(t) && Faithful(t, win)
    ensures Faithful(PutC(PutC(LcfReset(t), 0x0a, accel), 0x0d, accel), win)
  {
    hide EscOk, FaithfulBut, PutC, LcfReset, Safe;
    LcfResetKeeps(t, win);
    PutCKeeps(LcfReset(t), 0x0a, accel, win);
    PutCKeeps(PutC(LcfReset(t), 0x0a, accel), 0x0d, accel, win);
  }

  lemma EscRunKeeps(t: Term, cp: nat, accel: bool, win: seq<Ink>)
    requires Safe(t) && Faithful(t, win) && cp != 'c' as int
    ensures Faithful(EscRun(t, cp, accel), win)
  {
    hide EscOk, FaithfulBut, PutC, LcfReset, Index, ReverseIndex, CurMoveAbs, SaveCursor, RestoreCursor, Safe;
    if cp == 'D' as int || cp == 'M' as int { IndexKeeps(t, accel, win); }
    else if cp == 'E' as int { NextLineKeeps(t, accel, win); }
    else if cp == 'F' as int { CurMoveAbsKeeps(t, 0, G(t).height - 1, win); }
    else if cp == '7' as int { SaveKeeps(t, SaveDec, win); }
    else if cp == '8' as int { RestoreKeeps(t, SaveDec, win); }
  }

  lemma ProcessEscKeeps(t: Term, cp: nat, accel: bool, win: seq<Ink>)
    requires Safe(t) && Faithful(t, win) && cp != 'c' as int
    ensures Faithful(ProcessEsc(t, cp, accel), win)
  {
    hide EscOk, FaithfulBut, StartString, StartCsi, ToGround, ToState, EscRun, Safe;
    var t1 := ToGround(t);
    GroundKeeps(t, win);
    EscOnlyKeeps(t1, EscStart(t1, cp).0, win);
    EscRunKeeps(t1, cp, accel, win);
  }

  lemma ProcessHashKeeps(t: Term, cp: nat, win: seq<Ink>)
    requires Safe(t) && Faithful(t, win)
    ensures Faithful(ProcessHash(t, cp), win)
  {
    hide EscOk, FaithfulBut, Region;
    var t1 := ToGround(t);
    GroundKeeps(t, win);
    CarryRegion(t1, 0, 0, G(t1).width - 1, G(t1).height - 1, AlignPen(S(t1).attr), win, -1);
  }

  lemma ReleaseKeeps(t: Term, win: seq<Ink>)
    requires Safe(t) && Faithful(t, win)
    ensures Faithful(ReleaseAlt(t), win)
  {
    hide EscOk, FaithfulBut;
    CarryAll(t, ReleaseAlt(t), win);
  }

  lemma StringControlKeeps(t: Term, cp: nat, accel: bool, win: seq<Ink>)
    requires Safe(t) && Faithful(t, win)
    ensures Faithful(StringControl(t, cp, accel).0, win)
  {
    hide EscOk, FaithfulBut, PutC, ToGround, ToState, Safe;
    var t1 := ToGround(t);
    GroundKeeps(t, win);
    if 0x08 <= cp <= 0x0d { PutCKeeps(t1, cp, accel, win); }
    else if cp == 0x1a { PutCKeeps(t1, '?' as int, accel, win); }
    else { EscOnlyKeeps(t, StringControl(t, cp, accel).0, win); }
  }

  lemma ProcessOscKeeps(t: Term, cp: nat, env: Env, win: seq<Ink>)
    requires Safe(t) && t.esc.state == Osc && Faithful(t, win)
    ensures Faithful(ProcessOsc(t, cp, env), win)
  {
    hide EscOk, FaithfulBut, OscText, StringControl, ReleaseAlt, Safe;
    ReleaseKeeps(t, win);
    var t1 := if cp == 0x07 || cp == 0x1b then FinishOsc(t, env.newGroup) else t;
    StringControlKeeps(t1, cp, env.accel, win);
    if !StringControl(t1, cp, env.accel).1 { EscOnlyKeeps(t, ProcessOsc(t, cp, env), win); }
  }

  lemma ProcessDcsKeeps(t: Term, cp: nat, win: seq<Ink>)
    requires Safe(t) && t.esc.state == Dcs && Faithful(t, win)
    ensures Faithful(ProcessDcs(t, cp), win)
  {
    hide EscOk, FaithfulBut, AppendChar, Safe;
    EscOnlyKeeps(t, ProcessDcs(t, cp), win);
  }

  lemma ControlCharKeeps(t: Term, cp: nat, accel: bool, win: seq<Ink>)
    requires Safe(t) && Faithful(t, win)
    ensures Faithful(ControlChar(t, cp, accel).0, win)
  {
    hide EscOk, FaithfulBut, PutC, ToGround, ToState, Safe;
    PutCKeeps(t, '?' as int, accel, win);
    GroundKeeps(PutC(t, '?' as int, accel), win);
    PutCKeeps(t, cp, accel, win);
    if cp in {0x0e, 0x0f, 0x18, 0x1b} { EscOnlyKeeps(t, ControlChar(t, cp, accel).0, win); }
  }

  lemma DesignateKeeps(t: Term, g1: bool, cp: nat, win: seq<Ink>)
    requires Safe(t) && Faithful(t, win)
    ensures Faithful(ToGround(t), win) && Faithful(Designate(t, g1, cp), win)
  {
    hide EscOk, FaithfulBut;
    GroundKeeps(t, win);
    var t1 := ToGround(t);
    ModeOnlyKeeps(t1, t1.modes.(gfx0 := cp == '0' as int), win);
    ModeOnlyKeeps(t1, t1.modes.(gfx1 := cp == '0' as int), win);
  }

  lemma ProcessStateKeeps(t: Term, cp: nat, env: Env, win: seq<Ink>)
    requires Safe(t) && Faithful(t, win) && !IsReset(t, cp)
    ensures Faithful(ProcessState(t, cp, env), win)
  {
    hide EscOk, FaithfulBut, PutC, ProcessEsc, ProcessCsi, ProcessHash, ProcessOsc, ProcessDcs, StringControl,
      Designate, ToGround, Safe;
    match t.esc.state
    case Ground => PutCKeeps(t, cp, env.accel, win);
    case Escape => ProcessEscKeeps(t, cp, env.accel, win);
    case Csi => ProcessCsiKeeps(t, cp, env.accel, win);
    case CsiIgnore => ProcessCsiKeeps(t, cp, env.accel, win);
    case CharsetG0 => DesignateKeeps(t, false, cp, win);
    case CharsetG1 => DesignateKeeps(t, true, cp, win);
    case Hash => ProcessHashKeeps(t, cp, win);
    case Percent => DesignateKeeps(t, true, cp, win);
    case Osc => ProcessOscKeeps(t, cp, env, win);
    case Dcs => ProcessDcsKeeps(t, cp, win);
    case IgnoreString => StringControlKeeps(t, cp, env.accel, win);
  }

  /** One character: everything but the full reset keeps the window faithful. */
  lemma ProcessCharKeeps(t: Term, cp: nat, env: Env, win: seq<Ink>)
    requires Safe(t) && Faithful(t, win) && !IsReset(t, cp)
    ensures Faithful(ProcessChar(t, cp, env), win)
  {
    hide EscOk, FaithfulBut, ControlChar, ProcessState, Safe;
    ControlCharKeeps(t, cp, env.accel, win);
    if !ControlChar(t, cp, env.accel).1 { ProcessStateKeeps(t, cp, env, win); }
  }

  /** The byte that makes the decoder deliver the `c` of a full reset. */
  predicate IsResetByte(t: Term, b: Utf8.Byte) {
    t.esc.state == Escape && b == 'c' as int && Utf8.AtBoundary(t.rdcp)
  }

  lemma ReadByteKeeps(t: Term, b: Utf8.Byte, env: Env, win: seq<Ink>)
    requires Safe(t) && Faithful(t, win) && !IsResetByte(t, b)
    ensures Faithful(ReadByte(t, b, env), win)
  {
    hide EscOk, FaithfulBut, PutC, ProcessChar, Utf8.Consume, Utf8.Packed;
    Utf8.ConsumePacked(t.rdcp, b);
    var w := Utf8.Consume(t.rdcp, b);
    var t1 := t.(rdcp := w);
    EscOnlyKeeps(t, t1, win);
    if Utf8.ValidCp(w) {
      if w == 'c' as int { LetterC(t.rdcp, b); }
      ProcessCharKeeps(t1, w, env, win);
    } else {
      PutCKeeps(t1, Utf8.REPLACEMENT, env.accel, win);
    }
  }

  lemma LetterC(word: nat, b: Utf8.Byte)
    requires Utf8.Packed(word) && Utf8.Consume(word, b) == 'c' as int
    ensures b == 'c' as int && Utf8.AtBoundary(word)
  {
    if Utf8.AtBoundary(word) {
      Utf8.LeadPacked(word, b);
    } else {
      Utf8.TailPacked(word, b);
    }
  }
}
