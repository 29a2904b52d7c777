/** Over every run of bytes a stored history line never changes and none is lost. */
module ScrollbackRuns {
  import opened Cells
  import opened TermModel
  import opened CsiModel
  import opened Scrollback
  import Utf8

  /** At most one line is added, and only the line that was the top of the main screen. */
  ghost predicate OneLineMore(t: Term, r: Term)
    requires Safe(t)
  {
    r.history == t.history ||
    (Archives(t) && |r.history| == |t.history| + 1 && r.history[..|t.history|] == t.history &&
     LooksAlike(r.history[|t.history|], RowOf(t.main, 0)))
  }

  /** The main screen still looks the same and may still archive its top line. */
  ghost predicate TopSame(t: Term, r: Term) {
    Safe(t) && Safe(r) && r.history == t.history && r.historyEnabled == t.historyEnabled && r.onAlt == t.onAlt &&
    r.mainScr.scTop == t.mainScr.scTop && SameGrid(t.main, r.main)
  }

  lemma MoreAfter(t: Term, t1: Term, r: Term)
    requires TopSame(t, t1) && OneLineMore(t1, r)
    ensures OneLineMore(t, r)
  {
    hide EscOk, RowOf, LooksAlike, SameGrid;
    SameRow(t.main, t1.main, 0);
    if r.history != t.history { SymTrans(r.history[|t.history|], RowOf(t1.main, 0), RowOf(t.main, 0)); }
  }

  lemma ScrollUpMore(t: Term, lines: int, accel: bool)
    requires Safe(t) && |t.history| <= HISTORY_CAP
    ensures OneLineMore(t, ScrollUp(t, lines, accel))
  {
    hide EscOk, RowOf, ScrollInternal, LooksAlike;
    if lines > 0 {
      var t1 := if lines == 1 && Archives(t) then AppendHistory(t) else t;
      ScrollKept(t1, -lines, accel);
      AlikeSelf(RowOf(t.main, 0));
    }
  }

  // ---- changes that only touch the cursor, wrap marks or dirty bits ------------------

  lemma WrapLooks(g: Grid, y: int, mark: bool)
    requires Live(g)
    ensures SameGrid(g, SetWrap(g, y, mark))
  {
  }

  /** Only the cursor and bookkeeping bits of the active screen's cells differ. */
  lemma Bookkeeping(t: Term, r: Term)
    requires Safe(t) && Safe(r) && Untouched(t, r) && SameGrid(G(t), G(r))
    ensures TopSame(t, r)
  {
    hide EscOk, Safe, LooksAlike;
    AlikeSelf(t.main.cells);
  }

  lemma ResetTop(t: Term)
    requires Safe(t)
    ensures TopSame(t, LcfReset(t))
  {
    hide EscOk, LooksAlike;
    SameAsItself(G(t));
    Bookkeeping(t, LcfReset(t));
  }

  lemma MarkWrapTop(t: Term, c: CursorPos, y: int, mark: bool)
    requires Safe(t) && Safe(WithPos(t, c))
    ensures TopSame(t, MarkWrap(WithPos(t, c), y, mark))
  {
    hide EscOk, SetWrap, SameGrid;
    WrapLooks(G(t), y, mark);
    Bookkeeping(t, MarkWrap(WithPos(t, c), y, mark));
  }

  lemma LcfStartTop(t: Term)
    requires Safe(t)
    ensures TopSame(t, LcfStart(t))
  {
    hide EscOk, SetWrap, LooksAlike, InvalidateCursor;
    var c := Pos(t).(lastCol := false, justMoved := false);
    WrapLooks(G(t), c.y, true);
    var t2 := MarkWrap(WithPos(t, c), c.y, true);
    InvalidateLooks(t2);
    SymTrans(G(t).cells, G(t2).cells, G(LcfStart(t)).cells);
    Bookkeeping(t, LcfStart(t));
  }

  // ---- what a scrolling step conserves ----------------------------------------------

  /** Conservation does not depend on the cursor, wrap marks or dirty bits before the scroll. */
  lemma GainsAfter(t: Term, t1: Term, r: Term)
    requires TopSame(t, t1) && t1.mainScr.scBot == t.mainScr.scBot && t1.mainScr.attr == t.mainScr.attr
    requires Safe(r) && GainsRow(t1, r)
    ensures GainsRow(t, r)
  {
    hide EscOk, LooksAlike, SameGrid, RowOf, BlankRow;
    SizeSame(t.main, t1.main);
    var n := t.mainScr.scBot + 1;
    var blank := BlankRow(t.main.width, t.mainScr.attr);
    var was, want := Lines(t1, n) + [blank], Lines(t, n) + [blank];
    forall j | 0 <= j < |want| ensures LooksAlike(Lines(r, n)[j], want[j]) {
      if |t.history| <= j < |t.history| + n { SameRow(t.main, t1.main, j - |t.history|); }
      SymTrans(Lines(r, n)[j], was[j], want[j]);
    }
    forall y | n <= y < t.main.height ensures LooksAlike(RowOf(r.main, y), RowOf(t.main, y)) {
      SameRow(t.main, t1.main, y);
      SymTrans(RowOf(r.main, y), RowOf(t1.main, y), RowOf(t.main, y));
    }
  }

  /** Nor on those after it. */
  lemma GainsBefore(t: Term, r: Term, r1: Term)
    requires Safe(t) && Safe(r) && Safe(r1) && GainsRow(t, r) && SameGrid(r.main, r1.main) && r1.history == r.history
    ensures GainsRow(t, r1)
  {
    hide EscOk, LooksAlike, SameGrid, RowOf, BlankRow;
    SizeSame(r.main, r1.main);
    var n := t.mainScr.scBot + 1;
    var want := Lines(t, n) + [BlankRow(t.main.width, t.mainScr.attr)];
    forall j | 0 <= j < |want| ensures LooksAlike(Lines(r1, n)[j], want[j]) {
      if j < |r.history| { assert Lines(r1, n)[j] == Lines(r, n)[j]; }
      else { SameRow(r.main, r1.main, j - |r.history|); }
      AlikeBack(Lines(r1, n)[j], Lines(r, n)[j], want[j]);
    }
    forall y | n <= y < t.main.height ensures LooksAlike(RowOf(r1.main, y), RowOf(t.main, y)) {
      SameRow(r.main, r1.main, y);
      AlikeBack(RowOf(r1.main, y), RowOf(r.main, y), RowOf(t.main, y));
    }
  }

  lemma SizeSame(g: Grid, h: Grid)
    requires SameGrid(g, h)
    ensures SameSize(g, h)
  {
  }

  lemma AlikeBack(a: seq<Cell>, b: seq<Cell>, c: seq<Cell>)
    requires (a == b || LooksAlike(b, a)) && LooksAlike(b, c)
    ensures LooksAlike(a, c)
  {
  }

  /** `ESC D` on the region's last row. */
  lemma IndexConserves(t: Term, accel: bool)
    requires Safe(t) && Archives(t) && |t.history| <= HISTORY_CAP && Pos(t).y == S(t).scBot
    ensures GainsRow(t, Index(t, accel))
  {
    hide EscOk, Safe, ScrollUp, CurMoveRel, TopSame, GainsRow;
    OnScreen(t);
    ResetTop(t);
    ScrollConserves(LcfReset(t), accel);
    GainsAfter(t, LcfReset(t), Index(t, accel));
  }

  /** A pending wrap taken on the region's last row. */
  lemma LcfDoConserves(t: Term, accel: bool)
    requires Safe(t) && Archives(t) && |t.history| <= HISTORY_CAP && Pos(t).lastCol && Pos(t).y == S(t).scBot
    ensures GainsRow(t, LcfDo(t, accel))
  {
    hide EscOk, Safe, LcfStart, LcfRest, TopSame, GainsRow;
    var t1 := LcfStart(t);
    LcfStartTop(t);
    TopOnly(t, t1);
    RestConserves(t1, accel);
    GainsAfter(t, t1, LcfDo(t, accel));
  }

  lemma RestConserves(t: Term, accel: bool)
    requires Safe(t) && Archives(t) && |t.history| <= HISTORY_CAP && !Pos(t).lastCol && Pos(t).y == S(t).scBot
    ensures GainsRow(t, LcfRest(t, accel))
  {
    hide EscOk, ScrollUp, NextRow, SameGrid, GainsRow;
    var t1 := WithPos(t, Pos(t).(x := 0));
    SameAsItself(G(t));
    Bookkeeping(t, t1);
    ScrollConserves(t1, accel);
    GainsAfter(t, t1, LcfRest(t, accel));
  }

  /** A line feed on the region's last row, with or without the carriage return it may imply. */
  lemma LineFeedConserves(t: Term, accel: bool)
    requires Safe(t) && Archives(t) && |t.history| <= HISTORY_CAP && Pos(t).y == S(t).scBot
    ensures GainsRow(t, LineFeed(t, accel))
  {
    hide EscOk, MarkWrap, FeedScroll, FeedStep, TopSame, GainsRow;
    var c := Pos(t).(lastCol := false, justMoved := true);
    var t2 := MarkWrap(WithPos(t, c), c.y, false);
    MarkWrapTop(t, c, c.y, false);
    TopOnly(t, t2);
    FeedConserves(t2, accel);
    GainsAfter(t, t2, LineFeed(t, accel));
  }

  lemma FeedConserves(t: Term, accel: bool)
    requires Safe(t) && Archives(t) && |t.history| <= HISTORY_CAP && !Pos(t).lastCol
    ensures GainsRow(t, FeedScroll(t, accel))
  {
    hide EscOk, ScrollUp, InvalidateCursor, GainsRow, SameGrid;
    ScrollConserves(t, accel);
    var r := ScrollUp(t, 1, accel);
    if r.modes.crlf && Pos(r).x != 0 {
      var r1 := WithPos(r, Pos(r).(x := 0));
      InvalidateLooks(r1);
      GainsBefore(t, r, InvalidateCursor(r1));
    }
  }

  // ---- characters -------------------------------------------------------------------

  lemma LcfDoMore(t: Term, accel: bool)
    requires Safe(t) && |t.history| <= HISTORY_CAP
    ensures OneLineMore(t, LcfDo(t, accel))
  {
    hide EscOk, Safe, LcfStart, LcfRest, TopSame, OneLineMore;
    if Pos(t).lastCol {
      LcfStartTop(t);
      var t1 := LcfStart(t);
      TopOnly(t, t1);
      LcfRestMore(t1, accel);
      MoreAfter(t, t1, LcfDo(t, accel));
    } else {
      NothingMore(t);
    }
  }

  lemma TopOnly(t: Term, r: Term)
    requires TopSame(t, r)
    ensures Safe(r) && r.history == t.history
  {
  }

  lemma NothingMore(t: Term)
    requires Safe(t)
    ensures OneLineMore(t, t)
  {
    hide EscOk, Safe, RowOf, LooksAlike;
  }

  lemma LcfRestMore(t: Term, accel: bool)
    requires Safe(t) && !Pos(t).lastCol && |t.history| <= HISTORY_CAP
    ensures OneLineMore(t, LcfRest(t, accel))
  {
    hide EscOk, ScrollUp, NextRow, SameGrid, RowOf, LooksAlike;
    var t1 := WithPos(t, Pos(t).(x := 0));
    SameAsItself(G(t));
    Bookkeeping(t, t1);
    ScrollUpMore(t1, 1, accel);
    MoreAfter(t, t1, LcfRest(t, accel));
  }

  lemma PutCharMore(t: Term, cp: nat, accel: bool)
    requires Safe(t) && |t.history| <= HISTORY_CAP
    ensures OneLineMore(t, PutChar(t, cp, accel))
  {
    hide EscOk, LcfDo, WriteHere, Advance, Translate, SameGrid, RowOf, LooksAlike, MarkWrap;
    var t1 := StaleWrap(t);
    if Pos(t).justMoved { MarkWrapTop(t, Pos(t).(justMoved := false), Pos(t).y, false); }
    else { SameAsItself(t.main); }
    LcfDoMore(t1, accel);
    MoreAfter(t, t1, LcfDo(t1, accel));
  }

  lemma FeedMore(t: Term, accel: bool)
    requires Safe(t) && !Pos(t).lastCol && |t.history| <= HISTORY_CAP
    ensures OneLineMore(t, FeedScroll(t, accel)) && FeedStep(t).history == t.history
  {
    hide EscOk, ScrollUp, MoveTo, InvalidateCursor, RowOf, LooksAlike;
    ScrollUpMore(t, 1, accel);
  }

  lemma LineFeedMore(t: Term, accel: bool)
    requires Safe(t) && |t.history| <= HISTORY_CAP
    ensures OneLineMore(t, LineFeed(t, accel))
  {
    hide EscOk, MarkWrap, FeedScroll, FeedStep, SameGrid, RowOf, LooksAlike;
    var c := Pos(t).(lastCol := false, justMoved := true);
    var t2 := MarkWrap(WithPos(t, c), c.y, false);
    MarkWrapTop(t, c, c.y, false);
    FeedMore(t2, accel);
    MoreAfter(t, t2, LineFeed(t, accel));
  }

  lemma StepsKeepHistory(t: Term)
    requires Safe(t)
    ensures BackSpace(t).history == t.history && Tab(t).history == t.history
    ensures CarriageReturn(t).history == t.history && LcfResetNoMove(t).history == t.history
  {
    hide EscOk, Safe, LcfReset, MoveTo, MarkWrap;
    OnScreen(t);
    OnScreen(LcfReset(t));
    OnScreen(MarkWrap(LcfReset(t), Pos(LcfReset(t)).y, false));
  }

  lemma PutCMore(t: Term, cp: nat, accel: bool)
    requires Safe(t) && |t.history| <= HISTORY_CAP
    ensures OneLineMore(t, PutC(t, cp, accel))
    ensures cp != 0x0a && cp < 0x20 && cp != 0x0b && cp != 0x0c ==> PutC(t, cp, accel).history == t.history
  {
    hide EscOk, Safe, PutChar, LineFeed, BackSpace, Tab, CarriageReturn, LcfResetNoMove, RowOf, LooksAlike;
    StepsKeepHistory(t);
    if cp >= 0x20 { PutCharMore(t, cp, accel); }
    else if cp == 0x0a || cp == 0x0b || cp == 0x0c { LineFeedMore(t, accel); }
  }

  // ---- control sequences ------------------------------------------------------------

  lemma ScrollBelowSame(t: Term, lines: int, accel: bool)
    requires Safe(t)
    ensures ScrollBelow(t, lines, accel).history == t.history
  {
    hide EscOk, ScrollInternal;
    var s := S(t);
    if s.scTop <= s.curpos.y <= s.scBot { ScrollKept(WithS(t, s.(scTop := Max(s.scTop, s.curpos.y))), lines, accel); }
  }

  lemma ScrollDownSame(t: Term, lines: int, accel: bool)
    requires Safe(t)
    ensures ScrollDown(t, lines, accel).history == t.history
  {
    hide EscOk, Safe, ScrollInternal;
    ScrollKept(t, lines, accel);
  }

  lemma ErasesKeepHistory(t: Term)
    requires Safe(t)
    ensures EraseDisplay(t).history == t.history && EraseLine(t).history == t.history
  {
    hide EscOk, Safe, Erase;
  }

  lemma CsiEraseSame(t: Term)
    requires Safe(t)
    ensures CsiErase(t).history == t.history
  {
    hide EscOk, Safe, ShiftChars, Erase, EraseDisplay, EraseLine, LcfReset, Arg1;
    ErasesKeepHistory(LcfReset(t));
  }

  lemma CsiScrollMore(t: Term, accel: bool)
    requires Safe(t) && |t.history| <= HISTORY_CAP
    ensures OneLineMore(t, CsiScroll(t, accel))
  {
    hide EscOk, Safe, ScrollBelow, ScrollUp, ScrollDown, LcfReset, Arg1, LooksAlike, RowOf, SameGrid;
    var t1 := LcfReset(t);
    var n := Arg1(t, 0);
    ScrollBelowSame(t1, n, accel);
    ScrollBelowSame(t1, -n, accel);
    ScrollDownSame(t1, n, accel);
    ResetTop(t);
    ScrollUpMore(t1, n, accel);
    MoreAfter(t, t1, ScrollUp(t1, n, accel));
  }

  lemma SetRegionKeepsHistory(t: Term)
    requires Safe(t)
    ensures SetRegion(t).history == t.history
  {
    hide EscOk, Safe, CurMoveAbs;
  }

  lemma MoveToTabKeepsHistory(t: Term, nx: int)
    requires Safe(t) && 0 <= nx < G(t).width && !Pos(t).lastCol
    ensures MoveToTab(t, nx).history == t.history
  {
    hide EscOk, MoveTo;
  }

  lemma TabsKeepHistory(t: Term, n: nat)
    requires Safe(t)
    ensures var x := TabForward(Pos(t).x, G(t).width, n);
      0 <= x < G(t).width && MoveToTab(LcfReset(t), x).history == t.history
    ensures MoveToTab(LcfReset(t), TabBack(Pos(t).x, n)).history == t.history
  {
    hide EscOk, MoveToTab, TabForward, TabBack;
    TabForwardOk(Pos(t).x, G(t).width, n);
    MoveToTabKeepsHistory(LcfReset(t), TabForward(Pos(t).x, G(t).width, n));
    MoveToTabKeepsHistory(LcfReset(t), TabBack(Pos(t).x, n));
  }

  lemma StepsOfCsiKeepHistory(t: Term)
    requires Safe(t)
    ensures CsiStep(t).history == t.history && CsiGoTo(t).history == t.history
  {
    hide EscOk, Safe, CurMoveRel, CurMoveAbs, StepOf;
  }

  lemma MovesKeepHistory(t: Term)
    requires Safe(t)
    ensures CsiMove(t).history == t.history
  {
    hide EscOk, Safe, SetRegion, MoveToTab, TabForward, TabBack, LcfReset;
    SetRegionKeepsHistory(t);
    TabsKeepHistory(t, Arg1(t, 0));
  }

  lemma RestoreKeepsHistory(t: Term, kind: SaveKind)
    requires Safe(t)
    ensures RestoreCursor(t, kind).history == t.history
  {
    hide EscOk, RestorePos;
  }

  lemma ModesKeepHistory(t: Term)
    requires Safe(t)
    ensures CsiModes(t).history == t.history && SaveCursor(t, SaveAnsi).history == t.history
  {
    hide EscOk, Safe, PlainModes, Sgr;
  }

  lemma CsiNormalMore(t: Term, accel: bool)
    requires Safe(t) && |t.history| <= HISTORY_CAP
    ensures OneLineMore(t, CsiNormal(t, accel))
  {
    hide EscOk, CsiErase, CsiScroll, CsiStep, CsiGoTo, CsiMove, CsiModes, SaveCursor, Among, RestoreCursor, RowOf,
         LooksAlike, Safe;
    ModesKeepHistory(t);
    CsiEraseSame(t);
    CsiScrollMore(t, accel);
    StepsOfCsiKeepHistory(t);
    MovesKeepHistory(t);
    RestoreKeepsHistory(t, SaveAnsi);
  }

  lemma SwitchKeepsHistory(t: Term)
    requires Safe(t)
    ensures SwitchScreen(t).history == t.history
  {
    hide EscOk, InvalidateCursor, MarkAllDirty, EnsureAlt, MarkAllClean, MergeAllDirty;
  }

  lemma SettingsKeepHistory(t: Term, on: bool)
    requires Safe(t)
    ensures SetReverse(t, on).history == t.history && SetOrigin(t, on).history == t.history
    ensures ShowCursor(t, on).history == t.history
  {
    hide EscOk, Safe, CurMoveAbs, InvalidateCursor, MarkAllDirty;
  }

  lemma ClearPlainKeepsHistory(t: Term)
    requires Safe(t)
    ensures ClearPlain(t).history == t.history
  {
    hide EscOk, Safe, EraseAll;
  }

  lemma ClearKeepsHistory(t: Term)
    requires Safe(t)
    ensures ClearAndHome(t).history == t.history
  {
    hide EscOk, Safe, CurMoveAbs, EraseAll;
  }

  lemma EnterAltKeepsHistory(t: Term, arg: int)
    requires Safe(t)
    ensures EnterAlt(t, arg).history == t.history
  {
    hide EscOk, Safe, SwitchScreen, ClearPlain;
    SwitchKeepsHistory(t);
    SwitchKeepsHistory(SaveCursor(t, SaveXTerm));
    ClearPlainKeepsHistory(SwitchScreen(SaveCursor(t, SaveXTerm)));
  }

  lemma LeaveAltKeepsHistory(t: Term, arg: int)
    requires Safe(t)
    ensures LeaveAlt(t, arg).history == t.history
  {
    hide EscOk, Safe, SwitchScreen, ClearPlain, RestoreCursor;
    ClearPlainKeepsHistory(t);
    var t1 := if arg != 47 then ClearPlain(t) else t;
    SwitchKeepsHistory(t1);
    RestoreKeepsHistory(SwitchScreen(t1), SaveXTerm);
  }

  lemma PrivSetKeepsHistory(t: Term, arg: int)
    requires Safe(t)
    ensures PrivSet(t, arg).history == t.history
  {
    hide EscOk, Safe, ClearAndHome, SetReverse, SetOrigin, ShowCursor, EnterAlt, PrivBit;
    SettingsKeepHistory(t, true);
    ClearKeepsHistory(t);
    EnterAltKeepsHistory(t, arg);
  }

  lemma OffKeepsHistory(t: Term)
    requires Safe(t)
    ensures WrapOff(t).history == t.history && AltOff(t).history == t.history
  {
    hide EscOk, SwitchScreen, PrivBit;
    SwitchKeepsHistory(t.(modes := PrivBit(t.modes, 1046, false)));
  }

  lemma PrivResetKeepsHistory(t: Term, arg: int)
    requires Safe(t)
    ensures PrivReset(t, arg).history == t.history
  {
    hide EscOk, ClearAndHome, SetReverse, SetOrigin, ShowCursor, LeaveAlt, PrivBit, WrapOff, AltOff, RestoreCursor;
    SettingsKeepHistory(t, false);
    ClearKeepsHistory(t);
    LeaveAltKeepsHistory(t, arg);
    OffKeepsHistory(t);
    RestoreKeepsHistory(t, SaveXTerm);
  }

  lemma {:induction false} PrivModesKeepHistory(t: Term, argv: seq<int>, argc: nat, i: nat, on: bool)
    requires Safe(t) && argc <= |argv|
    ensures PrivModes(t, argv, argc, i, on).history == t.history
    decreases argc - i
  {
    hide EscOk, Safe, PrivSet, PrivReset;
    if i < argc {
      PrivSetKeepsHistory(t, argv[i]);
      PrivResetKeepsHistory(t, argv[i]);
      PrivModesKeepHistory(PrivStep(t, argv[i], on), argv, argc, i + 1, on);
    }
  }

  /** The private request that closes the history file. */
  predicate ClosesFrom(argv: seq<int>, argc: nat, i: nat)
    requires argc <= |argv|
  {
    exists j :: i <= j < argc && argv[j] == 69
  }

  lemma {:induction false} PrivateCodesHistory(t: Term, argv: seq<int>, argc: nat, i: nat, on: bool)
    requires Safe(t) && argc <= |argv|
    ensures var r := PrivateCodes(t, argv, argc, i, on);
      r.history == if !on && ClosesFrom(argv, argc, i) then [] else t.history
    decreases argc - i
  {
    hide EscOk, Safe, MarkAllDirty;
    if i < argc { PrivateCodesHistory(PrivateCode(t, argv[i], on), argv, argc, i + 1, on); }
  }

  /** This character completes the request that closes the history. */
  predicate Closes(t: Term, cp: nat)
    requires Safe(t)
  {
    t.esc.state == Csi && cp == 'l' as int && t.esc.priv > 0 && IsPrivate(t.esc) &&
    ClosesFrom(t.esc.argv, t.esc.argc, 3)
  }

  lemma CsiPrivHistory(t: Term)
    requires Safe(t)
    ensures CsiPriv(t).history ==
      if t.esc.cmd == 'l' as int && IsPrivate(t.esc) && ClosesFrom(t.esc.argv, t.esc.argc, 3) then [] else t.history
  {
    hide PrivModes, PrivateCodes;
    var e := t.esc;
    PrivateCodesHistory(t, e.argv, e.argc, 3, e.cmd == 'h' as int);
    PrivModesKeepHistory(t, e.argv, e.argc, 0, e.cmd == 'h' as int);
  }

  lemma FilledCloses(e: EscSeq)
    requires EscOk(e)
    ensures IsPrivate(FillArgs(e)) == IsPrivate(e)
    ensures ClosesFrom(FillArgs(e).argv, e.argc, 3) == ClosesFrom(e.argv, e.argc, 3)
  {
    var f := FillArgs(e).argv;
    assert forall j :: 0 <= j < e.argc ==> f[j] == e.argv[j];
  }

  lemma EscOnlyMore(t: Term, t1: Term, r: Term)
    requires Safe(t) && Safe(t1) && t1 == t.(esc := t1.esc, rdcp := t1.rdcp) && OneLineMore(t1, r)
    ensures OneLineMore(t, r)
  {
    hide EscOk, RowOf, LooksAlike;
  }

  lemma ProcessCsiMore(t: Term, cp: nat, accel: bool)
    requires Safe(t) && t.esc.state in {Csi, CsiIgnore} && |t.history| <= HISTORY_CAP && !Closes(t, cp)
    ensures OneLineMore(t, ProcessCsi(t, cp, accel))
  {
    hide CsiNextChar, FillArgs, CsiPriv, CsiNormal, RowOf, LooksAlike, ClosesFrom;
    var (e, done) := CsiNextChar(t.esc, cp);
    if done && e.state != CsiIgnore && e.cmd != 0 {
      var t1 := t.(esc := e.(state := Ground));
      var t2 := t1.(esc := FillArgs(t1.esc));
      FinalChar(t.esc, cp);
      FilledCloses(t1.esc);
      if t2.esc.priv > 0 { CsiPrivHistory(t2); }
      CsiNormalMore(t2, accel);
      EscOnlyMore(t, t2, CsiNormal(t2, accel));
    }
  }

  /** The final character changes nothing but the command. */
  lemma FinalChar(e: EscSeq, cp: nat)
    requires EscOk(e)
    ensures CsiNextChar(e, cp).1 ==> CsiNextChar(e, cp).0 == e.(cmd := cp)
  {
  }

  lemma IndexMore(t: Term, accel: bool)
    requires Safe(t) && |t.history| <= HISTORY_CAP
    ensures OneLineMore(t, Index(t, accel)) && ReverseIndex(t, accel).history == t.history
  {
    hide EscOk, Safe, ScrollUp, ScrollDown, CurMoveRel, LcfReset, RowOf, LooksAlike, SameGrid;
    var t1 := LcfReset(t);
    ResetTop(t);
    ScrollUpMore(t1, 1, accel);
    MoreAfter(t, t1, ScrollUp(t1, 1, accel));
    ScrollDownSame(t1, 1, accel);
  }

  lemma NextLineMore(t: Term, accel: bool)
    requires Safe(t) && |t.history| <= HISTORY_CAP
    ensures OneLineMore(t, PutC(PutC(LcfReset(t), 0x0a, accel), 0x0d, accel))
  {
    hide EscOk, Safe, PutC, LcfReset, RowOf, LooksAlike, SameGrid;
    var t1 := LcfReset(t);
    ResetTop(t);
    PutCMore(t1, 0x0a, accel);
    MoreAfter(t, t1, PutC(t1, 0x0a, accel));
    CarriageSame(PutC(t1, 0x0a, accel), accel);
  }

  lemma CarriageSame(t: Term, accel: bool)
    requires Safe(t)
    ensures PutC(t, 0x0d, accel).history == t.history
  {
    hide EscOk, Safe, PutChar, LineFeed, BackSpace, Tab, CarriageReturn;
    StepsKeepHistory(t);
  }

  lemma EscRunMore(t: Term, cp: nat, accel: bool)
    requires Safe(t) && |t.history| <= HISTORY_CAP
    ensures OneLineMore(t, EscRun(t, cp, accel))
  {
    hide EscOk, Safe, PutC, LcfReset, Index, ReverseIndex, CurMoveAbs, RestoreCursor, RowOf, LooksAlike;
    IndexMore(t, accel);
    NextLineMore(t, accel);
    RestoreKeepsHistory(t, SaveDec);
  }

  lemma ProcessEscMore(t: Term, cp: nat, accel: bool)
    requires Safe(t) && |t.history| <= HISTORY_CAP
    ensures OneLineMore(t, ProcessEsc(t, cp, accel))
  {
    hide EscOk, Safe, EscRun, StartString, StartCsi, RowOf, LooksAlike;
    var t1 := ToGround(t);
    EscRunMore(t1, cp, accel);
    EscOnlyMore(t, t1, ProcessEsc(t, cp, accel));
  }

  lemma ProcessStateMore(t: Term, cp: nat, env: Env)
    requires Safe(t) && |t.history| <= HISTORY_CAP && !Closes(t, cp)
    ensures OneLineMore(t, ProcessState(t, cp, env))
  {
    hide EscOk, PutC, ProcessEsc, ProcessCsi, ProcessHash, ProcessOsc, ProcessDcs, StringControl, Closes, RowOf,
         LooksAlike;
    match t.esc.state
    case Ground => PutCMore(t, cp, env.accel);
    case Escape => ProcessEscMore(t, cp, env.accel);
    case Csi => ProcessCsiMore(t, cp, env.accel);
    case CsiIgnore => ProcessCsiMore(t, cp, env.accel);
    case Osc => ProcessOscMore(t, cp, env);
    case IgnoreString => StringControlMore(t, cp, env.accel);
    case _ => StringsKeepHistory(t, cp);
  }

  /** One character adds at most one line to the history, the top line of the main screen. */
  lemma ProcessCharMore(t: Term, cp: nat, env: Env)
    requires Safe(t) && |t.history| <= HISTORY_CAP && !Closes(t, cp)
    ensures OneLineMore(t, ProcessChar(t, cp, env))
  {
    hide EscOk, Safe, ControlChar, ProcessState, Closes, RowOf, LooksAlike;
    ControlCharMore(t, cp, env.accel);
    if !ControlChar(t, cp, env.accel).1 { ProcessStateMore(t, cp, env); }
  }

  lemma ControlCharMore(t: Term, cp: nat, accel: bool)
    requires Safe(t) && |t.history| <= HISTORY_CAP
    ensures OneLineMore(t, ControlChar(t, cp, accel).0)
  {
    hide EscOk, Safe, PutC, RowOf, LooksAlike;
    PutCMore(t, '?' as int, accel);
    PutCMore(t, cp, accel);
  }

  lemma StringControlMore(t: Term, cp: nat, accel: bool)
    requires Safe(t) && |t.history| <= HISTORY_CAP
    ensures OneLineMore(t, StringControl(t, cp, accel).0)
  {
    hide EscOk, Safe, PutC, RowOf, LooksAlike;
    var t1 := ToGround(t);
    PutCMore(t1, '?' as int, accel);
    PutCMore(t1, cp, accel);
    EscOnlyMore(t, t1, PutC(t1, '?' as int, accel));
    EscOnlyMore(t, t1, PutC(t1, cp, accel));
  }

  lemma StringsKeepHistory(t: Term, cp: nat)
    requires Safe(t)
    ensures ProcessHash(t, cp).history == t.history && ToGround(t).history == t.history
    ensures Designate(t, true, cp).history == t.history && Designate(t, false, cp).history == t.history
    ensures t.esc.state == Dcs ==> ProcessDcs(t, cp).history == t.history
  {
    hide EscOk, Safe, Region, AppendChar;
  }

  lemma ProcessOscMore(t: Term, cp: nat, env: Env)
    requires Safe(t) && t.esc.state == Osc && |t.history| <= HISTORY_CAP
    ensures OneLineMore(t, ProcessOsc(t, cp, env))
  {
    hide EscOk, OscText, StringControl, RowOf, LooksAlike;
    var t1 := if cp == 0x07 || cp == 0x1b then FinishOsc(t, env.newGroup) else t;
    assert TopSame(t, t1) by { AlikeSelf(t.main.cells); }
    StringControlMore(t1, cp, env.accel);
    MoreAfter(t, t1, StringControl(t1, cp, env.accel).0);
  }

  // ---- runs -------------------------------------------------------------------------

  /** A run of bytes from the child; `envs[i]` is what byte `i` meets. */
  function ReadAll(t: Term, bytes: seq<Utf8.Byte>, envs: seq<Env>): (r: Term)
    requires Safe(t) && |envs| == |bytes|
    ensures Safe(r)
    decreases |bytes|
  {
    if bytes == [] then t else ReadAll(ReadByte(t, bytes[0], envs[0]), bytes[1..], envs[1..])
  }

  /** The byte that completes the request to close the history. */
  predicate ClosesByte(t: Term, b: Utf8.Byte)
    requires Safe(t)
  {
    b == 'l' as int && Utf8.AtBoundary(t.rdcp) && Closes(t, b)
  }

  /** No byte of the run closes the history. */
  ghost predicate NeverCloses(t: Term, bytes: seq<Utf8.Byte>, envs: seq<Env>)
    requires Safe(t) && |envs| == |bytes|
    decreases |bytes|
  {
    bytes != [] ==> !ClosesByte(t, bytes[0]) && NeverCloses(ReadByte(t, bytes[0], envs[0]), bytes[1..], envs[1..])
  }

  lemma ReadByteMore(t: Term, b: Utf8.Byte, env: Env)
    requires Safe(t) && |t.history| <= HISTORY_CAP && !ClosesByte(t, b)
    ensures OneLineMore(t, ReadByte(t, b, env))
  {
    hide EscOk, PutC, ProcessChar, Utf8.Consume, Utf8.Packed, RowOf, LooksAlike, Closes;
    Utf8.ConsumePacked(t.rdcp, b);
    var w := Utf8.Consume(t.rdcp, b);
    var t1 := t.(rdcp := w);
    if Utf8.ValidCp(w) {
      if Closes(t1, w) { LetterL(t, t1, b); }
      ProcessCharMore(t1, w, env);
    } else {
      PutCMore(t1, Utf8.REPLACEMENT, env.accel);
    }
    EscOnlyMore(t, t1, ReadByte(t, b, env));
  }

  lemma LetterL(t: Term, t1: Term, b: Utf8.Byte)
    requires Safe(t) && Safe(t1) && t1 == t.(rdcp := Utf8.Consume(t.rdcp, b)) && Closes(t1, t1.rdcp)
    ensures ClosesByte(t, b)
  {
    hide EscOk, ClosesFrom;
    if Utf8.AtBoundary(t.rdcp) { Utf8.LeadPacked(t.rdcp, b); } else { Utf8.TailPacked(t.rdcp, b); }
  }

  /** Over any run that does not close the history, and stays below its cap, stored lines stay. */
  lemma {:induction false} HistoryOnlyGrows(t: Term, bytes: seq<Utf8.Byte>, envs: seq<Env>)
    requires Safe(t) && |envs| == |bytes| && NeverCloses(t, bytes, envs) && |t.history| + |bytes| <= HISTORY_CAP + 1
    ensures t.history <= ReadAll(t, bytes, envs).history
    ensures |ReadAll(t, bytes, envs).history| <= |t.history| + |bytes|
    decreases |bytes|
  {
    hide EscOk, Safe, ReadByte, RowOf, LooksAlike, ClosesByte;
    if bytes != [] {
      ReadByteMore(t, bytes[0], envs[0]);
      HistoryOnlyGrows(ReadByte(t, bytes[0], envs[0]), bytes[1..], envs[1..]);
    }
  }
}
