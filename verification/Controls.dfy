/** Control characters and the one-character escape sequences: where they take the cursor, and what
    saving, character sets and the alignment test do. */
module Controls {
  import opened Cells
  import opened TermModel
  import opened CsiModel
  import opened GridFacts
  import opened Scrollback
  import opened ScrollbackRuns
  import opened Commands
  import opened CursorMoves
  import opened Edits
  import Erasing
  import Typing
  import Utf8

  // ---- basic controls ---------------------------------------------------------------

  /** The cursor stands there, with no wrap pending, and the active screen's pen, region and saved state stay. */
  ghost predicate StandsAt(t: Term, r: Term, x: int, y: int) {
    Pos(r).x == x && Pos(r).y == y && !Pos(r).lastCol &&
    r.onAlt == t.onAlt && S(r) == S(t).(curpos := Pos(r)) && r.modes == t.modes && SameSize(G(r), G(t))
  }

  lemma BackLands(t: Term)
    requires Safe(t)
    ensures LandsAt(t, BackSpace(t), Max(0, Pos(t).x - 1), Pos(t).y)
  {
    hide EscOk, MoveTo;
    OnScreen(t);
    var t1 := LcfReset(t);
    if Pos(t1).x != 0 { Typing.MoveSame(t1, Pos(t1).x - 1, Pos(t1).y); }
  }

  lemma TabLands(t: Term)
    requires Safe(t)
    ensures 0 <= Pos(t).x && LandsAt(t, Tab(t), Min((Pos(t).x / 8 + 1) * 8, G(t).width - 1), Pos(t).y)
  {
    hide EscOk, MoveTo;
    OnScreen(t);
    var t1 := LcfReset(t);
    var nx := NextTab(Pos(t1).x, G(t1).width);
    if nx != Pos(t1).x { Typing.MoveSame(t1, nx, Pos(t1).y); }
  }

  lemma ReturnLands(t: Term)
    requires Safe(t)
    ensures StandsAt(t, CarriageReturn(t), 0, Pos(t).y) && SameGrid(G(t), G(CarriageReturn(t)))
  {
    hide EscOk, MoveTo, MarkWrap, LooksAlike;
    OnScreen(t);
    var t1 := LcfReset(t);
    var t2 := MarkWrap(t1, Pos(t1).y, false);
    WaitLooks(t1, Pos(t1).y);
    MovedLooks(t2, 0, Pos(t2).y);
    SymTrans(G(t1).cells, G(t2).cells, G(CarriageReturn(t)).cells);
  }

  /** A move changes no look. */
  lemma MovedLooks(t: Term, x: int, y: int)
    requires Safe(t) && 0 <= x < G(t).width && 0 <= y < G(t).height && !Pos(t).lastCol
    ensures SameGrid(G(t), G(MoveTo(t, x, y)))
  {
    hide EscOk, MoveTo;
    Typing.MoveSame(t, x, y);
  }

  /** A line feed steps down, or scrolls the region by one row at its bottom; with the mode for it, it
      also returns to the first column. */
  lemma FeedLands(t: Term, accel: bool)
    requires Safe(t)
    ensures var r, s := LineFeed(t, accel), S(t);
      StandsAt(t, r, if t.modes.crlf then 0 else Pos(t).x,
               if Pos(t).y == s.scBot then Pos(t).y else Min(Pos(t).y + 1, G(t).height - 1)) &&
      if Pos(t).y == s.scBot then RowsShifted(G(t), G(r), s.attr, s.scTop, s.scBot, 1) else SameGrid(G(t), G(r))
  {
    hide EscOk, Safe, MarkWrap, FeedScroll, FeedStep, LooksAlike, RowsShifted, LcfReset;
    OnScreen(t);
    Erasing.SafeGrid(t);
    var t1 := LcfReset(t);
    var t2 := MarkWrap(t1, Pos(t1).y, false);
    WaitLooks(t1, Pos(t1).y);
    if Pos(t).y == S(t).scBot {
      FeedScrolls(t2, accel);
      ShiftsAlike(G(t), G(t2), G(LineFeed(t, accel)), S(t).attr, S(t).scTop, S(t).scBot, 1);
    } else {
      FeedSteps(t2);
      SymTrans(G(t).cells, G(t2).cells, G(LineFeed(t, accel)).cells);
    }
  }

  lemma FeedScrolls(t: Term, accel: bool)
    requires Safe(t) && !Pos(t).lastCol
    ensures var r := FeedScroll(t, accel);
      StandsAt(t, r, if t.modes.crlf then 0 else Pos(t).x, Pos(t).y) &&
      RowsShifted(G(t), G(r), S(t).attr, S(t).scTop, S(t).scBot, 1)
  {
    hide EscOk, ScrollUp, InvalidateCursor, RowsShifted, SameGrid;
    ScrollUpShifts(t, 1, accel);
    var t1 := ScrollUp(t, 1, accel);
    if t1.modes.crlf && Pos(t1).x != 0 {
      var t2 := WithPos(t1, Pos(t1).(x := 0));
      InvalidateLooks(t2);
      ShiftedAlike(G(t), G(t1), G(InvalidateCursor(t2)), S(t).attr, S(t).scTop, S(t).scBot, 1);
    }
    ShiftedSize(G(t), G(t1), S(t).attr, S(t).scTop, S(t).scBot, 1);
  }

  /** A pending wrap goes to the start of the next row; on the region's last row the region moves up instead. */
  lemma WrapLands(t: Term, accel: bool)
    requires Safe(t) && Pos(t).lastCol
    ensures var r := LcfDo(t, accel); var feeds := Pos(t).y == S(t).scBot;
      StandsAt(t, r, 0, if feeds then Pos(t).y else Min(Pos(t).y + 1, G(t).height - 1)) &&
      (if feeds then RowsShifted(G(t), G(r), S(t).attr, S(t).scTop, S(t).scBot, 1) else SameGrid(G(t), G(r)))
  {
    hide EscOk, Safe, LcfStart, ScrollUp, NextRow, RowsShifted, SameGrid;
    OnScreen(t);
    WrapStarts(t);
    var t1 := LcfStart(t);
    WrapRests(t1, accel);
    GridLive(t);
    if Pos(t).y == S(t).scBot {
      var r := LcfDo(t, accel);
      ShiftsAlike(G(t), G(t1), G(r), S(t).attr, S(t).scTop, S(t).scBot, 1);
      ShiftedSize(G(t), G(r), S(t).attr, S(t).scTop, S(t).scBot, 1);
    } else {
      GridTrans(G(t), G(t1), G(LcfDo(t, accel)));
    }
  }

  lemma GridLive(t: Term)
    requires Safe(t)
    ensures Live(G(t))
  {
    hide EscOk;
  }

  lemma WrapStarts(t: Term)
    requires Safe(t) && Pos(t).lastCol
    ensures var r := LcfStart(t);
      SameGrid(G(t), G(r)) && r.onAlt == t.onAlt && S(r) == S(t).(curpos := Pos(r)) && r.modes == t.modes &&
      Pos(r).y == Pos(t).y && !Pos(r).lastCol
  {
    hide EscOk, MarkWrap, InvalidateCursor;
    Typing.WrapMarks(t);
  }

  lemma RowStart(t: Term)
    requires Safe(t) && !Pos(t).lastCol
    ensures Safe(WithPos(t, Pos(t).(x := 0))) && SameGrid(G(t), G(t))
    ensures Pos(t).y != G(t).height - 1 ==> Safe(WithPos(t, Pos(t).(y := Pos(t).y + 1)))
  {
    hide EscOk;
  }

  lemma WrapRests(t: Term, accel: bool)
    requires Safe(t) && !Pos(t).lastCol
    ensures var r := LcfRest(t, accel); var feeds := Pos(t).y == S(t).scBot;
      StandsAt(t, r, 0, if feeds then Pos(t).y else Min(Pos(t).y + 1, G(t).height - 1)) &&
      (if feeds then RowsShifted(G(t), G(r), S(t).attr, S(t).scTop, S(t).scBot, 1) else SameGrid(G(t), G(r)))
  {
    hide EscOk, Safe, ScrollUp, NextRow, RowsShifted, SameGrid;
    RowStart(t);
    var t1 := WithPos(t, Pos(t).(x := 0));
    if Pos(t).y == S(t).scBot {
      ScrollUpShifts(t1, 1, accel);
      ShiftedSize(G(t), G(LcfRest(t, accel)), S(t).attr, S(t).scTop, S(t).scBot, 1);
    } else {
      RowBelow(t1);
    }
  }

  lemma RowBelow(t: Term)
    requires Safe(t) && !Pos(t).lastCol
    ensures StandsAt(t, NextRow(t), Pos(t).x, Min(Pos(t).y + 1, G(t).height - 1)) && SameGrid(G(t), G(NextRow(t)))
  {
    hide EscOk, Safe, InvalidateCursor, LooksAlike;
    OnScreen(t);
    RowStart(t);
    if Pos(t).y != G(t).height - 1 { InvalidateLooks(WithPos(t, Pos(t).(y := Pos(t).y + 1))); }
  }

  lemma ShiftedSize(g: Grid, r: Grid, attr: Cell, top: int, bot: int, shift: int)
    requires RowsShifted(g, r, attr, top, bot, shift)
    ensures SameSize(r, g)
  {
  }

  lemma FeedSteps(t: Term)
    requires Safe(t) && !Pos(t).lastCol
    ensures StandsAt(t, FeedStep(t), if t.modes.crlf then 0 else Pos(t).x, Min(Pos(t).y + 1, G(t).height - 1))
    ensures SameGrid(G(t), G(FeedStep(t)))
  {
    hide EscOk, Safe, MoveTo, SameGrid;
    OnScreen(t);
    MovedLooks(t, if t.modes.crlf then 0 else Pos(t).x, if Pos(t).y != G(t).height - 1 then Pos(t).y + 1 else Pos(t).y);
  }

  /** Shifting does not see marks and dirty bits, before it or after it. */
  lemma ShiftsAlike(g: Grid, g1: Grid, r: Grid, attr: Cell, top: int, bot: int, shift: int)
    requires Live(g) && SameGrid(g, g1) && RowsShifted(g1, r, attr, top, bot, shift)
    ensures RowsShifted(g, r, attr, top, bot, shift)
  {
    hide LooksAlike, RowOf, BlankRow, SameGrid;
    GridSize(g, g1);
    forall j: nat | j < g.height ensures LooksAlike(RowOf(r, j), FromBelow(g, attr, top, bot, shift, j)) {
      SameRow(g, g1, j);
      if 0 <= j + shift < g.height { SameRow(g, g1, j + shift); }
      AlikeSelf(BlankRow(g.width, attr));
      SymTrans(RowOf(r, j), FromBelow(g1, attr, top, bot, shift, j), FromBelow(g, attr, top, bot, shift, j));
    }
  }

  lemma GridSize(g: Grid, h: Grid)
    requires SameGrid(g, h)
    ensures SameSize(g, h)
  {
  }

  lemma ShiftedAlike(g: Grid, r: Grid, r1: Grid, attr: Cell, top: int, bot: int, shift: int)
    requires RowsShifted(g, r, attr, top, bot, shift) && SameGrid(r, r1) && Live(r1)
    ensures RowsShifted(g, r1, attr, top, bot, shift)
  {
    hide LooksAlike, RowOf, BlankRow, SameGrid;
    GridSize(r, r1);
    forall j: nat | j < g.height ensures LooksAlike(RowOf(r1, j), FromBelow(g, attr, top, bot, shift, j)) {
      SameRow(r, r1, j);
      AlikeBack(RowOf(r1, j), RowOf(r, j), FromBelow(g, attr, top, bot, shift, j));
    }
  }

  // ---- wrap marks -------------------------------------------------------------------

  /** The last cell of the cursor's row does not say that its line goes on in the next one. */
  ghost predicate RowClosed(t: Term, r: Term)
    requires Safe(t)
  {
    Erasing.PlaceFits(t);
    SameSize(G(r), G(t)) && !G(r).cells[Erasing.RowStart(t) + G(t).width - 1].wrap
  }

  lemma MarkCloses(t: Term)
    requires Safe(t)
    ensures RowClosed(t, MarkWrap(t, Pos(t).y, false))
  {
    hide EscOk, Safe, MarkWrap;
    OnScreen(t);
    Erasing.PlaceFits(t);
    Typing.MarkOne(t, Pos(t).y, false, Erasing.RowStart(t) + G(t).width - 1);
  }

  lemma StaysClosed(t: Term, u: Term, r: Term)
    requires Safe(t) && RowClosed(t, u) && SameSize(G(r), G(u)) && SameButDirty(G(u).cells, G(r).cells)
    ensures RowClosed(t, r)
  {
    hide EscOk, Safe;
    Erasing.PlaceFits(t);
    var e := Erasing.RowStart(t) + G(t).width - 1;
    assert G(r).cells[e] == G(u).cells[e].(dirty := G(r).cells[e].dirty);
  }

  /** What both controls begin with. */
  lemma ResetCloses(t: Term)
    requires Safe(t)
    ensures var u := MarkWrap(LcfReset(t), Pos(LcfReset(t)).y, false);
      RowClosed(t, u) && Pos(u).x == Pos(t).x && Pos(u).y == Pos(t).y && !Pos(u).lastCol && SameSize(G(u), G(t)) &&
      S(u).scBot == S(t).scBot
  {
    hide EscOk, Safe, MarkWrap;
    MarkCloses(LcfReset(t));
  }

  /** A carriage return ends its line, */
  lemma ReturnCloses(t: Term)
    requires Safe(t)
    ensures RowClosed(t, CarriageReturn(t))
  {
    hide EscOk, Safe, MoveTo, MarkWrap, LcfReset, SameButDirty, RowClosed;
    OnScreen(t);
    ResetCloses(t);
    var u := MarkWrap(LcfReset(t), Pos(LcfReset(t)).y, false);
    if Pos(u).x != 0 {
      Typing.MoveSame(u, 0, Pos(u).y);
      StaysClosed(t, u, MoveTo(u, 0, Pos(u).y));
    }
  }

  /** and so does a line feed that does not scroll. */
  lemma FeedCloses(t: Term, accel: bool)
    requires Safe(t) && Pos(t).y != S(t).scBot
    ensures RowClosed(t, LineFeed(t, accel))
  {
    hide EscOk, Safe, MoveTo, MarkWrap, LcfReset, FeedScroll, SameButDirty, RowClosed;
    OnScreen(t);
    ResetCloses(t);
    var u := MarkWrap(LcfReset(t), Pos(LcfReset(t)).y, false);
    var x := if u.modes.crlf then 0 else Pos(u).x;
    var y := if Pos(u).y != G(u).height - 1 then Pos(u).y + 1 else Pos(u).y;
    Typing.MoveSame(u, x, y);
    StaysClosed(t, u, MoveTo(u, x, y));
  }

  /** The first character typed after the cursor was moved into a row, but not into its last column,
      drops the mark the row still had. */
  lemma StaleCloses(t: Term, cp: nat, accel: bool)
    requires Safe(t) && Pos(t).justMoved && !Pos(t).lastCol && Pos(t).x != G(t).width - 1 && !t.modes.insert
    requires Typing.Printable(cp)
    ensures RowClosed(t, PutChar(t, cp, accel))
  {
    hide EscOk, Safe, StaleWrap, WriteHere, Advance, Translate, MoveTo, SameButDirty;
    OnScreen(t);
    Typing.TranslateOk(t, cp);
    var t1, ch := StaleWrap(t), Translate(t, cp);
    StaleMarks(t);
    var v := WriteHere(t1, ch);
    Erasing.PlaceFits(t);
    Typing.Writes(t1, ch, Erasing.RowStart(t) + G(t).width - 1);
    StepOn(v);
    StaysClosed(t, v, Advance(v));
  }

  lemma StaleMarks(t: Term)
    requires Safe(t) && Pos(t).justMoved && !Pos(t).lastCol
    ensures var u := StaleWrap(t); RowClosed(t, u) && Pos(u) == Pos(t).(justMoved := false) && u.modes == t.modes
  {
    hide EscOk, MarkWrap;
    var t1 := WithPos(t, Pos(t).(justMoved := false));
    MarkCloses(t1);
  }

  lemma StepOn(v: Term)
    requires Safe(v) && !Pos(v).lastCol && Pos(v).x != G(v).width - 1
    ensures SameSize(G(Advance(v)), G(v)) && SameButDirty(G(v).cells, G(Advance(v)).cells)
  {
    hide EscOk, Safe, MoveTo, SameButDirty;
    OnScreen(v);
    Typing.MoveSame(v, Pos(v).x + 1, Pos(v).y);
  }

  // ---- from bytes -------------------------------------------------------------------

  const BS: Utf8.Byte := 0x08
  const HT: Utf8.Byte := 0x09
  const LF: Utf8.Byte := 0x0a
  const VT: Utf8.Byte := 0x0b
  const FF: Utf8.Byte := 0x0c
  const CR: Utf8.Byte := 0x0d

  /** What each of the controls that move the cursor does. */
  ghost predicate ControlAsAsked(t: Term, r: Term, b: Utf8.Byte) {
    var x, y, s := Pos(t).x, Pos(t).y, S(t);
    (b == BS ==> LandsAt(t, r, Max(0, x - 1), y)) &&
    (b == HT ==> LandsAt(t, r, Min((x / 8 + 1) * 8, G(t).width - 1), y)) &&
    (b == CR ==> StandsAt(t, r, 0, y) && SameGrid(G(t), G(r))) &&
    (b == LF || b == VT || b == FF ==>
       StandsAt(t, r, if t.modes.crlf then 0 else x, if y == s.scBot then y else Min(y + 1, G(t).height - 1)) &&
       if y == s.scBot then RowsShifted(G(t), G(r), s.attr, s.scTop, s.scBot, 1) else SameGrid(G(t), G(r)))
  }

  lemma ControlMoves(t: Term, b: Utf8.Byte, accel: bool)
    requires Safe(t) && BS <= b <= CR
    ensures ControlAsAsked(t, PutC(t, b, accel), b)
  {
    hide EscOk, Safe, BackSpace, Tab, LineFeed, CarriageReturn, LandsAt, StandsAt, SameGrid, RowsShifted;
    BackLands(t);
    TabLands(t);
    ReturnLands(t);
    FeedLands(t, accel);
  }

  lemma ControlReaches(t: Term, b: Utf8.Byte, env: Env)
    requires Safe(t) && t.esc.state == Ground && BS <= b <= CR
    ensures ProcessChar(t, b, env) == PutC(t, b, env.accel)
  {
    hide EscOk, Safe, PutC;
  }

  /** Backspace, tab, line feed and carriage return, read outside a sequence. */
  lemma ControlRead(t: Term, b: Utf8.Byte, env: Env)
    requires Ready(t) && BS <= b <= CR
    ensures ControlAsAsked(t, ReadByte(t, b, env), b)
  {
    hide EscOk, Safe, ProcessChar, PutC, ReadByte, SameGrid, RowsShifted, Utf8.AtBoundary;
    AsciiByte(t, b, env);
    ControlReaches(t.(rdcp := b), b, env);
    ControlMoves(t.(rdcp := b), b, env.accel);
  }

  // ---- one-character sequences ------------------------------------------------------

  const INDEX: Utf8.Byte := 'D' as int
  const NEW_LINE: Utf8.Byte := 'E' as int
  const BOTTOM_LEFT: Utf8.Byte := 'F' as int
  const REVERSE_INDEX: Utf8.Byte := 'M' as int

  /** What the sequences that move the cursor do: inside the region it never leaves it, at its edges the
      region scrolls. */
  ghost predicate EscapeAsAsked(t: Term, r: Term, b: Utf8.Byte) {
    var x, y, s := Pos(t).x, Pos(t).y, S(t);
    (b == INDEX ==>
       if y == s.scBot then StandsAt(t, r, x, y) && RowsShifted(G(t), G(r), s.attr, s.scTop, s.scBot, 1)
       else LandsAt(t, r, x, if s.scTop <= y < s.scBot then y + 1 else y)) &&
    (b == REVERSE_INDEX ==>
       if y == s.scTop then StandsAt(t, r, x, y) && RowsShifted(G(t), G(r), s.attr, s.scTop, s.scBot, -1)
       else LandsAt(t, r, x, if s.scTop < y <= s.scBot then y - 1 else y)) &&
    (b == NEW_LINE ==>
       StandsAt(t, r, 0, if y == s.scBot then y else Min(y + 1, G(t).height - 1)) &&
       if y == s.scBot then RowsShifted(G(t), G(r), s.attr, s.scTop, s.scBot, 1) else SameGrid(G(t), G(r))) &&
    (b == BOTTOM_LEFT ==> LandsAt(t, r, 0, NearRow(t, G(t).height - 1)))
  }

  lemma ResetStands(t: Term)
    requires Safe(t)
    ensures LandsAt(t, LcfReset(t), Pos(t).x, Pos(t).y) && G(LcfReset(t)) == G(t)
  {
    hide EscOk;
  }

  lemma IndexMoves(t: Term, accel: bool)
    requires Safe(t)
    ensures EscapeAsAsked(t, Index(t, accel), INDEX)
  {
    hide EscOk, Safe, ScrollUp, CurMoveRel, RowsShifted, SameButDirty;
    OnScreen(t);
    ResetStands(t);
    var t1 := LcfReset(t);
    if Pos(t).y == S(t).scBot {
      ScrollUpShifts(t1, 1, accel);
      ShiftedSize(G(t1), G(ScrollUp(t1, 1, accel)), S(t).attr, S(t).scTop, S(t).scBot, 1);
    } else if S(t).scTop <= Pos(t).y < S(t).scBot { RelLands(t1, 0, 1); }
  }

  lemma ReverseMoves(t: Term, accel: bool)
    requires Safe(t)
    ensures EscapeAsAsked(t, ReverseIndex(t, accel), REVERSE_INDEX)
  {
    hide EscOk, Safe, ScrollDown, CurMoveRel, RowsShifted, SameButDirty;
    OnScreen(t);
    ResetStands(t);
    var t1 := LcfReset(t);
    if Pos(t).y == S(t).scTop {
      ScrollDownShifts(t1, 1, accel);
      ShiftedSize(G(t1), G(ScrollDown(t1, 1, accel)), S(t).attr, S(t).scTop, S(t).scBot, -1);
    } else if S(t).scTop < Pos(t).y <= S(t).scBot { RelLands(t1, 0, -1); }
  }

  lemma NewLineMoves(t: Term, accel: bool)
    requires Safe(t)
    ensures EscapeAsAsked(t, PutC(PutC(LcfReset(t), LF, accel), CR, accel), NEW_LINE)
  {
    hide EscOk, Safe, PutC, RowsShifted, SameGrid;
    ResetStands(t);
    var t1 := LcfReset(t);
    var t2 := PutC(t1, LF, accel);
    ControlMoves(t1, LF, accel);
    ControlMoves(t2, CR, accel);
    var r := PutC(t2, CR, accel);
    Erasing.SafeGrid(r);
    if Pos(t).y == S(t).scBot { ShiftedAlike(G(t), G(t2), G(r), S(t).attr, S(t).scTop, S(t).scBot, 1); }
    else { GridTrans(G(t), G(t2), G(r)); }
  }

  lemma GridTrans(g: Grid, h: Grid, k: Grid)
    requires SameGrid(g, h) && SameGrid(h, k)
    ensures SameGrid(g, k)
  {
  }

  lemma EscapeMoves(t: Term, b: Utf8.Byte, accel: bool)
    requires Safe(t) && b in {INDEX, NEW_LINE, BOTTOM_LEFT, REVERSE_INDEX}
    ensures EscapeAsAsked(t, EscRun(t, b, accel), b)
  {
    hide EscOk, Safe, Index, ReverseIndex, PutC, CurMoveAbs, EscapeAsAsked;
    if b == INDEX { IndexMoves(t, accel); }
    else if b == NEW_LINE { NewLineMoves(t, accel); }
    else if b == REVERSE_INDEX { ReverseMoves(t, accel); }
    else { CornerLands(t); }
  }

  lemma CornerLands(t: Term)
    requires Safe(t)
    ensures EscapeAsAsked(t, CurMoveAbs(t, 0, G(t).height - 1), BOTTOM_LEFT)
  {
    hide EscOk, Safe, CurMoveAbs, LandsAt;
    OnScreen(t);
    AbsLands(t, 0, G(t).height - 1);
  }

  /** Index, next line, reverse index and lower left corner, from their bytes. */
  lemma EscapeRead(t: Term, b: Utf8.Byte, e0: Env, e1: Env)
    requires Ready(t) && b in {INDEX, NEW_LINE, BOTTOM_LEFT, REVERSE_INDEX}
    ensures EscapeAsAsked(t, ReadAll(t, [ESC, b], [e0, e1]), b)
  {
    hide EscOk, Safe, EscRun, ReadAll, RowsShifted, SameGrid, Utf8.AtBoundary;
    EscapeRuns(t, b, e0, e1);
    EscapeMoves(t.(rdcp := b), b, e1.accel);
  }
}
