/** The window as a cache of the active screen: for every run of bytes from the child, focus and
    blink events and frames, the window shows exactly the screen right after each frame. */
module Fidelity {
  import opened Cells
  import opened TermModel
  import opened GridFacts

  /** What was asked to be drawn in one character cell of the window. */
  datatype Ink = Ink(ch: nat, style: Style, fg: nat, bg: nat, cursor: Option<CursorShape>, reverse: bool,
                     colorMode: int)

  function CursorIndex(t: Term): (i: int)
    requires Safe(t)
    ensures 0 <= i < |G(t).cells|
  {
    At(G(t), Pos(t).x, Pos(t).y)
  }

  function CursorAt(t: Term, i: int): bool
    requires Safe(t)
  {
    !S(t).hidden && i == CursorIndex(t)
  }

  /** What cell `i` of the active screen should look like in the window. */
  function InkAt(t: Term, i: int): Ink
    requires Safe(t) && 0 <= i < |G(t).cells|
  {
    var c := G(t).cells[i];
    Ink(c.ch, c.style, c.fg, c.bg, if CursorAt(t, i) then Some(t.shape) else None, t.modes.reverse, t.colorMode)
  }

  // the pending scroll as a move over flat indices
  function MoveFrom(t: Term): int { t.scrollY0 * G(t).width }
  function MoveTill(t: Term): int { (t.scrollY1 + 1) * G(t).width }
  function MoveShift(t: Term): int {
    if Pending(t) then ShiftOf(Sign(t.scrollCount), Abs(t.scrollCount), G(t).width) else 0
  }

  /** The window cell that will show cell `i` once the pending scroll is copied; -1 if none will. */
  function Source(t: Term, i: int): int {
    if Pending(t) then Src(MoveFrom(t), MoveTill(t), MoveShift(t), i) else i
  }

  ghost predicate Shown(t: Term, win: seq<Ink>, i: int)
    requires Safe(t) && 0 <= i < |G(t).cells|
  {
    var s := Source(t, i);
    0 <= s < |win| && win[s] == InkAt(t, i)
  }

  /** Every clean cell, but perhaps cell `e`, is already in the window, up to the pending scroll. */
  ghost predicate FaithfulBut(t: Term, win: seq<Ink>, e: int)
    requires Safe(t)
  {
    |win| == |G(t).cells| &&
    forall i :: 0 <= i < |win| && i != e && !G(t).cells[i].dirty ==> Shown(t, win, i)
  }

  ghost predicate Faithful(t: Term, win: seq<Ink>)
    requires Safe(t)
  {
    FaithfulBut(t, win, -1)
  }

  /** The window shows the active screen, cursor included. */
  ghost predicate Exact(t: Term, win: seq<Ink>)
    requires Safe(t)
  {
    |win| == |G(t).cells| && forall i :: 0 <= i < |win| ==> win[i] == InkAt(t, i)
  }

  // ---- changes that keep the window faithful ----------------------------------------

  /** Same cursor, same drawing modes, same pending scroll. */
  predicate SameView(t: Term, r: Term) {
    SameSize(G(t), G(r)) && Pos(r).x == Pos(t).x && Pos(r).y == Pos(t).y && S(r).hidden == S(t).hidden &&
    r.modes.reverse == t.modes.reverse && r.colorMode == t.colorMode && r.shape == t.shape &&
    r.scrollCount == t.scrollCount && r.scrollY0 == t.scrollY0 && r.scrollY1 == t.scrollY1
  }

  lemma Carry(t: Term, r: Term, win: seq<Ink>, e: int)
    requires Safe(t) && Safe(r) && SameView(t, r) && Honest(G(t).cells, G(r).cells)
    requires FaithfulBut(t, win, e)
    ensures FaithfulBut(r, win, e)
  {
    hide EscOk, Safe, Src;
    forall i | 0 <= i < |win| && i != e && !G(r).cells[i].dirty ensures Shown(r, win, i) {
      assert Shown(t, win, i);
    }
  }

  /** Only the view's bookkeeping changes: attributes, modes, parser, saved state, history. */
  lemma CarryAll(t: Term, r: Term, win: seq<Ink>)
    requires Safe(t) && Safe(r) && SameView(t, r) && G(t) == G(r) && Faithful(t, win)
    ensures Faithful(r, win)
  {
    Carry(t, r, win, -1);
  }

  lemma CarryRegion(t: Term, x0: int, y0: int, x1: int, y1: int, op: RegionOp, win: seq<Ink>, e: int)
    requires Safe(t) && op != Clean && FaithfulBut(t, win, e)
    ensures Safe(WithG(t, Region(G(t), x0, y0, x1, y1, op)))
    ensures FaithfulBut(WithG(t, Region(G(t), x0, y0, x1, y1, op)), win, e)
  {
    hide EscOk, Region, FaithfulBut, Honest;
    RegionHonest(G(t), x0, y0, x1, y1, op);
    Carry(t, WithG(t, Region(G(t), x0, y0, x1, y1, op)), win, e);
  }

  /** The cursor's own cell will be redrawn. */
  predicate CursorDirty(t: Term)
    requires Safe(t)
  {
    S(t).hidden || G(t).cells[CursorIndex(t)].dirty
  }

  lemma InvalidateDirties(t: Term)
    requires Safe(t)
    ensures CursorDirty(InvalidateCursor(t))
  {
    hide EscOk, Row, Col, Region;
    MarkedCell(G(t), Pos(t).x, Pos(t).y);
  }

  lemma InvalidateKeeps(t: Term, win: seq<Ink>, e: int)
    requires Safe(t) && FaithfulBut(t, win, e)
    ensures FaithfulBut(InvalidateCursor(t), win, e)
    ensures CursorDirty(InvalidateCursor(t))
    ensures e == CursorIndex(t) && !S(t).hidden ==> Faithful(InvalidateCursor(t), win)
  {
    hide EscOk, Region, Safe;
    InvalidateDirties(t);
    if !S(t).hidden { CarryRegion(t, Pos(t).x, Pos(t).y, Pos(t).x, Pos(t).y, Dirty, win, e); }
  }

  /** A cursor may move away from, appear on, or disappear from dirty cells. */
  lemma CursorChange(t: Term, r: Term, win: seq<Ink>)
    requires Safe(t) && Safe(r) && Faithful(t, win) && CursorDirty(t)
    requires G(r) == G(t) && r.modes.reverse == t.modes.reverse && r.colorMode == t.colorMode
    requires r.shape == t.shape || S(r).hidden == S(t).hidden
    requires r.scrollCount == t.scrollCount && r.scrollY0 == t.scrollY0 && r.scrollY1 == t.scrollY1
    ensures FaithfulBut(r, win, CursorIndex(r))
    ensures S(r).hidden ==> Faithful(r, win)
  {
    hide EscOk, Src, At, Safe;
    forall i | 0 <= i < |win| && !G(r).cells[i].dirty && (i != CursorIndex(r) || S(r).hidden)
      ensures Shown(r, win, i)
    {
      assert Shown(t, win, i);
    }
  }

  /** Leaves the old place, takes the new one: both are redrawn. */
  lemma CursorMoved(t: Term, r: Term, win: seq<Ink>)
    requires Safe(t) && Safe(r) && Faithful(t, win) && CursorDirty(t)
    requires G(r) == G(t) && r.modes.reverse == t.modes.reverse && r.colorMode == t.colorMode
    requires r.shape == t.shape || S(r).hidden == S(t).hidden
    requires r.scrollCount == t.scrollCount && r.scrollY0 == t.scrollY0 && r.scrollY1 == t.scrollY1
    ensures Faithful(InvalidateCursor(r), win)
  {
    hide EscOk, Src, At, Safe, FaithfulBut, CursorDirty, Faithful, InvalidateCursor;
    CursorChange(t, r, win);
    InvalidateWhole(r, win);
  }

  lemma InvalidateWhole(t: Term, win: seq<Ink>)
    requires Safe(t) && FaithfulBut(t, win, CursorIndex(t)) && (S(t).hidden ==> Faithful(t, win))
    ensures Faithful(InvalidateCursor(t), win) && CursorDirty(InvalidateCursor(t))
  {
    hide EscOk, FaithfulBut;
    if S(t).hidden { InvalidateKeeps(t, win, -1); } else { InvalidateKeeps(t, win, CursorIndex(t)); }
  }

  lemma MoveToKeeps(t: Term, x: int, y: int, win: seq<Ink>)
    requires Safe(t) && Faithful(t, win)
    requires 0 <= x < G(t).width && 0 <= y < G(t).height && (Pos(t).lastCol ==> x == G(t).width - 1)
    ensures Faithful(MoveTo(t, x, y), win) && CursorDirty(MoveTo(t, x, y))
  {
    hide EscOk, FaithfulBut, InvalidateCursor, CursorDirty;
    var t1 := InvalidateCursor(t);
    InvalidateKeeps(t, win, -1);
    var t2 := WithPos(t1, Pos(t1).(x := x, y := y));
    CursorMoved(t1, t2, win);
    InvalidateDirties(t2);
  }

  lemma GoToKeeps(t: Term, x: int, y: int, win: seq<Ink>)
    requires Safe(t) && Faithful(t, win)
    requires 0 <= x < G(t).width && 0 <= y < G(t).height && !Pos(t).lastCol
    ensures Faithful(GoTo(t, x, y), win)
  {
    hide EscOk, FaithfulBut, InvalidateCursor, CursorDirty;
    if x != Pos(t).x || y != Pos(t).y {
      var t1 := InvalidateCursor(t);
      InvalidateKeeps(t, win, -1);
      CursorMoved(t1, WithPos(t1, CursorPos(x, y, false, true)), win);
    }
  }

  lemma LcfResetKeeps(t: Term, win: seq<Ink>)
    requires Safe(t) && Faithful(t, win)
    ensures Faithful(LcfReset(t), win) && Faithful(LcfResetNoMove(t), win)
  {
    hide EscOk, FaithfulBut;
    CarryAll(t, LcfReset(t), win);
    CarryAll(t, LcfResetNoMove(t), win);
  }

  lemma CurMoveAbsKeeps(t: Term, nx: int, ny: int, win: seq<Ink>)
    requires Safe(t) && Faithful(t, win)
    ensures Faithful(CurMoveAbs(t, nx, ny), win)
  {
    hide EscOk, FaithfulBut, GoTo, AbsRow;
    LcfResetKeeps(t, win);
    GoToKeeps(LcfReset(t), Clamp(nx, 0, G(t).width - 1), AbsRow(t, ny), win);
  }

  lemma CurMoveRelKeeps(t: Term, dx: int, dy: int, win: seq<Ink>)
    requires Safe(t) && Faithful(t, win)
    ensures Faithful(CurMoveRel(t, dx, dy), win)
  {
    hide EscOk, FaithfulBut, GoTo, RelRow, RelCol;
    LcfResetKeeps(t, win);
    GoToKeeps(LcfReset(t), RelCol(t, dx), RelRow(t, dy), win);
  }

  lemma RestorePosKeeps(t: Term, win: seq<Ink>)
    requires Safe(t) && Faithful(t, win)
    ensures Faithful(RestorePos(t), win)
  {
    hide EscOk, FaithfulBut, InvalidateCursor, CursorDirty;
    var saved := S(t).cursaved;
    if saved.x != Pos(t).x || saved.y != Pos(t).y {
      var t1 := InvalidateCursor(t);
      InvalidateKeeps(t, win, -1);
      CursorMoved(t1, WithPos(t1, saved), win);
    } else {
      CarryAll(t, WithPos(t, saved), win);
    }
  }

  lemma RestoreKeeps(t: Term, kind: SaveKind, win: seq<Ink>)
    requires Safe(t) && Faithful(t, win)
    ensures Faithful(RestoreCursor(t, kind), win)
  {
    hide EscOk, FaithfulBut, RestorePos, Safe;
    RestorePosKeeps(t, win);
    CarryAll(RestorePos(t), RestoreCursor(t, kind), win);
  }

  // ---- scrolling --------------------------------------------------------------------

  /** Every cell the pending scroll would copy will be redrawn. */
  ghost predicate MovedDirty(t: Term) {
    Pending(t) ==> forall i :: 0 <= i < |G(t).cells| && MoveFrom(t) <= i < MoveTill(t) ==> G(t).cells[i].dirty
  }

  /** A pending scroll may be dropped once its whole region will be redrawn. */
  lemma Unpend(t: Term, r: Term, win: seq<Ink>)
    requires Safe(t) && Safe(r) && Faithful(t, win) && !Pending(r)
    requires r == t.(scrollCount := r.scrollCount, scrollY0 := r.scrollY0, scrollY1 := r.scrollY1)
    requires MovedDirty(t)
    ensures Faithful(r, win)
  {
    hide EscOk, Safe, MoveFrom, MoveTill, MoveShift, At;
    forall i | 0 <= i < |win| && !G(r).cells[i].dirty ensures Shown(r, win, i) {
      assert Shown(t, win, i);
      assert InkAt(r, i) == InkAt(t, i);
    }
  }

  lemma MarkRowsKeeps(t: Term, y0: int, y1: int, win: seq<Ink>, e: int)
    requires Safe(t) && FaithfulBut(t, win, e)
    ensures FaithfulBut(MarkRows(t, y0, y1), win, e)
    ensures forall i :: 0 <= i < |G(t).cells| && y0 * G(t).width <= i < (y1 + 1) * G(t).width ==>
      G(MarkRows(t, y0, y1)).cells[i].dirty
  {
    hide EscOk, FaithfulBut, Region;
    CarryRegion(t, 0, y0, G(t).width - 1, y1, Dirty, win, e);
    WholeRows(G(t), y0, y1, G(t).width - 1, Dirty);
  }

  lemma GiveUpKeeps(t: Term, win: seq<Ink>)
    requires Safe(t) && Faithful(t, win)
    ensures Faithful(GiveUpPending(t), win) && !Pending(GiveUpPending(t))
  {
    hide EscOk, FaithfulBut, MarkRows;
    if Pending(t) {
      MarkRowsKeeps(t, t.scrollY0, t.scrollY1, win, -1);
      var t1 := MarkRows(t, t.scrollY0, t.scrollY1);
      Unpend(t1, LockScroll(t1), win);
    }
  }

  /** `t2` is `t` with one more scroll added to the pending one. */
  ghost predicate Accumulated(t: Term, t2: Term, top: nat, bot: nat, n: nat, dir: int) {
    Safe(t) && Safe(t2) && top <= bot < G(t).height && 0 < n <= bot - top && (dir == 1 || dir == -1) &&
    (Pending(t) ==> t.scrollY0 == top && t.scrollY1 == bot && Sign(t.scrollCount) == dir) &&
    !Locked(t) && Pending(t2) &&
    t2 == t.(scrollY0 := top, scrollY1 := bot, scrollCount := if dir == 1 then t.scrollCount + n else t.scrollCount - n)
  }

  function Overwritten(t2: Term, top: nat, bot: nat, n: nat, dir: int): (r: Term)
    requires Safe(t2)
    ensures Safe(r) && r == WithG(t2, G(r)) && SameSize(G(r), G(t2))
  {
    hide EscOk, ScrollArea;
    WithG(t2, ScrollArea(G(t2), top, bot, n, dir, false, Some(S(t2).attr)))
  }

  /** One more overwriting scroll on top of the pending one: looks, dirty bits and the pending move
      all advance together, and what the longer move exposes is dirty. */
  lemma OverwriteKeeps(t: Term, t2: Term, top: nat, bot: nat, n: nat, dir: int, win: seq<Ink>)
    requires Accumulated(t, t2, top, bot, n, dir) && Faithful(t, win) && CursorDirty(t)
    ensures var r := Overwritten(t2, top, bot, n, dir);
      FaithfulBut(r, win, CursorIndex(r)) && (S(r).hidden ==> Faithful(r, win))
  {
    hide EscOk, ScrollArea, At, Safe, Shown, CursorIndex, CursorDirty, Overwritten;
    var r := Overwritten(t2, top, bot, n, dir);
    assert |G(r).cells| == |win| by { AccumulatedSize(t, t2, top, bot, n, dir); }
    forall i | 0 <= i < |win| && !G(r).cells[i].dirty && (i != CursorIndex(r) || S(r).hidden)
      ensures Shown(r, win, i)
    {
      OverwriteAt(t, t2, top, bot, n, dir, win, i);
    }
  }

  lemma AccumulatedSize(t: Term, t2: Term, top: nat, bot: nat, n: nat, dir: int)
    requires Accumulated(t, t2, top, bot, n, dir)
    ensures |G(Overwritten(t2, top, bot, n, dir)).cells| == |G(t).cells|
  {
    hide EscOk, ScrollArea, Safe;
  }

  lemma OverwriteAt(t: Term, t2: Term, top: nat, bot: nat, n: nat, dir: int, win: seq<Ink>, i: nat)
    requires Accumulated(t, t2, top, bot, n, dir) && Faithful(t, win) && CursorDirty(t) && i < |G(t).cells|
    requires var r := Overwritten(t2, top, bot, n, dir);
      |G(r).cells| == |win| && !G(r).cells[i].dirty && (i != CursorIndex(r) || S(r).hidden)
    ensures Shown(Overwritten(t2, top, bot, n, dir), win, i)
  {
    hide EscOk, ScrollArea, Row, Col, Src, ShiftOf, At, Safe, InkAt, Source, CursorDirty, CursorIndex, MoveFrom,
         MoveTill;
    var g := G(t);
    var r := Overwritten(t2, top, bot, n, dir);
    var a, b := top * g.width, (bot + 1) * g.width;
    ScrollMoves(g, top, bot, n, dir, S(t).attr, i);
    var s := Src(a, b, ShiftOf(dir, n, g.width), i);
    assert Shown(t, win, s);
    InkMoved(t, r, s, i);
    MoveEnds(t, t2, top, bot, n, dir);
    MovesAdd(t, t2, a, b, n, dir, i);
    SourceSame(t2, r, i);
  }

  lemma MoveEnds(t: Term, t2: Term, top: nat, bot: nat, n: nat, dir: int)
    requires Accumulated(t, t2, top, bot, n, dir)
    ensures MoveFrom(t2) == top * G(t).width && MoveTill(t2) == (bot + 1) * G(t).width
    ensures Pending(t) ==> MoveFrom(t) == MoveFrom(t2) && MoveTill(t) == MoveTill(t2)
    ensures SameSize(G(t), G(t2)) && 0 <= MoveFrom(t2) <= MoveTill(t2)
  {
    hide EscOk, Safe;
    MulMono(0, top, G(t).width);
    MulMono(top, bot + 1, G(t).width);
  }

  /** Cells that look alike, away from the cursor, are drawn alike. */
  lemma InkMoved(t: Term, r: Term, s: nat, i: nat)
    requires Safe(t) && Safe(r) && s < |G(t).cells| && i < |G(r).cells|
    requires SameLook(G(r).cells[i], G(t).cells[s]) && !G(t).cells[s].dirty && CursorDirty(t)
    requires i != CursorIndex(r) || S(r).hidden
    requires r.modes.reverse == t.modes.reverse && r.colorMode == t.colorMode
    ensures InkAt(r, i) == InkAt(t, s)
  {
    hide EscOk, Safe, At;
  }

  lemma SourceSame(t: Term, r: Term, i: int)
    requires r == WithG(t, G(r)) && SameSize(G(r), G(t))
    ensures Source(r, i) == Source(t, i)
  {
    hide Src, ShiftOf;
  }

  /** The window source of the longer move. */
  lemma MovesAdd(t: Term, t2: Term, a: int, b: int, n: nat, dir: int, i: nat)
    requires Safe(t) && 0 <= a <= b && n > 0 && (dir == 1 || dir == -1) && !Locked(t) && SameSize(G(t), G(t2))
    requires a == MoveFrom(t2) && b == MoveTill(t2) && Pending(t2)
    requires Pending(t) ==> MoveFrom(t) == a && MoveTill(t) == b && Sign(t.scrollCount) == dir
    requires t2.scrollCount == if dir == 1 then t.scrollCount + n else t.scrollCount - n
    requires Src(a, b, ShiftOf(dir, n, G(t).width), i) >= 0
    requires Source(t, Src(a, b, ShiftOf(dir, n, G(t).width), i)) >= 0
    ensures Source(t2, i) == Source(t, Src(a, b, ShiftOf(dir, n, G(t).width), i))
  {
    hide EscOk, Safe, Src, MoveFrom, MoveTill;
    var w := G(t).width;
    if Pending(t) {
      var m := Abs(t.scrollCount);
      assert (m + n) * w == m * w + n * w;
      MulMono(0, m, w);
      MulMono(0, n, w);
      assert MoveShift(t2) == MoveShift(t) + ShiftOf(dir, n, w);
      SrcCompose(a, b, MoveShift(t), ShiftOf(dir, n, w), i);
    } else {
      assert MoveShift(t2) == ShiftOf(dir, n, w);
    }
  }

  /** A scroll that is not replayed as a copy merges, like any other edit. */
  lemma MergeKeeps(t: Term, top: int, bot: int, n: nat, dir: int, win: seq<Ink>)
    requires Safe(t) && Faithful(t, win)
    ensures var r := WithG(t, ScrollArea(G(t), top, bot, n, dir, true, Some(S(t).attr)));
      Safe(r) && Faithful(r, win)
  {
    hide EscOk, FaithfulBut, ScrollArea, Honest;
    MergeScrollHonest(G(t), top, bot, n, dir, Some(S(t).attr));
    Carry(t, WithG(t, ScrollArea(G(t), top, bot, n, dir, true, Some(S(t).attr))), win, -1);
  }

  /** A cell that will be redrawn needs no excuse. */
  lemma Strengthen(t: Term, win: seq<Ink>, e: int)
    requires Safe(t) && FaithfulBut(t, win, e) && (0 <= e < |G(t).cells| ==> G(t).cells[e].dirty)
    ensures Faithful(t, win)
  {
    hide EscOk, Safe;
  }

  /** A scroll by the whole region clears it; `e` may be a cell of the region. */
  lemma ClearedKeeps(t: Term, win: seq<Ink>, e: int)
    requires Safe(t) && FaithfulBut(t, win, e)
    requires e == -1 || S(t).scTop * G(t).width <= e < (S(t).scBot + 1) * G(t).width
    ensures Faithful(Cleared(t), win)
  {
    hide EscOk, Safe, FaithfulBut, DropPending, FillRegion, MovedDirty;
    DropKeeps(t, win, e);
    var t1 := DropPending(t);
    FillKeeps(t1, win, e);
    Unpend(FillRegion(t1), LockScroll(FillRegion(t1)), win);
  }

  lemma DropKeeps(t: Term, win: seq<Ink>, e: int)
    requires Safe(t) && FaithfulBut(t, win, e)
    ensures FaithfulBut(DropPending(t), win, e) && MovedDirty(DropPending(t))
  {
    hide EscOk, FaithfulBut, MarkRows;
    if Pending(t) { MarkRowsKeeps(t, t.scrollY0, t.scrollY1, win, e); }
  }

  lemma FillKeeps(t: Term, win: seq<Ink>, e: int)
    requires Safe(t) && FaithfulBut(t, win, e) && MovedDirty(t)
    requires e == -1 || S(t).scTop * G(t).width <= e < (S(t).scBot + 1) * G(t).width
    ensures Faithful(FillRegion(t), win) && MovedDirty(FillRegion(t))
  {
    hide EscOk, Safe, FaithfulBut, Region, Apply;
    var op := FillWith(Some(S(t).attr));
    var g, top, bot := G(t), S(t).scTop, S(t).scBot;
    OnScreen(t);
    SafeGrid(t);
    CarryRegion(t, 0, top, g.width - 1, bot, op, win, e);
    RegionHonest(g, 0, top, g.width - 1, bot, op);
    WholeRows(g, top, bot, g.width - 1, op);
    if 0 <= e < |g.cells| { FillDirty(op, g.cells[e]); }
    Strengthen(FillRegion(t), win, e);
  }

  lemma SafeGrid(t: Term)
    requires Safe(t)
    ensures Live(G(t))
  {
    hide EscOk;
  }

  /** Any scroll keeps the window faithful; the cursor's cell is excused where the scroll redraws it. */
  lemma ScrollKeeps(t: Term, lines: int, accel: bool, win: seq<Ink>, e: int)
    requires Safe(t) && FaithfulBut(t, win, e)
    requires e == -1 || (lines != 0 && e == CursorIndex(t) && S(t).scTop <= Pos(t).y <= S(t).scBot &&
                         (S(t).hidden ==> Faithful(t, win)))
    ensures Faithful(ScrollInternal(t, lines, accel), win)
  {
    hide EscOk, FaithfulBut, Safe, InvalidateCursor, Accumulate, Cleared, CursorDirty;
    if lines != 0 {
      if Abs(lines) >= S(t).scBot - S(t).scTop + 1 {
        if e != -1 { CursorInRegion(t); }
        ClearedKeeps(t, win, e);
        ClearedIs(t, lines, accel);
      } else {
        if e == -1 { InvalidateKeeps(t, win, -1); } else { InvalidateWhole(t, win); }
        ScrollByKeeps(InvalidateCursor(t), Sign(lines), Abs(lines), accel, win);
      }
    }
  }

  lemma ClearedIs(t: Term, lines: int, accel: bool)
    requires Safe(t) && lines != 0 && Abs(lines) >= S(t).scBot - S(t).scTop + 1
    ensures ScrollInternal(t, lines, accel) == Cleared(t)
  {
    hide EscOk, Region, MarkRows, LockScroll;
  }

  lemma CursorInRegion(t: Term)
    requires Safe(t) && S(t).scTop <= Pos(t).y <= S(t).scBot
    ensures S(t).scTop * G(t).width <= CursorIndex(t) < (S(t).scBot + 1) * G(t).width
  {
    hide EscOk;
    MulMono(S(t).scTop, Pos(t).y, G(t).width);
    MulMono(Pos(t).y + 1, S(t).scBot + 1, G(t).width);
  }

  lemma AccumulateKinds(t: Term, dir: int, n: nat, accel: bool)
    requires Safe(t) && (dir == 1 || dir == -1) && 0 < n <= S(t).scBot - S(t).scTop
    ensures var (t2, copy) := Accumulate(t, dir, n, accel);
      if copy then Accumulated(t, t2, S(t).scTop, S(t).scBot, n, dir)
      else
        t2 == GiveUpPending(t) &&
        (accel && !Locked(t) ==>
           Pending(t) && (Sign(t.scrollCount) != dir || t.scrollY0 != S(t).scTop || t.scrollY1 != S(t).scBot ||
                          Abs(t.scrollCount + dir * n) > S(t).scBot - S(t).scTop))
  {
    hide EscOk, Safe, GiveUpPending;
    OnScreen(t);
  }

  lemma ScrollByKeeps(t: Term, dir: int, n: nat, accel: bool, win: seq<Ink>)
    requires Safe(t) && Faithful(t, win) && CursorDirty(t)
    requires (dir == 1 || dir == -1) && 0 < n <= S(t).scBot - S(t).scTop
    ensures var (t2, copy) := Accumulate(t, dir, n, accel);
      Faithful(InvalidateCursor(WithG(t2, ScrollArea(G(t2), S(t).scTop, S(t).scBot, n, dir, !copy, Some(S(t).attr)))),
               win)
  {
    hide EscOk, FaithfulBut, ScrollArea, InvalidateCursor, GiveUpPending, CursorDirty, Accumulate;
    var top, bot := S(t).scTop, S(t).scBot;
    var (t2, copy) := Accumulate(t, dir, n, accel);
    AccumulateKinds(t, dir, n, accel);
    if copy {
      OverwriteKeeps(t, t2, top, bot, n, dir, win);
      InvalidateWhole(Overwritten(t2, top, bot, n, dir), win);
    } else {
      GiveUpKeeps(t, win);
      MergeKeeps(t2, top, bot, n, dir, win);
      InvalidateKeeps(WithG(t2, ScrollArea(G(t2), top, bot, n, dir, true, Some(S(t).attr))), win, -1);
    }
  }

  lemma ScrollUpKeeps(t: Term, lines: int, accel: bool, win: seq<Ink>, e: int)
    requires Safe(t) && FaithfulBut(t, win, e)
    requires e == -1 || (lines > 0 && e == CursorIndex(t) && S(t).scTop <= Pos(t).y <= S(t).scBot &&
                         (S(t).hidden ==> Faithful(t, win)))
    ensures Faithful(ScrollUp(t, lines, accel), win)
  {
    hide EscOk, FaithfulBut, ScrollInternal, RowOf;
    if lines > 0 {
      var t1 := if lines == 1 && t.historyEnabled && !t.onAlt && t.mainScr.scTop == 0 then AppendHistory(t) else t;
      Carry(t, t1, win, e);
      if S(t).hidden && e != -1 { Carry(t, t1, win, -1); }
      ScrollKeeps(t1, -lines, accel, win, e);
    }
  }

  lemma ScrollDownKeeps(t: Term, lines: int, accel: bool, win: seq<Ink>)
    requires Safe(t) && Faithful(t, win)
    ensures Faithful(ScrollDown(t, lines, accel), win)
  {
    hide EscOk, FaithfulBut, ScrollInternal;
    if lines > 0 { ScrollKeeps(t, lines, accel, win, -1); }
  }
}
