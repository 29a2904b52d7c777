/** What the erasing commands erase: cells in reading order, from the bytes of the command. */
module Erasing {
  import opened Cells
  import opened TermModel
  import opened CsiModel
  import opened Scrollback
  import opened ScrollbackRuns
  import opened Commands
  import opened CursorMoves
  import Utf8

  // ---- reading order ----------------------------------------------------------------

  /** The cursor's place in reading order. */
  function Place(t: Term): int { Pos(t).y * G(t).width + Pos(t).x }

  /** Where the cursor's row begins in reading order. */
  function RowStart(t: Term): int { Pos(t).y * G(t).width }

  lemma Onward(i: nat, w: nat, x: nat, y: nat)
    requires x < w
    ensures Row(i, w) > y || (Row(i, w) == y && Col(i, w) >= x) <==> i >= y * w + x
  {
    hide Row, Col;
    InLine(i, w, y);
    RowSpan(i, w, 0, y);
    MulAdd(y, 1, w);
  }

  lemma Backward(i: nat, w: nat, x: nat, y: nat)
    requires x < w
    ensures Row(i, w) < y || (Row(i, w) == y && Col(i, w) <= x) <==> i <= y * w + x
  {
    hide Row, Col;
    InLine(i, w, y);
    RowSpan(i, w, 0, y - 1);
  }

  lemma WithinRow(i: nat, w: nat, x0: nat, x1: int, y: nat)
    requires x0 < w
    ensures Row(i, w) == y && x0 <= Col(i, w) <= x1 <==> y * w + x0 <= i < y * w + Min(x1 + 1, w)
  {
    hide Row, Col;
    InLine(i, w, y);
  }

  // ---- one rectangle ----------------------------------------------------------------

  /** The cells from `lo` up to `hi` look like the pen, all others as before; the cursor stays, without
      a pending wrap. */
  ghost predicate Erased(t: Term, r: Term, lo: int, hi: int) {
    SameSize(G(r), G(t)) && r.onAlt == t.onAlt && r.modes == t.modes && r.esc == t.esc && r.rdcp == t.rdcp &&
    S(r) == S(t).(curpos := Pos(r)) && Pos(r).x == Pos(t).x && Pos(r).y == Pos(t).y &&
    forall i :: 0 <= i < |G(t).cells| ==> SameLook(G(r).cells[i], if lo <= i < hi then S(t).attr else G(t).cells[i])
  }

  lemma RectLook(g: Grid, x0: int, y0: int, x1: int, y1: int, attr: Cell, i: nat)
    requires Live(g) && i < |g.cells|
    ensures SameLook(Region(g, x0, y0, x1, y1, FillWith(Some(attr))).cells[i],
                     if InRect(i, g.width, x0, y0, x1, y1) then attr else g.cells[i])
  {
    hide InRect, Apply, FillWith;
    FillLook(attr, g.cells[i]);
  }

  lemma EraseLooks(t: Term, x0: int, y0: int, x1: int, y1: int, i: nat)
    requires Safe(t) && i < |G(t).cells| && G(t).width > 0
    ensures SameLook(G(Erase(t, x0, y0, x1, y1)).cells[i],
                     if InRect(i, G(t).width, x0, y0, x1, y1) then S(t).attr else G(t).cells[i])
  {
    hide EscOk, InRect, Region, FillWith;
    SafeGrid(t);
    RectLook(G(t), x0, y0, x1, y1, S(t).attr, i);
  }

  lemma SafeGrid(t: Term)
    requires Safe(t)
    ensures Live(G(t)) && G(t).width > 0
  {
    hide EscOk;
  }

  /** The rest of the screen, from the cursor on. */
  lemma BelowIs(t: Term)
    requires Safe(t)
    ensures Erased(t, EraseBelow(t), Place(t), |G(t).cells|)
  {
    hide EscOk, Safe, Erase, Row, Col;
    OnScreen(t);
    SafeGrid(t);
    var w, h, x, y := G(t).width, G(t).height, Pos(t).x, Pos(t).y;
    var t1 := Erase(t, x, y, w - 1, y);
    forall i: nat | i < |G(t).cells|
      ensures SameLook(G(EraseBelow(t)).cells[i], if Place(t) <= i then S(t).attr else G(t).cells[i])
    {
      EraseLooks(t, x, y, w - 1, y, i);
      EraseLooks(t1, 0, y + 1, w - 1, h - 1, i);
      Onward(i, w, x, y);
      RowInGrid(i, w, h);
    }
  }

  /** The beginning of the screen, up to and including the cursor. */
  lemma AboveIs(t: Term)
    requires Safe(t)
    ensures Erased(t, EraseAbove(t), 0, Place(t) + 1)
  {
    hide EscOk, Safe, Erase, Row, Col;
    OnScreen(t);
    SafeGrid(t);
    var w, x, y := G(t).width, Pos(t).x, Pos(t).y;
    var t1 := Erase(t, 0, y, x, y);
    forall i: nat | i < |G(t).cells|
      ensures SameLook(G(EraseAbove(t)).cells[i], if i <= Place(t) then S(t).attr else G(t).cells[i])
    {
      EraseLooks(t, 0, y, x, y, i);
      EraseLooks(t1, 0, 0, w - 1, y - 1, i);
      Backward(i, w, x, y);
    }
  }

  /** The whole screen. */
  lemma AllIs(t: Term)
    requires Safe(t)
    ensures Erased(t, EraseAll(t), 0, |G(t).cells|)
  {
    hide EscOk, Safe, Erase, Row, Col;
    SafeGrid(t);
    var w, h := G(t).width, G(t).height;
    forall i: nat | i < |G(t).cells| ensures SameLook(G(EraseAll(t)).cells[i], S(t).attr) {
      EraseLooks(t, 0, 0, w - 1, h - 1, i);
      RowInGrid(i, w, h);
    }
  }

  /** A part of the cursor's row. */
  lemma RowPartIs(t: Term, x0: nat, x1: int)
    requires Safe(t) && x0 < G(t).width
    ensures Erased(t, Erase(t, x0, Pos(t).y, x1, Pos(t).y), RowStart(t) + x0, RowStart(t) + Min(x1 + 1, G(t).width))
  {
    hide EscOk, Safe, Erase, Row, Col;
    OnScreen(t);
    SafeGrid(t);
    var w, y := G(t).width, Pos(t).y;
    forall i: nat | i < |G(t).cells|
      ensures SameLook(G(Erase(t, x0, y, x1, y)).cells[i],
                       if y * w + x0 <= i < y * w + Min(x1 + 1, w) then S(t).attr else G(t).cells[i])
    {
      EraseLooks(t, x0, y, x1, y, i);
      WithinRow(i, w, x0, x1, y);
    }
  }

  // ---- the commands -----------------------------------------------------------------

  const SCREEN: Utf8.Byte := 'J' as int
  const LINE: Utf8.Byte := 'K' as int
  const CHARS: Utf8.Byte := 'X' as int

  /** The first cell a command erases. */
  function First(t: Term, cmd: Utf8.Byte, n: int): int {
    if cmd == SCREEN then if n == 0 then Place(t) else 0
    else if cmd == LINE then if n == 0 then Place(t) else RowStart(t)
    else Place(t)
  }

  /** The end of what a command erases; an unknown argument erases nothing. */
  function Last(t: Term, cmd: Utf8.Byte, n: int): int {
    if cmd == SCREEN then
      if n == 0 || n == 2 || n == 3 then |G(t).cells| else if n == 1 then Place(t) + 1 else 0
    else if cmd == LINE then
      if n == 0 || n == 2 then RowStart(t) + G(t).width else if n == 1 then Place(t) + 1 else RowStart(t)
    else Min(Place(t) + n, RowStart(t) + G(t).width)
  }

  lemma NothingErased(t: Term, at: int)
    ensures Erased(t, t, at, at)
  {
  }

  lemma DisplayIs(t: Term)
    requires Safe(t)
    ensures var n := Arg0(t, 0); Erased(t, EraseDisplay(t), First(t, SCREEN, n), Last(t, SCREEN, n))
  {
    hide EscOk, Safe, EraseBelow, EraseAbove, EraseAll, Erased;
    BelowIs(t);
    AboveIs(t);
    AllIs(t);
    NothingErased(t, 0);
  }

  lemma LineIs(t: Term)
    requires Safe(t)
    ensures var n := Arg0(t, 0); Erased(t, EraseLine(t), First(t, LINE, n), Last(t, LINE, n))
  {
    hide EscOk, Safe, Erase, Erased;
    OnScreen(t);
    RowPartIs(t, Pos(t).x, G(t).width - 1);
    RowPartIs(t, 0, Pos(t).x);
    RowPartIs(t, 0, G(t).width - 1);
    NothingErased(t, RowStart(t));
  }

  lemma CharsIs(t: Term, n: nat)
    requires Safe(t)
    ensures Erased(t, Erase(t, Pos(t).x, Pos(t).y, Pos(t).x + n - 1, Pos(t).y), First(t, CHARS, n), Last(t, CHARS, n))
  {
    hide EscOk, Safe, Erase, Erased;
    OnScreen(t);
    RowPartIs(t, Pos(t).x, Pos(t).x + n - 1);
  }

  /** A pending wrap is dropped first. */
  lemma ResetErases(t: Term, r: Term, lo: int, hi: int)
    requires Safe(t) && Erased(LcfReset(t), r, lo, hi)
    ensures Erased(t, r, lo, hi)
  {
    hide EscOk;
  }

  /** The argument of an erasing command; only the number of characters is one when not given. */
  function Extent(args: seq<int>, cmd: Utf8.Byte): int {
    if cmd == CHARS then Given(args, 0, 1) else if |args| > 0 && args[0] != -1 then args[0] else 0
  }

  lemma EraseRuns(t: Term, args: seq<int>, cmd: Utf8.Byte, accel: bool)
    requires Safe(t) && |args| <= ARG_SIZE && t.esc.argv == Padded(args) && t.esc.cmd == cmd
    requires cmd == SCREEN || cmd == LINE || cmd == CHARS
    requires t.esc.priv == 0 || (t.esc.priv > 0 && cmd != CHARS)
    ensures Erased(t, CsiRun(t, accel), First(t, cmd, Extent(args, cmd)), Last(t, cmd, Extent(args, cmd)))
  {
    hide EscOk, Safe, EraseDisplay, EraseLine, Erase, Erased, Padded, Among, LcfReset;
    Grouped(cmd);
    var t1 := LcfReset(t);
    DisplayIs(t1);
    LineIs(t1);
    CharsIs(t1, Arg1(t, 0));
    ResetErases(t, CsiRun(t, accel), First(t, cmd, Extent(args, cmd)), Last(t, cmd, Extent(args, cmd)));
  }

  /** The state after an erasing command, its text read in full. */
  ghost predicate ErasedBy(t: Term, r: Term, lo: int, hi: int) {
    Ready(r) && SameSize(G(r), G(t)) && r.onAlt == t.onAlt && r.modes == t.modes &&
    S(r) == S(t).(curpos := Pos(r)) && Pos(r).x == Pos(t).x && Pos(r).y == Pos(t).y &&
    forall i :: 0 <= i < |G(t).cells| ==> SameLook(G(r).cells[i], if lo <= i < hi then S(t).attr else G(t).cells[i])
  }

  lemma ErasedReady(t: Term, args: seq<int>, cmd: Utf8.Byte, priv: int, r: Term, lo: int, hi: int)
    requires Safe(t) && Safe(r) && |args| <= ARG_SIZE && Utf8.AtBoundary(cmd)
    requires Erased(Ordered(t, priv, args, cmd), r, lo, hi)
    ensures ErasedBy(t, r, lo, hi)
  {
    hide EscOk, Safe, Padded, Utf8.AtBoundary;
  }

  /** Erasing, end to end: the bytes of `J`, `K` and `X`, with or without the private mark where that
      makes no difference, erase exactly these cells and change no other. */
  lemma EraseRead(t: Term, priv: int, args: seq<int>, cmd: Utf8.Byte, envs: seq<Env>)
    requires Ready(t) && GoodArgs(args) && (cmd == SCREEN || cmd == LINE || cmd == CHARS)
    requires priv == 0 || (priv == 1 && cmd != CHARS)
    requires |envs| == |CommandText(priv, args, cmd)|
    ensures ErasedBy(t, ReadAll(t, CommandText(priv, args, cmd), envs),
                     First(t, cmd, Extent(args, cmd)), Last(t, cmd, Extent(args, cmd)))
  {
    hide EscOk, Safe, CsiRun, Erased, ErasedBy, Ordered, CommandText, Extent, First, Last, ReadAll;
    CommandRuns(t, priv, args, cmd, envs);
    Utf8.Accepted(cmd);
    OrderedRuns(t, priv, args, cmd, envs[|envs| - 1].accel);
  }

  lemma OrderedRuns(t: Term, priv: int, args: seq<int>, cmd: Utf8.Byte, accel: bool)
    requires Safe(t) && GoodArgs(args) && (cmd == SCREEN || cmd == LINE || cmd == CHARS) && Utf8.AtBoundary(cmd)
    requires (priv == 0 || (priv == 1 && cmd != CHARS)) && Safe(Ordered(t, priv, args, cmd))
    ensures ErasedBy(t, CsiRun(Ordered(t, priv, args, cmd), accel),
                     First(t, cmd, Extent(args, cmd)), Last(t, cmd, Extent(args, cmd)))
  {
    hide EscOk, Safe, CsiRun, Erased, ErasedBy, Padded, Extent, Utf8.AtBoundary;
    var u := Ordered(t, priv, args, cmd);
    EraseRuns(u, args, cmd, accel);
    ErasedReady(t, args, cmd, priv, CsiRun(u, accel), First(t, cmd, Extent(args, cmd)),
                Last(t, cmd, Extent(args, cmd)));
  }

  /** Erasing from the cursor on and then up to the cursor looks like erasing everything, on the whole
      screen as in one line. */
  lemma EraseBothWays(t: Term, cmd: Utf8.Byte, e0: seq<Env>, e1: seq<Env>, e2: seq<Env>)
    requires Ready(t) && (cmd == SCREEN || cmd == LINE)
    requires |e0| == |CommandText(0, [0], cmd)| && |e1| == |CommandText(0, [1], cmd)| &&
      |e2| == |CommandText(0, [2], cmd)|
    ensures var u := ReadAll(t, CommandText(0, [0], cmd), e0);
      LooksAlike(G(ReadAll(u, CommandText(0, [1], cmd), e1)).cells, G(ReadAll(t, CommandText(0, [2], cmd), e2)).cells)
  {
    hide EscOk, Safe, ReadAll, CommandText, ErasedBy, Ready, First, Last, Extent, LooksAlike;
    ReadySafe(t);
    Extents(cmd);
    EraseRead(t, 0, [0], cmd, e0);
    var u := ReadAll(t, CommandText(0, [0], cmd), e0);
    SamePlace(t, u, First(t, cmd, 0), Last(t, cmd, 0), cmd);
    ReadySafe(u);
    EraseRead(u, 0, [1], cmd, e1);
    EraseRead(t, 0, [2], cmd, e2);
    Shares(t, cmd);
    BothLook(t, u, ReadAll(u, CommandText(0, [1], cmd), e1), ReadAll(t, CommandText(0, [2], cmd), e2),
             First(t, cmd, 2), Place(t), Last(t, cmd, 2));
  }

  lemma PlaceFits(t: Term)
    requires Safe(t)
    ensures 0 <= RowStart(t) <= Place(t) < RowStart(t) + G(t).width <= |G(t).cells|
  {
    hide EscOk;
    OnScreen(t);
    LineFits(G(t), Pos(t).x, Pos(t).y);
  }

  lemma ReadySafe(t: Term)
    requires Ready(t)
    ensures Safe(t)
  {
  }

  lemma Extents(cmd: Utf8.Byte)
    requires cmd == SCREEN || cmd == LINE
    ensures Extent([0], cmd) == 0 && Extent([1], cmd) == 1 && Extent([2], cmd) == 2
  {
  }

  /** The two halves meet at the cursor. */
  lemma Shares(t: Term, cmd: Utf8.Byte)
    requires Safe(t) && (cmd == SCREEN || cmd == LINE)
    ensures First(t, cmd, 0) == Place(t) && Last(t, cmd, 1) == Place(t) + 1
    ensures First(t, cmd, 1) == First(t, cmd, 2) && Last(t, cmd, 0) == Last(t, cmd, 2)
    ensures First(t, cmd, 2) <= Place(t) < Last(t, cmd, 2)
  {
    hide EscOk, Safe, Place, RowStart;
    PlaceFits(t);
  }

  lemma SamePlace(t: Term, u: Term, lo: int, hi: int, cmd: Utf8.Byte)
    requires ErasedBy(t, u, lo, hi)
    ensures Ready(u) && First(u, cmd, 1) == First(t, cmd, 1) && Last(u, cmd, 1) == Last(t, cmd, 1)
  {
    hide EscOk, Safe, Utf8.AtBoundary;
  }

  lemma BothLook(t: Term, u: Term, v: Term, x: Term, lo: int, at: int, hi: int)
    requires ErasedBy(t, u, at, hi) && ErasedBy(u, v, lo, at + 1) && ErasedBy(t, x, lo, hi) && lo <= at < hi
    ensures LooksAlike(G(v).cells, G(x).cells)
  {
    hide EscOk, Safe, Ready;
  }
}
