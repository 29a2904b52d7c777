/** What scrolling does to the lines of the screen and of the history. */
module Scrollback {
  import opened Cells
  import opened TermModel
  import opened GridFacts

  // ---- scrolling moves whole rows ---------------------------------------------------

  ghost predicate LooksAlike(a: seq<Cell>, b: seq<Cell>) {
    |a| == |b| && forall x :: 0 <= x < |a| ==> SameLook(a[x], b[x])
  }

  /** Cell `i` after a scroll, whatever happens to the dirty bits: an old cell, or a blank. */
  ghost predicate ScrolledCell(s: seq<Cell>, r: seq<Cell>, a: int, b: int, k: int, blank: Cell, i: int)
    requires |s| == |r| && 0 <= i < |s|
  {
    var j := Src(a, b, k, i);
    -1 <= j < |s| && SameLook(r[i], if j == -1 then blank else s[j])
  }

  lemma StripLook(s: seq<Cell>, src: int, dst: int, n: int, merge: bool, i: nat)
    requires 0 <= src && src + n <= |s| && 0 <= dst && dst + n <= |s| && i < |s|
    ensures SameLook(Strip(s, src, dst, n, merge)[i], if dst <= i < dst + n then s[i - dst + src] else s[i])
  {
  }

  lemma FillLook(attr: Cell, c: Cell)
    ensures SameLook(Apply(FillWith(Some(attr)), c), attr)
  {
  }

  /** Strip copy, then fill, in either dirty mode. */
  lemma StripFilledLook(s: seq<Cell>, r: seq<Cell>, a: nat, b: nat, k: int, merge: bool, attr: Cell, i: nat)
    requires |r| == |s| && i < |s| && b <= |s| && k != 0 && (if k > 0 then a + k < b else a - k < b)
    requires var m := if k > 0 then Strip(s, a + k, a, b - a - k, merge) else Strip(s, a, a - k, b - a + k, merge);
      var lo, hi := if k > 0 then b - k else a, if k > 0 then b else a - k;
      r[i] == if lo <= i < hi then Apply(FillWith(Some(attr)), m[i]) else m[i]
    ensures ScrolledCell(s, r, a, b, k, attr, i)
  {
    hide Strip, Apply, FillWith;
    if k > 0 {
      StripLook(s, a + k, a, b - a - k, merge, i);
      FillLook(attr, Strip(s, a + k, a, b - a - k, merge)[i]);
    } else {
      StripLook(s, a, a - k, b - a + k, merge, i);
      FillLook(attr, Strip(s, a, a - k, b - a + k, merge)[i]);
    }
  }

  lemma MovedLooks(g: Grid, top: nat, bot: nat, lines: nat, dir: int, merge: bool, attr: Cell, i: nat)
    requires Live(g) && top <= bot < g.height && 0 < lines <= bot - top && (dir == 1 || dir == -1) && i < |g.cells|
    ensures ScrolledCell(g.cells, MovedRows(g, top, bot, lines, dir, merge, Some(attr)).cells,
                         top * g.width, (bot + 1) * g.width, ShiftOf(dir, lines, g.width), attr, i)
  {
    hide Row, Col, InRect, Region, Strip, Apply, FillWith, ScrolledCell, Src;
    RegionFits(g, top, bot, lines);
    var w := g.width;
    var n := (bot - top + 1 - lines) * w;
    var a, b, k := top * w, (bot + 1) * w, lines * w;
    assert (top + lines) * w == a + k && n == b - a - k && k > 0 by { MulMono(1, lines, w); }
    var op := FillWith(Some(attr));
    var r := MovedRows(g, top, bot, lines, dir, merge, Some(attr));
    if dir < 0 {
      var m := g.(cells := Strip(g.cells, a + k, a, n, merge));
      assert r == Region(m, 0, bot - lines + 1, w - 1, bot, op);
      assert (bot - lines + 1) * w == b - k;
      WholeRows(m, bot - lines + 1, bot, w - 1, op);
      StripFilledLook(g.cells, r.cells, a, b, k, merge, attr, i);
    } else {
      var m := g.(cells := Strip(g.cells, a, a + k, n, merge));
      assert r == Region(m, 0, top, w - 1, top + lines - 1, op);
      assert (top + lines - 1 + 1) * w == a + k;
      WholeRows(m, top, top + lines - 1, w - 1, op);
      StripFilledLook(g.cells, r.cells, a, b, -k, merge, attr, i);
    }
  }

  /** The row that a scroll puts at row `y`; -1 for a blank one. */
  function RowSource(top: int, bot: int, lines: int, dir: int, y: int): int {
    if y < top || y > bot then y
    else if dir < 0 then if y + lines <= bot then y + lines else -1
    else if y - lines >= top then y - lines else -1
  }

  function BlankRow(w: nat, attr: Cell): (r: seq<Cell>)
    ensures |r| == w
  {
    seq(w, _ => attr)
  }

  /** `p < q` rows apart means at least one row of cells apart. */
  lemma RowGap(p: int, q: int, w: nat)
    requires p < q
    ensures p * w + w <= q * w
  {
    MulMono(p + 1, q, w);
    MulAdd(p, 1, w);
  }

  /** Row sources and index sources agree. */
  lemma SourceRow(w: nat, top: nat, bot: nat, lines: nat, dir: int, y: nat, x: nat)
    requires x < w && top <= bot && 0 < lines <= bot - top && (dir == 1 || dir == -1)
    ensures var s := RowSource(top, bot, lines, dir, y);
      Src(top * w, (bot + 1) * w, ShiftOf(dir, lines, w), y * w + x) == if s == -1 then -1 else s * w + x
  {
    hide Src;
    if y < top || y > bot { SourceOutside(w, top, bot, ShiftOf(dir, lines, w), y, x); }
    else if dir < 0 { SourceUp(w, top, bot, lines, y, x); }
    else { SourceDown(w, top, bot, lines, y, x); }
  }

  lemma SourceOutside(w: nat, top: nat, bot: nat, k: int, y: nat, x: nat)
    requires x < w && top <= bot && (y < top || y > bot)
    ensures Src(top * w, (bot + 1) * w, k, y * w + x) == y * w + x
  {
    hide Src;
    RowGap(top, bot + 1, w);
    if y < top { RowGap(y, top, w); } else { MulMono(bot + 1, y, w); }
    Outside(top * w, (bot + 1) * w, k, y * w + x);
  }

  lemma SourceUp(w: nat, top: nat, bot: nat, lines: nat, y: nat, x: nat)
    requires x < w && top <= y <= bot && 0 < lines <= bot - top
    ensures Src(top * w, (bot + 1) * w, lines * w, y * w + x) == if y + lines <= bot then (y + lines) * w + x else -1
  {
    hide Src;
    RowGap(0, lines, w);
    MulAdd(y, lines, w);
    MulMono(top, y, w);
    RowGap(y, bot + 1, w);
    if y + lines <= bot { RowGap(y + lines, bot + 1, w); } else { MulMono(bot + 1, y + lines, w); }
    Inside(top * w, (bot + 1) * w, lines * w, y * w, x, w, y + lines <= bot);
  }

  lemma SourceDown(w: nat, top: nat, bot: nat, lines: nat, y: nat, x: nat)
    requires x < w && top <= y <= bot && 0 < lines <= bot - top
    ensures Src(top * w, (bot + 1) * w, -(lines * w), y * w + x) == if y - lines >= top then (y - lines) * w + x else -1
  {
    hide Src;
    RowGap(0, lines, w);
    MulAdd(y, lines, w);
    MulMono(top, y, w);
    RowGap(y, bot + 1, w);
    if y - lines >= top { MulMono(top, y - lines, w); } else { RowGap(y - lines, top, w); }
    InsideDown(top * w, (bot + 1) * w, lines * w, y * w, x, w, y - lines >= top);
  }

  lemma Outside(a: int, b: int, k: int, i: int)
    requires a <= b && !(a <= i < b)
    ensures Src(a, b, k, i) == i
  {
  }

  lemma Inside(a: int, b: int, k: int, at: int, x: nat, w: nat, stays: bool)
    requires a <= at && at + w <= b && x < w && k > 0
    requires if stays then at + k + w <= b else b <= at + k
    ensures Src(a, b, k, at + x) == if stays then at + k + x else -1
  {
  }

  lemma InsideDown(a: int, b: int, k: int, at: int, x: nat, w: nat, stays: bool)
    requires a <= at && at + w <= b && x < w && k > 0
    requires if stays then a <= at - k else at - k + w <= a
    ensures Src(a, b, -k, at + x) == if stays then at - k + x else -1
  {
  }

  lemma SourceInGrid(g: Grid, top: nat, bot: nat, lines: nat, dir: int, y: nat)
    requires top <= bot < g.height && y < g.height
    ensures -1 <= RowSource(top, bot, lines, dir, y) < g.height
  {
  }

  /** The index of column `x` of row `y`. */
  function Spot(y: int, x: int, w: int): int { y * w + x }

  lemma RowCell(g: Grid, y: nat, x: nat)
    requires Live(g) && y < g.height && x < g.width
    ensures 0 <= Spot(y, x, g.width) < |g.cells| && RowOf(g, y)[x] == g.cells[Spot(y, x, g.width)]
  {
    LineFits(g, x, y);
  }

  lemma ScrolledSpot(s: seq<Cell>, r: seq<Cell>, w: nat, top: nat, bot: nat, lines: nat, dir: int, attr: Cell, y: nat,
                     x: nat)
    requires x < w && top <= bot && 0 < lines <= bot - top && (dir == 1 || dir == -1)
    requires |r| == |s| && 0 <= Spot(y, x, w) < |s|
    requires ScrolledCell(s, r, top * w, (bot + 1) * w, ShiftOf(dir, lines, w), attr, Spot(y, x, w))
    ensures var from := RowSource(top, bot, lines, dir, y);
      (from >= 0 ==> 0 <= Spot(from, x, w) < |s|) &&
      SameLook(r[Spot(y, x, w)], if from < 0 then attr else s[Spot(from, x, w)])
  {
    hide Src, ShiftOf;
    SourceRow(w, top, bot, lines, dir, y, x);
  }

  lemma ScrollCell(g: Grid, top: nat, bot: nat, lines: nat, dir: int, merge: bool, attr: Cell, y: nat, x: nat)
    requires Live(g) && top <= bot < g.height && 0 < lines <= bot - top && (dir == 1 || dir == -1)
    requires y < g.height && x < g.width && 0 <= Spot(y, x, g.width) < |g.cells|
    ensures var s := RowSource(top, bot, lines, dir, y);
      (s >= 0 ==> 0 <= Spot(s, x, g.width) < |g.cells|) &&
      SameLook(ScrollArea(g, top, bot, lines, dir, merge, Some(attr)).cells[Spot(y, x, g.width)],
               if s < 0 then attr else g.cells[Spot(s, x, g.width)])
  {
    hide Region, MovedRows, RowSource, Spot, ScrolledCell, ShiftOf;
    var w := g.width;
    var m := MovedRows(g, top, bot, lines, dir, merge, Some(attr));
    UnwrapKeeps(m, w - 1, top - 1, w - 1, bot - 1);
    MovedLooks(g, top, bot, lines, dir, merge, attr, Spot(y, x, w));
    ScrolledSpot(g.cells, m.cells, w, top, bot, lines, dir, attr, y, x);
  }

  /** A scroll moves rows, in either dirty mode; what it exposes is blank. */
  lemma ScrollRow(g: Grid, top: nat, bot: nat, lines: nat, dir: int, merge: bool, attr: Cell, y: nat)
    requires Live(g) && top <= bot < g.height && 0 < lines <= bot - top && (dir == 1 || dir == -1) && y < g.height
    ensures var r := ScrollArea(g, top, bot, lines, dir, merge, Some(attr));
      var s := RowSource(top, bot, lines, dir, y);
      LooksAlike(RowOf(r, y), if s == -1 then BlankRow(g.width, attr) else RowOf(g, s))
  {
    hide ScrollArea, RowSource, RowOf, Spot;
    SourceInGrid(g, top, bot, lines, dir, y);
    var r := ScrollArea(g, top, bot, lines, dir, merge, Some(attr));
    var s := RowSource(top, bot, lines, dir, y);
    forall x | 0 <= x < g.width ensures SameLook(RowOf(r, y)[x], if s == -1 then attr else RowOf(g, s)[x]) {
      RowCell(g, y, x);
      RowCell(r, y, x);
      if s != -1 { RowCell(g, s, x); }
      ScrollCell(g, top, bot, lines, dir, merge, attr, y, x);
    }
  }

  /** Acceleration does not change contents: overwriting and merging dirty bits look the same. */
  lemma AccelerationInvisible(g: Grid, top: nat, bot: nat, lines: nat, dir: int, attr: Cell)
    requires Live(g) && top <= bot < g.height && 0 < lines <= bot - top && (dir == 1 || dir == -1)
    ensures LooksAlike(ScrollArea(g, top, bot, lines, dir, true, Some(attr)).cells,
                       ScrollArea(g, top, bot, lines, dir, false, Some(attr)).cells)
  {
    hide Row, Col, Region, MovedRows, Src, ShiftOf, InRect;
    var w := g.width;
    var a := MovedRows(g, top, bot, lines, dir, true, Some(attr));
    var b := MovedRows(g, top, bot, lines, dir, false, Some(attr));
    UnwrapKeeps(a, w - 1, top - 1, w - 1, bot - 1);
    UnwrapKeeps(b, w - 1, top - 1, w - 1, bot - 1);
    forall i | 0 <= i < |g.cells| ensures SameLook(a.cells[i], b.cells[i]) {
      MovedLooks(g, top, bot, lines, dir, true, attr, i);
      MovedLooks(g, top, bot, lines, dir, false, attr, i);
    }
  }

  // ---- the terminal's scrolls ---------------------------------------------------------

  ghost predicate SameGrid(g: Grid, h: Grid) { SameSize(g, h) && LooksAlike(g.cells, h.cells) }

  lemma SameRow(g: Grid, h: Grid, y: nat)
    requires Live(g) && Live(h) && SameGrid(g, h) && y < g.height
    ensures LooksAlike(RowOf(g, y), RowOf(h, y))
  {
    LineFits(g, 0, y);
  }

  /** Marking cells dirty changes no look. */
  lemma MarkLooks(g: Grid, x0: int, y0: int, x1: int, y1: int)
    requires Live(g)
    ensures SameGrid(g, Region(g, x0, y0, x1, y1, Dirty))
  {
    hide Row, Col, InRect;
  }

  lemma ClearedLook(g: Grid, top: nat, bot: nat, attr: Cell, i: nat)
    requires Live(g) && i < |g.cells|
    ensures SameLook(Region(g, 0, top, g.width - 1, bot, FillWith(Some(attr))).cells[i],
                     if top * g.width <= i < (bot + 1) * g.width then attr else g.cells[i])
  {
    hide Row, Col, Region, InRect, Apply, FillWith;
    WholeRows(g, top, bot, g.width - 1, FillWith(Some(attr)));
    FillLook(attr, g.cells[i]);
  }

  lemma ClearedRow(g: Grid, top: nat, bot: nat, attr: Cell, y: nat)
    requires Live(g) && top <= bot < g.height && y < g.height
    ensures LooksAlike(RowOf(Region(g, 0, top, g.width - 1, bot, FillWith(Some(attr))), y),
                       if top <= y <= bot then BlankRow(g.width, attr) else RowOf(g, y))
  {
    hide Region, FillWith;
    var w := g.width;
    var r := Region(g, 0, top, w - 1, bot, FillWith(Some(attr)));
    var want := if top <= y <= bot then BlankRow(w, attr) else RowOf(g, y);
    forall x | 0 <= x < w ensures SameLook(RowOf(r, y)[x], want[x]) {
      LineFits(g, x, y);
      ClearedLook(g, top, bot, attr, y * w + x);
      SpanRow(w, top, bot, y, x);
    }
  }

  lemma SpanRow(w: nat, top: nat, bot: nat, y: nat, x: nat)
    requires x < w
    ensures top * w <= y * w + x < (bot + 1) * w <==> top <= y <= bot
  {
    if y < top { RowGap(y, top, w); } else { MulMono(top, y, w); }
    if y > bot { MulMono(bot + 1, y, w); } else { RowGap(y, bot + 1, w); }
  }

  /** What a scroll by `lines` leaves in row `y`. */
  function RowAfter(t: Term, lines: int, y: nat): (r: seq<Cell>)
    requires Safe(t) && lines != 0 && y < G(t).height
    ensures |r| == G(t).width
  {
    var s := RowSource(S(t).scTop, S(t).scBot, Abs(lines), Sign(lines), y);
    if s == -1 then BlankRow(G(t).width, S(t).attr) else RowOf(G(t), s)
  }

  lemma InvalidateLooks(t: Term)
    requires Safe(t)
    ensures SameGrid(G(t), G(InvalidateCursor(t)))
  {
    hide EscOk, Region;
    MarkLooks(G(t), Pos(t).x, Pos(t).y, Pos(t).x, Pos(t).y);
  }

  lemma GivenUpLooks(t: Term)
    requires Safe(t)
    ensures SameGrid(G(t), G(GiveUpPending(t))) && GiveUpPending(t).history == t.history
  {
    hide EscOk, Region;
    if Pending(t) { MarkLooks(G(t), 0, t.scrollY0, G(t).width - 1, t.scrollY1); }
  }

  lemma AccumulateLooks(t: Term, dir: int, n: nat, accel: bool)
    requires Safe(t) && (dir == 1 || dir == -1) && 0 < n <= S(t).scBot - S(t).scTop
    ensures SameGrid(G(t), G(Accumulate(t, dir, n, accel).0)) && Accumulate(t, dir, n, accel).0.history == t.history
  {
    hide EscOk, GiveUpPending;
    GivenUpLooks(t);
  }

  lemma ClearScrollRow(t: Term, lines: int, accel: bool, y: nat)
    requires Safe(t) && lines != 0 && y < G(t).height && Abs(lines) >= S(t).scBot - S(t).scTop + 1
    ensures LooksAlike(RowOf(G(ScrollInternal(t, lines, accel)), y), RowAfter(t, lines, y))
  {
    hide EscOk, Region, LooksAlike, FillWith;
    var top, bot := S(t).scTop, S(t).scBot;
    var t1 := if Pending(t) then MarkRows(t, t.scrollY0, t.scrollY1) else t;
    if Pending(t) { MarkLooks(G(t), 0, t.scrollY0, G(t).width - 1, t.scrollY1); } else { SameAsItself(G(t)); }
    SameRow(G(t), G(t1), y);
    ClearedRow(G(t1), top, bot, S(t).attr, y);
    SymTrans(RowOf(G(ScrollInternal(t, lines, accel)), y), RowOf(G(t1), y), RowOf(G(t), y));
  }

  lemma SameAsItself(g: Grid)
    ensures SameGrid(g, g)
  {
  }

  lemma SymTrans(a: seq<Cell>, b: seq<Cell>, c: seq<Cell>)
    ensures LooksAlike(a, b) && LooksAlike(c, b) ==> LooksAlike(a, c)
    ensures LooksAlike(a, b) && LooksAlike(b, c) ==> LooksAlike(a, c)
  {
  }

  /** Whether or not the window copy is used, a scroll moves the region's rows and nothing else. */
  lemma ScrollInternalRow(t: Term, lines: int, accel: bool, y: nat)
    requires Safe(t) && lines != 0 && y < G(t).height
    ensures LooksAlike(RowOf(G(ScrollInternal(t, lines, accel)), y), RowAfter(t, lines, y))
  {
    hide EscOk, LooksAlike, InvalidateCursor, Accumulate, Region, ScrollArea;
    if Abs(lines) >= S(t).scBot - S(t).scTop + 1 {
      ClearScrollRow(t, lines, accel, y);
    } else {
      var t1 := InvalidateCursor(t);
      var t2 := Accumulate(t1, Sign(lines), Abs(lines), accel).0;
      InvalidateLooks(t);
      AccumulateLooks(t1, Sign(lines), Abs(lines), accel);
      SymTrans(G(t).cells, G(t1).cells, G(t2).cells);
      MovedScrollRow(t, t2, lines, Accumulate(t1, Sign(lines), Abs(lines), accel).1, y);
    }
  }

  lemma MovedScrollRow(t: Term, t2: Term, lines: int, copy: bool, y: nat)
    requires Safe(t) && lines != 0 && y < G(t).height && Abs(lines) <= S(t).scBot - S(t).scTop
    requires Safe(t2) && SameGrid(G(t), G(t2)) && S(t2) == S(t) && t2.onAlt == t.onAlt
    ensures var s := S(t);
      var t3 := WithG(t2, ScrollArea(G(t2), s.scTop, s.scBot, Abs(lines), Sign(lines), !copy, Some(s.attr)));
      Safe(t3) && LooksAlike(RowOf(G(InvalidateCursor(t3)), y), RowAfter(t, lines, y))
  {
    hide EscOk, LooksAlike, InvalidateCursor, ScrollArea;
    var top, bot, attr := S(t).scTop, S(t).scBot, S(t).attr;
    var t3 := WithG(t2, ScrollArea(G(t2), top, bot, Abs(lines), Sign(lines), !copy, Some(attr)));
    InvalidateLooks(t3);
    SameRow(G(t3), G(InvalidateCursor(t3)), y);
    ScrollRow(G(t2), top, bot, Abs(lines), Sign(lines), !copy, attr, y);
    var s := RowSource(top, bot, Abs(lines), Sign(lines), y);
    if s != -1 { SameRow(G(t), G(t2), s); }
    AlikeChain(RowOf(G(InvalidateCursor(t3)), y), RowOf(G(t3), y),
               if s == -1 then BlankRow(G(t).width, attr) else RowOf(G(t2), s), RowAfter(t, lines, y));
  }

  lemma AlikeChain(a: seq<Cell>, b: seq<Cell>, c: seq<Cell>, d: seq<Cell>)
    ensures LooksAlike(b, a) && LooksAlike(b, c) && (d == c || LooksAlike(d, c)) ==> LooksAlike(a, d)
  {
  }

  // ---- the history ------------------------------------------------------------------

  /** The history followed by the first `n` rows of the main screen. */
  function Lines(t: Term, n: nat): (r: seq<seq<Cell>>)
    requires Safe(t) && n <= t.main.height
    ensures |r| == |t.history| + n
  {
    t.history + seq(n, y requires 0 <= y < n => RowOf(t.main, y))
  }

  ghost predicate SameLines(a: seq<seq<Cell>>, b: seq<seq<Cell>>) {
    |a| == |b| && forall j :: 0 <= j < |a| ==> LooksAlike(a[j], b[j])
  }

  predicate Archives(t: Term) { t.historyEnabled && !t.onAlt && t.mainScr.scTop == 0 }

  /** The list "history, then the rows of the region" has gained one blank row at its end; the rows
      below the region are as they were. */
  ghost predicate GainsRow(t: Term, r: Term)
    requires Safe(t) && Safe(r)
  {
    var n := t.mainScr.scBot + 1;
    SameSize(r.main, t.main) && n <= t.main.height &&
    SameLines(Lines(r, n), Lines(t, n) + [BlankRow(t.main.width, t.mainScr.attr)]) &&
    (forall y :: n <= y < t.main.height ==> LooksAlike(RowOf(r.main, y), RowOf(t.main, y)))
  }

  /** Conservation: a one-line scroll into the history loses no row and changes none. */
  lemma ScrollConserves(t: Term, accel: bool)
    requires Safe(t) && Archives(t) && |t.history| <= HISTORY_CAP
    ensures GainsRow(t, ScrollUp(t, 1, accel))
  {
    hide EscOk, LooksAlike, RowOf, ScrollInternal, BlankRow;
    var n := t.mainScr.scBot + 1;
    var t1 := AppendHistory(t);
    var r := ScrollUp(t, 1, accel);
    ScrollKept(t1, -1, accel);
    var want := Lines(t, n) + [BlankRow(t.main.width, t.mainScr.attr)];
    forall y | 0 <= y < t.main.height ensures LooksAlike(RowOf(r.main, y), RowAfter(t1, -1, y)) {
      ScrollInternalRow(t1, -1, accel, y);
    }
    forall j | 0 <= j < |Lines(r, n)| ensures LooksAlike(Lines(r, n)[j], want[j]) {
      if j <= |t.history| {
        assert Lines(r, n)[j] == want[j];
        AlikeSelf(want[j]);
      } else {
        var y := j - |t.history| - 1;
        assert Lines(r, n)[j] == RowOf(r.main, y);
      }
    }
  }

  lemma AlikeSelf(a: seq<Cell>)
    ensures LooksAlike(a, a)
  {
  }

  /** Only the active screen's cells and the pending scroll change. */
  predicate OnlyCells(t: Term, r: Term) {
    SameSize(G(t), G(r)) &&
    r == WithG(t, G(r)).(scrollCount := r.scrollCount, scrollY0 := r.scrollY0, scrollY1 := r.scrollY1)
  }

  lemma AccumulateKept(t: Term, dir: int, n: nat, accel: bool)
    requires Safe(t) && (dir == 1 || dir == -1) && 0 < n <= S(t).scBot - S(t).scTop
    ensures OnlyCells(t, Accumulate(t, dir, n, accel).0)
  {
    hide EscOk, Region;
  }

  lemma ScrollKept(t: Term, lines: int, accel: bool)
    requires Safe(t)
    ensures OnlyCells(t, ScrollInternal(t, lines, accel))
  {
    hide EscOk, Region, ScrollArea, InvalidateCursor, Accumulate;
    if lines != 0 && Abs(lines) < S(t).scBot - S(t).scTop + 1 {
      AccumulateKept(InvalidateCursor(t), Sign(lines), Abs(lines), accel);
    }
  }
}
