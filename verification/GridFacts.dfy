/** Facts about grid operations that the window's correctness and the text-editing laws rest on. */
module GridFacts {
  import opened Cells

  /** `b` may be shown by a window that shows `a`, once `b`'s dirty cells are redrawn. */
  ghost predicate Honest(a: seq<Cell>, b: seq<Cell>) {
    |a| == |b| && forall i :: 0 <= i < |a| ==> b[i].dirty || (!a[i].dirty && SameLook(a[i], b[i]))
  }

  /** Only dirty bits differ. */
  ghost predicate SameButDirty(a: seq<Cell>, b: seq<Cell>) {
    |a| == |b| && forall i :: 0 <= i < |a| ==> b[i] == a[i].(dirty := b[i].dirty)
  }

  /** Every region walk but cleaning leaves what it changes dirty. */
  lemma RegionHonest(g: Grid, x0: int, y0: int, x1: int, y1: int, op: RegionOp)
    requires Live(g) && op != Clean
    ensures Honest(g.cells, Region(g, x0, y0, x1, y1, op).cells)
  {
    hide Row, Col, InRect;
  }

  lemma SetWrapHonest(g: Grid, y: int, mark: bool)
    requires Live(g)
    ensures Honest(g.cells, SetWrap(g, y, mark).cells)
  {
  }

  lemma MergeStripHonest(s: seq<Cell>, src: int, dst: int, n: int)
    requires 0 <= src && src + n <= |s| && 0 <= dst && dst + n <= |s|
    ensures Honest(s, Strip(s, src, dst, n, true))
  {
  }

  lemma BlankHonest(g: Grid, x0: int, y0: int, x1: int, y1: int, attr: Option<Cell>)
    requires Live(g)
    ensures Honest(g.cells, Blank(g, x0, y0, x1, y1, attr).cells)
  {
    hide Row, Col, InRect, Region, Apply;
    if attr.Some? { RegionHonest(g, x0, y0, x1, y1, FillWith(attr)); }
  }

  lemma ShiftCharsHonest(g: Grid, x: int, y: int, count: int, insert: bool, attr: Option<Cell>)
    requires Live(g)
    ensures Honest(g.cells, ShiftChars(g, x, y, count, insert, attr).cells)
  {
    hide Row, Col, InRect, Region, Strip, Blank, SetWrap;
    if !(count <= 0 || y < 0 || y >= g.height || x >= g.width) {
      var col := if x < 0 then 0 else x;
      LineFits(g, col, y);
      var at, rest := y * g.width + col, g.width - col - count;
      if rest <= 0 {
        var b := Blank(g, col, y, g.width - 1, y, attr);
        BlankHonest(g, col, y, g.width - 1, y, attr);
        SetWrapHonest(b, y, false);
      } else {
        var src, dst := if insert then at else at + count, if insert then at + count else at;
        MergeStripHonest(g.cells, src, dst, rest);
        var m := g.(cells := Strip(g.cells, src, dst, rest, true));
        var x0, x1 := if insert then col else g.width - count, if insert then col + count - 1 else g.width - 1;
        BlankHonest(m, x0, y, x1, y, attr);
        SetWrapHonest(Blank(m, x0, y, x1, y, attr), y, false);
      }
    }
  }

  lemma MergeScrollHonest(g: Grid, y0: int, y1: int, lines: int, dir: int, attr: Option<Cell>)
    requires Live(g)
    ensures Honest(g.cells, ScrollArea(g, y0, y1, lines, dir, true, attr).cells)
  {
    hide Row, Col, InRect, Region, MovedRows;
    if !(dir == 0 || lines <= 0 || y0 > y1 || y1 < 0 || y0 >= g.height) {
      var top := if y0 < 0 then 0 else y0;
      var bot := if y1 >= g.height then g.height - 1 else y1;
      MovedHonest(g, top, bot, lines, dir, attr);
      RegionHonest(MovedRows(g, top, bot, lines, dir, true, attr), g.width - 1, top - 1, g.width - 1, bot - 1, Unwrap);
    }
  }

  lemma MovedHonest(g: Grid, top: nat, bot: nat, lines: nat, dir: int, attr: Option<Cell>)
    requires Live(g) && top <= bot < g.height && lines > 0
    ensures Honest(g.cells, MovedRows(g, top, bot, lines, dir, true, attr).cells)
  {
    hide Row, Col, InRect, Region, Strip, Blank;
    if lines < bot - top + 1 {
      RegionFits(g, top, bot, lines);
      var n := (bot - top + 1 - lines) * g.width;
      var src, dst := if dir < 0 then (top + lines) * g.width else top * g.width,
                      if dir < 0 then top * g.width else (top + lines) * g.width;
      MergeStripHonest(g.cells, src, dst, n);
      var m := g.(cells := Strip(g.cells, src, dst, n, true));
      if dir < 0 { BlankHonest(m, 0, bot - lines + 1, g.width - 1, bot, attr); }
      else { BlankHonest(m, 0, top, g.width - 1, top + lines - 1, attr); }
    } else {
      BlankHonest(g, 0, top, g.width - 1, bot, attr);
    }
  }

  /** The single cell at column `x` of row `y`. */
  function At(g: Grid, x: int, y: int): (i: int)
    requires Live(g) && 0 <= x < g.width && 0 <= y < g.height
    ensures 0 <= i < |g.cells|
  {
    LineFits(g, x, y);
    y * g.width + x
  }

  lemma MarkedCell(g: Grid, x: int, y: int)
    requires Live(g) && 0 <= x < g.width && 0 <= y < g.height
    ensures Region(g, x, y, x, y, Dirty).cells[At(g, x, y)].dirty
  {
    RowColOf(x, y, g.width);
  }

  /** Walking whole rows reaches every one of their cells. */
  lemma WholeRows(g: Grid, y0: int, y1: int, x1: int, op: RegionOp)
    requires Live(g) && x1 >= g.width - 1
    ensures forall i :: 0 <= i < |g.cells| ==>
      Region(g, 0, y0, x1, y1, op).cells[i] ==
        if y0 * g.width <= i < (y1 + 1) * g.width then Apply(op, g.cells[i]) else g.cells[i]
  {
    hide Row, Col, Apply;
    forall i | 0 <= i < |g.cells|
      ensures Region(g, 0, y0, x1, y1, op).cells[i] ==
        if y0 * g.width <= i < (y1 + 1) * g.width then Apply(op, g.cells[i]) else g.cells[i]
    {
      RowSpan(i, g.width, y0, y1);
    }
  }

  lemma WholeGrid(g: Grid, op: RegionOp)
    requires Live(g)
    ensures forall i :: 0 <= i < |g.cells| ==>
      Region(g, 0, 0, g.width - 1, g.height - 1, op).cells[i] == Apply(op, g.cells[i])
  {
    hide Row, Col, Apply;
    WholeRows(g, 0, g.height - 1, g.width - 1, op);
    assert (g.height - 1 + 1) * g.width == |g.cells|;
  }

  /** Where the contents of index `i` come from when `[a, b)` moves towards lower indices by `k`
      (towards higher ones when `k` is negative); -1 for the part the move exposes. */
  function Src(a: int, b: int, k: int, i: int): int {
    if k >= 0 then
      if a <= i < b - k then i + k else if b - k <= i < b && a <= i then -1 else i
    else
      if a - k <= i < b then i + k else if a <= i < a - k && i < b then -1 else i
  }

  /** Scrolling by `lines` rows in direction `dir` as a move over the flat cells. */
  function ShiftOf(dir: int, lines: nat, w: nat): int {
    if dir < 0 then lines * w else -(lines * w)
  }

  /** Two moves of one region in one direction are one longer move. */
  lemma SrcCompose(a: int, b: int, k1: int, k2: int, i: int)
    requires 0 <= a <= b && ((k1 >= 0 && k2 >= 0) || (k1 <= 0 && k2 <= 0)) && i >= 0
    requires Src(a, b, k2, i) >= 0 && Src(a, b, k1, Src(a, b, k2, i)) >= 0
    ensures Src(a, b, k1 + k2, i) == Src(a, b, k1, Src(a, b, k2, i))
  {
  }

  /** Cell `i` of `r` shows what cell `Src(..)` of `g` showed, dirty bit included; exposed cells are dirty. */
  ghost predicate MovedCell(g: seq<Cell>, r: seq<Cell>, a: int, b: int, k: int, i: int)
    requires |g| == |r| && 0 <= i < |g|
  {
    var s := Src(a, b, k, i);
    -1 <= s < |g| &&
    if s == -1 then r[i].dirty else SameLook(r[i], g[s]) && r[i].dirty == g[s].dirty
  }

  /** An overwriting scroll moves looks and dirty bits together and dirties what it exposes. */
  lemma ScrollMoves(g: Grid, top: nat, bot: nat, lines: nat, dir: int, attr: Cell, i: nat)
    requires Live(g) && top <= bot < g.height && 0 < lines <= bot - top && (dir == 1 || dir == -1) && i < |g.cells|
    ensures MovedCell(g.cells, ScrollArea(g, top, bot, lines, dir, false, Some(attr)).cells,
                      top * g.width, (bot + 1) * g.width, ShiftOf(dir, lines, g.width), i)
  {
    hide Row, Col, InRect, Region, MovedRows, ShiftOf;
    var m := MovedRows(g, top, bot, lines, dir, false, Some(attr));
    MovedMoves(g, top, bot, lines, dir, attr, i);
    UnwrapKeeps(m, g.width - 1, top - 1, g.width - 1, bot - 1);
    var r := ScrollArea(g, top, bot, lines, dir, false, Some(attr));
    assert r == Region(m, g.width - 1, top - 1, g.width - 1, bot - 1, Unwrap);
    assert SameLook(r.cells[i], m.cells[i]);
  }

  lemma UnwrapKeeps(g: Grid, x0: int, y0: int, x1: int, y1: int)
    requires Live(g)
    ensures forall i :: 0 <= i < |g.cells| ==>
      var c := Region(g, x0, y0, x1, y1, Unwrap).cells[i];
      SameLook(c, g.cells[i]) && c.dirty == g.cells[i].dirty
  {
    hide Row, Col, InRect;
  }

  lemma MovedMoves(g: Grid, top: nat, bot: nat, lines: nat, dir: int, attr: Cell, i: nat)
    requires Live(g) && top <= bot < g.height && 0 < lines <= bot - top && (dir == 1 || dir == -1) && i < |g.cells|
    ensures MovedCell(g.cells, MovedRows(g, top, bot, lines, dir, false, Some(attr)).cells,
                      top * g.width, (bot + 1) * g.width, ShiftOf(dir, lines, g.width), i)
  {
    hide Row, Col, InRect, Region, Strip, Apply, MovedCell, Src;
    RegionFits(g, top, bot, lines);
    var w := g.width;
    var n := (bot - top + 1 - lines) * w;
    var a, b, k := top * w, (bot + 1) * w, lines * w;
    assert (top + lines) * w == a + k && n == b - a - k && k > 0 by { MulMono(1, lines, w); }
    var op := FillWith(Some(attr));
    var r := MovedRows(g, top, bot, lines, dir, false, Some(attr));
    if dir < 0 {
      var m := g.(cells := Strip(g.cells, a + k, a, n, false));
      assert r == Region(m, 0, bot - lines + 1, w - 1, bot, op);
      assert (bot - lines + 1) * w == b - k;
      WholeRows(m, bot - lines + 1, bot, w - 1, op);
      StripFilled(g.cells, r.cells, a, b, k, i, op);
    } else {
      var m := g.(cells := Strip(g.cells, a, a + k, n, false));
      assert r == Region(m, 0, top, w - 1, top + lines - 1, op);
      assert (top + lines - 1 + 1) * w == a + k;
      WholeRows(m, top, top + lines - 1, w - 1, op);
      StripFilled(g.cells, r.cells, a, b, -k, i, op);
    }
  }

  /** A strip copy followed by a fill of what it exposed, on plain indices. */
  lemma StripFilled(s: seq<Cell>, r: seq<Cell>, a: nat, b: nat, k: int, i: nat, op: RegionOp)
    requires |r| == |s| && i < |s| && b <= |s| && op.Fill? && k != 0
    requires if k > 0 then a + k < b else a - k < b
    requires var m := if k > 0 then Strip(s, a + k, a, b - a - k, false) else Strip(s, a, a - k, b - a + k, false);
      var lo, hi := if k > 0 then b - k else a, if k > 0 then b else a - k;
      r[i] == if lo <= i < hi then Apply(op, m[i]) else m[i]
    ensures MovedCell(s, r, a, b, k, i)
  {
    hide Strip, Apply;
    if k > 0 {
      StripAt(s, a + k, a, b - a - k, i);
      FillDirty(op, Strip(s, a + k, a, b - a - k, false)[i]);
    } else {
      StripAt(s, a, a - k, b - a + k, i);
      FillDirty(op, Strip(s, a, a - k, b - a + k, false)[i]);
    }
  }

  lemma StripAt(s: seq<Cell>, src: int, dst: int, n: int, i: nat)
    requires 0 <= src && src + n <= |s| && 0 <= dst && dst + n <= |s| && i < |s|
    ensures Strip(s, src, dst, n, false)[i] == if dst <= i < dst + n then s[i - dst + src] else s[i]
  {
  }

  lemma FillDirty(op: RegionOp, c: Cell)
    requires op.Fill?
    ensures Apply(op, c).dirty
  {
  }

  /** Same-size screens are merged cell by cell. */
  lemma MergeAligned(d: Grid, s: Grid)
    requires Live(d) && Live(s) && SameSize(d, s)
    ensures forall i :: 0 <= i < |d.cells| ==> MergeAllDirty(d, s).cells[i] == MergedDirty(d.cells[i], s.cells[i])
  {
    hide Row, Col, MergedDirty;
    forall i | 0 <= i < |d.cells| ensures MergeAllDirty(d, s).cells[i] == MergedDirty(d.cells[i], s.cells[i]) {
      RowInGrid(i, d.width, d.height);
      IndexOf(i, d.width);
    }
  }
}
