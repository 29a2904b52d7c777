/** Character cells and flat, row-major cell grids: the values a `CellBuffer` stores,
    and what each cell-buffer operation does to them. */
module Cells {

  datatype Option<+T> = None | Some(value: T)

  /** The attribute bits of a cell's flag word. */
  datatype Style = Style(inverse: bool, underline: bool, bold: bool, blink: bool, selection: bool)

  const PLAIN := Style(false, false, false, false, false)

  // CELL_ATTR_MASK | CELL_DEFAULT_ATTR
  const DEFAULT_COLOR: nat := 0xff00_ffff

  /** One cell; `wrap` and `dirty` are the two bookkeeping bits of the flag word. */
  datatype Cell = Cell(ch: nat, style: Style, fg: nat, bg: nat, wrap: bool, dirty: bool)

  const DEFAULT_CELL := Cell(0x20, PLAIN, DEFAULT_COLOR, DEFAULT_COLOR, false, true)

  /** What a reader of the screen can tell apart: everything but the bookkeeping bits. */
  predicate SameLook(a: Cell, b: Cell) {
    a.ch == b.ch && a.style == b.style && a.fg == b.fg && a.bg == b.bg
  }

  // ---- row-major indexing -----------------------------------------------------------

  function Row(i: nat, w: nat): (y: nat)
    requires w > 0
  {
    if i < w then 0 else 1 + Row(i - w, w)
  }

  function Col(i: nat, w: nat): (x: nat)
    requires w > 0
    ensures x < w
  {
    if i < w then i else Col(i - w, w)
  }

  predicate InRect(i: nat, w: nat, x0: int, y0: int, x1: int, y1: int)
    requires w > 0
  {
    x0 <= Col(i, w) <= x1 && y0 <= Row(i, w) <= y1
  }

  /** A row and a column name exactly one index. */
  lemma {:induction false} RowColOf(x: nat, y: nat, w: nat)
    requires x < w
    ensures 0 <= y * w + x && Row(y * w + x, w) == y && Col(y * w + x, w) == x
    decreases y
  {
    if y > 0 {
      RowColOf(x, y - 1, w);
      assert y * w + x - w == (y - 1) * w + x;
    }
  }

  lemma {:induction false} IndexOf(i: nat, w: nat)
    requires w > 0
    ensures i == Row(i, w) * w + Col(i, w)
    decreases i
  {
    if i >= w {
      IndexOf(i - w, w);
      assert Row(i, w) * w == Row(i - w, w) * w + w;
    }
  }

  lemma MulMono(a: int, b: int, w: nat)
    requires a <= b
    ensures a * w <= b * w
  {
  }

  lemma MulAdd(a: int, b: int, w: int)
    ensures (a + b) * w == a * w + b * w && (a - b) * w == a * w - b * w
  {
  }

  /** Whole rows `y0..y1` are one contiguous run of cells. */
  lemma RowSpan(i: nat, w: nat, y0: int, y1: int)
    requires w > 0
    ensures y0 <= Row(i, w) <= y1 <==> y0 * w <= i < (y1 + 1) * w
  {
    IndexOf(i, w);
    var y := Row(i, w);
    if y0 <= y { MulMono(y0, y, w); } else { MulMono(y + 1, y0, w); assert (y + 1) * w == y * w + w; }
    if y <= y1 { MulMono(y + 1, y1 + 1, w); assert (y + 1) * w == y * w + w; } else { MulMono(y1 + 1, y, w); }
  }

  lemma ColInRow(j: nat, w: nat, y: int)
    requires w > 0 && y * w <= j < (y + 1) * w
    ensures Row(j, w) == y && Col(j, w) == j - y * w
  {
    RowSpan(j, w, y, y);
    IndexOf(j, w);
  }

  /** Row `y` is the `w` indices from `y * w` on. */
  lemma InLine(i: nat, w: nat, y: nat)
    requires w > 0
    ensures Row(i, w) == y <==> y * w <= i < y * w + w
    ensures Row(i, w) == y ==> Col(i, w) == i - y * w
  {
    hide Row, Col;
    RowSpan(i, w, y, y);
    IndexOf(i, w);
  }

  lemma RowInGrid(i: nat, w: nat, h: nat)
    requires w > 0
    ensures Row(i, w) < h <==> i < w * h
  {
    RowSpan(i, w, 0, h - 1);
    assert (h - 1 + 1) * w == w * h;
  }

  // ---- grids ------------------------------------------------------------------------

  /** A cell buffer's contents; a freed buffer has no rows and no columns. */
  datatype Grid = Grid(width: nat, height: nat, cells: seq<Cell>)

  const NO_GRID := Grid(0, 0, [])

  predicate Live(g: Grid) {
    g.width > 0 && g.height > 0 && |g.cells| == g.width * g.height
  }

  predicate LiveOrFreed(g: Grid) { Live(g) || g == NO_GRID }

  predicate SameSize(a: Grid, b: Grid) {
    a.width == b.width && a.height == b.height && |a.cells| == |b.cells|
  }

  function Tally(c: Cell): nat { if c.dirty then 1 else 0 }

  /** How many cells are dirty. */
  function DirtyCount(s: seq<Cell>): nat {
    if s == [] then 0 else DirtyCount(s[..|s| - 1]) + Tally(s[|s| - 1])
  }

  lemma {:induction false} DirtyCountUpdate(s: seq<Cell>, i: nat, c: Cell)
    requires i < |s|
    ensures DirtyCount(s[i := c]) == DirtyCount(s) - Tally(s[i]) + Tally(c)
    decreases |s|
  {
    var n := |s| - 1;
    if i == n {
      assert s[i := c][..n] == s[..n];
    } else {
      DirtyCountUpdate(s[..n], i, c);
      assert s[i := c][..n] == s[..n][i := c];
    }
  }

  lemma {:induction false} DirtyCountSome(s: seq<Cell>, i: nat)
    requires i < |s| && s[i].dirty
    ensures DirtyCount(s) > 0
    decreases |s|
  {
    if i < |s| - 1 { DirtyCountSome(s[..|s| - 1], i); }
  }

  lemma {:induction false} DirtyCountNone(s: seq<Cell>)
    requires forall i :: 0 <= i < |s| ==> !s[i].dirty
    ensures DirtyCount(s) == 0
    decreases |s|
  {
    if s != [] { DirtyCountNone(s[..|s| - 1]); }
  }

  lemma {:induction false} DirtyCountAll(s: seq<Cell>)
    requires forall i :: 0 <= i < |s| ==> s[i].dirty
    ensures DirtyCount(s) == |s|
    decreases |s|
  {
    if s != [] { DirtyCountAll(s[..|s| - 1]); }
  }

  // ---- region operations ------------------------------------------------------------

  /** The per-cell step of a region walk. */
  datatype RegionOp = Dirty | Clean | Unwrap | Fill(ch: nat, style: Style, fg: nat, bg: nat)

  /** Filling with an attribute cell, or with the built-in defaults when there is none. */
  function FillWith(attr: Option<Cell>): (op: RegionOp)
    ensures op.Fill?
  {
    match attr
    case Some(a) => Fill(a.ch, a.style, a.fg, a.bg)
    case None => Fill(0x02, PLAIN, DEFAULT_COLOR, DEFAULT_COLOR)
  }

  function Apply(op: RegionOp, c: Cell): Cell {
    match op
    case Dirty => c.(dirty := true)
    case Clean => c.(dirty := false)
    case Unwrap => c.(wrap := false)
    case Fill(ch, style, fg, bg) =>
      // a cell that already is what would be written, up to the wrap mark, is left alone
      var n := Cell(ch, style, fg, bg, false, true);
      if c.(wrap := false) == n then c else n
  }

  function Region(g: Grid, x0: int, y0: int, x1: int, y1: int, op: RegionOp): (r: Grid)
    requires Live(g)
    ensures Live(r) && SameSize(r, g)
    ensures forall i :: 0 <= i < |g.cells| ==>
      r.cells[i] == if InRect(i, g.width, x0, y0, x1, y1) then Apply(op, g.cells[i]) else g.cells[i]
  {
    g.(cells := seq(|g.cells|, i requires 0 <= i < |g.cells| =>
      if InRect(i, g.width, x0, y0, x1, y1) then Apply(op, g.cells[i]) else g.cells[i]))
  }

  /** Characters outside the 16-bit range cannot be stored. */
  function StoredChar(ch: nat): nat { if ch > 0xffff then 0xfffd else ch }

  function WriteRun(g: Grid, x: int, y: int, ch: nat, count: int, attr: Option<Cell>): (r: Grid)
    requires Live(g)
    ensures Live(r) && SameSize(r, g)
  {
    var pen := FillWith(attr);
    Region(g, x, y, x + count - 1, y, pen.(ch := StoredChar(ch)))
  }

  function SetWrap(g: Grid, y: int, mark: bool): (r: Grid)
    requires Live(g)
    ensures Live(r) && SameSize(r, g)
  {
    if 0 <= y < g.height then
      MulMono(1, y + 1, g.width);
      MulMono(y + 1, g.height, g.width);
      var i := (y + 1) * g.width - 1;
      g.(cells := g.cells[i := g.cells[i].(wrap := mark)])
    else g
  }

  /** Merging only touches cells whose look changes. */
  function MergeCell(d: Cell, s: Cell): Cell {
    if SameLook(d, s) then d else s.(dirty := true)
  }

  /** Every destination cell gets its source's original contents. */
  function Strip(s: seq<Cell>, src: int, dst: int, count: int, merge: bool): (r: seq<Cell>)
    requires 0 <= src && src + count <= |s| && 0 <= dst && dst + count <= |s|
    ensures |r| == |s|
    ensures forall i :: 0 <= i < |s| ==>
      r[i] == if dst <= i < dst + count then
                if merge then MergeCell(s[i], s[i - dst + src]) else s[i - dst + src]
              else s[i]
  {
    seq(|s|, i requires 0 <= i < |s| =>
      if dst <= i < dst + count then
        if merge then MergeCell(s[i], s[i - dst + src]) else s[i - dst + src]
      else s[i])
  }

  /** Blanking is skipped when no attribute cell is given. */
  function Blank(g: Grid, x0: int, y0: int, x1: int, y1: int, attr: Option<Cell>): (r: Grid)
    requires Live(g)
    ensures Live(r) && SameSize(r, g)
  {
    if attr.Some? then Region(g, x0, y0, x1, y1, FillWith(attr)) else g
  }

  lemma RegionFits(g: Grid, y0: int, y1: int, lines: int)
    requires Live(g) && 0 <= y0 <= y1 < g.height && 0 < lines <= y1 - y0
    ensures 0 <= y0 * g.width <= (y0 + lines) * g.width
    ensures 0 < (y1 - y0 + 1 - lines) * g.width
    ensures (y0 + lines) * g.width + (y1 - y0 + 1 - lines) * g.width == (y1 + 1) * g.width <= |g.cells|
  {
    var w := g.width;
    MulMono(0, y0, w);
    MulMono(y0, y0 + lines, w);
    MulMono(1, y1 - y0 + 1 - lines, w);
    MulMono(y1 + 1, g.height, w);
    assert (y0 + lines) * w + (y1 - y0 + 1 - lines) * w == (y1 + 1) * w;
  }

  /** Rows `top..bot` moved by `lines` (up when `dir` is negative), the exposed rows blanked. */
  function MovedRows(g: Grid, top: nat, bot: nat, lines: nat, dir: int, merge: bool, attr: Option<Cell>): (r: Grid)
    requires Live(g) && top <= bot < g.height && lines > 0
    ensures Live(r) && SameSize(r, g)
  {
    if lines < bot - top + 1 then
      RegionFits(g, top, bot, lines);
      var n := (bot - top + 1 - lines) * g.width;
      if dir < 0 then
        Blank(g.(cells := Strip(g.cells, (top + lines) * g.width, top * g.width, n, merge)),
              0, bot - lines + 1, g.width - 1, bot, attr)
      else
        Blank(g.(cells := Strip(g.cells, top * g.width, (top + lines) * g.width, n, merge)),
              0, top, g.width - 1, top + lines - 1, attr)
    else Blank(g, 0, top, g.width - 1, bot, attr)
  }

  /** The clipped scroll; wrap marks above the region and inside it, but for its last row, are dropped. */
  function ScrollArea(g: Grid, y0: int, y1: int, lines: int, dir: int, merge: bool, attr: Option<Cell>): (r: Grid)
    requires Live(g)
    ensures Live(r) && SameSize(r, g)
  {
    if dir == 0 || lines <= 0 || y0 > y1 || y1 < 0 || y0 >= g.height then g
    else
      var top := if y0 < 0 then 0 else y0;
      var bot := if y1 >= g.height then g.height - 1 else y1;
      Region(MovedRows(g, top, bot, lines, dir, merge, attr), g.width - 1, top - 1, g.width - 1, bot - 1, Unwrap)
  }

  lemma LineFits(g: Grid, x: int, y: int)
    requires Live(g) && 0 <= x < g.width && 0 <= y < g.height
    ensures 0 <= y * g.width <= y * g.width + x && y * g.width + g.width <= |g.cells|
  {
    MulMono(0, y, g.width);
    MulMono(y + 1, g.height, g.width);
  }

  /** Opens (or closes) a gap of `count` cells at column `x` of row `y`. */
  function ShiftChars(g: Grid, x: int, y: int, count: int, insert: bool, attr: Option<Cell>): (r: Grid)
    requires Live(g)
    ensures Live(r) && SameSize(r, g)
  {
    if count <= 0 || y < 0 || y >= g.height || x >= g.width then g
    else
      var col := if x < 0 then 0 else x;
      LineFits(g, col, y);
      var at := y * g.width + col;
      var rest := g.width - col - count;
      var moved :=
        if rest > 0 then
          if insert then
            Blank(g.(cells := Strip(g.cells, at, at + count, rest, true)), col, y, col + count - 1, y, attr)
          else
            Blank(g.(cells := Strip(g.cells, at + count, at, rest, true)), g.width - count, y, g.width - 1, y, attr)
        else Blank(g, col, y, g.width - 1, y, attr);
      SetWrap(moved, y, false)
  }

  function Min(a: int, b: int): int { if a < b then a else b }
  function Max(a: int, b: int): int { if a > b then a else b }
  function Clamp(v: int, lo: int, hi: int): int { if v < lo then lo else if v > hi then hi else v }

  lemma OverlapFits(d: Grid, s: Grid, i: nat)
    requires Live(d) && Live(s) && i < |d.cells| && Col(i, d.width) < s.width && Row(i, d.width) < s.height
    ensures 0 <= Row(i, d.width) * s.width + Col(i, d.width) < |s.cells|
  {
    LineFits(s, Col(i, d.width), Row(i, d.width));
  }

  /** A clean cell stays clean only under a clean cell that looks the same. */
  function MergedDirty(d: Cell, s: Cell): Cell {
    if !d.dirty && (s.dirty || !SameLook(s, d)) then d.(dirty := true) else d
  }

  /** Merging one cell; a place outside the buffer takes nothing. */
  function MergedAt(g: Grid, x: int, y: int, s: Cell): (r: Grid)
    requires Live(g)
    ensures Live(r) && SameSize(r, g)
  {
    if 0 <= x < g.width && 0 <= y < g.height then
      LineFits(g, x, y);
      var i := y * g.width + x;
      g.(cells := g.cells[i := MergeCell(g.cells[i], s)])
    else g
  }

  /** On a screen switch only cells that are clean and look alike on both screens stay clean. */
  function MergeAllDirty(d: Grid, s: Grid): (r: Grid)
    requires Live(d) && Live(s)
    ensures Live(r) && SameSize(r, d)
  {
    d.(cells := seq(|d.cells|, i requires 0 <= i < |d.cells| =>
      var x, y := Col(i, d.width), Row(i, d.width);
      if x < s.width && y < s.height then
        OverlapFits(d, s, i);
        MergedDirty(d.cells[i], s.cells[y * s.width + x])
      else d.cells[i]))
  }
}
