/** The cell buffer: one flat array of cells updated in place, with a running count of
    its dirty cells. Every method is tied to the value-level operation it performs. */
module CellBuffers {
  import opened Cells
  import Relayout

  class CellBuffer {
    var width: nat
    var height: nat
    var buf: array<Cell>
    var dirtyCount: int

    ghost predicate Valid()
      reads this, buf
    {
      buf.Length == width * height && (width == 0 <==> height == 0) && dirtyCount == DirtyCount(buf[..])
    }

    ghost predicate InUse()
      reads this, buf
    {
      Valid() && width > 0
    }

    /** The contents as a value. */
    ghost function G(): Grid
      reads this, buf
    {
      Grid(width, height, buf[..])
    }

    /** All zero: a buffer not in use. */
    constructor ()
      ensures Valid() && G() == NO_GRID && fresh(buf)
    {
      buf := new Cell[0];
      width, height, dirtyCount := 0, 0, 0;
    }

    /** Takes default cells, all of them dirty: `cbuf_new`. */
    method New(nwidth: nat, nheight: nat)
      requires nwidth > 0 && nheight > 0
      modifies this
      ensures InUse() && fresh(buf)
      ensures G() == Grid(nwidth, nheight, seq(nwidth * nheight, _ => DEFAULT_CELL))
    {
      MulMono(0, nheight, nwidth);
      var n := nwidth * nheight;
      width, height, dirtyCount := nwidth, nheight, n;
      buf := new Cell[n](_ => DEFAULT_CELL);
      DirtyCountAll(buf[..]);
    }

    /** Gives the cells up: `cbuf_free`. */
    method Free()
      modifies this
      ensures Valid() && G() == NO_GRID && fresh(buf)
    {
      buf := new Cell[0];
      width, height, dirtyCount := 0, 0, 0;
    }

    /** A new size; with `relayout`, lines that were wrapped are wrapped anew. */
    method Resize(nwidth: nat, nheight: nat, relayout: bool)
      requires Valid() && nwidth > 0 && nheight > 0 && (relayout ==> width > 0)
      modifies this
      ensures InUse() && (buf == old(buf) || fresh(buf))
      ensures G() ==
        if nwidth == old(width) && nheight == old(height) then old(G())
        else if relayout then Relayout.Relaid(old(G()), nwidth, nheight)
        else Relayout.Cropped(old(G()), nwidth, nheight)
    {
      hide DirtyCount, Relayout.Relaid, Relayout.Cropped;
      if width != nwidth || height != nheight {
        ghost var g := G();
        MulMono(0, nheight, nwidth);
        var nbuf: array<Cell>;
        assert LiveOrFreed(g);
        if relayout {
          Relayout.RelaidDirty(g, nwidth, nheight);
          var it := new Relayout.LineIt(width, height, buf);
          nbuf := Relayout.Lay(it, nwidth, nheight, g);
        } else {
          Relayout.CroppedDirty(g, nwidth, nheight);
          nbuf := Relayout.Crop(buf, nwidth, nheight, width, height, g);
        }
        buf, width, height, dirtyCount := nbuf, nwidth, nheight, nwidth * nheight;
      }
    }

    /** Walks `count` consecutive cells, keeping the dirty counter exact. */
    method Walk(start: nat, count: nat, op: RegionOp)
      requires Valid() && start + count <= buf.Length
      modifies this`dirtyCount, buf
      ensures Valid()
      ensures Walked(old(buf[..]), buf[..], start, start + count, op)
    {
      ghost var was := buf[..];
      var cc, cnt := start, count;
      while cnt != 0
        invariant 0 <= cnt <= count && cc == start + count - cnt
        invariant dirtyCount == DirtyCount(buf[..])
        invariant Walked(was, buf[..], start, cc, op)
      {
        cnt := cnt - 1;
        var c := Apply(op, buf[cc]);
        ghost var before := buf[..];
        DirtyCountUpdate(before, cc, c);
        dirtyCount := dirtyCount + Tally(c) - Tally(buf[cc]);
        buf[cc] := c;
        assert buf[..] == before[cc := c];
        cc := cc + 1;
      }
    }

    /** Clears one dirty bit, as drawing the cell does. */
    method CleanCell(i: nat)
      requires Valid() && i < buf.Length
      modifies this`dirtyCount, buf
      ensures Valid() && buf[..] == old(buf[..])[i := Apply(Clean, old(buf[i]))]
      ensures dirtyCount >= 0
    {
      ghost var before := buf[..];
      DirtyCountUpdate(before, i, before[i].(dirty := false));
      if buf[i].dirty {
        buf[i] := buf[i].(dirty := false);
        dirtyCount := dirtyCount - 1;
      }
      assert buf[..] == before[i := before[i].(dirty := false)];
    }

    /** The region walk that marking, cleaning and clearing share: clip, then go line by line. */
    method ProcessRegion(left: int, top: int, right: int, bottom: int, op: RegionOp)
      requires InUse()
      modifies this`dirtyCount, buf
      ensures InUse()
      ensures G() == Region(old(G()), left, top, right, bottom, op)
    {
      if right < 0 || bottom < 0 || left > right || top > bottom || left >= width || top >= height {
        Missed(G(), left, top, right, bottom, op);
        return;
      }
      Clip(G(), left, top, right, bottom, op);
      ProcessClipped(Max(left, 0), Max(top, 0), Min(right, width - 1), Min(bottom, height - 1), op);
    }

    method ProcessClipped(x0: nat, y0: nat, x1: nat, y1: nat, op: RegionOp)
      requires InUse() && x0 <= x1 < width && y0 <= y1 < height
      modifies this`dirtyCount, buf
      ensures InUse()
      ensures G() == Region(old(G()), x0, y0, x1, y1, op)
    {
      ghost var g := G();
      var wdt := x1 - x0 + 1;
      var ofs := width - wdt;
      LineFits(g, x0, y0);
      var y, cc := y0, y0 * width + x0;
      Skip(g, cc, x0, y0, x1, y1, y);
      while y <= y1
        invariant y0 <= y <= y1 + 1 && cc == y * width + x0
        invariant Valid()
        invariant Done(g.cells, buf[..], width, cc, x0, y0, x1, y1, op)
      {
        LineFits(g, x0, y);
        ghost var before := buf[..];
        Walk(cc, wdt, op);
        Advance(g.cells, before, buf[..], width, y, x0, y0, x1, y1, op);
        cc := cc + wdt + ofs;
        y := y + 1;
      }
      Skip(g, cc, x0, y0, x1, y1, y);
      assert buf[..] == Region(g, x0, y0, x1, y1, op).cells;
    }

    /** Writes `count` copies of one character along a row, clipped to the buffer. */
    method WriteWcharCount(left: int, y: int, ch: nat, times: int, attr: Option<Cell>)
      requires InUse()
      modifies this`dirtyCount, buf
      ensures InUse()
      ensures G() == WriteRun(old(G()), left, y, ch, times, attr)
    {
      var pen := FillWith(attr);
      WriteStored(left, y, times, pen.(ch := StoredChar(ch)));
    }

    method WriteStored(left: int, y: int, times: int, pen: RegionOp)
      requires InUse()
      modifies this`dirtyCount, buf
      ensures InUse()
      ensures G() == Region(old(G()), left, y, left + times - 1, y, pen)
    {
      hide DirtyCount, Region, Row, Col, InRect;
      ghost var right := left + times - 1;
      if times < 1 || y < 0 || y >= height || left >= width || (left < 0 && left + times <= 0) {
        Missed(G(), left, y, right, y, pen);
        return;
      }
      var x, count := left, times;
      if x < 0 { count := count + x; x := 0; }
      if width - x < count { count := width - x; }
      Clip(G(), left, y, right, y, pen);
      WriteClipped(x, y, count, pen);
    }

    method WriteClipped(x: nat, y: nat, count: nat, pen: RegionOp)
      requires InUse() && y < height && x + count <= width && x < width
      modifies this`dirtyCount, buf
      ensures InUse()
      ensures G() == Region(old(G()), x, y, x + count - 1, y, pen)
    {
      LineFits(G(), x, y);
      ghost var g := G();
      Walk(y * width + x, count, pen);
      OneLine(g, buf[..], x, y, count, pen);
    }

    method MarkLineAutowrap(y: int)
      requires InUse()
      modifies buf
      ensures InUse()
      ensures G() == SetWrap(old(G()), y, true)
    {
      if 0 <= y < height { PutWrap(y, true); }
    }

    method UnmarkLineAutowrap(y: int)
      requires InUse()
      modifies buf
      ensures InUse()
      ensures G() == SetWrap(old(G()), y, false)
    {
      if 0 <= y < height { PutWrap(y, false); }
    }

    method PutWrap(y: nat, mark: bool)
      requires InUse() && y < height
      modifies buf
      ensures InUse()
      ensures G() == SetWrap(old(G()), y, mark)
    {
      LineFits(G(), width - 1, y);
      var i := (y + 1) * width - 1;
      ghost var before := buf[..];
      DirtyCountUpdate(before, i, before[i].(wrap := mark));
      buf[i] := buf[i].(wrap := mark);
      assert buf[..] == before[i := before[i].(wrap := mark)];
    }

    /** Moves `count` cells, overlap allowed: forwards when the source lies behind, else backwards. */
    method CopyStrip(srcofs: nat, destofs: nat, count: nat, merge: bool)
      requires Valid() && count > 0 && srcofs + count <= buf.Length && destofs + count <= buf.Length
      modifies this`dirtyCount, buf
      ensures Valid()
      ensures Moved(old(buf[..]), buf[..], srcofs, destofs, 0, count, merge)
    {
      hide DirtyCount, MergeCell;
      ghost var was := buf[..];
      var src, dest, dir := srcofs, destofs, 1;
      if srcofs <= destofs { src, dest, dir := srcofs + count - 1, destofs + count - 1, -1; }
      var n := count;
      while n > 0
        invariant 0 <= n <= count && Valid()
        invariant (dir == 1 && srcofs > destofs) || (dir == -1 && srcofs <= destofs)
        invariant dir == 1 ==> src == srcofs + count - n && Moved(was, buf[..], srcofs, destofs, 0, count - n, merge)
        invariant dir == -1 ==> src == srcofs + n - 1 && Moved(was, buf[..], srcofs, destofs, n, count, merge)
        invariant dest - destofs == src - srcofs
      {
        n := n - 1;
        ghost var before := buf[..];
        CopyCell(src, dest, merge);
        MovedStep(was, before, buf[..], srcofs, destofs,
                  if dir == 1 then 0 else n + 1, if dir == 1 then src - srcofs else count, src - srcofs, merge);
        src, dest := src + dir, dest + dir;
      }
    }

    /** One step of a strip copy: merge the dirty bit, or overwrite it. */
    method CopyCell(src: nat, dest: nat, merge: bool)
      requires Valid() && src < buf.Length && dest < buf.Length
      modifies this`dirtyCount, buf
      ensures Valid()
      ensures buf[..] == old(buf[..])[dest := if merge then MergeCell(old(buf[dest]), old(buf[src])) else old(buf[src])]
    {
      var s, d := buf[src], buf[dest];
      var c := s;
      if merge {
        if SameLook(s, d) { c := d; } else {
          if !d.dirty { dirtyCount := dirtyCount + 1; }
          c := s.(dirty := true);
        }
      } else if d.dirty {
        if !s.dirty { dirtyCount := dirtyCount - 1; }
      } else {
        if s.dirty { dirtyCount := dirtyCount + 1; }
      }
      DirtyCountUpdate(buf[..], dest, c);
      ghost var before := buf[..];
      buf[dest] := c;
      assert buf[..] == before[dest := c];
    }

    /** Blanks a rectangle when an attribute cell is given. */
    method BlankIf(x0: int, y0: int, x1: int, y1: int, attr: Option<Cell>)
      requires InUse()
      modifies this`dirtyCount, buf
      ensures InUse()
      ensures G() == Blank(old(G()), x0, y0, x1, y1, attr)
    {
      if attr.Some? { ProcessRegion(x0, y0, x1, y1, FillWith(attr)); }
    }

    method StripTo(srcofs: nat, destofs: nat, count: nat, merge: bool)
      requires InUse() && count > 0 && srcofs + count <= buf.Length && destofs + count <= buf.Length
      modifies this`dirtyCount, buf
      ensures InUse()
      ensures G() == old(G()).(cells := Strip(old(G()).cells, srcofs, destofs, count, merge))
    {
      ghost var was := buf[..];
      CopyStrip(srcofs, destofs, count, merge);
      assert buf[..] == Strip(was, srcofs, destofs, count, merge);
    }

    /** Scrolls the clipped region: copy, blank the exposed rows, drop stale wrap marks. */
    method ScrollRows(y0: int, y1: int, lines: int, dir: int, merge: bool, attr: Option<Cell>)
      requires InUse()
      modifies this`dirtyCount, buf
      ensures InUse()
      ensures G() == ScrollArea(old(G()), y0, y1, lines, dir, merge, attr)
    {
      hide DirtyCount, Region, Strip, SetWrap, Blank, Row, Col;
      if dir == 0 || lines <= 0 || y0 > y1 || y1 < 0 || y0 >= height { return; }
      var top := if y0 < 0 then 0 else y0;
      var bot := if y1 >= height then height - 1 else y1;
      MoveRows(top, bot, lines, dir, merge, attr);
      UnwrapRows(top - 1, bot);
    }

    method MoveRows(top: nat, bot: nat, lines: nat, dir: int, merge: bool, attr: Option<Cell>)
      requires InUse() && top <= bot < height && lines > 0 && dir != 0
      modifies this`dirtyCount, buf
      ensures InUse()
      ensures G() == MovedRows(old(G()), top, bot, lines, dir, merge, attr)
    {
      hide DirtyCount, Region, Strip, Blank, Row, Col;
      if lines < bot - top + 1 {
        RegionFits(G(), top, bot, lines);
        var n := (bot - top + 1 - lines) * width;
        if dir < 0 {
          StripTo((top + lines) * width, top * width, n, merge);
          BlankIf(0, bot - lines + 1, width - 1, bot, attr);
        } else {
          StripTo(top * width, (top + lines) * width, n, merge);
          BlankIf(0, top, width - 1, top + lines - 1, attr);
        }
      } else {
        BlankIf(0, top, width - 1, bot, attr);
      }
    }

    /** Drops the wrap marks of rows `y0` up to, not including, `y1`. */
    method UnwrapRows(y0: int, y1: int)
      requires InUse() && -1 <= y0 < y1 < height
      modifies buf
      ensures InUse()
      ensures G() == Region(old(G()), width - 1, y0, width - 1, y1 - 1, Unwrap)
    {
      ghost var g := G();
      var y := y0;
      while y != y1
        invariant y0 <= y <= y1 && InUse()
        invariant width == g.width && height == g.height && |buf[..]| == |g.cells|
        invariant buf[..] == Region(g, g.width - 1, y0, g.width - 1, y - 1, Unwrap).cells
      {
        UnwrapOne(g, y0, y);
        UnmarkLineAutowrap(y);
        y := y + 1;
      }
    }

    /** Marks every cell that the screen shown so far would not already show. */
    method MergeAllDirtyFrom(sbuf: CellBuffer)
      requires InUse() && sbuf.InUse() && sbuf != this && sbuf.buf != buf
      modifies this`dirtyCount, buf
      ensures InUse()
      ensures G() == MergeAllDirty(old(G()), sbuf.G())
    {
      hide DirtyCount, Row, Col, MergeAllDirty, MergedRows, MergedRun;
      ghost var g := G();
      ghost var sg := sbuf.G();
      var wdt := Min(width, sbuf.width);
      var hgt := Min(height, sbuf.height);
      var slineadd, dlineadd := sbuf.width - wdt, width - wdt;
      var src, dest, y := 0, 0, 0;
      MergeNoRows(g, sg);
      while y < hgt
        invariant 0 <= y <= hgt && InUse() && src == y * sbuf.width && dest == y * width
        invariant MergedRows(g, sg, buf[..], y)
      {
        MergeLineAt(sbuf, src, dest, wdt, g, y);
        src, dest, y := src + wdt + slineadd, dest + wdt + dlineadd, y + 1;
      }
      MergeAllRows(g, sg, buf[..], hgt);
    }

    /** One line of the merge, placed among the rows of the whole. */
    method MergeLineAt(sbuf: CellBuffer, src: nat, dest: nat, wdt: nat, ghost g: Grid, ghost y: nat)
      requires InUse() && sbuf.InUse() && sbuf != this && sbuf.buf != buf
      requires Live(g) && SameSize(g, G()) && y < height && y < sbuf.height && wdt == Min(width, sbuf.width)
      requires src == y * sbuf.width && dest == y * width && MergedRows(g, sbuf.G(), buf[..], y)
      modifies this`dirtyCount, buf
      ensures InUse()
      ensures MergedRows(g, sbuf.G(), buf[..], y + 1)
    {
      hide DirtyCount, Row, Col, MergeAllDirty, MergedRows, MergedRun;
      LineFits(g, wdt - 1, y);
      LineFits(sbuf.G(), wdt - 1, y);
      ghost var before := buf[..];
      MergeLine(sbuf, src, dest, wdt);
      MergeRow(g, sbuf.G(), before, buf[..], y);
    }

    method MergeLine(sbuf: CellBuffer, srcofs: nat, destofs: nat, wdt: nat)
      requires Valid() && sbuf.Valid() && sbuf != this && sbuf.buf != buf
      requires srcofs + wdt <= sbuf.buf.Length && destofs + wdt <= buf.Length
      modifies this`dirtyCount, buf
      ensures Valid()
      ensures MergedRun(old(buf[..]), sbuf.buf[..], buf[..], srcofs, destofs, wdt)
    {
      hide DirtyCount;
      ghost var was := buf[..];
      var src, dest, x := srcofs, destofs, 0;
      while x < wdt
        invariant 0 <= x <= wdt && Valid() && src == srcofs + x && dest == destofs + x
        invariant MergedRun(was, sbuf.buf[..], buf[..], srcofs, destofs, x)
      {
        if !buf[dest].dirty && (sbuf.buf[src].dirty || !SameLook(sbuf.buf[src], buf[dest])) {
          ghost var before := buf[..];
          DirtyCountUpdate(before, dest, before[dest].(dirty := true));
          dirtyCount := dirtyCount + 1;
          buf[dest] := buf[dest].(dirty := true);
          assert buf[..] == before[dest := before[dest].(dirty := true)];
        }
        src, dest, x := src + 1, dest + 1, x + 1;
      }
    }

    /** Takes over a cell unless it looks the same. */
    method MergeCellAt(x: int, y: int, cell: Cell)
      requires InUse()
      modifies this`dirtyCount, buf
      ensures InUse()
      ensures G() == MergedAt(old(G()), x, y, cell)
    {
      if 0 <= x < width && 0 <= y < height {
        LineFits(G(), x, y);
        var d := y * width + x;
        ghost var before := buf[..];
        DirtyCountUpdate(before, d, MergeCell(before[d], cell));
        if !SameLook(buf[d], cell) {
          if !buf[d].dirty { dirtyCount := dirtyCount + 1; }
          buf[d] := cell.(dirty := true);
        }
        assert buf[..] == before[d := MergeCell(before[d], cell)];
      }
    }

    method InsertChars(x: int, y: int, count: int, attr: Option<Cell>)
      requires InUse()
      modifies this`dirtyCount, buf
      ensures InUse()
      ensures G() == ShiftChars(old(G()), x, y, count, true, attr)
    {
      hide DirtyCount, Region, Strip, SetWrap, Blank, Row, Col;
      if count <= 0 || y < 0 || y >= height || x >= width { return; }
      var col := if x < 0 then 0 else x;
      LineFits(G(), col, y);
      if width - col > count {
        StripTo(y * width + col, y * width + col + count, width - col - count, true);
        BlankIf(col, y, col + count - 1, y, attr);
      } else {
        BlankIf(col, y, width - 1, y, attr);
      }
      UnmarkLineAutowrap(y);
    }

    method DeleteChars(x: int, y: int, count: int, attr: Option<Cell>)
      requires InUse()
      modifies this`dirtyCount, buf
      ensures InUse()
      ensures G() == ShiftChars(old(G()), x, y, count, false, attr)
    {
      hide DirtyCount, Region, Strip, SetWrap, Blank, Row, Col;
      if count <= 0 || y < 0 || y >= height || x >= width { return; }
      var col := if x < 0 then 0 else x;
      LineFits(G(), col, y);
      if width - col > count {
        StripTo(y * width + col + count, y * width + col, width - col - count, true);
        BlankIf(width - count, y, width - 1, y, attr);
      } else {
        BlankIf(col, y, width - 1, y, attr);
      }
      UnmarkLineAutowrap(y);
    }
  }

  /** The wrap mark of one more row. */
  lemma UnwrapOne(g: Grid, y0: int, y: int)
    requires Live(g) && -1 <= y0 <= y < g.height
    ensures Region(g, g.width - 1, y0, g.width - 1, y, Unwrap) ==
      SetWrap(Region(g, g.width - 1, y0, g.width - 1, y - 1, Unwrap), y, false)
    ensures Region(g, g.width - 1, y0, g.width - 1, y0 - 1, Unwrap) == g
  {
    hide Row, Col;
    var r := Region(g, g.width - 1, y0, g.width - 1, y - 1, Unwrap);
    assert Region(g, g.width - 1, y0, g.width - 1, y0 - 1, Unwrap).cells == g.cells;
    if y >= 0 {
      LineFits(g, g.width - 1, y);
      forall j | 0 <= j < |g.cells|
        ensures (g.width - 1 == Col(j, g.width) && Row(j, g.width) == y) <==> j == (y + 1) * g.width - 1
      {
        RowSpan(j, g.width, y, y);
        IndexOf(j, g.width);
      }
    }
    assert Region(g, g.width - 1, y0, g.width - 1, y, Unwrap).cells == SetWrap(r, y, false).cells;
  }

  // ---- region walks ------------------------------------------------------------------

  ghost predicate Walked(was: seq<Cell>, now: seq<Cell>, from: int, to: int, op: RegionOp) {
    |now| == |was| &&
    forall j :: 0 <= j < |was| ==> now[j] == if from <= j < to then Apply(op, was[j]) else was[j]
  }

  /** Cells before `cc` are done, the others are untouched. */
  ghost predicate Done(was: seq<Cell>, now: seq<Cell>, w: nat, cc: int,
                       x0: int, y0: int, x1: int, y1: int, op: RegionOp)
    requires w > 0
  {
    |now| == |was| &&
    forall j :: 0 <= j < |was| ==>
      now[j] == if j < cc && InRect(j, w, x0, y0, x1, y1) then Apply(op, was[j]) else was[j]
  }

  /** A rectangle that misses the buffer selects none of its cells. */
  lemma Missed(g: Grid, left: int, top: int, right: int, bottom: int, op: RegionOp)
    requires Live(g)
    requires right < 0 || bottom < 0 || left > right || top > bottom || left >= g.width || top >= g.height
    ensures Region(g, left, top, right, bottom, op) == g
  {
    forall j | 0 <= j < |g.cells| ensures !InRect(j, g.width, left, top, right, bottom) {
      RowInGrid(j, g.width, g.height);
    }
    assert Region(g, left, top, right, bottom, op).cells == g.cells;
  }

  /** Clipping a region changes no cell of it. */
  lemma Clip(g: Grid, left: int, top: int, right: int, bottom: int, op: RegionOp)
    requires Live(g)
    ensures Region(g, left, top, right, bottom, op) ==
      Region(g, Max(left, 0), Max(top, 0), Min(right, g.width - 1), Min(bottom, g.height - 1), op)
  {
    forall j | 0 <= j < |g.cells|
      ensures InRect(j, g.width, left, top, right, bottom) <==>
        InRect(j, g.width, Max(left, 0), Max(top, 0), Min(right, g.width - 1), Min(bottom, g.height - 1))
    {
      RowInGrid(j, g.width, g.height);
    }
    assert Region(g, left, top, right, bottom, op).cells ==
      Region(g, Max(left, 0), Max(top, 0), Min(right, g.width - 1), Min(bottom, g.height - 1), op).cells;
  }

  /** Nothing of the rectangle lies before its first cell or after its last row. */
  lemma Skip(g: Grid, cc: int, x0: nat, y0: nat, x1: nat, y1: nat, y: nat)
    requires Live(g) && y0 <= y1 && x0 <= x1 < g.width && cc == y * g.width + x0
    ensures y == y0 ==> forall j :: 0 <= j < |g.cells| && j < cc ==> !InRect(j, g.width, x0, y0, x1, y1)
    ensures y == y1 + 1 ==> forall j :: 0 <= j < |g.cells| && cc <= j ==> !InRect(j, g.width, x0, y0, x1, y1)
  {
    forall j: nat | j < |g.cells|
      ensures j < y0 * g.width + x0 ==> !InRect(j, g.width, x0, y0, x1, y1)
      ensures j >= (y1 + 1) * g.width ==> !InRect(j, g.width, x0, y0, x1, y1)
    {
      Before(j, g.width, x0, y0);
      RowSpan(j, g.width, y0, y1);
    }
  }

  lemma Before(j: nat, w: nat, x0: int, y0: int)
    requires w > 0 && 0 <= x0 < w && 0 <= y0
    ensures j < y0 * w + x0 ==> !(Row(j, w) >= y0 && Col(j, w) >= x0)
  {
    if Row(j, w) >= y0 { IndexOf(j, w); MulMono(y0, Row(j, w), w); }
  }

  /** One finished line carries the walk from its left edge to the next line's. */
  lemma Advance(was: seq<Cell>, before: seq<Cell>, now: seq<Cell>, w: nat, y: int,
                x0: int, y0: int, x1: int, y1: int, op: RegionOp)
    requires w > 0 && 0 <= y0 <= y <= y1 && 0 <= x0 <= x1 < w
    requires Done(was, before, w, y * w + x0, x0, y0, x1, y1, op)
    requires Walked(before, now, y * w + x0, y * w + x1 + 1, op)
    ensures Done(was, now, w, (y + 1) * w + x0, x0, y0, x1, y1, op)
  {
    forall j | 0 <= j < |was| && y * w + x0 <= j < (y + 1) * w + x0
      ensures InRect(j, w, x0, y0, x1, y1) <==> j <= y * w + x1
    {
      if j < (y + 1) * w { ColInRow(j, w, y); } else {
        assert (y + 2) * w == (y + 1) * w + w;
        ColInRow(j, w, y + 1);
      }
    }
  }

  lemma InRun(j: nat, w: nat, x: nat, y: nat, count: nat)
    requires w > 0 && x + count <= w
    ensures InRect(j, w, x, y, x + count - 1, y) <==> y * w + x <= j < y * w + x + count
  {
    hide Row, Col;
    RowSpan(j, w, y, y);
    IndexOf(j, w);
  }

  /** A clipped run inside one row is that row's part of a region. */
  lemma OneLine(g: Grid, now: seq<Cell>, x: nat, y: nat, count: nat, op: RegionOp)
    requires Live(g) && y < g.height && x + count <= g.width
    requires Walked(g.cells, now, y * g.width + x, y * g.width + x + count, op)
    ensures now == Region(g, x, y, x + count - 1, y, op).cells
  {
    hide Row, Col, Apply, InRect;
    forall j | 0 <= j < |g.cells|
      ensures now[j] == Region(g, x, y, x + count - 1, y, op).cells[j]
    {
      InRun(j, g.width, x, y, count);
    }
  }

  ghost predicate MergedRun(was: seq<Cell>, src: seq<Cell>, now: seq<Cell>, so: nat, d: nat, n: nat) {
    |now| == |was| && so + n <= |src| && d + n <= |was| &&
    forall j :: 0 <= j < |was| ==> now[j] == if d <= j < d + n then MergedDirty(was[j], src[j - d + so]) else was[j]
  }

  /** Rows above `y` are merged, the others are untouched. */
  ghost predicate MergedRows(g: Grid, s: Grid, now: seq<Cell>, y: int)
    requires Live(g) && Live(s)
  {
    |now| == |g.cells| &&
    forall j :: 0 <= j < |g.cells| ==>
      now[j] == if Row(j, g.width) < y then MergeAllDirty(g, s).cells[j] else g.cells[j]
  }

  lemma MergeNoRows(g: Grid, s: Grid)
    requires Live(g) && Live(s)
    ensures MergedRows(g, s, g.cells, 0)
  {
    hide Row, Col, MergeAllDirty;
  }

  lemma MergeAllRows(g: Grid, s: Grid, now: seq<Cell>, y: nat)
    requires Live(g) && Live(s) && MergedRows(g, s, now, y) && y == Min(g.height, s.height)
    ensures now == MergeAllDirty(g, s).cells
  {
    hide Row, Col;
    forall j | 0 <= j < |g.cells| ensures now[j] == MergeAllDirty(g, s).cells[j] {
      RowInGrid(j, g.width, g.height);
    }
  }

  lemma MergeRow(g: Grid, s: Grid, before: seq<Cell>, now: seq<Cell>, y: nat)
    requires Live(g) && Live(s) && y < g.height && y < s.height
    requires MergedRows(g, s, before, y)
    requires MergedRun(before, s.cells, now, y * s.width, y * g.width, Min(g.width, s.width))
    ensures MergedRows(g, s, now, y + 1)
  {
    hide Row, Col, MergeAllDirty;
    forall j | 0 <= j < |g.cells|
      ensures now[j] == if Row(j, g.width) < y + 1 then MergeAllDirty(g, s).cells[j] else g.cells[j]
    {
      MergeRowAt(g, s, before, now, y, j);
    }
  }

  lemma MergeRowAt(g: Grid, s: Grid, before: seq<Cell>, now: seq<Cell>, y: nat, j: nat)
    requires Live(g) && Live(s) && y < g.height && y < s.height && j < |g.cells|
    requires MergedRows(g, s, before, y)
    requires MergedRun(before, s.cells, now, y * s.width, y * g.width, Min(g.width, s.width))
    ensures now[j] == if Row(j, g.width) < y + 1 then MergeAllDirty(g, s).cells[j] else g.cells[j]
  {
    hide Row, Col, MergedDirty;
    var at := y * g.width;
    RowSpan(j, g.width, y, y);
    if Row(j, g.width) == y {
      ColInRow(j, g.width, y);
      assert at <= j < at + g.width;
    } else {
      assert !(at <= j < at + g.width);
      assert now[j] == before[j];
    }
  }

  /** Copying in the chosen direction never reads a cell it has already overwritten. */
  lemma MovedStep(was: seq<Cell>, before: seq<Cell>, now: seq<Cell>, src: nat, dst: nat,
                  lo: nat, hi: nat, k: nat, merge: bool)
    requires lo <= hi && src + hi <= |was| && dst + hi <= |was| && src + k < |was| && dst + k < |was|
    requires Moved(was, before, src, dst, lo, hi, merge)
    requires if src > dst then k == hi else k + 1 == lo
    requires now == before[dst + k := if merge then MergeCell(before[dst + k], before[src + k]) else before[src + k]]
    ensures if src > dst then Moved(was, now, src, dst, lo, hi + 1, merge)
      else Moved(was, now, src, dst, lo - 1, hi, merge)
  {
    assert before[src + k] == was[src + k] && before[dst + k] == was[dst + k];
  }

  /** Steps `from..to` of a strip copy are done; no source still needed was overwritten. */
  ghost predicate Moved(was: seq<Cell>, now: seq<Cell>, src: nat, dst: nat, from: int, to: int, merge: bool)
  {
    |now| == |was| && 0 <= from <= to && dst + to <= |was| && src + to <= |was| &&
    (forall j :: 0 <= j < |was| && !(dst + from <= j < dst + to) ==> now[j] == was[j]) &&
    (forall j :: dst + from <= j < dst + to ==>
      now[j] == if merge then MergeCell(was[j], was[j - dst + src]) else was[j - dst + src])
  }
}
