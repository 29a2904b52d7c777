/** Selection mode: a scrolled view over history and screen, a cursor in it, and a block
    of selected cells. */
module Selections {
  import opened Cells
  import opened CellBuffers
  import opened GridFacts
  import opened HistoryFiles

  // ---- the cursor -------------------------------------------------------------------

  /** A place on the view, and how many history lines the view shows. */
  datatype Cursor = Cursor(cx: int, cy: int, sback: int)

  /** The cursor's line, counted from the oldest history line. */
  function Gy(c: Cursor, lcount: int): int { lcount - c.sback + c.cy }

  predicate Inside(c: Cursor, w: int, h: int, lcount: int) {
    0 <= c.cx < w && 0 <= c.cy < h && 0 <= c.sback <= lcount
  }

  function Step(c: Cursor, dx: int, dy: int, w: int, h: int, lcount: int): Cursor {
    var nx, ny := Clamp(c.cx + dx, 0, w - 1), c.cy + dy;
    if dx == 0 && dy == 0 then c
    else if ny < 0 then Cursor(nx, 0, Min(lcount, c.sback - ny))
    else if ny >= h then Cursor(nx, h - 1, Max(0, c.sback - (ny - (h - 1))))
    else Cursor(nx, ny, c.sback)
  }

  function Run(c: Cursor, moves: seq<(int, int)>, w: int, h: int, lcount: int): Cursor {
    if moves == [] then c
    else
      var m := moves[|moves| - 1];
      Step(Run(c, moves[..|moves| - 1], w, h, lcount), m.0, m.1, w, h, lcount)
  }

  /** One number pushed about between two walls. */
  function Pushed(v: int, pushes: seq<int>, hi: int): int {
    if pushes == [] then v else Clamp(Pushed(v, pushes[..|pushes| - 1], hi) + pushes[|pushes| - 1], 0, hi)
  }

  /** A move is a clamped move in each direction, and the view scrolls no further than it must. */
  lemma StepClamps(c: Cursor, dx: int, dy: int, w: int, h: int, lcount: int)
    requires Inside(c, w, h, lcount)
    ensures var r := Step(c, dx, dy, w, h, lcount);
      var gy := Gy(r, lcount);
      Inside(r, w, h, lcount) && gy == Clamp(Gy(c, lcount) + dy, 0, lcount + h - 1) &&
      r.cx == Clamp(c.cx + dx, 0, w - 1) && r.sback == Clamp(c.sback, lcount - gy, lcount - gy + h - 1)
  {
    var ny := c.cy + dy;
    if dx == 0 && dy == 0 {
    } else if ny < 0 {
      if lcount < c.sback - ny {} else {}
    } else if ny >= h {
      if 0 > c.sback - (ny - (h - 1)) {} else {}
    } else {
    }
  }

  /** Over every run of moves the two coordinates act as one clamped line number. */
  lemma {:induction false} RunClamps(c: Cursor, moves: seq<(int, int)>, w: int, h: int, lcount: int)
    requires Inside(c, w, h, lcount)
    ensures var r := Run(c, moves, w, h, lcount);
      Inside(r, w, h, lcount) &&
      Gy(r, lcount) == Pushed(Gy(c, lcount), seq(|moves|, i requires 0 <= i < |moves| => moves[i].1), lcount + h - 1) &&
      r.cx == Pushed(c.cx, seq(|moves|, i requires 0 <= i < |moves| => moves[i].0), w - 1)
    decreases |moves|
  {
    hide Step;
    if moves != [] {
      var init, m := moves[..|moves| - 1], moves[|moves| - 1];
      RunClamps(c, init, w, h, lcount);
      StepClamps(Run(c, init, w, h, lcount), m.0, m.1, w, h, lcount);
      var ds := seq(|moves|, i requires 0 <= i < |moves| => moves[i].1);
      var es := seq(|moves|, i requires 0 <= i < |moves| => moves[i].0);
      assert ds[..|ds| - 1] == seq(|init|, i requires 0 <= i < |init| => init[i].1);
      assert es[..|es| - 1] == seq(|init|, i requires 0 <= i < |init| => init[i].0);
    }
  }

  // ---- the block --------------------------------------------------------------------

  datatype Shape = Stream | Line | Rect

  /** Two corners; while the block is in progress the cursor stands for the second. */
  datatype Block = Block(shape: Shape, x0: int, y0: int, x1: int, y1: int, inprogress: bool)

  /** Reading order. */
  predicate Upto(x: int, y: int, x1: int, y1: int) { y < y1 || (y == y1 && x <= x1) }

  predicate Spans(v: int, a: int, b: int, either: bool) { a <= v <= b || (either && b <= v <= a) }

  /** The cells a block covers: all from one end to the other, whole lines, or a rectangle. */
  predicate Chosen(b: Block, cx: int, gy: int, x: int, y: int) {
    var ex, ey := if b.inprogress then cx else b.x1, if b.inprogress then gy else b.y1;
    match b.shape
    case Stream =>
      (Upto(b.x0, b.y0, x, y) && Upto(x, y, ex, ey)) ||
      (b.inprogress && Upto(ex, ey, x, y) && Upto(x, y, b.x0, b.y0))
    case Line => Spans(y, b.y0, ey, b.inprogress)
    case Rect => Spans(y, b.y0, ey, b.inprogress) && Spans(x, b.x0, ex, b.inprogress)
  }

  /** Reading order as one number. */
  lemma UptoIndex(x: nat, y: int, x1: nat, y1: int, w: nat)
    requires x < w && x1 < w
    ensures Upto(x, y, x1, y1) <==> y * w + x <= y1 * w + x1
  {
    if y < y1 { MulMono(y + 1, y1, w); MulAdd(y, 1, w); }
    else if y > y1 { MulMono(y1 + 1, y, w); MulAdd(y1, 1, w); }
  }

  /** Text between two places is one run of cells in reading order, whichever of them comes first while
      the block is in progress. */
  lemma StreamIsRun(b: Block, cx: nat, gy: int, x: nat, y: int, w: nat)
    requires b.shape == Stream && 0 <= b.x0 < w && 0 <= b.x1 < w && cx < w && x < w
    ensures var p := b.y0 * w + b.x0;
      var q := if b.inprogress then gy * w + cx else b.y1 * w + b.x1;
      Chosen(b, cx, gy, x, y) <==>
        if b.inprogress then Min(p, q) <= y * w + x <= Max(p, q) else p <= y * w + x <= q
  {
    hide Upto;
    var ex, ey := if b.inprogress then cx else b.x1, if b.inprogress then gy else b.y1;
    UptoIndex(b.x0, b.y0, x, y, w);
    UptoIndex(x, y, ex, ey, w);
    UptoIndex(ex, ey, x, y, w);
    UptoIndex(x, y, b.x0, b.y0, w);
  }

  /** A finished block with its corners in order. */
  function Ended(b: Block, cx: int, gy: int): (r: Block)
    ensures !r.inprogress && r.shape == b.shape
  {
    if !b.inprogress then b
    else if b.shape == Stream && b.y0 != gy then
      if gy < b.y0 then Block(Stream, cx, gy, b.x0, b.y0, false) else Block(Stream, b.x0, b.y0, cx, gy, false)
    else Block(b.shape, Min(b.x0, cx), Min(b.y0, gy), Max(b.x0, cx), Max(b.y0, gy), false)
  }

  /** Finishing a selection leaves the same cells selected. */
  lemma EndedSame(b: Block, cx: int, gy: int, x: int, y: int)
    ensures Chosen(Ended(b, cx, gy), cx, gy, x, y) <==> Chosen(b, cx, gy, x, y)
  {
  }

  // ---- the picture ------------------------------------------------------------------

  /** Line `r` of history and screen together. */
  function GlobalLine(lines: seq<seq<Cell>>, screen: Grid, r: int): (line: seq<Cell>)
    requires Live(screen) && 0 <= r < |lines| + screen.height
    ensures r < |lines| ==> line == lines[r]
    ensures r >= |lines| ==> |line| == screen.width
  {
    if r < |lines| then lines[r]
    else
      var y := r - |lines|;
      LineFits(screen, screen.width - 1, y);
      MulMono(0, y, screen.width);
      screen.cells[y * screen.width..y * screen.width + screen.width]
  }

  function Marked(c: Cell, sel: bool): Cell { if sel then c.(style := c.style.(selection := true)) else c }

  /** What belongs at cell `i` of a view whose first line is `first`; past the end of a short line `kept` stays. */
  function Pick(kept: Cell, i: nat, lines: seq<seq<Cell>>, screen: Grid, first: int): Cell
    requires Live(screen) && i < |screen.cells| && 0 <= first <= |lines|
  {
    RowInGrid(i, screen.width, screen.height);
    var line := GlobalLine(lines, screen, first + Row(i, screen.width));
    var x := Col(i, screen.width);
    if x < |line| then line[x] else kept
  }

  /** A cell of the view after a draw: merged, marked, and dirty if its mark changed. */
  function Shown(d: Cell, s: Cell, sel: bool): Cell {
    var m := Marked(MergeCell(d, s), sel);
    if m.style.selection != d.style.selection then m.(dirty := true) else m
  }

  /** Row `i` of the view shows line `first + i`, the selection marked exactly on the block. */
  ghost predicate Picture(view: seq<Cell>, lines: seq<seq<Cell>>, screen: Grid, first: int, b: Block, cx: int,
                          gy: int) {
    Live(screen) && |view| == |screen.cells| && 0 <= first <= |lines| &&
    forall i :: 0 <= i < |view| ==>
      SameLook(view[i], Marked(Pick(view[i], i, lines, screen, first),
                               Chosen(b, cx, gy, Col(i, screen.width), first + Row(i, screen.width))))
  }

  /** Nothing drawn is forgotten: whatever looks different, or was due, is dirty. */
  ghost predicate Redrawn(was: seq<Cell>, now: seq<Cell>) {
    |now| == |was| && forall i :: 0 <= i < |was| ==> now[i].dirty || (!was[i].dirty && SameLook(was[i], now[i]))
  }

  ghost predicate Filled(was: seq<Cell>, now: seq<Cell>, lines: seq<seq<Cell>>, screen: Grid, first: int, n: int) {
    Live(screen) && |was| == |now| == |screen.cells| && 0 <= first <= |lines| &&
    forall i :: 0 <= i < |was| ==>
      now[i] == if Row(i, screen.width) < n then MergeCell(was[i], Pick(was[i], i, lines, screen, first)) else was[i]
  }

  /** The first `k` cells of a line are merged into the row that starts at `at`. */
  ghost predicate RowMerged(was: seq<Cell>, now: seq<Cell>, at: int, w: int, line: seq<Cell>, k: int) {
    |now| == |was| && k <= |line| &&
    forall i :: 0 <= i < |was| ==>
      now[i] == if at <= i < at + w && i - at < k then MergeCell(was[i], line[i - at]) else was[i]
  }

  lemma RowFilled(was: seq<Cell>, before: seq<Cell>, now: seq<Cell>, lines: seq<seq<Cell>>, screen: Grid, first: int,
                  n: nat)
    requires Filled(was, before, lines, screen, first, n) && n < screen.height
    requires var line := GlobalLine(lines, screen, first + n);
      RowMerged(before, now, n * screen.width, screen.width, line, |line|)
    ensures Filled(was, now, lines, screen, first, n + 1)
  {
    hide Row, Col, MergeCell;
    forall i | 0 <= i < |was|
      ensures now[i] ==
        if Row(i, screen.width) < n + 1 then MergeCell(was[i], Pick(was[i], i, lines, screen, first)) else was[i]
    {
      CellFilled(was, before, now, lines, screen, first, n, i);
    }
  }

  lemma CellFilled(was: seq<Cell>, before: seq<Cell>, now: seq<Cell>, lines: seq<seq<Cell>>, screen: Grid, first: int,
                   n: nat, i: nat)
    requires Filled(was, before, lines, screen, first, n) && n < screen.height && i < |was|
    requires var line := GlobalLine(lines, screen, first + n);
      RowMerged(before, now, n * screen.width, screen.width, line, |line|)
    ensures now[i] ==
      if Row(i, screen.width) < n + 1 then MergeCell(was[i], Pick(was[i], i, lines, screen, first)) else was[i]
  {
    hide Row, Col, GlobalLine;
    var w := screen.width;
    RowSpan(i, w, n, n);
    if Row(i, w) == n { ColInRow(i, w, n); }
  }

  /** Row `y` of the block, up to but not including line `y`. */
  ghost predicate MarkedTo(was: seq<Cell>, now: seq<Cell>, w: nat, first: int, b: Block, y: int) {
    w > 0 && |now| == |was| &&
    forall i :: 0 <= i < |was| ==>
      now[i] == Marked(was[i], first + Row(i, w) < y && Chosen(b, 0, 0, Col(i, w), first + Row(i, w)))
  }

  ghost predicate RunMarked(was: seq<Cell>, now: seq<Cell>, from: int, to: int) {
    |now| == |was| && forall i :: 0 <= i < |was| ==> now[i] == Marked(was[i], from <= i < to)
  }

  /** The columns a finished block covers on line `y`. */
  function LeftEnd(b: Block, y: int): int {
    if b.shape == Rect || (b.shape == Stream && y == b.y0) then b.x0 else 0
  }

  function RightEnd(b: Block, y: int, w: int): int {
    if b.shape == Rect || (b.shape == Stream && y == b.y1) then b.x1 else w - 1
  }

  lemma RowMarked(was: seq<Cell>, before: seq<Cell>, now: seq<Cell>, w: nat, first: int, b: Block, y: int)
    requires MarkedTo(was, before, w, first, b, y) && !b.inprogress && b.y0 <= y <= b.y1 && first <= y
    requires 0 <= b.x0 < w && b.x1 < w
    requires RunMarked(before, now, (y - first) * w + LeftEnd(b, y), (y - first) * w + RightEnd(b, y, w) + 1)
    ensures MarkedTo(was, now, w, first, b, y + 1)
  {
    hide Row, Col, Chosen, LeftEnd, RightEnd;
    forall i | 0 <= i < |was|
      ensures now[i] == Marked(was[i], first + Row(i, w) < y + 1 && Chosen(b, 0, 0, Col(i, w), first + Row(i, w)))
    {
      InLine(i, w, y - first);
      if first + Row(i, w) == y { LineChosen(b, w, Col(i, w), y); } else { LineEnds(b, w, y); }
    }
  }

  lemma LineEnds(b: Block, w: nat, y: int)
    requires 0 <= b.x0 < w && b.x1 < w
    ensures 0 <= LeftEnd(b, y) && RightEnd(b, y, w) < w
  {
  }

  lemma LineChosen(b: Block, w: nat, x: nat, y: int)
    requires !b.inprogress && b.y0 <= y <= b.y1 && x < w
    ensures Chosen(b, 0, 0, x, y) <==> LeftEnd(b, y) <= x <= RightEnd(b, y, w)
  {
  }

  lemma RowUnseen(was: seq<Cell>, now: seq<Cell>, w: nat, h: nat, first: int, b: Block, y: int)
    requires MarkedTo(was, now, w, first, b, y) && |was| == w * h && !(first <= y < first + h)
    ensures MarkedTo(was, now, w, first, b, y + 1)
  {
    hide Row, Col, Chosen;
    forall i | 0 <= i < |was| ensures first + Row(i, w) < y <==> first + Row(i, w) < y + 1 {
      RowInGrid(i, w, h);
    }
  }

  class Selection {
    const hv: CellBuffer
    const scr: CellBuffer
    const file: HistoryFile
    var shape: Shape
    var x0: int
    var y0: int
    var x1: int
    var y1: int
    var inprogress: bool
    var cx: int
    var cy: int
    var sback: int

    ghost predicate Ready()
      reads this, hv, hv.buf, scr, scr.buf, file, file.wrbuffer
    {
      hv != scr && hv.buf != scr.buf && file.wrbuffer != hv.buf && file.wrbuffer != scr.buf &&
      hv.Valid() && scr.InUse() && file.Valid() && file.width <= 0xffff &&
      Inside(C(), scr.width, scr.height, file.lcount) && 0 <= x0 < scr.width && x1 < scr.width
    }

    ghost predicate Fits()
      reads this, hv, scr
    {
      hv.width == scr.width && hv.height == scr.height
    }

    /** The view is right. */
    ghost predicate Right()
      reads this, hv, hv.buf, scr, scr.buf, file
    {
      Fits() && Picture(hv.buf[..], file.lines, scr.G(), First(), B(), cx, cy + First())
    }

    function C(): Cursor
      reads this
    {
      Cursor(cx, cy, sback)
    }

    function B(): Block
      reads this
    {
      Block(shape, x0, y0, x1, y1, inprogress)
    }

    /** The line shown in the view's top row. */
    function First(): int
      reads this, file
    {
      file.lcount - sback
    }

    /** Selection mode begins: nothing selected, the view a copy of the screen. */
    constructor (screen: CellBuffer, history: HistoryFile, x: nat, y: nat)
      requires screen.InUse() && history.Valid() && history.width <= 0xffff && history.wrbuffer != screen.buf
      requires x < screen.width && y < screen.height
      ensures scr == screen && file == history && fresh(hv) && fresh(hv.buf)
      ensures Ready() && Right() && C() == Cursor(x, y, 0) && B() == Block(Stream, 0, 0, -1, -1, false)
    {
      hide DirtyCount, Picture;
      hv := new CellBuffer();
      scr, file := screen, history;
      shape, cx, cy, sback := Stream, x, y, 0;
      x0, y0, x1, y1, inprogress := 0, 0, -1, -1, false;
      new;
      CopyScreen();
      CopyPicture(hv.buf[..], file.lines, scr.G(), B(), cx, cy + First());
    }

    /** A fresh view of the screen's size and contents, every cell of it due. */
    method CopyScreen()
      requires Ready()
      modifies hv
      ensures Ready() && Fits() && fresh(hv.buf)
      ensures forall i :: 0 <= i < hv.buf.Length ==> hv.buf[i] == scr.buf[i].(dirty := true)
    {
      hide DirtyCount, Inside;
      hv.Free();
      hv.New(scr.width, scr.height);
      CopyCells();
      ghost var g := hv.G();
      hv.ProcessRegion(0, 0, hv.width - 1, hv.height - 1, Dirty);
      WholeGrid(g, Dirty);
    }

    /** Copies every cell, and the count with them. */
    method CopyCells()
      requires Ready() && Fits()
      modifies hv`dirtyCount, hv.buf
      ensures Ready() && hv.buf[..] == scr.buf[..]
    {
      hide DirtyCount, Inside;
      var i := 0;
      while i < hv.buf.Length
        invariant 0 <= i <= hv.buf.Length && hv.buf[..i] == scr.buf[..i] && scr.buf[..] == old(scr.buf[..])
        invariant hv.buf.Length == hv.width * hv.height && hv.width == scr.width && hv.height == scr.height
        invariant file.Valid()
      {
        hv.buf[i] := scr.buf[i];
        assert hv.buf[..i + 1] == hv.buf[..i] + [hv.buf[i]];
        assert scr.buf[..i + 1] == scr.buf[..i] + [scr.buf[i]];
        i := i + 1;
      }
      assert hv.buf[..] == scr.buf[..];
      hv.dirtyCount := scr.dirtyCount;
    }

    /** Settles the block's corners; the same cells stay selected. */
    method End()
      requires Ready()
      modifies this`x0, this`y0, this`x1, this`y1, this`inprogress
      ensures Ready() && !inprogress
      ensures B() == Ended(old(B()), cx, cy + First())
    {
      hide DirtyCount, CellBuffer.Valid, HistoryFile.Valid;
      if inprogress {
        var stx, sty := x0, y0;
        var ex, ey := cx, cy + First();
        if shape == Stream {
          if ey == sty {
            y0, y1 := sty, sty;
            x0, x1 := Min(stx, ex), Max(stx, ex);
          } else if ey < sty {
            x0, y0, x1, y1 := ex, ey, stx, sty;
          } else {
            x0, y0, x1, y1 := stx, sty, ex, ey;
          }
        } else {
          x0, x1 := Min(stx, ex), Max(stx, ex);
          y0, y1 := Min(sty, ey), Max(sty, ey);
        }
        inprogress := false;
      }
    }

    /** Sets the selection bit of a run of cells; dirty bits and their count stay. */
    method MarkRun(from: int, to: int)
      requires Ready() && hv.InUse() && 0 <= from && to <= hv.buf.Length
      modifies hv.buf
      ensures Ready() && RunMarked(old(hv.buf[..]), hv.buf[..], from, to)
    {
      hide DirtyCount, Inside;
      ghost var was := hv.buf[..];
      var x := from;
      while x < to
        invariant from <= x && Ready() && hv.InUse()
        invariant RunMarked(was, hv.buf[..], from, Min(x, to))
      {
        ghost var before := hv.buf[..];
        DirtyCountUpdate(before, x, Marked(before[x], true));
        hv.buf[x] := hv.buf[x].(style := hv.buf[x].style.(selection := true));
        assert hv.buf[..] == before[x := Marked(before[x], true)];
        x := x + 1;
      }
    }

    /** Marks the block's cells; a block in progress is finished for the time being. */
    method MarkBlock()
      requires Ready() && Fits()
      modifies this`x0, this`y0, this`x1, this`y1, this`inprogress, hv.buf
      ensures Ready() && Fits() && B() == old(B())
      ensures |hv.buf[..]| == |old(hv.buf[..])|
      ensures forall i :: 0 <= i < hv.buf.Length ==>
        hv.buf[i] == Marked(old(hv.buf[i]),
                            Chosen(B(), cx, cy + First(), Col(i, scr.width), First() + Row(i, scr.width)))
    {
      hide DirtyCount, Row, Col, Chosen, Ended, MarkedTo, Inside, HistoryFile.Valid;
      ghost var was, b := hv.buf[..], B();
      var oldInprogress, oldX0, oldY0, oldX1, oldY1 := inprogress, x0, y0, x1, y1;
      End();
      ghost var e := B();
      MarkLines(was);
      EndedBlock(b, e, was, hv.buf[..], hv.width, hv.height, First(), cx, cy + First());
      inprogress, x0, y0, x1, y1 := oldInprogress, oldX0, oldY0, oldX1, oldY1;
    }

    /** Walks the lines of a finished block that the view shows. */
    method MarkLines(ghost was: seq<Cell>)
      requires Ready() && Fits() && !inprogress && was == hv.buf[..]
      modifies hv.buf
      ensures Ready() && MarkedTo(was, hv.buf[..], hv.width, First(), B(), Max(y0, y1 + 1))
    {
      hide DirtyCount, Row, Col, Chosen, Inside, RunMarked;
      NoneMarked(was, hv.width, First(), B());
      var y := y0;
      while y <= y1
        invariant y0 <= y <= Max(y0, y1 + 1) && Ready() && Fits()
        invariant MarkedTo(was, hv.buf[..], hv.width, First(), B(), y)
      {
        MarkLine(was, y);
        y := y + 1;
      }
    }

    method MarkLine(ghost was: seq<Cell>, y: int)
      requires Ready() && Fits() && !inprogress && y0 <= y <= y1 && |was| == hv.buf.Length
      requires MarkedTo(was, hv.buf[..], hv.width, First(), B(), y)
      modifies hv.buf
      ensures Ready() && Fits() && MarkedTo(was, hv.buf[..], hv.width, First(), B(), y + 1)
    {
      hide DirtyCount, Row, Col, Chosen, Inside, RunMarked, MarkedTo;
      var wy := y - (file.lcount - sback);
      if 0 <= wy < hv.height {
        var left, right := 0, hv.width - 1;
        match shape {
          case Stream =>
            if y == y0 { left := x0; }
            if y == y1 { right := x1; }
          case Line =>
          case Rect => left, right := x0, x1;
        }
        ghost var before := hv.buf[..];
        LineFits(hv.G(), left, wy);
        MarkRun(wy * hv.width + left, wy * hv.width + right + 1);
        RowMarked(was, before, hv.buf[..], hv.width, First(), B(), y);
      } else {
        RowUnseen(was, hv.buf[..], hv.width, hv.height, First(), B(), y);
      }
    }

    /** Merges one history line into a row of the view. */
    method HistoryPutLine(cbufy0: int, y: int)
      requires Ready() && Fits() && hv.InUse() && 0 <= y < file.lcount && 0 <= cbufy0 < hv.height
      modifies hv`dirtyCount, hv.buf, file
      ensures Ready() && Fits() && hv.InUse() && file.lines == old(file.lines)
      ensures RowMerged(old(hv.buf[..]), hv.buf[..], cbufy0 * hv.width, hv.width, file.lines[y], |file.lines[y]|)
    {
      hide DirtyCount, Inside;
      file.Flush();
      ghost var pos := |Flat(file.lines[..y])|;
      file.ReadAt(y, pos);
      FlatLength(file.lines[..y], file.width);
      var tmpcbuf := file.disk[y * file.width..y * file.width + file.width];
      MergeLine(cbufy0, tmpcbuf);
    }

    method MergeLine(y: nat, line: seq<Cell>)
      requires Ready() && Fits() && hv.InUse() && y < hv.height
      modifies hv`dirtyCount, hv.buf
      ensures Ready() && Fits() && hv.InUse()
      ensures RowMerged(old(hv.buf[..]), hv.buf[..], y * hv.width, hv.width, line, |line|)
    {
      hide DirtyCount, Inside, MergeCell;
      ghost var was := hv.buf[..];
      var x := 0;
      while x < |line|
        invariant 0 <= x <= |line| && Ready() && Fits() && hv.InUse()
        invariant RowMerged(was, hv.buf[..], y * hv.width, hv.width, line, x)
      {
        hv.MergeCellAt(x, y, line[x]);
        x := x + 1;
      }
    }

    /** Merges the history lines that are scrolled in, then the top of the screen. */
    method MergeLines()
      requires Ready() && Fits()
      modifies hv`dirtyCount, hv.buf, file
      ensures Ready() && Fits() && file.lines == old(file.lines)
      ensures Filled(old(hv.buf[..]), hv.buf[..], file.lines, scr.G(), First(), hv.height)
    {
      hide DirtyCount, RowMerged, Filled;
      ghost var was, lines := hv.buf[..], file.lines;
      var row, hline := 0, file.lcount - sback;
      NoneFilled(was, lines, scr.G(), First());
      while row < hv.height && hline < file.lcount
        invariant 0 <= row <= hv.height && hline == First() + row <= file.lcount
        invariant Ready() && Fits() && hv.InUse() && file.lines == lines
        invariant Filled(was, hv.buf[..], lines, scr.G(), First(), row)
      {
        ghost var before := hv.buf[..];
        HistoryPutLine(row, hline);
        RowFilled(was, before, hv.buf[..], lines, scr.G(), First(), row);
        row, hline := row + 1, hline + 1;
      }
      if row < hv.height {
        var src, ty := 0, 0;
        while row < hv.height && ty < scr.height
          invariant 0 <= row <= hv.height && First() + row == file.lcount + ty && src == ty * scr.width && 0 <= ty
          invariant Ready() && Fits() && hv.InUse() && file.lines == lines
          invariant Filled(was, hv.buf[..], lines, scr.G(), First(), row)
        {
          PutScreenRow(was, row, ty, src);
          src, row, ty := src + hv.width, row + 1, ty + 1;
        }
      }
    }

    method PutScreenRow(ghost was: seq<Cell>, row: nat, ty: nat, src: nat)
      requires Ready() && Fits() && hv.InUse() && row < hv.height && ty < scr.height && src == ty * scr.width
      requires First() + row == file.lcount + ty && Filled(was, hv.buf[..], file.lines, scr.G(), First(), row)
      modifies hv`dirtyCount, hv.buf
      ensures Ready() && Fits() && hv.InUse()
      ensures Filled(was, hv.buf[..], file.lines, scr.G(), First(), row + 1)
    {
      hide DirtyCount, RowMerged, Filled, Inside;
      ghost var before := hv.buf[..];
      LineFits(scr.G(), scr.width - 1, ty);
      MergeLine(row, scr.buf[src..src + scr.width]);
      RowFilled(was, before, hv.buf[..], file.lines, scr.G(), First(), row);
    }

    /** Draws the scrolled view with its selection; a view of another size starts over. */
    method Draw()
      requires Ready()
      modifies this, hv, hv.buf, file
      ensures Ready() && Right() && file.lines == old(file.lines) && B() == old(B())
      ensures (hv.buf == old(hv.buf) || fresh(hv.buf))
      ensures C() == old(C()).(sback := if old(Fits()) then old(sback) else 0)
      ensures if old(Fits()) then Redrawn(old(hv.buf[..]), hv.buf[..])
        else forall i :: 0 <= i < hv.buf.Length ==> hv.buf[i].dirty
    {
      hide DirtyCount, Row, Col, Chosen, Picture, Redrawn;
      if hv.width != scr.width || hv.height != scr.height {
        CopyScreen();
        sback := 0;
        MarkBlock();
        CopyPicture(hv.buf[..], file.lines, scr.G(), B(), cx, cy + First());
      } else {
        Redraw();
      }
    }

    method Redraw()
      requires Ready() && Fits()
      modifies this`x0, this`y0, this`x1, this`y1, this`inprogress, hv`dirtyCount, hv.buf, file
      ensures Ready() && Right() && file.lines == old(file.lines) && B() == old(B())
      ensures Redrawn(old(hv.buf[..]), hv.buf[..])
    {
      hide DirtyCount, Inside, Filled, Row, Col, Chosen, Marked, Touched, Picture, Redrawn;
      var selFlags := new Style[hv.buf.Length](i requires 0 <= i < hv.buf.Length reads hv, hv.buf => hv.buf[i].style);
      ghost var was := hv.buf[..];
      assert selFlags[..] == seq(|was|, i requires 0 <= i < |was| => was[i].style);
      MergeLines();
      ghost var merged := hv.buf[..];
      MarkBlock();
      ghost var marked := hv.buf[..];
      MarkChanged(selFlags);
      DrawnPicture(was, merged, marked, hv.buf[..], file.lines, scr.G(), First(), B(), cx, cy + First());
    }

    /** Cells whose selection mark changed are due. */
    method MarkChanged(selFlags: array<Style>)
      requires Ready() && Fits() && selFlags.Length == hv.buf.Length
      modifies hv`dirtyCount, hv.buf
      ensures Ready() && Fits()
      ensures Touched(old(hv.buf[..]), hv.buf[..], selFlags[..], hv.buf.Length)
    {
      hide DirtyCount, Inside;
      ghost var was := hv.buf[..];
      var f := 0;
      while f < hv.buf.Length
        invariant 0 <= f <= hv.buf.Length && Ready() && Fits()
        invariant Touched(was, hv.buf[..], selFlags[..], f)
      {
        if selFlags[f].selection != hv.buf[f].style.selection && !hv.buf[f].dirty {
          ghost var before := hv.buf[..];
          DirtyCountUpdate(before, f, before[f].(dirty := true));
          hv.buf[f] := hv.buf[f].(dirty := true);
          hv.dirtyCount := hv.dirtyCount + 1;
          assert hv.buf[..] == before[f := before[f].(dirty := true)];
        }
        f := f + 1;
      }
    }

    /** Marks the cell under the cursor: the picture stays. */
    method MarkCursor()
      requires Ready() && Right()
      modifies hv`dirtyCount, hv.buf
      ensures Ready() && Right() && Redrawn(old(hv.buf[..]), hv.buf[..])
    {
      hide DirtyCount, Inside, Picture;
      ghost var g := hv.G();
      hv.ProcessRegion(cx, cy, cx, cy, Dirty);
      DirtyPicture(g.cells, hv.buf[..], file.lines, scr.G(), First(), B(), cx, cy + First());
    }

    /** Moves the cursor, scrolls the view when it must, and redraws when the picture changes. */
    method CurMove(dx: int, dy: int)
      requires Ready() && Right()
      modifies this, hv, hv.buf, file
      ensures Ready() && Right() && hv.buf == old(hv.buf) && file.lines == old(file.lines) && B() == old(B())
      ensures C() == Step(old(C()), dx, dy, scr.width, scr.height, file.lcount)
      ensures Redrawn(old(hv.buf[..]), hv.buf[..])
    {
      hide DirtyCount, Picture, Redrawn;
      if dx != 0 || dy != 0 {
        ghost var was := hv.buf[..];
        MarkCursor();
        var nx := Clamp(cx + dx, 0, scr.width - 1);
        var ny := cy + dy;
        if ny < 0 {
          ScrollTo(was, nx, 0, Min(file.lcount, sback - ny));
          return;
        }
        if ny >= hv.height {
          ScrollTo(was, nx, hv.height - 1, Max(0, sback - (ny - (hv.height - 1))));
          return;
        }
        if nx != cx || ny != cy { ScrollTo(was, nx, ny, sback); }
      } else {
        Unmoved(hv.buf[..]);
      }
    }

    /** The new cursor place; drawn again if the view scrolled or a block follows the cursor. */
    method ScrollTo(ghost was: seq<Cell>, nx: int, ny: int, back: int)
      requires Ready() && Right() && Redrawn(was, hv.buf[..])
      requires Inside(Cursor(nx, ny, back), scr.width, scr.height, file.lcount)
      modifies this, hv, hv.buf, file
      ensures Ready() && Right() && hv.buf == old(hv.buf) && file.lines == old(file.lines) && B() == old(B())
      ensures C() == Cursor(nx, ny, back) && Redrawn(was, hv.buf[..])
    {
      hide DirtyCount, Picture, Redrawn;
      if !inprogress { CursorIdle(hv.buf[..], file.lines, scr.G(), First(), B(), cx, cy + First(), nx, ny + First()); }
      cx, cy := nx, ny;
      if back != sback || inprogress {
        sback := back;
        ghost var before := hv.buf[..];
        Redraw();
        RedrawnTwice(was, before, hv.buf[..]);
      }
      ghost var drawn := hv.buf[..];
      MarkCursor();
      RedrawnTwice(was, drawn, hv.buf[..]);
    }

    /** A block begins under the cursor. */
    method Start()
      requires Ready() && Right()
      modifies this, hv, hv.buf, file
      ensures Ready() && Right() && C() == old(C()) && file.lines == old(file.lines)
      ensures B() == Block(shape, cx, cy + First(), cx, old(y1), true) && shape == old(shape)
      ensures Redrawn(old(hv.buf[..]), hv.buf[..])
    {
      hide DirtyCount, Picture, Redrawn;
      x0, y0 := cx, cy + First();
      x1, inprogress := x0, true;
      Redraw();
    }

    /** Drops the block, if there is one on record. */
    method Reset()
      requires Ready() && Right()
      modifies this, hv, hv.buf, file
      ensures Ready() && Right() && C() == old(C()) && file.lines == old(file.lines)
      ensures B() == if old(y0 <= y1) then Block(shape, 0, 0, -1, -1, false) else old(B())
      ensures Redrawn(old(hv.buf[..]), hv.buf[..])
    {
      hide DirtyCount, Picture, Redrawn;
      if y0 <= y1 {
        x0, y0, x1, y1, inprogress := 0, 0, -1, -1, false;
        Redraw();
      } else {
        Unmoved(hv.buf[..]);
      }
    }
  }

  /** The first `n` cells are due if their selection mark is not the remembered one. */
  ghost predicate Touched(was: seq<Cell>, now: seq<Cell>, flags: seq<Style>, n: int) {
    |now| == |was| == |flags| && n <= |was| &&
    forall i :: 0 <= i < |was| ==>
      now[i] == if i < n && flags[i].selection != was[i].style.selection then was[i].(dirty := true) else was[i]
  }

  /** With lines as wide as the view, each row of it is one whole line of history and screen. */
  lemma RowShown(view: seq<Cell>, lines: seq<seq<Cell>>, screen: Grid, first: int, b: Block, cx: int, gy: int, i: nat)
    requires Picture(view, lines, screen, first, b, cx, gy) && AllWide(lines, screen.width) && i < |view|
    ensures var x, y := Col(i, screen.width), Row(i, screen.width);
      var line := if first + y < |lines| + screen.height then GlobalLine(lines, screen, first + y) else [];
      |line| == screen.width && SameLook(view[i], Marked(line[x], Chosen(b, cx, gy, x, first + y)))
  {
    hide Row, Col, Chosen, GlobalLine;
    RowInGrid(i, screen.width, screen.height);
    assert SameLook(view[i], Marked(Pick(view[i], i, lines, screen, first),
                                    Chosen(b, cx, gy, Col(i, screen.width), first + Row(i, screen.width))));
  }

  lemma Unmoved(view: seq<Cell>)
    ensures Redrawn(view, view)
  {
  }

  lemma RedrawnTwice(was: seq<Cell>, mid: seq<Cell>, now: seq<Cell>)
    requires Redrawn(was, mid) && Redrawn(mid, now)
    ensures Redrawn(was, now)
  {
  }

  /** A finished block does not follow the cursor. */
  lemma CursorIdle(view: seq<Cell>, lines: seq<seq<Cell>>, screen: Grid, first: int, b: Block, cx: int, gy: int,
                   nx: int, ny: int)
    requires !b.inprogress
    ensures Picture(view, lines, screen, first, b, cx, gy) <==> Picture(view, lines, screen, first, b, nx, ny)
  {
  }

  lemma DirtyPicture(was: seq<Cell>, now: seq<Cell>, lines: seq<seq<Cell>>, screen: Grid, first: int, b: Block, cx: int,
                     gy: int)
    requires Picture(was, lines, screen, first, b, cx, gy) && |now| == |was|
    requires forall i :: 0 <= i < |was| ==> now[i] == was[i] || now[i] == was[i].(dirty := true)
    ensures Picture(now, lines, screen, first, b, cx, gy) && Redrawn(was, now)
  {
    hide Row, Col, Chosen;
  }

  lemma NoneFilled(was: seq<Cell>, lines: seq<seq<Cell>>, screen: Grid, first: int)
    requires Live(screen) && |was| == |screen.cells| && 0 <= first <= |lines|
    ensures Filled(was, was, lines, screen, first, 0)
  {
    hide Row, Col;
  }

  /** Merging, marking and remembering together: the view is right, and what changed is due. */
  lemma DrawnPicture(was: seq<Cell>, merged: seq<Cell>, marked: seq<Cell>, now: seq<Cell>, lines: seq<seq<Cell>>,
                     screen: Grid, first: int, b: Block, cx: int, gy: int)
    requires Filled(was, merged, lines, screen, first, screen.height) && |marked| == |was|
    requires forall i :: 0 <= i < |was| ==>
      marked[i] == Marked(merged[i], Chosen(b, cx, gy, Col(i, screen.width), first + Row(i, screen.width)))
    requires Touched(marked, now, seq(|was|, i requires 0 <= i < |was| => was[i].style), |was|)
    ensures Picture(now, lines, screen, first, b, cx, gy) && Redrawn(was, now)
  {
    hide Row, Col, Chosen;
    forall i | 0 <= i < |was|
      ensures SameLook(now[i], Marked(Pick(now[i], i, lines, screen, first),
                                      Chosen(b, cx, gy, Col(i, screen.width), first + Row(i, screen.width))))
      ensures now[i].dirty || (!was[i].dirty && SameLook(was[i], now[i]))
    {
      RowInGrid(i, screen.width, screen.height);
      CellShown(was[i], now[i], i, lines, screen, first,
                Chosen(b, cx, gy, Col(i, screen.width), first + Row(i, screen.width)));
    }
  }

  lemma CellShown(d: Cell, now: Cell, i: nat, lines: seq<seq<Cell>>, screen: Grid, first: int, sel: bool)
    requires Live(screen) && i < |screen.cells| && 0 <= first <= |lines|
    requires now == Shown(d, Pick(d, i, lines, screen, first), sel)
    ensures SameLook(now, Marked(Pick(now, i, lines, screen, first), sel))
    ensures now.dirty || (!d.dirty && SameLook(d, now))
  {
    hide Row, Col;
  }

  lemma NoneMarked(was: seq<Cell>, w: nat, first: int, b: Block)
    requires w > 0 && !b.inprogress
    ensures MarkedTo(was, was, w, first, b, b.y0)
  {
    hide Row, Col;
  }

  /** Every line of the block walked, each cell is marked as the unfinished block says. */
  lemma EndedBlock(b: Block, e: Block, was: seq<Cell>, now: seq<Cell>, w: nat, h: nat, first: int, cx: int, gy: int)
    requires e == Ended(b, cx, gy) && MarkedTo(was, now, w, first, e, Max(e.y0, e.y1 + 1))
    ensures |now| == |was|
    ensures forall i :: 0 <= i < |was| ==> now[i] == Marked(was[i], Chosen(b, cx, gy, Col(i, w), first + Row(i, w)))
  {
    hide Row, Col, Ended;
    forall i | 0 <= i < |was|
      ensures now[i] == Marked(was[i], Chosen(b, cx, gy, Col(i, w), first + Row(i, w)))
    {
      EndedSame(b, cx, gy, Col(i, w), first + Row(i, w));
    }
  }

  /** With no history scrolled in, the view of a plain copy is right. */
  lemma CopyPicture(view: seq<Cell>, lines: seq<seq<Cell>>, screen: Grid, b: Block, cx: int, gy: int)
    requires Live(screen) && |view| == |screen.cells|
    requires forall i :: 0 <= i < |view| ==>
      view[i] == Marked(screen.cells[i].(dirty := true),
                        Chosen(b, cx, gy, Col(i, screen.width), |lines| + Row(i, screen.width)))
    ensures Picture(view, lines, screen, |lines|, b, cx, gy)
  {
    hide Row, Col, Chosen, Pick;
    forall i | 0 <= i < |view| ensures Pick(view[i], i, lines, screen, |lines|) == screen.cells[i] {
      ScreenPick(view[i], i, lines, screen);
    }
  }

  lemma ScreenPick(kept: Cell, i: nat, lines: seq<seq<Cell>>, screen: Grid)
    requires Live(screen) && i < |screen.cells|
    ensures Pick(kept, i, lines, screen, |lines|) == screen.cells[i]
  {
    hide Row, Col;
    var w, y := screen.width, Row(i, screen.width);
    RowInGrid(i, w, screen.height);
    IndexOf(i, w);
    LineFits(screen, w - 1, y);
    MulMono(0, y, w);
    assert GlobalLine(lines, screen, |lines| + y) == screen.cells[y * w..y * w + w];
  }
}
