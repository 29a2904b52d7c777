/** Resizing with relayout: rows joined at their wrap marks, laid out again at the new width. */
module Relayout {
  import opened Cells

  // ---- what relayout means ----------------------------------------------------------

  /** A laid-out cell is redrawn; `more` says that its line goes on after it. */
  function Fresh(c: Cell, more: bool): Cell { c.(wrap := more, dirty := true) }

  predicate Wrapped(g: Grid, y: nat)
    requires Live(g) && y < g.height
  {
    LineFits(g, g.width - 1, y);
    g.cells[y * g.width + (g.width - 1)].wrap
  }

  function RowCells(g: Grid, y: nat): (r: seq<Cell>)
    requires Live(g) && y < g.height
    ensures |r| == g.width
  {
    LineFits(g, 0, y);
    g.cells[y * g.width..y * g.width + g.width]
  }

  /** The logical lines of the first `n` rows: a row after a wrapped one continues its line. */
  function Joined(g: Grid, n: nat): (r: seq<seq<Cell>>)
    requires Live(g) && n <= g.height
    ensures n > 0 ==> r != []
    ensures forall j :: 0 <= j < |r| ==> r[j] != []
  {
    if n == 0 then []
    else
      var before := Joined(g, n - 1);
      if n > 1 && Wrapped(g, n - 2) then
        before[..|before| - 1] + [before[|before| - 1] + RowCells(g, n - 1)]
      else before + [RowCells(g, n - 1)]
  }

  function Blanks(n: nat): (r: seq<Cell>)
    ensures |r| == n
  {
    seq(n, _ => DEFAULT_CELL)
  }

  /** How many blanks fill the row that ends after `len` cells. */
  function Slack(len: nat, nw: nat): (n: nat)
    requires nw > 0
    ensures n < nw
  {
    if Col(len, nw) == 0 then 0 else nw - Col(len, nw)
  }

  /** The cells of a line that goes on. */
  function Open(line: seq<Cell>): (r: seq<Cell>)
    ensures |r| == |line|
  {
    seq(|line|, i requires 0 <= i < |line| => Fresh(line[i], true))
  }

  /** A whole line: its cells, then blanks to the end of its last row. */
  function Padded(line: seq<Cell>, nw: nat): (r: seq<Cell>)
    requires nw > 0 && line != []
  {
    var last := |line| - 1;
    Open(line[..last]) + [Fresh(line[last], false)] + Blanks(Slack(|line|, nw))
  }

  function PaddedAll(lines: seq<seq<Cell>>, nw: nat): (r: seq<Cell>)
    requires nw > 0 && forall j :: 0 <= j < |lines| ==> lines[j] != []
  {
    if lines == [] then [] else PaddedAll(lines[..|lines| - 1], nw) + Padded(lines[|lines| - 1], nw)
  }

  /** Cell `i` of the new grid: a cell of the flow, or a blank past its end. Only the last cell of a
      row that goes on is marked as wrapped, and the first row never is. */
  function Settled(flow: seq<Cell>, nw: nat, i: nat): Cell
    requires nw > 0
  {
    var c := if i < |flow| then flow[i] else DEFAULT_CELL;
    c.(wrap := c.wrap && Col(i, nw) == nw - 1 && Row(i, nw) != 0)
  }

  /** Lines joined, padded, put end to end, cut off or filled up to the new height. */
  function Relaid(g: Grid, nw: nat, nh: nat): (r: Grid)
    requires Live(g) && nw > 0 && nh > 0
    ensures Live(r) && r.width == nw && r.height == nh
  {
    MulMono(0, nh, nw);
    var flow := PaddedAll(Joined(g, g.height), nw);
    Grid(nw, nh, seq(nw * nh, i requires 0 <= i < nw * nh => Settled(flow, nw, i)))
  }

  // ---- the flow, cell by cell -------------------------------------------------------

  /** Old cell `a` is the last one of its line. */
  predicate LineEnds(s: seq<Cell>, w: nat, a: nat)
    requires w > 0 && a < |s|
  {
    Col(a, w) == w - 1 && (!s[a].wrap || a + 1 == |s|)
  }

  /** What the first `a` old cells become, with the padding of the lines they end. */
  function Flow(s: seq<Cell>, w: nat, nw: nat, a: nat): (r: seq<Cell>)
    requires w > 0 && nw > 0 && a <= |s|
  {
    if a == 0 then []
    else
      var o := Flow(s, w, nw, a - 1) + [Fresh(s[a - 1], !LineEnds(s, w, a - 1))];
      if LineEnds(s, w, a - 1) then o + Blanks(Slack(|o|, nw)) else o
  }

  /** An earlier flow is a prefix of a later one. */
  lemma {:induction false} FlowPrefix(s: seq<Cell>, w: nat, nw: nat, a: nat, b: nat)
    requires w > 0 && nw > 0 && a <= b <= |s|
    ensures Flow(s, w, nw, a) <= Flow(s, w, nw, b)
    decreases b - a
  {
    if a < b { FlowPrefix(s, w, nw, a, b - 1); }
  }

  lemma {:induction false} ColAdd(a: nat, b: nat, w: nat)
    requires w > 0 && Col(a, w) == 0
    ensures Col(a + b, w) == Col(b, w)
    decreases a
  {
    if a >= w { ColAdd(a - w, b, w); }
  }

  lemma {:induction false} SlackFills(len: nat, nw: nat)
    requires nw > 0
    ensures Col(len + Slack(len, nw), nw) == 0
    decreases len
  {
    if len >= nw { SlackFills(len - nw, nw); }
  }

  lemma PaddedWhole(line: seq<Cell>, nw: nat)
    requires nw > 0 && line != []
    ensures Col(|Padded(line, nw)|, nw) == 0
  {
    SlackFills(|line|, nw);
  }

  lemma {:induction false} AllWhole(lines: seq<seq<Cell>>, nw: nat)
    requires nw > 0 && forall j :: 0 <= j < |lines| ==> lines[j] != []
    ensures Col(|PaddedAll(lines, nw)|, nw) == 0
    decreases |lines|
  {
    if lines != [] {
      AllWhole(lines[..|lines| - 1], nw);
      PaddedWhole(lines[|lines| - 1], nw);
      ColAdd(|PaddedAll(lines[..|lines| - 1], nw)|, |Padded(lines[|lines| - 1], nw)|, nw);
    }
  }

  /** Inside the row that starts at `at` the flow grows by the row's cells. */
  lemma {:induction false} FlowInRow(s: seq<Cell>, w: nat, nw: nat, at: nat, k: nat)
    requires w > 0 && nw > 0 && k < w && Col(at, w) == 0 && at + k <= |s|
    ensures Flow(s, w, nw, at + k) == Flow(s, w, nw, at) + Open(s[at..at + k])
    decreases k
  {
    hide Flow, LineEnds, Slack, Fresh, Open;
    if k > 0 {
      FlowInRow(s, w, nw, at, k - 1);
      NotLast(s, w, at, k - 1);
      FlowStep(s, w, nw, at + k - 1);
      assert s[at..at + k] == s[at..at + k - 1] + [s[at + k - 1]];
      OpenOne(s[at..at + k - 1], s[at + k - 1]);
    } else {
      assert s[at..at] == [];
    }
  }

  lemma NotLast(s: seq<Cell>, w: nat, at: nat, k: nat)
    requires k + 1 < w && Col(at, w) == 0 && at + k < |s|
    ensures !LineEnds(s, w, at + k)
  {
    ColAdd(at, k, w);
  }

  lemma OpenOne(line: seq<Cell>, c: Cell)
    ensures Open(line + [c]) == Open(line) + [Fresh(c, true)]
  {
  }

  lemma OpenAdd(a: seq<Cell>, b: seq<Cell>)
    ensures Open(a + b) == Open(a) + Open(b)
  {
  }

  /** A row's last cell ends a line or leaves it open. */
  lemma RowEnd(g: Grid, y: nat)
    requires Live(g) && y < g.height
    ensures 0 <= y * g.width && y * g.width + (g.width - 1) < |g.cells|
    ensures RowCells(g, y)[g.width - 1] == g.cells[y * g.width + (g.width - 1)]
    ensures LineEnds(g.cells, g.width, y * g.width + (g.width - 1)) <==> !Wrapped(g, y) || y + 1 == g.height
    ensures y * g.width + (g.width - 1) + 1 == (y + 1) * g.width
  {
    LineFits(g, g.width - 1, y);
    RowColOf(g.width - 1, y, g.width);
    if y + 1 < g.height { MulMono(y + 2, g.height, g.width); }
  }

  /** One more row: what the flow gains, given the line `prev` left open so far. */
  lemma FlowRow(s: seq<Cell>, w: nat, nw: nat, at: nat, base: seq<Cell>, prev: seq<Cell>)
    requires w > 0 && nw > 0 && Col(at, w) == 0 && at + w <= |s| && Col(|base|, nw) == 0
    requires Flow(s, w, nw, at) == base + Open(prev)
    ensures Flow(s, w, nw, at + w) ==
      var line := prev + s[at..at + w];
      base + if LineEnds(s, w, at + w - 1) then Padded(line, nw) else Open(line)
  {
    hide LineEnds, Flow, Padded, Col, Slack;
    FlowInRow(s, w, nw, at, w - 1);
    FlowStep(s, w, nw, at + w - 1);
    var row := s[at..at + w];
    assert row[..w - 1] == s[at..at + w - 1];
    LineGrows(base, prev, row, nw);
  }

  lemma FlowStep(s: seq<Cell>, w: nat, nw: nat, a: nat)
    requires w > 0 && nw > 0 && a < |s|
    ensures Flow(s, w, nw, a + 1) ==
      var o := Flow(s, w, nw, a) + [Fresh(s[a], !LineEnds(s, w, a))];
      if LineEnds(s, w, a) then o + Blanks(Slack(|o|, nw)) else o
  {
  }

  /** A line that gains a row, and one that ends with it. */
  lemma LineGrows(base: seq<Cell>, prev: seq<Cell>, row: seq<Cell>, nw: nat)
    requires nw > 0 && Col(|base|, nw) == 0 && row != []
    ensures var k := |row| - 1; var o := base + Open(prev) + Open(row[..k]);
      o + [Fresh(row[k], true)] == base + Open(prev + row) &&
      (o + [Fresh(row[k], false)]) + Blanks(Slack(|o| + 1, nw)) == base + Padded(prev + row, nw)
  {
    var line, k := prev + row, |row| - 1;
    var last := |line| - 1;
    assert line[..last] == prev + row[..k];
    OpenAdd(prev, row[..k]);
    assert line == line[..last] + [row[k]];
    OpenOne(line[..last], row[k]);
    ColAdd(|base|, |line|, nw);
  }

  /** The flow after `n` whole rows. */
  function RowsFlow(g: Grid, nw: nat, n: nat): seq<Cell>
    requires Live(g) && nw > 0 && n <= g.height
  {
    MulMono(n, g.height, g.width);
    Flow(g.cells, g.width, nw, n * g.width)
  }

  predicate Closed(g: Grid, n: nat)
    requires Live(g) && n <= g.height
  {
    n == 0 || n == g.height || !Wrapped(g, n - 1)
  }

  /** Row `n - 1` in flat indices. */
  lemma RowPlace(g: Grid, nw: nat, n: nat) returns (at: nat)
    requires Live(g) && nw > 0 && 0 < n <= g.height
    ensures Col(at, g.width) == 0 && at + g.width <= |g.cells| && RowCells(g, n - 1) == g.cells[at..at + g.width]
    ensures RowsFlow(g, nw, n - 1) == Flow(g.cells, g.width, nw, at)
    ensures RowsFlow(g, nw, n) == Flow(g.cells, g.width, nw, at + g.width)
    ensures LineEnds(g.cells, g.width, at + g.width - 1) <==> Closed(g, n)
  {
    hide Wrapped, Flow, LineEnds, Col;
    RowEnd(g, n - 1);
    RowColOf(0, n - 1, g.width);
    at := (n - 1) * g.width;
    assert n * g.width == at + g.width;
  }

  lemma RowsFlowStep(g: Grid, nw: nat, n: nat, base: seq<Cell>, prev: seq<Cell>)
    requires Live(g) && nw > 0 && 0 < n <= g.height && Col(|base|, nw) == 0
    requires RowsFlow(g, nw, n - 1) == base + Open(prev)
    ensures RowsFlow(g, nw, n) ==
      base + if Closed(g, n) then Padded(prev + RowCells(g, n - 1), nw) else Open(prev + RowCells(g, n - 1))
  {
    hide RowsFlow, Closed, RowCells, Flow, Padded, Open, LineEnds, Slack, Col;
    var at := RowPlace(g, nw, n);
    FlowRow(g.cells, g.width, nw, at, base, prev);
  }

  /** The flow is the joined lines, padded and put end to end. */
  lemma {:induction false} FlowJoined(g: Grid, nw: nat, n: nat)
    requires Live(g) && nw > 0 && n <= g.height
    ensures var lines := Joined(g, n);
      if Closed(g, n) then RowsFlow(g, nw, n) == PaddedAll(lines, nw)
      else RowsFlow(g, nw, n) == PaddedAll(lines[..|lines| - 1], nw) + Open(lines[|lines| - 1])
    decreases n
  {
    hide Wrapped, RowsFlow, RowCells, Padded;
    if n == 0 {
      FlowNothing(g, nw);
    } else {
      FlowJoined(g, nw, n - 1);
      var before := Joined(g, n - 1);
      var lines := Joined(g, n);
      var init := lines[..|lines| - 1];
      var prev := if n > 1 && Wrapped(g, n - 2) then before[|before| - 1] else [];
      assert n > 1 && Wrapped(g, n - 2) ==> init == before[..|before| - 1];
      assert !(n > 1 && Wrapped(g, n - 2)) ==> init == before;
      AllWhole(init, nw);
      assert PaddedAll(init, nw) + Open([]) == PaddedAll(init, nw);
      RowsFlowStep(g, nw, n, PaddedAll(init, nw), prev);
      assert lines[|lines| - 1] == prev + RowCells(g, n - 1);
    }
  }

  lemma FlowNothing(g: Grid, nw: nat)
    requires Live(g) && nw > 0
    ensures RowsFlow(g, nw, 0) == []
  {
  }

  lemma FlowWhole(g: Grid, nw: nat)
    requires Live(g) && nw > 0
    ensures Flow(g.cells, g.width, nw, |g.cells|) == PaddedAll(Joined(g, g.height), nw)
  {
    hide Flow, PaddedAll, Joined;
    FlowJoined(g, nw, g.height);
  }

  /** Where cell `x` of row `y` stands among the lines. */
  lemma ItCell(s: seq<Cell>, w: nat, h: nat, y: nat, x: nat)
    requires |s| == w * h && y < h && x < w
    ensures 0 <= y * w + x < |s| && (y + 1) * w == y * w + w <= |s| && ((y + 1) * w == |s| <==> y + 1 == h)
    ensures LineEnds(s, w, y * w + x) <==> x == w - 1 && (!s[y * w + x].wrap || y + 1 == h)
  {
    MulMono(y + 1, h, w);
    RowColOf(x, y, w);
    if y + 1 < h { MulMono(y + 2, h, w); }
  }

  // ---- the line iterator ------------------------------------------------------------

  /** Walks a cell buffer line by line: a cell, or nothing at the end of a line or of the text. */
  class LineIt {
    var w: nat
    var h: nat
    var x: nat
    var y: nat
    var addr: nat
    const buf: array<Cell>

    ghost predicate Valid()
      reads this, buf
    {
      w > 0 && buf.Length == w * h && y <= h && x <= w && addr == y * w + x <= buf.Length && (y == h ==> x == 0) &&
      (x == w ==> addr > 0 && LineEnds(buf[..], w, addr - 1))
    }

    /** The next step reports the end of a line, or of the text. */
    ghost predicate AtEnd()
      reads this
    {
      x == w || y == h
    }

    constructor (w: nat, h: nat, buf: array<Cell>)
      requires w > 0 && buf.Length == w * h
      ensures Valid() && addr == 0 && this.buf == buf && this.w == w && this.h == h && (AtEnd() <==> h == 0)
    {
      this.w, this.h, this.buf := w, h, buf;
      x, y, addr := 0, 0, 0;
    }

    method Get() returns (res: Option<Cell>)
      requires Valid()
      modifies this
      ensures Valid() && w == old(w) && h == old(h)
      ensures res.None? <==> old(AtEnd())
      ensures res.None? ==> addr == old(addr) && (AtEnd() <==> addr == buf.Length)
      ensures res.Some? ==> old(addr) < buf.Length && res.value == buf[old(addr)] && addr == old(addr) + 1
      ensures res.Some? ==> (AtEnd() <==> LineEnds(buf[..], w, old(addr)))
    {
      hide LineEnds;
      res := None;
      if y != h {
        if x == w {
          ItCell(buf[..], w, h, y, w - 1);
          x, y := 0, y + 1;
        } else {
          ItCell(buf[..], w, h, y, x);
          res := Some(buf[addr]);
          x, addr := x + 1, addr + 1;
          if x == w && res.value.wrap { x, y := 0, y + 1; }
        }
      }
    }
  }

  // ---- laying the cells out ---------------------------------------------------------

  /** The first `d` new cells are settled; a full row's last cell still waits for its wrap mark. */
  ghost predicate Placed(flow: seq<Cell>, nw: nat, now: seq<Cell>, d: nat, x: nat)
    requires nw > 0
  {
    d <= |now| &&
    forall i :: 0 <= i < d ==>
      now[i] == if i == d - 1 && x == nw then Settled(flow, nw, i).(wrap := false) else Settled(flow, nw, i)
  }

  /** How far the flow is written when `a` old cells are read. */
  ghost predicate Reached(s: seq<Cell>, w: nat, nw: nat, a: nat, atEnd: bool, d: nat, x: nat)
    requires w > 0 && nw > 0
  {
    a <= |s| &&
    if !atEnd then a < |s| && d == |Flow(s, w, nw, a)| && (x > 0 ==> a > 0 && !LineEnds(s, w, a - 1))
    else if x > 0 then a > 0 && LineEnds(s, w, a - 1) && d == |Flow(s, w, nw, a - 1)| + 1
    else a == |s| && d >= |Flow(s, w, nw, a)|
  }

  /** Where old cell `a` lands. */
  lemma FlowAt(s: seq<Cell>, w: nat, nw: nat, a: nat)
    requires w > 0 && nw > 0 && a < |s|
    ensures var d := |Flow(s, w, nw, a)|;
      d < |Flow(s, w, nw, |s|)| && Flow(s, w, nw, |s|)[d] == Fresh(s[a], !LineEnds(s, w, a))
  {
    hide LineEnds, Flow, Fresh, Slack;
    FlowPrefix(s, w, nw, a + 1, |s|);
    FlowStep(s, w, nw, a);
  }

  /** What follows the last cell of a line: blanks up to a full row. */
  lemma FlowPad(s: seq<Cell>, w: nat, nw: nat, a: nat)
    requires w > 0 && nw > 0 && a < |s| && LineEnds(s, w, a)
    ensures var flow, d := Flow(s, w, nw, |s|), |Flow(s, w, nw, a)| + 1; var n := d + Slack(d, nw);
      n == |Flow(s, w, nw, a + 1)| <= |flow| && forall i :: d <= i < n ==> flow[i] == DEFAULT_CELL
  {
    hide LineEnds, Flow, Fresh, Slack;
    FlowPrefix(s, w, nw, a + 1, |s|);
    FlowStep(s, w, nw, a);
  }

  /** A full row whose line goes on gets its wrap mark, unless it is the first row. */
  lemma MarkFull(flow: seq<Cell>, nw: nat, now: seq<Cell>, y: nat, i: nat, marked: seq<Cell>)
    requires nw > 0 && Col(i, nw) == nw - 1 && Row(i, nw) == y && i < |flow| && flow[i].wrap
    requires Placed(flow, nw, now, i + 1, nw)
    requires marked == if y != 0 then now[i := now[i].(wrap := true)] else now
    ensures Placed(flow, nw, marked, i + 1, 0)
  {
    hide Row, Col;
  }

  /** A cell takes its place. */
  lemma PlaceOne(flow: seq<Cell>, nw: nat, now: seq<Cell>, d: nat, x: nat, c: Cell)
    requires x < nw && d < |now| && Col(d, nw) == x && d < |flow| && flow[d].(wrap := false) == c
    requires Placed(flow, nw, now, d, x)
    ensures Placed(flow, nw, now[d := c], d + 1, x + 1)
  {
    hide Row, Col;
  }

  lemma SlackAt(y: nat, x: nat, nw: nat)
    requires 0 < x <= nw && 0 <= y * nw
    ensures Slack(y * nw + x, nw) == nw - x
  {
    if x < nw { RowColOf(x, y, nw); } else { RowColOf(0, y + 1, nw); }
  }

  /** Blanks complete the row at the end of a line, or of the text. */
  lemma PadRow(flow: seq<Cell>, nw: nat, was: seq<Cell>, now: seq<Cell>, at: nat, x: nat)
    requires nw > 0 && x <= nw && at + nw <= |was| == |now| && Placed(flow, nw, was, at + x, x)
    requires x > 0 ==> at + x <= |flow| && !flow[at + x - 1].wrap
    requires forall i :: at + x <= i < at + nw && i < |flow| ==> flow[i] == DEFAULT_CELL
    requires forall i :: 0 <= i < |was| ==> now[i] == if at + x <= i < at + nw then DEFAULT_CELL else was[i]
    ensures Placed(flow, nw, now, at + nw, 0)
  {
    hide Row, Col;
  }

  lemma StartLay(s: seq<Cell>, w: nat, nw: nat, now: seq<Cell>)
    requires w > 0 && nw > 0 && s != []
    ensures Placed(Flow(s, w, nw, |s|), nw, now, 0, 0) && Reached(s, w, nw, 0, false, 0, 0)
  {
  }

  /** The next cell goes where the flow stands. */
  lemma CanPlace(s: seq<Cell>, w: nat, nw: nat, a: nat, d: nat, x: nat, ends: bool)
    requires w > 0 && nw > 0 && a < |s| && Col(|s|, w) == 0 && Reached(s, w, nw, a, false, d, x)
    requires ends == LineEnds(s, w, a)
    ensures d == |Flow(s, w, nw, a)| && Reached(s, w, nw, a + 1, ends, d + 1, x + 1)
  {
    FlowStep(s, w, nw, a);
    LastEnds(s, w, a);
  }

  lemma {:induction false} LastEnds(s: seq<Cell>, w: nat, a: nat)
    requires w > 0 && a < |s| && Col(|s|, w) == 0
    ensures a + 1 == |s| ==> LineEnds(s, w, a)
  {
    IndexOf(|s|, w);
    if a + 1 == |s| {
      var h := Row(|s|, w);
      assert h > 0;
      assert (h - 1) * w == h * w - w;
      RowColOf(w - 1, h - 1, w);
    }
  }

  lemma AllPlaced(g: Grid, nw: nat, nh: nat, now: seq<Cell>)
    requires Live(g) && nw > 0 && nh > 0 && |now| == nw * nh
    requires Placed(Flow(g.cells, g.width, nw, |g.cells|), nw, now, nh * nw, 0)
    ensures Grid(nw, nh, now) == Relaid(g, nw, nh)
  {
    hide Flow, Settled, PaddedAll;
    FlowWhole(g, nw);
  }

  /** A full row is closed: its wrap mark is set, and the next cell starts a row. */
  method CloseRow(nbuf: array<Cell>, y: nat, nw: nat, ghost s: seq<Cell>, ghost w: nat, ghost a: nat)
    requires w > 0 && nw > 0 && 0 <= y * nw && Reached(s, w, nw, a, false, y * nw + nw, nw)
    requires Placed(Flow(s, w, nw, |s|), nw, nbuf[..], y * nw + nw, nw)
    modifies nbuf
    ensures (y + 1) * nw == y * nw + nw && Reached(s, w, nw, a, false, y * nw + nw, 0)
    ensures Placed(Flow(s, w, nw, |s|), nw, nbuf[..], y * nw + nw, 0)
  {
    hide LineEnds, Flow, Settled;
    ghost var was := nbuf[..];
    RowColOf(nw - 1, y, nw);
    FlowAt(s, w, nw, a - 1);
    FlowStep(s, w, nw, a - 1);
    if y != 0 { nbuf[y * nw + nw - 1] := nbuf[y * nw + nw - 1].(wrap := true); }
    MarkFull(Flow(s, w, nw, |s|), nw, was, y, y * nw + nw - 1, nbuf[..]);
  }

  /** Writes one cell; `ends` says that it is the last of its line. */
  method PutCell(nbuf: array<Cell>, y: nat, x: nat, nw: nat, c: Cell,
                 ghost s: seq<Cell>, ghost w: nat, ghost a: nat, ghost ends: bool)
    requires w > 0 && x < nw && 0 <= y * nw && y * nw + x < nbuf.Length && Col(|s|, w) == 0
    requires Reached(s, w, nw, a, false, y * nw + x, x) && a < |s| && c == s[a] && ends == LineEnds(s, w, a)
    requires Placed(Flow(s, w, nw, |s|), nw, nbuf[..], y * nw + x, x)
    modifies nbuf
    ensures Reached(s, w, nw, a + 1, ends, y * nw + x + 1, x + 1)
    ensures Placed(Flow(s, w, nw, |s|), nw, nbuf[..], y * nw + x + 1, x + 1)
  {
    hide LineEnds, Flow, Placed, Reached;
    CanPlace(s, w, nw, a, y * nw + x, x, ends);
    RowColOf(x, y, nw);
    FlowAt(s, w, nw, a);
    PlaceOne(Flow(s, w, nw, |s|), nw, nbuf[..], y * nw + x, x, Fresh(s[a], false));
    ghost var was := nbuf[..];
    nbuf[y * nw + x] := c.(wrap := false, dirty := true);
    assert nbuf[..] == was[y * nw + x := Fresh(s[a], false)];
  }

  /** Fills the rest of the row with blanks. */
  method PadOut(nbuf: array<Cell>, y: nat, x0: nat, nw: nat, ghost s: seq<Cell>, ghost w: nat, ghost a: nat)
    requires w > 0 && nw > 0 && x0 <= nw && 0 <= y * nw && y * nw + nw <= nbuf.Length
    requires Reached(s, w, nw, a, true, y * nw + x0, x0)
    requires Placed(Flow(s, w, nw, |s|), nw, nbuf[..], y * nw + x0, x0)
    modifies nbuf
    ensures (y + 1) * nw == y * nw + nw && Reached(s, w, nw, a, a == |s|, y * nw + nw, 0)
    ensures Placed(Flow(s, w, nw, |s|), nw, nbuf[..], y * nw + nw, 0)
  {
    hide LineEnds, Flow, Placed, Reached;
    ghost var was := nbuf[..];
    var d, x := y * nw + x0, x0;
    while x < nw
      invariant x0 <= x <= nw && d == y * nw + x
      invariant forall i :: 0 <= i < nbuf.Length ==> nbuf[i] == if y * nw + x0 <= i < d then DEFAULT_CELL else was[i]
    {
      nbuf[d] := DEFAULT_CELL;
      d, x := d + 1, x + 1;
    }
    FinishRow(s, w, nw, a, was, nbuf[..], y, x0);
  }

  lemma FinishRow(s: seq<Cell>, w: nat, nw: nat, a: nat, was: seq<Cell>, now: seq<Cell>, y: nat, x0: nat)
    requires w > 0 && nw > 0 && x0 <= nw && 0 <= y * nw && y * nw + nw <= |was| == |now|
    requires Reached(s, w, nw, a, true, y * nw + x0, x0) && Placed(Flow(s, w, nw, |s|), nw, was, y * nw + x0, x0)
    requires forall i :: 0 <= i < |was| ==> now[i] == if y * nw + x0 <= i < y * nw + nw then DEFAULT_CELL else was[i]
    ensures Reached(s, w, nw, a, a == |s|, y * nw + nw, 0)
    ensures Placed(Flow(s, w, nw, |s|), nw, now, y * nw + nw, 0)
  {
    hide LineEnds, Flow, Placed, Slack;
    if x0 > 0 {
      SlackAt(y, x0, nw);
      FlowAt(s, w, nw, a - 1);
      FlowPad(s, w, nw, a - 1);
    }
    PadRow(Flow(s, w, nw, |s|), nw, was, now, y * nw, x0);
  }

  /** Writes the relayout of the text that `it` starts to read. */
  method Lay(it: LineIt, nwidth: nat, nheight: nat, ghost g: Grid) returns (nbuf: array<Cell>)
    requires Live(g) && nwidth > 0 && nheight > 0
    requires it.Valid() && it.addr == 0 && !it.AtEnd() && it.w == g.width && it.h == g.height && it.buf[..] == g.cells
    modifies it
    ensures fresh(nbuf) && Grid(nwidth, nheight, nbuf[..]) == Relaid(g, nwidth, nheight)
  {
    hide LineEnds, Flow, Placed, Reached, Relaid;
    MulMono(0, nheight, nwidth);
    nbuf := new Cell[nwidth * nheight](_ => DEFAULT_CELL);
    ghost var s, w := g.cells, g.width;
    RowColOf(0, g.height, w);
    var x, y := 0, 0;
    StartLay(s, w, nwidth, nbuf[..]);
    while y < nheight
      invariant 0 <= y <= nheight && 0 <= x <= nwidth && (y == nheight ==> x == 0) && nbuf.Length == nwidth * nheight
      invariant it.Valid() && it.w == w && it.h == g.height && it.buf[..] == s && 0 <= y * nwidth
      invariant Placed(Flow(s, w, nwidth, |s|), nwidth, nbuf[..], y * nwidth + x, x)
      invariant Reached(s, w, nwidth, it.addr, it.AtEnd(), y * nwidth + x, x)
      decreases nheight - y, |s| - it.addr
    {
      RowFits(y, nheight, nwidth);
      ghost var a := it.addr;
      var src := it.Get();
      if src.Some? {
        if x == nwidth {
          CloseRow(nbuf, y, nwidth, s, w, a);
          x, y := 0, y + 1;
          if y == nheight { break; }
          RowFits(y, nheight, nwidth);
        }
        PutCell(nbuf, y, x, nwidth, src.value, s, w, a, it.AtEnd());
        x := x + 1;
      } else {
        PadOut(nbuf, y, x, nwidth, s, w, a);
        x, y := 0, y + 1;
      }
    }
    AllPlaced(g, nwidth, nheight, nbuf[..]);
  }

  lemma RowFits(y: nat, nh: nat, nw: nat)
    requires y < nh
    ensures 0 <= y * nw && y * nw + nw <= nw * nh
  {
    MulMono(0, y, nw);
    MulMono(y + 1, nh, nw);
  }

  // ---- without relayout -------------------------------------------------------------

  /** Rows cut off or filled up on the right, then the rows below. */
  function Cropped(g: Grid, nw: nat, nh: nat): (r: Grid)
    requires LiveOrFreed(g) && nw > 0 && nh > 0
    ensures Live(r) && r.width == nw && r.height == nh
  {
    MulMono(0, nh, nw);
    Grid(nw, nh, seq(nw * nh, i requires 0 <= i < nw * nh => CroppedCell(g, nw, i)))
  }

  function CroppedCell(g: Grid, nw: nat, i: nat): Cell
    requires LiveOrFreed(g) && nw > 0
  {
    var x, y := Col(i, nw), Row(i, nw);
    if x < g.width && y < g.height then LineFits(g, x, y); Fresh(g.cells[y * g.width + x], false) else DEFAULT_CELL
  }

  lemma CropAt(g: Grid, nw: nat, y: nat, x: nat)
    requires LiveOrFreed(g) && x < nw
    ensures 0 <= y * nw + x && (x < g.width && y < g.height ==> 0 <= y * g.width + x < |g.cells|)
    ensures CroppedCell(g, nw, y * nw + x) ==
      if x < g.width && y < g.height then Fresh(g.cells[y * g.width + x], false) else DEFAULT_CELL
  {
    RowColOf(x, y, nw);
    if x < g.width && y < g.height { LineFits(g, x, y); }
  }

  method CropRow(source: array<Cell>, nbuf: array<Cell>, y: nat, nw: nat, nh: nat, w: nat, h: nat, ghost g: Grid)
    requires LiveOrFreed(g) && w == g.width && h == g.height && nw > 0 && y < nh && nbuf.Length == nw * nh &&
      source != nbuf && source[..] == g.cells
    requires 0 <= y * nw <= nbuf.Length && forall i :: 0 <= i < y * nw ==> nbuf[i] == CroppedCell(g, nw, i)
    modifies nbuf
    ensures 0 <= y * nw + nw <= nbuf.Length && forall i :: 0 <= i < y * nw + nw ==> nbuf[i] == CroppedCell(g, nw, i)
  {
    hide CroppedCell;
    RowFits(y, nh, nw);
    var x := 0;
    while x < nw
      invariant 0 <= x <= nw
      invariant forall i :: 0 <= i < y * nw + x ==> nbuf[i] == CroppedCell(g, nw, i)
    {
      CropAt(g, nw, y, x);
      if y < h && x < w {
        nbuf[y * nw + x] := source[y * w + x].(wrap := false, dirty := true);
      } else {
        nbuf[y * nw + x] := DEFAULT_CELL;
      }
      x := x + 1;
    }
  }

  method Crop(source: array<Cell>, nwidth: nat, nheight: nat, w: nat, h: nat, ghost g: Grid) returns (nbuf: array<Cell>)
    requires LiveOrFreed(g) && w == g.width && h == g.height && nwidth > 0 && nheight > 0 && source[..] == g.cells
    ensures fresh(nbuf) && Grid(nwidth, nheight, nbuf[..]) == Cropped(g, nwidth, nheight)
  {
    hide CroppedCell;
    MulMono(0, nheight, nwidth);
    nbuf := new Cell[nwidth * nheight](_ => DEFAULT_CELL);
    var y := 0;
    while y < nheight
      invariant 0 <= y <= nheight && nbuf.Length == nwidth * nheight
      invariant 0 <= y * nwidth <= nbuf.Length
      invariant forall i :: 0 <= i < y * nwidth ==> nbuf[i] == CroppedCell(g, nwidth, i)
    {
      CropRow(source, nbuf, y, nwidth, nheight, w, h, g);
      y := y + 1;
    }
  }

  // ---- every resized cell is redrawn ------------------------------------------------

  lemma {:induction false} FlowDirty(s: seq<Cell>, w: nat, nw: nat, a: nat)
    requires w > 0 && nw > 0 && a <= |s|
    ensures forall i :: 0 <= i < |Flow(s, w, nw, a)| ==> Flow(s, w, nw, a)[i].dirty
    decreases a
  {
    hide LineEnds;
    if a > 0 { FlowDirty(s, w, nw, a - 1); }
  }

  lemma RelaidDirty(g: Grid, nw: nat, nh: nat)
    requires Live(g) && nw > 0 && nh > 0
    ensures DirtyCount(Relaid(g, nw, nh).cells) == nw * nh
  {
    hide DirtyCount, Flow, Joined, PaddedAll;
    FlowDirty(g.cells, g.width, nw, |g.cells|);
    FlowWhole(g, nw);
    DirtyCountAll(Relaid(g, nw, nh).cells);
  }

  lemma CroppedDirty(g: Grid, nw: nat, nh: nat)
    requires LiveOrFreed(g) && nw > 0 && nh > 0
    ensures DirtyCount(Cropped(g, nw, nh).cells) == nw * nh
  {
    hide DirtyCount;
    DirtyCountAll(Cropped(g, nw, nh).cells);
  }
}
