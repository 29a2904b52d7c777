/** Inserting and deleting characters, as splices of one line. */
module LineSplice {
  import opened Cells

  /** A cell the splice exposes: blanked if there is an attribute cell to blank with. */
  function Gap(c: Cell, attr: Option<Cell>): Cell {
    if attr.Some? then Apply(FillWith(attr), c) else c
  }

  /** What a splice at column `x` puts at index `i` of its row. */
  function Spliced(g: Grid, x: int, count: int, insert: bool, attr: Option<Cell>, i: nat): Cell
    requires Live(g) && 0 <= x < g.width && count > 0 && i < |g.cells|
  {
    var c := Col(i, g.width);
    InRowOf(g, i);
    if c < x then g.cells[i]
    else if insert then
      if c < x + count then Gap(g.cells[i], attr) else g.cells[i - count]
    else
      if c + count < g.width then g.cells[i + count] else Gap(g.cells[i], attr)
  }

  lemma InRowOf(g: Grid, i: nat)
    requires Live(g) && i < |g.cells|
    ensures 0 <= i - Col(i, g.width) && i - Col(i, g.width) + g.width <= |g.cells|
  {
    hide Row, Col;
    RowInGrid(i, g.width, g.height);
    IndexOf(i, g.width);
    LineFits(g, g.width - 1, Row(i, g.width));
    MulMono(0, Row(i, g.width), g.width);
  }

  lemma MergeLooks(d: Cell, s: Cell)
    ensures SameLook(MergeCell(d, s), s)
  {
  }

  /** Closing the line: only the wrap mark of its own row goes. */
  lemma MarkGone(g: Grid, y: int, i: nat)
    requires Live(g) && 0 <= y < g.height && i < |g.cells|
    ensures var c := SetWrap(g, y, false).cells[i];
      SameLook(c, g.cells[i]) && (Row(i, g.width) != y ==> c == g.cells[i])
  {
    hide Row, Col;
    InLine(i, g.width, y);
    MulAdd(y, 1, g.width);
  }

  lemma InsertIsSplice(g: Grid, x: nat, y: nat, count: nat, attr: Option<Cell>, i: nat)
    requires Live(g) && y < g.height && x < g.width && count > 0 && i < |g.cells|
    ensures var r := ShiftChars(g, x, y, count, true, attr);
      if Row(i, g.width) != y then r.cells[i] == g.cells[i]
      else SameLook(r.cells[i], Spliced(g, x, count, true, attr, i))
  {
    hide Row, Col, Strip, Blank, SetWrap, Spliced, SameLook;
    var rest := g.width - x - count;
    LineFits(g, x, y);
    if rest > 0 {
      var s := g.(cells := Strip(g.cells, y * g.width + x, y * g.width + x + count, rest, true));
      InsertMoves(g, x, y, count, attr, i);
      Closed(g, Blank(s, x, y, x + count - 1, y, attr), y, i, Spliced(g, x, count, true, attr, i));
    } else {
      SpliceBlanks(g, x, y, count, true, attr, i);
      Closed(g, Blank(g, x, y, g.width - 1, y, attr), y, i, Spliced(g, x, count, true, attr, i));
    }
  }

  /** The splice before its line is closed. */
  ghost predicate Open(g: Grid, b: Grid, y: nat, i: nat, c: Cell)
    requires g.width > 0 && i < |g.cells| && i < |b.cells|
  {
    if Row(i, g.width) != y then b.cells[i] == g.cells[i] else SameLook(b.cells[i], c)
  }

  lemma Closed(g: Grid, b: Grid, y: nat, i: nat, c: Cell)
    requires Live(g) && Live(b) && SameSize(b, g) && y < g.height && i < |g.cells| && Open(g, b, y, i, c)
    ensures Open(g, SetWrap(b, y, false), y, i, c)
  {
    hide Row, SetWrap;
    MarkGone(b, y, i);
  }

  lemma InsertMoves(g: Grid, x: nat, y: nat, count: nat, attr: Option<Cell>, i: nat)
    requires Live(g) && y < g.height && count > 0 && x + count < g.width && i < |g.cells|
    ensures y * g.width + g.width <= |g.cells|
    ensures var s := g.(cells := Strip(g.cells, y * g.width + x, y * g.width + x + count, g.width - x - count, true));
      Open(g, Blank(s, x, y, x + count - 1, y, attr), y, i, Spliced(g, x, count, true, attr, i))
  {
    hide Row, Col, MergeCell, Apply, FillWith;
    var at := y * g.width + x;
    LineFits(g, x, y);
    InRowOf(g, i);
    InLine(i, g.width, y);
    if at + count <= i < at + g.width - x { MergeLooks(g.cells[i], g.cells[i - count]); }
  }

  /** A splice up to the end of the line only blanks. */
  lemma SpliceBlanks(g: Grid, x: nat, y: nat, count: nat, insert: bool, attr: Option<Cell>, i: nat)
    requires Live(g) && y < g.height && x < g.width && x + count >= g.width && count > 0 && i < |g.cells|
    ensures Open(g, Blank(g, x, y, g.width - 1, y, attr), y, i, Spliced(g, x, count, insert, attr, i))
  {
    hide Row, Col, Apply, FillWith;
    LineFits(g, x, y);
    InRowOf(g, i);
    InLine(i, g.width, y);
  }

  lemma DeleteIsSplice(g: Grid, x: nat, y: nat, count: nat, attr: Option<Cell>, i: nat)
    requires Live(g) && y < g.height && x < g.width && count > 0 && i < |g.cells|
    ensures var r := ShiftChars(g, x, y, count, false, attr);
      if Row(i, g.width) != y then r.cells[i] == g.cells[i]
      else SameLook(r.cells[i], Spliced(g, x, count, false, attr, i))
  {
    hide Row, Col, Strip, Blank, SetWrap, Spliced, SameLook;
    var rest := g.width - x - count;
    LineFits(g, x, y);
    if rest > 0 {
      var s := g.(cells := Strip(g.cells, y * g.width + x + count, y * g.width + x, rest, true));
      DeleteMoves(g, x, y, count, attr, i);
      Closed(g, Blank(s, g.width - count, y, g.width - 1, y, attr), y, i, Spliced(g, x, count, false, attr, i));
    } else {
      SpliceBlanks(g, x, y, count, false, attr, i);
      Closed(g, Blank(g, x, y, g.width - 1, y, attr), y, i, Spliced(g, x, count, false, attr, i));
    }
  }

  lemma DeleteMoves(g: Grid, x: nat, y: nat, count: nat, attr: Option<Cell>, i: nat)
    requires Live(g) && y < g.height && count > 0 && x + count < g.width && i < |g.cells|
    ensures y * g.width + g.width <= |g.cells|
    ensures var s := g.(cells := Strip(g.cells, y * g.width + x + count, y * g.width + x, g.width - x - count, true));
      Open(g, Blank(s, g.width - count, y, g.width - 1, y, attr), y, i, Spliced(g, x, count, false, attr, i))
  {
    hide Row, Col, MergeCell, Apply, FillWith;
    var at := y * g.width + x;
    LineFits(g, x, y);
    InRowOf(g, i);
    InLine(i, g.width, y);
    if at <= i < at + g.width - x - count { MergeLooks(g.cells[i], g.cells[i + count]); }
  }

  lemma LeftClipped(g: Grid, x: int, y: int, count: int, insert: bool, attr: Option<Cell>)
    requires Live(g) && 0 <= y < g.height && x < g.width && count > 0
    ensures ShiftChars(g, x, y, count, insert, attr) == ShiftChars(g, Max(x, 0), y, count, insert, attr)
  {
    hide Strip, Blank, SetWrap, Row, Col;
    if x < 0 { assert Max(x, 0) == 0; } else { assert Max(x, 0) == x; }
  }

  /** The copy, blank and unmark of the buffer amount to the splice; no other row is touched. */
  lemma ShiftIsSplice(g: Grid, x: int, y: int, count: int, insert: bool, attr: Option<Cell>, i: nat)
    requires Live(g) && 0 <= y < g.height && x < g.width && count > 0 && i < |g.cells|
    ensures var r := ShiftChars(g, x, y, count, insert, attr);
      if Row(i, g.width) != y then r.cells[i] == g.cells[i]
      else SameLook(r.cells[i], Spliced(g, Max(x, 0), count, insert, attr, i))
  {
    hide ShiftChars, Spliced, Row, Col;
    LeftClipped(g, x, y, count, insert, attr);
    if insert {
      InsertIsSplice(g, Max(x, 0), y, count, attr, i);
    } else {
      DeleteIsSplice(g, Max(x, 0), y, count, attr, i);
    }
  }

  /** Deleting what was inserted brings back the part of the line that was not pushed out. */
  lemma DeleteUndoesInsert(g: Grid, x: int, y: int, count: int, attr: Option<Cell>, attr1: Option<Cell>, i: nat)
    requires Live(g) && 0 <= y < g.height && x < g.width && count > 0 && i < |g.cells|
    ensures var r := ShiftChars(ShiftChars(g, x, y, count, true, attr), x, y, count, false, attr1);
      if Row(i, g.width) != y then r.cells[i] == g.cells[i]
      else (Col(i, g.width) < Max(x, 0) || Col(i, g.width) + count < g.width) ==> SameLook(r.cells[i], g.cells[i])
  {
    hide Row, Col, ShiftChars, Gap;
    var w, g1 := g.width, ShiftChars(g, x, y, count, true, attr);
    InRowOf(g, i);
    InLine(i, w, y);
    ShiftIsSplice(g, x, y, count, true, attr, i);
    ShiftIsSplice(g1, x, y, count, false, attr1, i);
    if Row(i, w) == y && Col(i, w) + count < w {
      InLine(i + count, w, y);
      ShiftIsSplice(g, x, y, count, true, attr, i + count);
    }
  }
}
