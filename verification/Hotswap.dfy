/** Hot swapping: one routine writes a tab to a file and reads it back, told which by a flag. */
module Hotswaps {
  import opened Cells
  import opened CellBuffers
  import Utf8

  type Blob = seq<Utf8.Byte>

  // ---- the format -------------------------------------------------------------------

  const MAX_SIDE := 32767
  const WORD := 0x1_0000_0000

  /** `active`, `mode`, `charset`, `escseq`, `child`, `title` and `deadstate`, as raw memory. */
  const HEAD_SIZES: seq<nat> := [4, 4, 4, 340, 8, 272, 4]
  /** `rdcp`, `mreport`, `colorMode`, `mouseReports`, `escesc` and `history.enabled`. */
  const TAIL_SIZES: seq<nat> := [4, 16, 4, 4, 4, 4]
  /** A screen's own fields, from `curpos` to `modesaved`. */
  const SCREEN_SIZES: seq<nat> := [16, 16, 12, 4, 4, 4, 12, 4, 4]

  predicate Sized(fields: seq<Blob>, sizes: seq<nat>) {
    |fields| == |sizes| && forall i :: 0 <= i < |fields| ==> |fields[i]| == sizes[i]
  }

  function Word(n: nat): (r: Blob)
    requires n < WORD
    ensures |r| == 4
  {
    [n % 256, n / 256 % 256, n / 65536 % 256, n / 16777216]
  }

  function FromWord(b: Blob): nat
    requires |b| == 4
  {
    var n0: int, n1: int, n2: int, n3: int := b[0], b[1], b[2], b[3];
    n0 + 256 * n1 + 65536 * n2 + 16777216 * n3
  }

  lemma WordBack(n: nat)
    requires n < WORD
    ensures FromWord(Word(n)) == n
  {
    var a, b := n / 256, n / 65536;
    assert b == a / 256 && n / 16777216 == b / 256;
    assert n == 256 * a + n % 256 && a == 256 * b + a % 256 && b == 256 * (b / 256) + b % 256;
  }

  function Bit(b: bool): nat { if b then 1 else 0 }

  /** The flag word of a cell. */
  function Flags(c: Cell): (n: nat)
    ensures n <= 0xffff
  {
    Bit(c.style.inverse) + 2 * Bit(c.style.underline) + 4 * Bit(c.style.bold) + 8 * Bit(c.style.blink) +
    0x100 * Bit(c.style.selection) + 0x4000 * Bit(c.wrap) + 0x8000 * Bit(c.dirty)
  }

  function CellFrom(ch: nat, flags: nat, fg: nat, bg: nat): Cell {
    Cell(ch % 0x1_0000,
         Style(flags % 2 == 1, flags / 2 % 2 == 1, flags / 4 % 2 == 1, flags / 8 % 2 == 1, flags / 0x100 % 2 == 1),
         fg, bg, flags / 0x4000 % 2 == 1, flags / 0x8000 % 2 == 1)
  }

  predicate CellFits(c: Cell) { c.ch <= 0xffff && c.fg < WORD && c.bg < WORD }

  lemma FlagsBack(c: Cell)
    requires CellFits(c)
    ensures CellFrom(c.ch, Flags(c), c.fg, c.bg) == c
  {
    hide Flags;
    FlagBits(c);
  }

  lemma FlagBits(c: Cell)
    ensures var f := Flags(c);
      (f % 2 == 1) == c.style.inverse && (f / 2 % 2 == 1) == c.style.underline && (f / 4 % 2 == 1) == c.style.bold &&
      (f / 8 % 2 == 1) == c.style.blink && (f / 0x100 % 2 == 1) == c.style.selection &&
      (f / 0x4000 % 2 == 1) == c.wrap && (f / 0x8000 % 2 == 1) == c.dirty
  {
    BitsApart(Bit(c.style.inverse), Bit(c.style.underline), Bit(c.style.bold), Bit(c.style.blink),
              Bit(c.style.selection), Bit(c.wrap), Bit(c.dirty));
  }

  lemma BitsApart(i: nat, u: nat, b: nat, l: nat, s: nat, w: nat, d: nat)
    requires i <= 1 && u <= 1 && b <= 1 && l <= 1 && s <= 1 && w <= 1 && d <= 1
    ensures var f := i + 2 * u + 4 * b + 8 * l + 0x100 * s + 0x4000 * w + 0x8000 * d;
      f % 2 == i && f / 2 % 2 == u && f / 4 % 2 == b && f / 8 % 2 == l &&
      f / 0x100 % 2 == s && f / 0x4000 % 2 == w && f / 0x8000 % 2 == d
  {
    var f := i + 2 * u + 4 * b + 8 * l + 0x100 * s + 0x4000 * w + 0x8000 * d;
    assert f / 0x8000 == d && f / 0x4000 == w + 2 * d;
    assert f / 0x100 == s + 2 * (0x20 * w + 0x40 * d);
    assert f / 8 == l + 2 * (0x10 * s + 0x400 * w + 0x800 * d);
    assert f / 4 == b + 2 * (l + 0x20 * s + 0x800 * w + 0x1000 * d);
    assert f / 2 == u + 2 * (b + 2 * l + 0x40 * s + 0x1000 * w + 0x2000 * d);
    assert f == i + 2 * (u + 2 * b + 4 * l + 0x80 * s + 0x2000 * w + 0x4000 * d);
  }

  function CellParts(c: Cell): (r: seq<Blob>)
    requires CellFits(c)
    ensures |r| == 4
  {
    [Word(c.ch), Word(Flags(c)), Word(c.fg), Word(c.bg)]
  }

  /** Pieces end to end. */
  function Cat(parts: seq<Blob>): Blob {
    if parts == [] then [] else Cat(parts[..|parts| - 1]) + parts[|parts| - 1]
  }

  predicate CellsFit(cells: seq<Cell>) { forall i :: 0 <= i < |cells| ==> CellFits(cells[i]) }

  function CellList(cells: seq<Cell>): (r: seq<Blob>)
    requires CellsFit(cells)
    ensures |r| == |cells|
  {
    seq(|cells|, i requires 0 <= i < |cells| => Cat(CellParts(cells[i])))
  }

  /** What the file keeps of a tab. */
  datatype Tab = Tab(main: Grid, alt: Grid, head: seq<Blob>, wrsize: nat, wrdata: Blob, tail: seq<Blob>,
                     mainFields: seq<Blob>, altFields: seq<Blob>, onAlt: bool)

  predicate Sound(v: Tab) {
    Live(v.main) && v.main.width <= MAX_SIDE && v.main.height <= MAX_SIDE &&
    (v.alt == NO_GRID || (Live(v.alt) && SameSize(v.alt, v.main))) && (v.onAlt ==> v.alt != NO_GRID) &&
    CellsFit(v.main.cells) && CellsFit(v.alt.cells) &&
    DirtyCount(v.main.cells) < WORD && DirtyCount(v.alt.cells) < WORD &&
    Sized(v.head, HEAD_SIZES) && Sized(v.tail, TAIL_SIZES) &&
    Sized(v.mainFields, SCREEN_SIZES) && Sized(v.altFields, SCREEN_SIZES) &&
    |v.wrdata| <= v.wrsize < WORD
  }

  function ShapeParts(v: Tab): (r: seq<Blob>)
    requires Sound(v)
    ensures |r| == 3
  {
    [Word(v.main.width), Word(v.main.height), [if v.alt != NO_GRID then 37 else 93]]
  }

  function HeadParts(v: Tab): (r: seq<Blob>)
    requires Sound(v)
    ensures |r| == 3
  {
    [Cat(v.head), Word(v.wrsize), Word(|v.wrdata|)]
  }

  function StateParts(v: Tab): (r: seq<Blob>)
    requires Sound(v)
    ensures |r| == 3
  {
    [Cat(HeadParts(v)), v.wrdata, Cat(v.tail)]
  }

  function BufferParts(cells: seq<Cell>): (r: seq<Blob>)
    requires CellsFit(cells) && DirtyCount(cells) < WORD
    ensures |r| == 2
  {
    [Word(DirtyCount(cells)), Cat(CellList(cells))]
  }

  function ScreenParts(fields: seq<Blob>, cells: seq<Cell>): (r: seq<Blob>)
    requires CellsFit(cells) && DirtyCount(cells) < WORD
    ensures |r| == 2
  {
    [Cat(fields), Cat(BufferParts(cells))]
  }

  function BothParts(v: Tab): (r: seq<Blob>)
    requires Sound(v)
    ensures |r| == 2
  {
    [Cat(ScreenParts(v.mainFields, v.main.cells)), Cat(ScreenParts(v.altFields, v.alt.cells))]
  }

  function ScreensParts(v: Tab): (r: seq<Blob>)
    requires Sound(v)
    ensures |r| == 2
  {
    [Cat(BothParts(v)), [if v.onAlt then 77 else 33]]
  }

  function RestParts(v: Tab): (r: seq<Blob>)
    requires Sound(v)
    ensures |r| == 2
  {
    [Cat(StateParts(v)), Cat(ScreensParts(v))]
  }

  function TabParts(v: Tab): (r: seq<Blob>)
    requires Sound(v)
    ensures |r| == 2
  {
    [Cat(ShapeParts(v)), Cat(RestParts(v))]
  }

  function EntryParts(v: Tab): (r: seq<Blob>)
    requires Sound(v)
    ensures |r| == 2
  {
    [[42], Cat(TabParts(v))]
  }

  /** Every tab is announced by a 42; a 96 ends the list. */
  function Piece(v: Option<Tab>): Blob
    requires v.Some? ==> Sound(v.value)
  {
    if v.Some? then Cat(EntryParts(v.value)) else [96]
  }

  predicate AllSound(tabs: seq<Tab>) { forall i :: 0 <= i < |tabs| ==> Sound(tabs[i]) }

  function Entry(tabs: seq<Tab>, i: nat): (r: Option<Tab>)
    requires AllSound(tabs)
    ensures r.Some? ==> Sound(r.value)
  {
    if i < |tabs| then Some(tabs[i]) else None
  }

  function Saved(tabs: seq<Tab>): (r: seq<Blob>)
    requires AllSound(tabs)
    ensures |r| == |tabs| + 1
  {
    seq(|tabs| + 1, i requires 0 <= i <= |tabs| => Piece(Entry(tabs, i)))
  }

  /** Reading gives up an output buffer that held nothing. */
  function Settled(v: Tab): Tab { if v.wrdata == [] then v.(wrsize := 0) else v }

  /** A loaded tab is drawn anew. */
  function AllDirty(g: Grid): Grid {
    g.(cells := seq(|g.cells|, i requires 0 <= i < |g.cells| => g.cells[i].(dirty := true)))
  }

  function Blank(n: nat): (r: Blob)
    ensures |r| == n
  {
    seq(n, _ => 0)
  }

  function BlankFields(sizes: seq<nat>): (r: seq<Blob>)
    ensures Sized(r, sizes)
  {
    seq(|sizes|, i requires 0 <= i < |sizes| => Blank(sizes[i]))
  }

  /** The least there can be of a tab. */
  function BlankTab(): (v: Tab)
    ensures Sound(v)
  {
    var g := Grid(1, 1, [DEFAULT_CELL]);
    DirtyCountAll(g.cells);
    Tab(g, NO_GRID, BlankFields(HEAD_SIZES), 0, [], BlankFields(TAIL_SIZES), BlankFields(SCREEN_SIZES),
        BlankFields(SCREEN_SIZES), false)
  }

  function Loaded(v: Tab): Tab { Settled(v).(main := AllDirty(v.main), alt := AllDirty(v.alt)) }

  // ---- one direction or the other ---------------------------------------------------

  /** The file is ready to take `enc` at its end, or to give it from here. */
  ghost predicate Ready(data: Blob, pos: nat, enc: Blob, doWrite: bool) {
    if doWrite then pos == |data| else pos + |enc| <= |data| && data[pos..pos + |enc|] == enc
  }

  /** `enc` was written, or read over. */
  ghost predicate Carried(data: Blob, pos: nat, data1: Blob, pos1: nat, enc: Blob, doWrite: bool) {
    pos1 == pos + |enc| && Ready(data, pos, enc, doWrite) && data1 == if doWrite then data + enc else data
  }

  lemma {:induction false} CatPrefix(parts: seq<Blob>, k: nat)
    requires k <= |parts|
    ensures Cat(parts[..k]) <= Cat(parts)
    ensures k < |parts| ==> Cat(parts[..k + 1]) == Cat(parts[..k]) + parts[k]
    decreases |parts|
  {
    var n := |parts| - 1;
    if k < |parts| {
      CatPrefix(parts[..n], k);
      assert parts[..n][..k] == parts[..k];
      assert parts[..k + 1][..k] == parts[..k];
    } else {
      assert parts[..k] == parts;
    }
  }

  /** The first `k` parts are done. */
  ghost predicate At(data: Blob, pos: nat, data1: Blob, pos1: nat, parts: seq<Blob>, k: nat, doWrite: bool) {
    k <= |parts| && Ready(data, pos, Cat(parts), doWrite) && Carried(data, pos, data1, pos1, Cat(parts[..k]), doWrite)
  }

  /** With the first `k` parts done the file is ready for the next one. */
  lemma PartReady(data: Blob, pos: nat, data1: Blob, pos1: nat, parts: seq<Blob>, k: nat, doWrite: bool)
    requires Ready(data, pos, Cat(parts), doWrite) && k < |parts| &&
      Carried(data, pos, data1, pos1, Cat(parts[..k]), doWrite)
    ensures Ready(data1, pos1, parts[k], doWrite)
  {
    hide Cat, Carried, Ready;
    PrefixPair(parts, k);
    PieceReady(data, pos, data1, pos1, Cat(parts), Cat(parts[..k]), parts[k], doWrite);
  }

  lemma PieceReady(data: Blob, pos: nat, data1: Blob, pos1: nat, all: Blob, a: Blob, b: Blob, doWrite: bool)
    requires Ready(data, pos, all, doWrite) && a + b <= all && Carried(data, pos, data1, pos1, a, doWrite)
    ensures Ready(data1, pos1, b, doWrite)
  {
    if !doWrite { PieceAt(data, pos, all, a, b); }
  }

  lemma PrefixPair(parts: seq<Blob>, k: nat)
    requires k < |parts|
    ensures Cat(parts[..k]) + parts[k] <= Cat(parts)
  {
    hide Cat;
    CatPrefix(parts, k);
    CatPrefix(parts, k + 1);
    assert Cat(parts[..k + 1]) == Cat(parts[..k]) + parts[k];
  }

  lemma PieceAt(data: Blob, pos: nat, all: Blob, a: Blob, b: Blob)
    requires pos + |all| <= |data| && data[pos..pos + |all|] == all && a + b <= all
    ensures pos + |a| + |b| <= |data| && data[pos + |a|..pos + |a| + |b|] == b
  {
    forall i | 0 <= i < |b| ensures data[pos + |a| + i] == b[i] {
      assert data[pos..pos + |all|][|a| + i] == all[|a| + i] == (a + b)[|a| + i];
    }
  }

  lemma PartDone(data: Blob, pos: nat, data1: Blob, pos1: nat, data2: Blob, pos2: nat, parts: seq<Blob>, k: nat,
                 doWrite: bool)
    requires k < |parts| && Carried(data, pos, data1, pos1, Cat(parts[..k]), doWrite)
    requires Carried(data1, pos1, data2, pos2, parts[k], doWrite)
    ensures Carried(data, pos, data2, pos2, Cat(parts[..k + 1]), doWrite)
  {
    hide Cat, Carried;
    CatPrefix(parts, k);
    TwoDone(data, pos, data1, pos1, data2, pos2, Cat(parts[..k]), parts[k], doWrite);
  }

  lemma TwoDone(data: Blob, pos: nat, data1: Blob, pos1: nat, data2: Blob, pos2: nat, a: Blob, b: Blob, doWrite: bool)
    requires Carried(data, pos, data1, pos1, a, doWrite) && Carried(data1, pos1, data2, pos2, b, doWrite)
    ensures Carried(data, pos, data2, pos2, a + b, doWrite)
  {
    if doWrite {
      assert data + a + b == data + (a + b);
    } else {
      assert data[pos..pos1 + |b|] == data[pos..pos1] + data[pos1..pos1 + |b|];
    }
  }

  lemma Begin(data: Blob, pos: nat, parts: seq<Blob>, doWrite: bool)
    requires Ready(data, pos, Cat(parts), doWrite)
    ensures At(data, pos, data, pos, parts, 0, doWrite)
    ensures if parts != [] then Ready(data, pos, parts[0], doWrite)
      else Carried(data, pos, data, pos, Cat(parts), doWrite)
  {
    if parts != [] { PartReady(data, pos, data, pos, parts, 0, doWrite); }
  }

  /** One part further, and the file is ready for the one after. */
  lemma PartStep(data: Blob, pos: nat, data1: Blob, pos1: nat, data2: Blob, pos2: nat, parts: seq<Blob>, k: nat,
                 doWrite: bool)
    requires At(data, pos, data1, pos1, parts, k, doWrite) && k < |parts|
    requires Carried(data1, pos1, data2, pos2, parts[k], doWrite)
    ensures At(data, pos, data2, pos2, parts, k + 1, doWrite)
    ensures k + 1 < |parts| ==> Ready(data2, pos2, parts[k + 1], doWrite)
    ensures k + 1 == |parts| ==> Carried(data, pos, data2, pos2, Cat(parts), doWrite)
  {
    hide Cat, Carried, Ready;
    PartDone(data, pos, data1, pos1, data2, pos2, parts, k, doWrite);
    if k + 1 < |parts| { PartReady(data, pos, data2, pos2, parts, k + 1, doWrite); }
    else { AllDone(parts); }
  }

  lemma BeginIf(good: bool, data: Blob, pos: nat, parts: seq<Blob>, doWrite: bool)
    requires good ==> parts != [] && Ready(data, pos, Cat(parts), doWrite)
    ensures good ==> At(data, pos, data, pos, parts, 0, doWrite) && Ready(data, pos, parts[0], doWrite)
  {
    hide Cat, Ready, At;
    if good { Begin(data, pos, parts, doWrite); }
  }

  lemma PartStepIf(good: bool, data: Blob, pos: nat, data1: Blob, pos1: nat, data2: Blob, pos2: nat, parts: seq<Blob>,
                   k: nat, doWrite: bool)
    requires good ==>
      k < |parts| && At(data, pos, data1, pos1, parts, k, doWrite) &&
      Carried(data1, pos1, data2, pos2, parts[k], doWrite)
    ensures good ==>
      At(data, pos, data2, pos2, parts, k + 1, doWrite) &&
      (k + 1 < |parts| ==> Ready(data2, pos2, parts[k + 1], doWrite) && (doWrite ==> pos2 == |data2|)) &&
      (k + 1 == |parts| ==> Carried(data, pos, data2, pos2, Cat(parts), doWrite))
  {
    hide Cat, Carried, Ready, At;
    if good {
      PartStep(data, pos, data1, pos1, data2, pos2, parts, k, doWrite);
      if k + 1 < |parts| { AtEnd(data2, pos2, parts[k + 1], doWrite); }
    }
  }

  lemma Finish(data: Blob, pos: nat, data1: Blob, pos1: nat, parts: seq<Blob>, doWrite: bool)
    requires At(data, pos, data1, pos1, parts, |parts|, doWrite)
    ensures Carried(data, pos, data1, pos1, Cat(parts), doWrite)
  {
    AllDone(parts);
  }

  lemma AllDone(parts: seq<Blob>)
    ensures parts[..|parts|] == parts
  {
  }

  class SwapFile {
    var data: Blob
    var pos: nat

    constructor ()
      ensures data == [] && pos == 0
    {
      data, pos := [], 0;
    }

    /** `size` raw bytes, out or in. */
    method Chunk(x: Blob, size: nat, doWrite: bool) returns (ok: bool, y: Blob)
      requires doWrite ==> |x| == size && pos == |data|
      modifies this
      ensures !doWrite ==> data == old(data) && pos >= old(pos) && (ok <==> old(pos) + size <= |data|)
      ensures ok ==> |y| == size && (doWrite ==> y == x) && Carried(old(data), old(pos), data, pos, y, doWrite)
      ensures doWrite ==> ok
    {
      ok, y := true, x;
      if doWrite {
        data, pos := data + x, pos + size;
      } else if pos + size <= |data| {
        y := data[pos..pos + size];
        pos := pos + size;
      } else {
        ok := false;
      }
    }

    method IoWord(n: int, doWrite: bool, ghost v: nat) returns (ok: bool, m: nat)
      requires v < WORD && (doWrite ==> n == v && pos == |data|)
      modifies this
      ensures !doWrite ==> data == old(data) && pos >= old(pos)
      ensures Ready(old(data), old(pos), Word(v), doWrite) ==>
        ok && m == v && Carried(old(data), old(pos), data, pos, Word(v), doWrite)
    {
      var b;
      ok, b := Chunk(if doWrite then Word(n) else [], 4, doWrite);
      m := 0;
      if ok { m := FromWord(b); }
      WordBack(v);
    }

    method IoByte(n: Utf8.Byte, doWrite: bool, ghost v: Utf8.Byte) returns (ok: bool, m: Utf8.Byte)
      requires doWrite ==> n == v && pos == |data|
      modifies this
      ensures !doWrite ==> data == old(data) && pos >= old(pos) && (ok ==> old(pos) < pos <= |data|)
      ensures Ready(old(data), old(pos), [v], doWrite) ==>
        ok && m == v && Carried(old(data), old(pos), data, pos, [v], doWrite)
    {
      var b;
      ok, b := Chunk([n], 1, doWrite);
      m := n;
      if ok { m := b[0]; }
    }

    /** Fields of known sizes, one after the other. */
    method IoFields(fields: seq<Blob>, sizes: seq<nat>, doWrite: bool, ghost v: seq<Blob>)
      returns (ok: bool, r: seq<Blob>)
      requires Sized(v, sizes) && (doWrite ==> fields == v && pos == |data|)
      modifies this
      ensures !doWrite ==> data == old(data) && pos >= old(pos)
      ensures Ready(old(data), old(pos), Cat(v), doWrite) ==>
        ok && r == v && Carried(old(data), old(pos), data, pos, Cat(v), doWrite)
    {
      hide Cat, Carried, Ready, At;
      ghost var d0, p0 := data, pos;
      ghost var good := Ready(d0, p0, Cat(v), doWrite);
      if good { Begin(d0, p0, v, doWrite); }
      ok, r := true, [];
      var k := 0;
      while k < |sizes|
        invariant 0 <= k <= |sizes| && ok && (if doWrite then pos == |data| else data == d0 && pos >= p0)
        invariant good ==> r == v[..k] && At(d0, p0, data, pos, v, k, doWrite)
        invariant good && k < |sizes| ==> Ready(data, pos, v[k], doWrite)
      {
        ghost var d1, p1 := data, pos;
        var b;
        ok, b := Chunk(if doWrite then fields[k] else [], sizes[k], doWrite);
        TakenWhole(good, d1, p1, data, pos, ok, b, v[k], doWrite);
        if !ok { return; }
        PartStepIf(good, d0, p0, d1, p1, data, pos, v, k, doWrite);
        r, k := r + [b], k + 1;
      }
      if good { Finish(d0, p0, data, pos, v, doWrite); }
    }

    /** One cell, widened to four words. */
    method IoCell(c: Cell, doWrite: bool, ghost v: Cell) returns (ok: bool, r: Cell)
      requires CellFits(v) && (doWrite ==> c == v && pos == |data|)
      modifies this
      ensures !doWrite ==> data == old(data) && pos >= old(pos)
      ensures Ready(old(data), old(pos), Cat(CellParts(v)), doWrite) ==>
        ok && r == v && Carried(old(data), old(pos), data, pos, Cat(CellParts(v)), doWrite)
    {
      ghost var parts := CellParts(v);
      FlagsBack(v);
      hide Cat, Carried, Ready, At, Flags, CellFrom, Word;
      ghost var d0, p0 := data, pos;
      ghost var good := Ready(d0, p0, Cat(parts), doWrite);
      BeginIf(good, d0, p0, parts, doWrite);
      r := c;
      var ch, flags, fg, bg;
      ghost var d, p := data, pos;
      ok, ch := IoWord(c.ch, doWrite, v.ch);
      if !ok { return; }
      PartStepIf(good, d0, p0, d, p, data, pos, parts, 0, doWrite);
      d, p := data, pos;
      ok, flags := IoWord(Flags(c), doWrite, Flags(v));
      if !ok { return; }
      PartStepIf(good, d0, p0, d, p, data, pos, parts, 1, doWrite);
      d, p := data, pos;
      ok, fg := IoWord(c.fg, doWrite, v.fg);
      if !ok { return; }
      PartStepIf(good, d0, p0, d, p, data, pos, parts, 2, doWrite);
      d, p := data, pos;
      ok, bg := IoWord(c.bg, doWrite, v.bg);
      if !ok { return; }
      PartStepIf(good, d0, p0, d, p, data, pos, parts, 3, doWrite);
      if !doWrite { r := CellFrom(ch, flags, fg, bg); }
    }

    method IoCellAt(cells: array<Cell>, f: nat, doWrite: bool, ghost v: seq<Cell>, ghost parts: seq<Blob>,
                    ghost d0: Blob, ghost p0: nat)
      returns (ok: bool)
      requires f < cells.Length == |v| == |parts| && CellFits(v[f]) && parts[f] == Cat(CellParts(v[f]))
      requires doWrite ==> cells[f] == v[f] && pos == |data|
      modifies this, cells
      ensures !doWrite ==> data == old(data) && pos >= old(pos)
      ensures cells[..] == if doWrite then old(cells[..]) else old(cells[..])[f := cells[f]]
      ensures SameUpto(old(cells[..]), v, f) && cells[f] == v[f] ==> SameUpto(cells[..], v, f + 1)
      ensures (Ready(d0, p0, Cat(parts), doWrite) && At(d0, p0, old(data), old(pos), parts, f, doWrite) &&
               Ready(old(data), old(pos), parts[f], doWrite)) ==>
        ok && cells[f] == v[f] && At(d0, p0, data, pos, parts, f + 1, doWrite) &&
        (f + 1 < |parts| ==> Ready(data, pos, parts[f + 1], doWrite))
    {
      hide Cat, Carried, Ready, At, CellFits, CellParts;
      ghost var d, p := data, pos;
      ghost var good := Ready(d0, p0, Cat(parts), doWrite) && At(d0, p0, d, p, parts, f, doWrite) &&
        Ready(d, p, parts[f], doWrite);
      var c;
      ok, c := IoCell(cells[f], doWrite, v[f]);
      if ok && !doWrite { cells[f] := c; }
      PartStepIf(good, d0, p0, d, p, data, pos, parts, f, doWrite);
    }

    /** The cells of a buffer, in order. */
    method IoCells(cells: array<Cell>, doWrite: bool, ghost v: seq<Cell>) returns (ok: bool)
      requires CellsFit(v) && cells.Length == |v| && (doWrite ==> cells[..] == v && pos == |data|)
      modifies this, cells
      ensures if doWrite then cells[..] == v else data == old(data) && pos >= old(pos)
      ensures Ready(old(data), old(pos), Cat(CellList(v)), doWrite) ==>
        ok && cells[..] == v && Carried(old(data), old(pos), data, pos, Cat(CellList(v)), doWrite)
    {
      hide Cat, Carried, Ready, At, CellFits, CellParts, CellList, CellsFit, SameUpto;
      ghost var parts := CellList(v);
      WriteReady(data, pos, Cat(parts), doWrite);
      NoneSame(cells[..], v);
      ghost var d0, p0 := data, pos;
      ghost var good := Ready(d0, p0, Cat(parts), doWrite);
      if good { Begin(d0, p0, parts, doWrite); }
      ok := true;
      var f := 0;
      while f < cells.Length
        invariant 0 <= f <= cells.Length && ok && (if doWrite then good else data == d0 && pos >= p0)
        invariant doWrite ==> cells[..] == v
        invariant good ==> SameUpto(cells[..], v, f)
        invariant good ==> At(d0, p0, data, pos, parts, f, doWrite)
        invariant good && f < |parts| ==> Ready(data, pos, parts[f], doWrite)
      {
        AtEnd(data, pos, parts[f], doWrite);
        ListAt(v, f);
        ok := IoCellAt(cells, f, doWrite, v, parts, d0, p0);
        if !ok { return; }
        f := f + 1;
      }
      if good {
        Finish(d0, p0, data, pos, parts, doWrite);
        SameWhole(cells[..], v);
      }
    }
  }

  /** What was there to take has been taken. */
  lemma TakenWhole(good: bool, data: Blob, pos: nat, data1: Blob, pos1: nat, ok: bool, y: Blob, v: Blob, doWrite: bool)
    requires if doWrite then ok && pos == |data| else (ok <==> pos + |v| <= |data|)
    requires ok ==> |y| == |v| && (doWrite ==> y == v || !good) && Carried(data, pos, data1, pos1, y, doWrite)
    requires good ==> Ready(data, pos, v, doWrite)
    ensures good ==> ok && y == v
    ensures ok && doWrite ==> pos1 == |data1|
  {
  }

  ghost predicate SameUpto(a: seq<Cell>, v: seq<Cell>, n: nat) {
    |a| == |v| && n <= |v| && forall i :: 0 <= i < n ==> a[i] == v[i]
  }

  lemma NoneSame(a: seq<Cell>, v: seq<Cell>)
    requires |a| == |v|
    ensures SameUpto(a, v, 0)
  {
  }

  lemma SameWhole(a: seq<Cell>, v: seq<Cell>)
    requires SameUpto(a, v, |v|)
    ensures a == v
  {
  }

  lemma ListAt(v: seq<Cell>, i: nat)
    requires CellsFit(v) && i < |v|
    ensures CellFits(v[i]) && CellList(v)[i] == Cat(CellParts(v[i]))
  {
  }

  lemma WriteReady(data: Blob, pos: nat, enc: Blob, doWrite: bool)
    requires doWrite ==> pos == |data|
    ensures doWrite ==> Ready(data, pos, enc, doWrite)
  {
  }

  lemma AtEnd(data: Blob, pos: nat, enc: Blob, doWrite: bool)
    requires doWrite ==> Ready(data, pos, enc, true)
    ensures doWrite ==> pos == |data|
  {
  }

  class HotTab {
    const main: CellBuffer
    const alt: CellBuffer
    var head: seq<Blob>
    var wrsize: nat
    var wrbuf: Blob
    var tail: seq<Blob>
    var mainFields: seq<Blob>
    var altFields: seq<Blob>
    var onAlt: bool

    ghost predicate Whole()
      reads this, main, alt, main.buf, alt.buf
    {
      main != alt && main.buf != alt.buf && main.Valid() && alt.Valid()
    }

    /** The buffers have a tab's sizes, whatever they hold. */
    ghost predicate Shaped(v: Tab)
      reads main, alt
    {
      main != alt && main.buf != alt.buf && main.width == v.main.width && main.height == v.main.height &&
      alt.width == v.alt.width && alt.height == v.alt.height &&
      main.buf.Length == |v.main.cells| && alt.buf.Length == |v.alt.cells|
    }

    ghost predicate MainFits(v: Tab)
      reads main
    {
      main.buf.Length == |v.main.cells| && (main.width == 0 ==> v.main.cells == [])
    }

    ghost predicate AltFits(v: Tab)
      reads alt
    {
      alt.buf.Length == |v.alt.cells| && (alt.width == 0 ==> v.alt.cells == [])
    }

    ghost predicate HoldsMain(v: Tab)
      reads this`mainFields, main, main.buf
    {
      mainFields == v.mainFields && main.buf[..] == v.main.cells && main.dirtyCount == DirtyCount(v.main.cells)
    }

    ghost predicate HoldsAlt(v: Tab)
      reads this`altFields, alt, alt.buf
    {
      altFields == v.altFields && alt.buf[..] == v.alt.cells && alt.dirtyCount == DirtyCount(v.alt.cells)
    }

    ghost predicate Holds(v: Tab)
      reads this`mainFields, this`altFields, this`onAlt, main, alt, main.buf, alt.buf
    {
      HoldsMain(v) && HoldsAlt(v) && onAlt == v.onAlt
    }

    predicate HasState(v: Tab)
      reads this
    {
      head == v.head && wrsize == v.wrsize && wrbuf == v.wrdata && tail == v.tail
    }

    /** The tab as a value. */
    ghost function V(): Tab
      reads this, main, alt, main.buf, alt.buf
    {
      Tab(main.G(), alt.G(), head, wrsize, wrbuf, tail, mainFields, altFields, onAlt)
    }

    ghost function Repr(): set<object>
      reads main, alt
    {
      {this, main, alt, main.buf, alt.buf}
    }

    /** A new terminal, about to be loaded. */
    constructor ()
      ensures Whole() && fresh(main) && fresh(alt) && fresh(main.buf) && fresh(alt.buf)
    {
      var m := new CellBuffer();
      m.New(80, 24);
      var a := new CellBuffer();
      main, alt := m, a;
      head, wrsize, wrbuf, tail, mainFields, altFields, onAlt := [], 0, [], [], [], [], false;
    }

    /** The size, and whether there is an alternate screen; when reading, both buffers get them. */
    method IoShape(f: SwapFile, doWrite: bool, ghost v: Tab) returns (ok: bool)
      requires Whole() && Sound(v) && (doWrite ==> Shaped(v) && f.pos == |f.data|)
      modifies f, main, alt
      ensures Whole() && (main.buf == old(main.buf) || fresh(main.buf)) && (alt.buf == old(alt.buf) || fresh(alt.buf))
      ensures if doWrite then unchanged(main) && unchanged(alt) else f.data == old(f.data) && f.pos >= old(f.pos)
      ensures Ready(old(f.data), old(f.pos), Cat(ShapeParts(v)), doWrite) ==>
        ok && Shaped(v) && Carried(old(f.data), old(f.pos), f.data, f.pos, Cat(ShapeParts(v)), doWrite)
    {
      hide Cat, Carried, Ready, At, DirtyCount;
      ghost var parts := ShapeParts(v);
      WriteReady(f.data, f.pos, Cat(parts), doWrite);
      ghost var d0, p0 := f.data, f.pos;
      ghost var good := Ready(d0, p0, Cat(parts), doWrite);
      BeginIf(good, d0, p0, parts, doWrite);
      ghost var d, p := d0, p0;
      var tw, th;
      ok, tw := f.IoWord(main.width, doWrite, v.main.width);
      if !ok { return; }
      PartStepIf(good, d0, p0, d, p, f.data, f.pos, parts, 0, doWrite);
      d, p := f.data, f.pos;
      ok, th := f.IoWord(main.height, doWrite, v.main.height);
      if !ok { return; }
      PartStepIf(good, d0, p0, d, p, f.data, f.pos, parts, 1, doWrite);
      d, p := f.data, f.pos;
      var bt: Utf8.Byte;
      ok, bt := f.IoByte(if alt.width != 0 then 37 else 93, doWrite, if v.alt != NO_GRID then 37 else 93);
      if !ok { return; }
      PartStepIf(good, d0, p0, d, p, f.data, f.pos, parts, 2, doWrite);
      ok := bt == 37 || bt == 93;
      if !ok || doWrite { return; }
      ok := Resize(tw, th, bt == 37);
    }

    /** Both buffers take the size read; a size out of range ends the program. */
    method Resize(tw: nat, th: nat, withAlt: bool) returns (ok: bool)
      requires Whole()
      modifies main, alt
      ensures Whole() && (main.buf == old(main.buf) || fresh(main.buf)) && (alt.buf == old(alt.buf) || fresh(alt.buf))
      ensures ok == (0 < tw <= MAX_SIDE && 0 < th <= MAX_SIDE)
      ensures ok ==> main.width == tw && main.height == th
      ensures ok ==> alt.width == (if withAlt then tw else 0) && alt.height == (if withAlt then th else 0)
    {
      hide DirtyCount;
      ok := 0 < tw <= MAX_SIDE && 0 < th <= MAX_SIDE;
      if ok {
        main.Resize(tw, th, false);
        if withAlt { alt.Resize(tw, th, false); } else { alt.Free(); }
      }
    }

    /** The raw fields before the output buffer, its room and its fill. */
    method IoHead(f: SwapFile, doWrite: bool, ghost v: Tab) returns (ok: bool, size: nat, used: nat)
      requires Sound(v) && (doWrite ==> HasState(v) && f.pos == |f.data|)
      modifies f, this`head
      ensures if doWrite then head == v.head else f.data == old(f.data) && f.pos >= old(f.pos)
      ensures Ready(old(f.data), old(f.pos), Cat(HeadParts(v)), doWrite) ==>
        ok && head == v.head && size == v.wrsize && used == |v.wrdata| &&
        Carried(old(f.data), old(f.pos), f.data, f.pos, Cat(HeadParts(v)), doWrite)
    {
      hide Cat, Carried, Ready, At, DirtyCount, CellFits, Sized;
      ghost var parts := HeadParts(v);
      WriteReady(f.data, f.pos, Cat(parts), doWrite);
      ghost var d0, p0 := f.data, f.pos;
      ghost var good := Ready(d0, p0, Cat(parts), doWrite);
      BeginIf(good, d0, p0, parts, doWrite);
      ghost var d, p := d0, p0;
      size, used := 0, 0;
      var fields;
      ok, fields := f.IoFields(head, HEAD_SIZES, doWrite, v.head);
      if !ok { return; }
      if !doWrite { head := fields; }
      PartStepIf(good, d0, p0, d, p, f.data, f.pos, parts, 0, doWrite);
      d, p := f.data, f.pos;
      ok, size := f.IoWord(wrsize, doWrite, v.wrsize);
      if !ok { return; }
      PartStepIf(good, d0, p0, d, p, f.data, f.pos, parts, 1, doWrite);
      d, p := f.data, f.pos;
      ok, used := f.IoWord(|wrbuf|, doWrite, |v.wrdata|);
      if !ok { return; }
      PartStepIf(good, d0, p0, d, p, f.data, f.pos, parts, 2, doWrite);
    }

    /** The raw fields around the output buffer, and what it holds. */
    method IoState(f: SwapFile, doWrite: bool, ghost v: Tab) returns (ok: bool)
      requires Sound(v) && (doWrite ==> HasState(v) && f.pos == |f.data|)
      modifies f, this`head, this`wrsize, this`wrbuf, this`tail
      ensures if doWrite then HasState(v) else f.data == old(f.data) && f.pos >= old(f.pos)
      ensures Ready(old(f.data), old(f.pos), Cat(StateParts(v)), doWrite) ==>
        ok && HasState(if doWrite then v else Settled(v)) &&
        Carried(old(f.data), old(f.pos), f.data, f.pos, Cat(StateParts(v)), doWrite)
    {
      hide Cat, Carried, Ready, At, DirtyCount, CellFits, Sized, HeadParts;
      ghost var parts := StateParts(v);
      WriteReady(f.data, f.pos, Cat(parts), doWrite);
      ghost var d0, p0 := f.data, f.pos;
      ghost var good := Ready(d0, p0, Cat(parts), doWrite);
      BeginIf(good, d0, p0, parts, doWrite);
      ghost var d, p := d0, p0;
      var size, used, fields;
      ok, size, used := IoHead(f, doWrite, v);
      if !ok { return; }
      PartStepIf(good, d0, p0, d, p, f.data, f.pos, parts, 0, doWrite);
      d, p := f.data, f.pos;
      ok := IoPending(f, size, used, doWrite, v.wrdata);
      if !ok { return; }
      PartStepIf(good, d0, p0, d, p, f.data, f.pos, parts, 1, doWrite);
      d, p := f.data, f.pos;
      ok, fields := f.IoFields(tail, TAIL_SIZES, doWrite, v.tail);
      if !ok { return; }
      if !doWrite { tail := fields; }
      PartStepIf(good, d0, p0, d, p, f.data, f.pos, parts, 2, doWrite);
    }

    /** The pending output: room for it is taken only when there is any. */
    method IoPending(f: SwapFile, size: nat, used: nat, doWrite: bool, ghost v: Blob) returns (ok: bool)
      requires doWrite ==> wrbuf == v && used == |v| && f.pos == |f.data|
      modifies f, this`wrsize, this`wrbuf
      ensures if doWrite then wrsize == old(wrsize) && wrbuf == v else f.data == old(f.data) && f.pos >= old(f.pos)
      ensures (used == |v| <= size && Ready(old(f.data), old(f.pos), v, doWrite)) ==>
        ok && wrbuf == v && Carried(old(f.data), old(f.pos), f.data, f.pos, v, doWrite) &&
        wrsize == if doWrite then old(wrsize) else if v == [] then 0 else size
    {
      ok := true;
      if !doWrite {
        wrbuf, wrsize := [], if used != 0 then size else 0;
        if used > size { ok := false; return; }
      }
      var b;
      ok, b := f.Chunk(wrbuf, used, doWrite);
      if ok && !doWrite { wrbuf := b; }
    }

    /** A buffer's dirty count and its cells; a freed buffer has no cells and no dirty ones. */
    method IoBuffer(f: SwapFile, buf: CellBuffer, doWrite: bool, ghost cells: seq<Cell>) returns (ok: bool)
      requires CellsFit(cells) && DirtyCount(cells) < WORD
      requires doWrite ==> buf.Valid() && buf.buf[..] == cells && f.pos == |f.data|
      modifies f, buf`dirtyCount, buf.buf
      ensures if doWrite then buf.buf[..] == cells && buf.dirtyCount == old(buf.dirtyCount)
        else f.data == old(f.data) && f.pos >= old(f.pos)
      ensures (buf.buf.Length == |cells| && (buf.width == 0 ==> cells == []) &&
               Ready(old(f.data), old(f.pos), Cat(BufferParts(cells)), doWrite)) ==>
        ok && buf.buf[..] == cells && buf.dirtyCount == DirtyCount(cells) &&
        Carried(old(f.data), old(f.pos), f.data, f.pos, Cat(BufferParts(cells)), doWrite)
    {
      hide Cat, Carried, Ready, At, DirtyCount, CellList, CellsFit;
      ghost var parts := BufferParts(cells);
      WriteReady(f.data, f.pos, Cat(parts), doWrite);
      NoCells(cells);
      ghost var d0, p0 := f.data, f.pos;
      ghost var good := Ready(d0, p0, Cat(parts), doWrite);
      BeginIf(good, d0, p0, parts, doWrite);
      ghost var d, p := d0, p0;
      var n;
      ok, n := f.IoWord(buf.dirtyCount, doWrite, DirtyCount(cells));
      if !ok { return; }
      if !doWrite { buf.dirtyCount := n; }
      PartStepIf(good, d0, p0, d, p, f.data, f.pos, parts, 0, doWrite);
      d, p := f.data, f.pos;
      ghost var u := if buf.buf.Length == |cells| then cells else seq(buf.buf.Length, _ => DEFAULT_CELL);
      DefaultsFit(u, cells, buf.buf.Length);
      ok := f.IoCells(buf.buf, doWrite, u);
      if !ok { return; }
      if good && buf.buf.Length == |cells| { PartStep(d0, p0, d, p, f.data, f.pos, parts, 1, doWrite); }
      ok := buf.width != 0 || buf.dirtyCount == 0;
    }

    /** A screen: its own fields, then its buffer. */
    method IoScreen(f: SwapFile, buf: CellBuffer, fields: seq<Blob>, doWrite: bool, ghost vf: seq<Blob>,
                    ghost cells: seq<Cell>)
      returns (ok: bool, r: seq<Blob>)
      requires Sized(vf, SCREEN_SIZES) && CellsFit(cells) && DirtyCount(cells) < WORD
      requires doWrite ==> fields == vf && buf.Valid() && buf.buf[..] == cells && f.pos == |f.data|
      modifies f, buf`dirtyCount, buf.buf
      ensures if doWrite then buf.buf[..] == cells && buf.dirtyCount == old(buf.dirtyCount)
        else f.data == old(f.data) && f.pos >= old(f.pos)
      ensures (buf.buf.Length == |cells| && (buf.width == 0 ==> cells == []) &&
               Ready(old(f.data), old(f.pos), Cat(ScreenParts(vf, cells)), doWrite)) ==>
        ok && r == vf && buf.buf[..] == cells && buf.dirtyCount == DirtyCount(cells) &&
        Carried(old(f.data), old(f.pos), f.data, f.pos, Cat(ScreenParts(vf, cells)), doWrite)
    {
      hide Cat, Carried, Ready, At, DirtyCount, Sized, CellsFit, BufferParts;
      ghost var parts := ScreenParts(vf, cells);
      WriteReady(f.data, f.pos, Cat(parts), doWrite);
      ghost var d0, p0 := f.data, f.pos;
      ghost var good := Ready(d0, p0, Cat(parts), doWrite);
      BeginIf(good, d0, p0, parts, doWrite);
      ghost var d, p := d0, p0;
      ok, r := f.IoFields(fields, SCREEN_SIZES, doWrite, vf);
      if !ok { return; }
      PartStepIf(good, d0, p0, d, p, f.data, f.pos, parts, 0, doWrite);
      d, p := f.data, f.pos;
      ok := IoBuffer(f, buf, doWrite, cells);
      if !ok { return; }
      if good && buf.buf.Length == |cells| && (buf.width == 0 ==> cells == []) {
        PartStep(d0, p0, d, p, f.data, f.pos, parts, 1, doWrite);
      }
    }

    /** The main screen. */
    method IoMain(f: SwapFile, doWrite: bool, ghost v: Tab) returns (ok: bool)
      requires Sound(v) && main != alt && main.buf != alt.buf
      requires doWrite ==> main.Valid() && HoldsMain(v) && f.pos == |f.data|
      modifies f, this`mainFields, main`dirtyCount, main.buf
      ensures if doWrite then HoldsMain(v) else f.data == old(f.data) && f.pos >= old(f.pos)
      ensures (old(MainFits(v)) &&
               Ready(old(f.data), old(f.pos), Cat(ScreenParts(v.mainFields, v.main.cells)), doWrite)) ==>
        ok && HoldsMain(v) &&
        Carried(old(f.data), old(f.pos), f.data, f.pos, Cat(ScreenParts(v.mainFields, v.main.cells)), doWrite)
    {
      hide Cat, Carried, Ready, At, DirtyCount, Sized, CellsFit, ScreenParts;
      var fields;
      ok, fields := IoScreen(f, main, mainFields, doWrite, v.mainFields, v.main.cells);
      if ok && !doWrite { mainFields := fields; }
    }

    /** The alternate screen. */
    method IoAlt(f: SwapFile, doWrite: bool, ghost v: Tab) returns (ok: bool)
      requires Sound(v) && main != alt && main.buf != alt.buf
      requires doWrite ==> alt.Valid() && HoldsAlt(v) && f.pos == |f.data|
      modifies f, this`altFields, alt`dirtyCount, alt.buf
      ensures if doWrite then HoldsAlt(v) else f.data == old(f.data) && f.pos >= old(f.pos)
      ensures (old(AltFits(v)) &&
               Ready(old(f.data), old(f.pos), Cat(ScreenParts(v.altFields, v.alt.cells)), doWrite)) ==>
        ok && HoldsAlt(v) &&
        Carried(old(f.data), old(f.pos), f.data, f.pos, Cat(ScreenParts(v.altFields, v.alt.cells)), doWrite)
    {
      hide Cat, Carried, Ready, At, DirtyCount, Sized, CellsFit, ScreenParts;
      var fields;
      ok, fields := IoScreen(f, alt, altFields, doWrite, v.altFields, v.alt.cells);
      if ok && !doWrite { altFields := fields; }
    }

    static lemma BothAre(v: Tab)
      requires Sound(v)
      ensures CellsFit(v.main.cells) && DirtyCount(v.main.cells) < WORD
      ensures CellsFit(v.alt.cells) && DirtyCount(v.alt.cells) < WORD
      ensures BothParts(v)[0] == Cat(ScreenParts(v.mainFields, v.main.cells))
      ensures BothParts(v)[1] == Cat(ScreenParts(v.altFields, v.alt.cells))
    {
    }

    lemma HeldFits(v: Tab)
      requires main.Valid() && alt.Valid() && HoldsMain(v) && HoldsAlt(v)
      ensures MainFits(v) && AltFits(v)
    {
      FreedHasNone(main);
      FreedHasNone(alt);
    }

    /** The main screen, then the alternate one. */
    method IoBoth(f: SwapFile, doWrite: bool, ghost v: Tab) returns (ok: bool)
      requires Sound(v) && main != alt && main.buf != alt.buf
      requires doWrite ==> main.Valid() && alt.Valid() && HoldsMain(v) && HoldsAlt(v) && f.pos == |f.data|
      modifies f, this`mainFields, this`altFields, main`dirtyCount, main.buf, alt`dirtyCount, alt.buf
      ensures if doWrite then HoldsMain(v) && HoldsAlt(v) else f.data == old(f.data) && f.pos >= old(f.pos)
      ensures (old(MainFits(v) && AltFits(v)) && Ready(old(f.data), old(f.pos), Cat(BothParts(v)), doWrite)) ==>
        ok && HoldsMain(v) && HoldsAlt(v) && Carried(old(f.data), old(f.pos), f.data, f.pos, Cat(BothParts(v)), doWrite)
    {
      hide Cat, Carried, Ready, At, DirtyCount, Sound, Sized, CellsFit, ScreenParts, BothParts, HoldsMain, HoldsAlt,
           MainFits, AltFits, CellBuffer.Valid;
      ghost var parts := BothParts(v);
      BothAre(v);
      WriteReady(f.data, f.pos, Cat(parts), doWrite);
      if doWrite { HeldFits(v); }
      ghost var d0, p0 := f.data, f.pos;
      ghost var good := Ready(d0, p0, Cat(parts), doWrite) && MainFits(v) && AltFits(v);
      BeginIf(good, d0, p0, parts, doWrite);
      ok := IoMain(f, doWrite, v);
      if !ok { return; }
      ghost var d, p := f.data, f.pos;
      PartStepIf(good, d0, p0, d0, p0, d, p, parts, 0, doWrite);
      ok := IoAlt(f, doWrite, v);
      if !ok { return; }
      PartStepIf(good, d0, p0, d, p, f.data, f.pos, parts, 1, doWrite);
    }

    /** Both screens and which of them is active. */
    method IoScreens(f: SwapFile, doWrite: bool, ghost v: Tab) returns (ok: bool)
      requires Sound(v) && main != alt && main.buf != alt.buf
      requires doWrite ==> main.Valid() && alt.Valid() && Shaped(v) && Holds(v) && f.pos == |f.data|
      modifies f, this`mainFields, this`altFields, this`onAlt, main`dirtyCount, main.buf, alt`dirtyCount, alt.buf
      ensures if doWrite then Holds(v) else f.data == old(f.data) && f.pos >= old(f.pos)
      ensures (old(Shaped(v)) && Ready(old(f.data), old(f.pos), Cat(ScreensParts(v)), doWrite)) ==>
        ok && Holds(v) && Carried(old(f.data), old(f.pos), f.data, f.pos, Cat(ScreensParts(v)), doWrite)
    {
      hide Cat, Carried, Ready, At, DirtyCount, Sized, CellsFit, BothParts;
      ghost var parts := ScreensParts(v);
      WriteReady(f.data, f.pos, Cat(parts), doWrite);
      assert v.onAlt ==> v.alt.width != 0;
      ghost var d0, p0 := f.data, f.pos;
      ghost var good := Ready(d0, p0, Cat(parts), doWrite) && Shaped(v);
      BeginIf(good, d0, p0, parts, doWrite);
      ghost var d, p := d0, p0;
      ok := IoBoth(f, doWrite, v);
      if !ok { return; }
      PartStepIf(good, d0, p0, d, p, f.data, f.pos, parts, 0, doWrite);
      d, p := f.data, f.pos;
      var bt: Utf8.Byte;
      ok, bt := f.IoByte(if onAlt then 77 else 33, doWrite, if v.onAlt then 77 else 33);
      if !ok { return; }
      PartStepIf(good, d0, p0, d, p, f.data, f.pos, parts, 1, doWrite);
      ok := bt == 33 || (bt == 77 && alt.width != 0);
      if ok && !doWrite { onAlt := bt == 77; }
    }

    lemma Taken(v: Tab)
      requires Whole() && Sound(v) && V() == v
      ensures Shaped(v) && HasState(v) && Holds(v)
    {
    }

    lemma Assembled(v: Tab, q: Tab)
      requires main != alt && main.buf != alt.buf && Sound(v) && Shaped(v) && HasState(q) && Holds(v)
      requires q == v || q == Settled(v)
      ensures Whole() && V() == q
    {
    }

    /** Everything after the size. */
    method IoRest(f: SwapFile, doWrite: bool, ghost v: Tab) returns (ok: bool)
      requires Sound(v) && main != alt && main.buf != alt.buf
      requires doWrite ==> main.Valid() && alt.Valid() && Shaped(v) && HasState(v) && Holds(v) && f.pos == |f.data|
      modifies f, this, main`dirtyCount, main.buf, alt`dirtyCount, alt.buf
      ensures if doWrite then HasState(v) && Holds(v) else f.data == old(f.data) && f.pos >= old(f.pos)
      ensures (old(Shaped(v)) && Ready(old(f.data), old(f.pos), Cat(RestParts(v)), doWrite)) ==>
        ok && HasState(if doWrite then v else Settled(v)) && Holds(v) &&
        Carried(old(f.data), old(f.pos), f.data, f.pos, Cat(RestParts(v)), doWrite)
    {
      hide Cat, Carried, Ready, At, DirtyCount, Sized, CellsFit, StateParts, ScreensParts, Holds;
      ghost var parts := RestParts(v);
      WriteReady(f.data, f.pos, Cat(parts), doWrite);
      ghost var d0, p0 := f.data, f.pos;
      ghost var good := Ready(d0, p0, Cat(parts), doWrite) && Shaped(v);
      BeginIf(good, d0, p0, parts, doWrite);
      ok := IoState(f, doWrite, v);
      if !ok { return; }
      ghost var d, p := f.data, f.pos;
      PartStepIf(good, d0, p0, d0, p0, d, p, parts, 0, doWrite);
      ok := IoScreens(f, doWrite, v);
      if !ok { return; }
      PartStepIf(good, d0, p0, d, p, f.data, f.pos, parts, 1, doWrite);
    }

    /** One tab, out or in: what is in the file is what is in the tab. */
    method Io(f: SwapFile, doWrite: bool, ghost v: Tab) returns (ok: bool)
      requires Sound(v) && Whole() && (doWrite ==> V() == v && f.pos == |f.data|)
      modifies f, this, main, main.buf, alt, alt.buf
      ensures main.buf != alt.buf
      ensures (main.buf == old(main.buf) || fresh(main.buf)) && (alt.buf == old(alt.buf) || fresh(alt.buf))
      ensures doWrite ==> main.buf == old(main.buf) && alt.buf == old(alt.buf)
      ensures if doWrite then V() == v && Whole() else f.data == old(f.data) && f.pos >= old(f.pos)
      ensures Ready(old(f.data), old(f.pos), Cat(TabParts(v)), doWrite) ==>
        ok && Whole() && V() == (if doWrite then v else Settled(v)) &&
        Carried(old(f.data), old(f.pos), f.data, f.pos, Cat(TabParts(v)), doWrite)
    {
      hide Cat, Carried, Ready, At, DirtyCount, Sized, CellsFit, ShapeParts, RestParts, HasState, Holds, Settled;
      ghost var parts := TabParts(v);
      WriteReady(f.data, f.pos, Cat(parts), doWrite);
      if doWrite { Taken(v); }
      ghost var d0, p0 := f.data, f.pos;
      ghost var good := Ready(d0, p0, Cat(parts), doWrite);
      BeginIf(good, d0, p0, parts, doWrite);
      ok := IoShape(f, doWrite, v);
      if !ok { return; }
      ghost var d, p := f.data, f.pos;
      PartStepIf(good, d0, p0, d0, p0, d, p, parts, 0, doWrite);
      ok := IoRest(f, doWrite, v);
      if !ok { return; }
      if good {
        PartStep(d0, p0, d, p, f.data, f.pos, parts, 1, doWrite);
        Assembled(v, if doWrite then v else Settled(v));
      }
    }

    /** A loaded tab has both its buffers drawn anew. */
    method Redraw()
      requires main != alt && main.buf != alt.buf
      modifies main`dirtyCount, main.buf, alt`dirtyCount, alt.buf
      ensures V() == old(V()).(main := AllDirty(old(V()).main), alt := AllDirty(old(V()).alt)) &&
        (old(Whole()) ==> Whole())
    {
      hide AllDirty, DirtyCount;
      MarkAllDirty(main);
      MarkAllDirty(alt);
    }
  }

  lemma DefaultsFit(u: seq<Cell>, cells: seq<Cell>, n: nat)
    requires CellsFit(cells) && u == if n == |cells| then cells else seq(n, _ => DEFAULT_CELL)
    ensures CellsFit(u) && |u| == n
  {
  }

  lemma FreedHasNone(buf: CellBuffer)
    requires buf.Valid()
    ensures buf.width == 0 ==> buf.buf.Length == 0
  {
    hide DirtyCount;
    if buf.width == 0 { assert buf.width * buf.height == 0; }
  }

  lemma NoCells(cells: seq<Cell>)
    ensures cells == [] ==> DirtyCount(cells) == 0
  {
  }

  // ---- lists of tabs ----------------------------------------------------------------

  /** Marks a whole buffer for redrawing; a count that was exact stays exact. */
  method MarkAllDirty(buf: CellBuffer)
    modifies buf`dirtyCount, buf.buf
    ensures buf.G() == AllDirty(old(buf.G())) && (old(buf.Valid()) ==> buf.Valid())
  {
    hide DirtyCount;
    ghost var was := buf.buf[..];
    ghost var off := buf.dirtyCount - DirtyCount(was);
    var i := 0;
    while i < buf.buf.Length
      invariant 0 <= i <= buf.buf.Length && buf.dirtyCount - DirtyCount(buf.buf[..]) == off
      invariant forall j :: 0 <= j < |was| ==> buf.buf[j] == if j < i then was[j].(dirty := true) else was[j]
    {
      ghost var before := buf.buf[..];
      var c := buf.buf[i].(dirty := true);
      DirtyCountUpdate(before, i, c);
      if !buf.buf[i].dirty { buf.dirtyCount := buf.dirtyCount + 1; }
      buf.buf[i] := c;
      assert buf.buf[..] == before[i := c];
      i := i + 1;
    }
    assert buf.buf[..] == AllDirty(old(buf.G())).cells;
  }

  /** Writes one entry of the list: a tab behind its 42. */
  method SaveTab(t: HotTab, f: SwapFile, ghost v: Tab)
    requires t.Whole() && Sound(v) && t.V() == v && f.pos == |f.data|
    modifies f, t.Repr()
    ensures t.Whole() && t.V() == v && t.Repr() == old(t.Repr())
    ensures Carried(old(f.data), old(f.pos), f.data, f.pos, Piece(Some(v)), true)
  {
    hide Cat, Carried, Ready, At, DirtyCount, Sound, TabParts;
    ghost var parts := EntryParts(v);
    WriteReady(f.data, f.pos, Cat(parts), true);
    ghost var d0, p0 := f.data, f.pos;
    Begin(d0, p0, parts, true);
    var ok, more := f.IoByte(42, true, 42);
    ghost var d, p := f.data, f.pos;
    PartStep(d0, p0, d0, p0, d, p, parts, 0, true);
    AtEnd(d, p, parts[1], true);
    ok := t.Io(f, true, v);
    PartStep(d0, p0, d, p, f.data, f.pos, parts, 1, true);
  }

  ghost predicate IsLoaded(t: HotTab, v: Tab)
    reads t, t.main, t.alt, t.main.buf, t.alt.buf
  {
    t.Whole() && t.V() == Loaded(v)
  }

  /** A new tab, loaded and due for drawing. */
  method LoadNew(f: SwapFile, ghost v: Tab) returns (ok: bool, t: HotTab)
    requires Sound(v)
    modifies f
    ensures f.data == old(f.data) && f.pos >= old(f.pos)
    ensures fresh(t) && fresh(t.main) && fresh(t.alt) && fresh(t.main.buf) && fresh(t.alt.buf)
    ensures Ready(old(f.data), old(f.pos), Cat(TabParts(v)), false) ==>
      ok && IsLoaded(t, v) && Carried(old(f.data), old(f.pos), f.data, f.pos, Cat(TabParts(v)), false)
  {
    hide Cat, Carried, Ready, At, DirtyCount, Sound, TabParts, AllDirty;
    t := new HotTab();
    ok := t.Io(f, false, v);
    if ok { t.Redraw(); }
  }

  /** Reads one entry: a new tab, or null for the end of the list. */
  method LoadTab(f: SwapFile, ghost v: Option<Tab>) returns (ok: bool, t: HotTab?)
    requires v.Some? ==> Sound(v.value)
    modifies f
    ensures f.data == old(f.data) && (ok && t != null ==> old(f.pos) < |f.data| && f.pos > old(f.pos))
    ensures t != null ==> fresh(t) && fresh(t.main) && fresh(t.alt) && fresh(t.main.buf) && fresh(t.alt.buf)
    ensures Ready(old(f.data), old(f.pos), Piece(v), false) ==>
      ok && Carried(old(f.data), old(f.pos), f.data, f.pos, Piece(v), false) &&
      if v.None? then t == null else t != null && IsLoaded(t, v.value)
  {
    hide Cat, Carried, Ready, At, DirtyCount, Sound, TabParts, Loaded, CellBuffer.Valid;
    ghost var w := if v.Some? then v.value else BlankTab();
    ghost var parts := EntryParts(w);
    assert v.Some? ==> Piece(v) == Cat(parts);
    ghost var d0, p0 := f.data, f.pos;
    ghost var good := v.Some? && Ready(d0, p0, Cat(parts), false);
    BeginIf(good, d0, p0, parts, false);
    t := null;
    var more;
    ok, more := f.IoByte(42, false, if v.Some? then 42 else 96);
    if !ok || more == 96 { return; }
    if more != 42 { ok := false; return; }
    ghost var d, p := f.data, f.pos;
    PartStepIf(good, d0, p0, d0, p0, d, p, parts, 0, false);
    ok, t := LoadNew(f, w);
    PartStepIf(good, d0, p0, d, p, f.data, f.pos, parts, 1, false);
  }

  ghost predicate Is(t: HotTab, v: Tab, repr: set<object>)
    reads t, t.main, t.alt, t.main.buf, t.alt.buf
  {
    t.Whole() && t.V() == v && t.Repr() == repr
  }

  /** `k` parts are done, and the file is ready for the next one. */
  ghost predicate Awaiting(parts: seq<Blob>, d0: Blob, p0: nat, data: Blob, pos: nat, k: nat, doWrite: bool) {
    k < |parts| && At(d0, p0, data, pos, parts, k, doWrite) && Ready(data, pos, parts[k], doWrite)
  }

  lemma FirstPart(parts: seq<Blob>, data: Blob, pos: nat, doWrite: bool)
    requires parts != [] && Ready(data, pos, Cat(parts), doWrite)
    ensures Awaiting(parts, data, pos, data, pos, 0, doWrite)
  {
    hide Cat, Ready;
    Begin(data, pos, parts, doWrite);
  }

  lemma NextPart(parts: seq<Blob>, d0: Blob, p0: nat, data: Blob, pos: nat, data1: Blob, pos1: nat, k: nat,
                 doWrite: bool)
    requires Awaiting(parts, d0, p0, data, pos, k, doWrite) && Carried(data, pos, data1, pos1, parts[k], doWrite)
    ensures if k + 1 < |parts| then Awaiting(parts, d0, p0, data1, pos1, k + 1, doWrite)
      else Carried(d0, p0, data1, pos1, Cat(parts), doWrite)
  {
    hide Cat, Ready, Carried, At;
    PartStep(d0, p0, data, pos, data1, pos1, parts, k, doWrite);
  }

  lemma PartExpected(parts: seq<Blob>, d0: Blob, p0: nat, data: Blob, pos: nat, k: nat, doWrite: bool)
    requires Awaiting(parts, d0, p0, data, pos, k, doWrite)
    ensures k < |parts| && Ready(data, pos, parts[k], doWrite) && (doWrite ==> pos == |data|)
  {
  }

  /** What comes after `k` tabs: the next one, or the end mark. */
  lemma EntryAt(vs: seq<Tab>, k: nat)
    requires AllSound(vs)
    ensures k <= |vs| ==> Saved(vs)[k] == Piece(Entry(vs, k))
    ensures if k < |vs| then Entry(vs, k) == Some(vs[k]) && Sound(vs[k])
      else Entry(vs, k) == None && Piece(None) == [96]
  {
  }

  /** One tab of the list is written, all of them stay what they are. */
  method SaveOne(tabs: seq<HotTab>, k: nat, f: SwapFile, ghost vs: seq<Tab>, ghost reprs: seq<set<object>>)
    requires k < |tabs| == |vs| == |reprs| && Sound(vs[k]) && f.pos == |f.data|
    requires forall i :: 0 <= i < |tabs| ==> Is(tabs[i], vs[i], reprs[i])
    requires forall i :: 0 <= i < |tabs| && i != k ==> reprs[i] !! reprs[k]
    modifies f, reprs[k]
    ensures forall i :: 0 <= i < |tabs| ==> Is(tabs[i], vs[i], reprs[i])
    ensures Carried(old(f.data), old(f.pos), f.data, f.pos, Piece(Some(vs[k])), true)
  {
    hide Carried, Piece, Sound, DirtyCount, CellBuffer.Valid;
    assert Is(tabs[k], vs[k], reprs[k]);
    SaveTab(tabs[k], f, vs[k]);
    forall i | 0 <= i < |tabs| ensures Is(tabs[i], vs[i], reprs[i]) {
      assert old(Is(tabs[i], vs[i], reprs[i]));
    }
  }

  /** Hot swap, the first half: every tab, then the end mark. */
  method Save(tabs: seq<HotTab>, f: SwapFile, ghost vs: seq<Tab>, ghost reprs: seq<set<object>>, ghost all: set<object>)
    requires |tabs| == |vs| == |reprs| && AllSound(vs) && f.pos == |f.data|
    requires forall i :: 0 <= i < |tabs| ==> Is(tabs[i], vs[i], reprs[i])
    requires forall i, j :: 0 <= i < |tabs| && 0 <= j < |tabs| && i != j ==> reprs[i] !! reprs[j]
    requires forall i :: 0 <= i < |tabs| ==> reprs[i] <= all
    modifies f, all
    ensures forall i :: 0 <= i < |tabs| ==> Is(tabs[i], vs[i], reprs[i])
    ensures Carried(old(f.data), old(f.pos), f.data, f.pos, Cat(Saved(vs)), true)
  {
    hide Cat, Carried, Ready, At, Awaiting, Sound, AllSound, Piece, Is, Saved, Entry;
    ghost var parts := Saved(vs);
    WriteReady(f.data, f.pos, Cat(parts), true);
    ghost var d0, p0 := f.data, f.pos;
    FirstPart(parts, d0, p0, true);
    var k := 0;
    while k < |tabs|
      invariant 0 <= k <= |tabs| && Awaiting(parts, d0, p0, f.data, f.pos, k, true)
      invariant forall i :: 0 <= i < |tabs| ==> Is(tabs[i], vs[i], reprs[i])
    {
      ghost var d, p := f.data, f.pos;
      EntryAt(vs, k);
      PartExpected(parts, d0, p0, d, p, k, true);
      SaveOne(tabs, k, f, vs, reprs);
      NextPart(parts, d0, p0, d, p, f.data, f.pos, k, true);
      k := k + 1;
    }
    ghost var d, p := f.data, f.pos;
    EntryAt(vs, k);
    PartExpected(parts, d0, p0, d, p, k, true);
    var ok, more := f.IoByte(96, true, 96);
    NextPart(parts, d0, p0, d, p, f.data, f.pos, k, true);
  }

  /** The next entry of the list: its tab, or null once all of them are loaded. */
  method LoadNext(f: SwapFile, ghost vs: seq<Tab>, ghost k: nat, ghost d0: Blob, ghost p0: nat)
    returns (ok: bool, t: HotTab?)
    requires AllSound(vs)
    modifies f
    ensures f.data == old(f.data) && (ok && t != null ==> old(f.pos) < |f.data| && f.pos > old(f.pos))
    ensures t != null ==> fresh(t) && fresh(t.main) && fresh(t.alt) && fresh(t.main.buf) && fresh(t.alt.buf)
    ensures Awaiting(Saved(vs), d0, p0, old(f.data), old(f.pos), k, false) ==>
      ok && if t == null then k == |vs| && Carried(d0, p0, f.data, f.pos, Cat(Saved(vs)), false)
      else k < |vs| && IsLoaded(t, vs[k]) && Awaiting(Saved(vs), d0, p0, f.data, f.pos, k + 1, false)
  {
    hide Cat, Carried, Ready, At, Awaiting, Sound, AllSound, Piece, Saved, IsLoaded, Entry;
    ghost var parts := Saved(vs);
    ghost var d, p := f.data, f.pos;
    ghost var good := Awaiting(parts, d0, p0, d, p, k, false);
    if good { PartExpected(parts, d0, p0, d, p, k, false); }
    EntryAt(vs, k);
    ok, t := LoadTab(f, Entry(vs, k));
    if good { NextPart(parts, d0, p0, d, p, f.data, f.pos, k, false); }
  }

  /** Hot swap, the second half: new tabs until the end mark. */
  method Load(f: SwapFile, ghost vs: seq<Tab>) returns (ok: bool, tabs: seq<HotTab>)
    requires AllSound(vs)
    modifies f
    ensures f.data == old(f.data)
    ensures Ready(old(f.data), old(f.pos), Cat(Saved(vs)), false) ==>
      ok && |tabs| == |vs| && Carried(old(f.data), old(f.pos), f.data, f.pos, Cat(Saved(vs)), false) &&
      forall i :: 0 <= i < |tabs| ==> IsLoaded(tabs[i], vs[i])
  {
    hide Cat, Carried, Ready, At, Awaiting, AllSound, Saved, IsLoaded;
    ghost var d0, p0 := f.data, f.pos;
    ghost var good := Ready(d0, p0, Cat(Saved(vs)), false);
    if good { FirstPart(Saved(vs), d0, p0, false); }
    ok, tabs := true, [];
    while true
      invariant f.data == d0 && ok
      invariant good ==> |tabs| <= |vs| && Awaiting(Saved(vs), d0, p0, f.data, f.pos, |tabs|, false)
      invariant good ==> forall i :: 0 <= i < |tabs| ==> IsLoaded(tabs[i], vs[i])
      decreases |f.data| - f.pos
    {
      var t;
      ok, t := LoadNext(f, vs, |tabs|, d0, p0);
      if !ok || t == null { return; }
      tabs := tabs + [t];
    }
  }

  /** The whole swap: every tab comes back, in order, and nothing is left in the file. */
  method Swap(tabs: seq<HotTab>, ghost vs: seq<Tab>, ghost reprs: seq<set<object>>, ghost all: set<object>)
    returns (loaded: seq<HotTab>, rest: nat)
    requires |tabs| == |vs| == |reprs| && AllSound(vs)
    requires forall i :: 0 <= i < |tabs| ==> Is(tabs[i], vs[i], reprs[i])
    requires forall i, j :: 0 <= i < |tabs| && 0 <= j < |tabs| && i != j ==> reprs[i] !! reprs[j]
    requires forall i :: 0 <= i < |tabs| ==> reprs[i] <= all
    modifies all
    ensures |loaded| == |tabs| && rest == 0
    ensures forall i :: 0 <= i < |tabs| ==> IsLoaded(loaded[i], vs[i])
  {
    hide Cat, Carried, Sound, Piece, Is, Saved, IsLoaded;
    var f := new SwapFile();
    Save(tabs, f, vs, reprs, all);
    Written(f.data, f.pos, Cat(Saved(vs)));
    f.pos := 0;
    var ok;
    ok, loaded := Load(f, vs);
    Consumed(f.data, f.data, f.pos, Cat(Saved(vs)));
    rest := |f.data| - f.pos;
  }

  /** What was written to an empty file can be read from its start. */
  lemma Written(data: Blob, pos: nat, enc: Blob)
    requires Carried([], 0, data, pos, enc, true)
    ensures data == enc && Ready(data, 0, enc, false)
  {
    assert [] + enc == enc;
    assert data[0..|enc|] == enc;
  }

  lemma Consumed(data: Blob, data1: Blob, pos: nat, enc: Blob)
    requires Carried(data, 0, data1, pos, enc, false) && data == enc
    ensures pos == |data1|
  {
  }
}
