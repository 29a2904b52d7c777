/** The scrollback file: fixed-width lines in an anonymous file, behind a write buffer. */
module HistoryFiles {
  import opened Cells
  import T = TermModel

  const CELL_SIZE := 12
  const WRBUF_SIZE := 131072
  const WRBUF_CELLS := 10922

  // ---- the list of lines a file stands for ------------------------------------------

  /** Lines end to end, as they lie in the file. */
  function Flat(lines: seq<seq<Cell>>): seq<Cell> {
    if lines == [] then [] else Flat(lines[..|lines| - 1]) + lines[|lines| - 1]
  }

  ghost predicate AllWide(lines: seq<seq<Cell>>, w: nat) {
    forall i :: 0 <= i < |lines| ==> |lines[i]| == w
  }

  /** A line cut off or filled up to a new width. */
  function Fit(line: seq<Cell>, w: nat): (r: seq<Cell>)
    ensures |r| == w
  {
    seq(w, x requires 0 <= x < w => if x < |line| then line[x] else DEFAULT_CELL)
  }

  function FitAll(lines: seq<seq<Cell>>, w: nat): (r: seq<seq<Cell>>)
    ensures |r| == |lines|
  {
    seq(|lines|, i requires 0 <= i < |lines| => Fit(lines[i], w))
  }

  /** What appending a line leaves: an overlong history is wiped, one of another width refitted. */
  function Appended(lines: seq<seq<Cell>>, width: nat, line: seq<Cell>): seq<seq<Cell>> {
    var kept := if |lines| > T.HISTORY_CAP then [] else lines;
    (if width == |line| then kept else FitAll(kept, |line|)) + [line]
  }

  /** What the terminal appends when a line leaves the top of the screen. */
  lemma TerminalAppends(t: T.Term)
    requires T.Safe(t)
    ensures T.AppendHistory(t).history == Appended(t.history, T.G(t).width, T.RowOf(T.G(t), 0))
  {
    hide T.EscOk, T.ScreenOk, FitAll, Fit;
    T.OnScreen(t);
    assert |T.RowOf(T.G(t), 0)| == T.G(t).width;
  }

  lemma {:induction false} FlatLength(lines: seq<seq<Cell>>, w: nat)
    requires AllWide(lines, w)
    ensures |Flat(lines)| == |lines| * w
    decreases |lines|
  {
    if lines != [] {
      FlatLength(lines[..|lines| - 1], w);
      MulAdd(|lines| - 1, 1, w);
    }
  }

  lemma NothingFits(w: nat)
    ensures FitAll([], w) == []
  {
  }

  lemma FlatSnoc(lines: seq<seq<Cell>>, line: seq<Cell>)
    ensures Flat(lines + [line]) == Flat(lines) + line
  {
    assert (lines + [line])[..|lines|] == lines;
  }

  lemma AllFitted(lines: seq<seq<Cell>>, w: nat)
    ensures AllWide(FitAll(lines, w), w) && AllWide([], w)
  {
  }

  lemma NoneFlat()
    ensures Flat([]) == []
  {
  }

  /** One more line at the end of a file whose last lines are still in the buffer. */
  lemma Extended(lines: seq<seq<Cell>>, w: nat, disk: seq<Cell>, buf: seq<Cell>, line: seq<Cell>)
    requires AllWide(lines, w) && Flat(lines) == disk + buf && |line| == w
    ensures AllWide(lines + [line], w) && Flat(lines + [line]) == disk + (buf + line)
  {
    hide Flat;
    FlatSnoc(lines, line);
    assert disk + buf + line == disk + (buf + line);
  }

  /** Line `i` lies where its number says. */
  lemma {:induction false} FlatLine(lines: seq<seq<Cell>>, w: nat, i: nat)
    requires AllWide(lines, w) && i < |lines|
    ensures 0 <= i * w && i * w + w <= |Flat(lines)| && Flat(lines)[i * w..i * w + w] == lines[i]
    decreases |lines|
  {
    var init := lines[..|lines| - 1];
    MulMono(0, i, w);
    FlatLength(init, w);
    FlatLength(lines, w);
    if i < |lines| - 1 {
      FlatLine(init, w, i);
      assert Flat(lines)[i * w..i * w + w] == Flat(init)[i * w..i * w + w];
    }
  }

  lemma FlatPrefix(lines: seq<seq<Cell>>, i: nat)
    requires i < |lines|
    ensures Flat(lines[..i + 1]) == Flat(lines[..i]) + lines[i]
  {
    assert lines[..i + 1][..i] == lines[..i];
  }

  // ---- runs -------------------------------------------------------------------------

  /** The lines after a run of appends. */
  function Stored(lines: seq<seq<Cell>>, width: nat, rows: seq<seq<Cell>>): seq<seq<Cell>>
    decreases |rows|
  {
    if rows == [] then lines else Stored(Appended(lines, width, rows[0]), |rows[0]|, rows[1..])
  }

  /** A line through the width changes that later lines bring. */
  function Through(line: seq<Cell>, width: nat, rows: seq<seq<Cell>>): seq<Cell>
    decreases |rows|
  {
    if rows == [] then line
    else Through(if width == |rows[0]| then line else Fit(line, |rows[0]|), |rows[0]|, rows[1..])
  }

  /** Below the cap no line is lost, moved or changed but by the widths of later lines. */
  lemma {:induction false} LinesStay(lines: seq<seq<Cell>>, width: nat, rows: seq<seq<Cell>>, i: nat)
    requires |lines| + |rows| <= T.HISTORY_CAP && i < |lines|
    ensures |Stored(lines, width, rows)| == |lines| + |rows|
    ensures Stored(lines, width, rows)[i] == Through(lines[i], width, rows)
    decreases |rows|
  {
    hide Fit;
    if rows != [] { LinesStay(Appended(lines, width, rows[0]), |rows[0]|, rows[1..], i); }
  }

  /** Fitting a line keeps what fits of it: its own width changes nothing, what was padded comes off again,
      and only the narrowest width counts. */
  lemma FitKeeps(line: seq<Cell>, a: nat, b: nat)
    ensures Fit(line, |line|) == line
    ensures a >= |line| ==> Fit(Fit(line, a), |line|) == line && Fit(line, a)[..|line|] == line
    ensures a <= |line| ==> Fit(line, a) == line[..a]
    ensures a >= b || a >= |line| ==> Fit(Fit(line, a), b) == Fit(line, b)
  {
    assert Fit(line, |line|) == line;
    if a >= |line| { assert Fit(line, a)[..|line|] == line; }
  }

  /** Lines of at least its width that follow leave a stored line's text alone. */
  lemma {:induction false} TextStays(line: seq<Cell>, text: seq<Cell>, width: nat, rows: seq<seq<Cell>>)
    requires |text| <= |line| == width && line[..|text|] == text
    requires forall i :: 0 <= i < |rows| ==> |rows[i]| >= |text|
    ensures var r := Through(line, width, rows); |text| <= |r| && r[..|text|] == text
    decreases |rows|
  {
    if rows != [] {
      var w := |rows[0]|;
      var next := if width == w then line else Fit(line, w);
      forall i | 0 <= i < |text| ensures next[i] == text[i] { assert line[..|text|][i] == text[i]; }
      assert next[..|text|] == text;
      TextStays(next, text, w, rows[1..]);
    }
  }

  /** The `k`-th appended line is found where it was put. */
  lemma {:induction false} LineFound(lines: seq<seq<Cell>>, width: nat, rows: seq<seq<Cell>>, k: nat)
    requires |lines| + |rows| <= T.HISTORY_CAP && k < |rows|
    ensures |Stored(lines, width, rows)| == |lines| + |rows|
    ensures Stored(lines, width, rows)[|lines| + k] == Through(rows[k], |rows[k]|, rows[k + 1..])
    decreases k
  {
    hide Fit;
    var next := Appended(lines, width, rows[0]);
    if k == 0 {
      if |rows| > 1 { LinesStay(next, |rows[0]|, rows[1..], |lines|); }
      else { assert rows[1..] == []; }
    } else {
      LineFound(next, |rows[0]|, rows[1..], k - 1);
      assert rows[1..][k..] == rows[k + 1..];
    }
  }

  // ---- the file ---------------------------------------------------------------------

  /** A write at an offset within the file or at its end. */
  function WriteAt(disk: seq<Cell>, ofs: nat, data: seq<Cell>): seq<Cell>
    requires ofs <= |disk|
  {
    disk[..ofs] + data + if ofs + |data| < |disk| then disk[ofs + |data|..] else []
  }

  class HistoryFile {
    var isOpen: bool
    var disk: seq<Cell>
    var width: nat
    var lcount: nat
    var hasBuffer: bool
    var wrbuffer: array<Cell>
    var wrbufferSize: nat
    var wrbufferUsed: nat
    var wrbufferOfs: nat
    ghost var lines: seq<seq<Cell>>

    /** File contents and buffer together are whole lines, the buffer at the end of the file. */
    ghost predicate Valid()
      reads this, wrbuffer
    {
      (wrbufferSize == WRBUF_SIZE || wrbufferSize == 0) && (!hasBuffer ==> wrbufferSize == 0) &&
      wrbuffer.Length == WRBUF_CELLS && CELL_SIZE * wrbufferUsed <= wrbufferSize && lcount == |lines| &&
      AllWide(lines, width) && (lines != [] ==> width > 0) &&
      if isOpen then Flat(lines) == disk + wrbuffer[..wrbufferUsed] && (wrbufferUsed > 0 ==> wrbufferOfs == |disk|)
      else lines == []
    }

    constructor ()
      ensures Valid() && lines == [] && fresh(wrbuffer)
    {
      isOpen, disk, width, lcount := false, [], 0, 0;
      hasBuffer, wrbufferSize, wrbufferUsed, wrbufferOfs := false, 0, 0, 0;
      wrbuffer := new Cell[WRBUF_CELLS](_ => DEFAULT_CELL);
      lines := [];
    }

    method Close()
      requires Valid()
      modifies this
      ensures Valid() && lines == [] && !isOpen && wrbuffer == old(wrbuffer) && width == old(width)
    {
      isOpen, disk := false, [];
      hasBuffer, wrbufferSize, wrbufferUsed, wrbufferOfs := false, 0, 0, 0;
      lcount := 0;
      lines := [];
    }

    /** Empties the buffer into the file. */
    method Flush()
      requires Valid()
      modifies this
      ensures Valid() && lines == old(lines) && isOpen == old(isOpen) && width == old(width) &&
        wrbuffer == old(wrbuffer)
      ensures isOpen ==> wrbufferUsed == 0 && wrbufferSize == old(wrbufferSize) && hasBuffer == old(hasBuffer)
    {
      if isOpen {
        if wrbufferUsed != 0 {
          disk := WriteAt(disk, wrbufferOfs, wrbuffer[..wrbufferUsed]);
          wrbufferUsed, wrbufferOfs := 0, 0;
        }
      } else {
        hasBuffer, wrbufferSize, wrbufferUsed, wrbufferOfs := false, 0, 0, 0;
        lcount := 0;
      }
    }

    /** Rewrites the file for another line width, line by line. */
    method Reformat(newwdt: nat)
      requires Valid() && newwdt > 0
      modifies this
      ensures Valid() && width == newwdt && isOpen == old(isOpen) && wrbuffer == old(wrbuffer)
      ensures lines == if newwdt == old(width) then old(lines) else FitAll(old(lines), newwdt)
      ensures isOpen ==> wrbufferUsed == 0 && wrbufferSize == old(wrbufferSize) && hasBuffer == old(hasBuffer)
    {
      hide Flat, AllWide;
      Flush();
      NothingFits(newwdt);
      AllFitted(lines, newwdt);
      NoneFlat();
      if !isOpen || width == newwdt || lcount == 0 {
        width := newwdt;
        return;
      }
      ghost var was := lines;
      var newDisk, pos, ln := [], 0, 0;
      while ln < lcount
        invariant 0 <= ln <= lcount && Valid() && lines == was && isOpen && wrbufferUsed == 0
        invariant wrbufferSize == old(wrbufferSize) && hasBuffer == old(hasBuffer) && wrbuffer == old(wrbuffer)
        invariant pos == |Flat(was[..ln])| && pos <= |disk| && width == old(width)
        invariant newDisk == Flat(FitAll(was, newwdt)[..ln])
      {
        ReadAt(ln, pos);
        var oline := disk[pos..pos + width];
        var nline := FitLine(oline, newwdt);
        FlatPrefix(FitAll(was, newwdt), ln);
        FlatPrefix(was, ln);
        newDisk := newDisk + nline;
        pos, ln := pos + width, ln + 1;
      }
      assert FitAll(was, newwdt)[..lcount] == FitAll(was, newwdt);
      disk, width := newDisk, newwdt;
      lines := FitAll(was, newwdt);
      assert disk + wrbuffer[..0] == disk;
    }

    lemma ReadAt(ln: nat, pos: nat)
      requires Valid() && isOpen && wrbufferUsed == 0 && ln < lcount && pos == |Flat(lines[..ln])|
      ensures pos + width <= |disk| && disk[pos..pos + width] == lines[ln]
    {
      assert disk + wrbuffer[..0] == disk;
      FlatLength(lines[..ln], width);
      FlatLine(lines, width, ln);
    }

    static method FitLine(oline: seq<Cell>, newwdt: nat) returns (nline: seq<Cell>)
      ensures nline == Fit(oline, newwdt)
    {
      var a := new Cell[newwdt](_ => DEFAULT_CELL);
      var x := 0;
      while x < newwdt
        invariant 0 <= x <= newwdt
        invariant forall i :: 0 <= i < x ==> a[i] == Fit(oline, newwdt)[i]
      {
        if x < |oline| { a[x] := oline[x]; } else { a[x] := DEFAULT_CELL; }
        x := x + 1;
      }
      nline := a[..];
      assert nline == Fit(oline, newwdt);
    }

    /** Opens the file, or brings it to this width. */
    method Ensure(w: nat)
      requires Valid() && w > 0
      modifies this
      ensures Valid() && isOpen && width == w && wrbuffer == old(wrbuffer)
      ensures lines == if w == old(width) then old(lines) else FitAll(old(lines), w)
    {
      if !isOpen {
        isOpen, disk := true, [];
        width, lcount := w, 0;
        wrbufferSize, wrbufferUsed, wrbufferOfs := 0, 0, 0;
        assert disk + wrbuffer[..0] == [];
      } else if width != w {
        Reformat(w);
      }
    }

    /** An overlong history is wiped; its buffer is given up with it. */
    method Wipe()
      requires Valid()
      modifies this
      ensures Valid() && wrbuffer == old(wrbuffer)
      ensures if |old(lines)| > T.HISTORY_CAP then lines == [] && width == 0
        else lines == old(lines) && width == old(width)
    {
      if lcount > T.HISTORY_CAP {
        isOpen, disk := false, [];
        width, lcount := 0, 0;
        lines := [];
      }
    }

    /** Appends a line: to the buffer if it fits, else, after a flush, straight to the file. */
    method AppendLine(line: array<Cell>, from: nat, w: nat)
      requires Valid() && w > 0 && from + w <= line.Length && line != wrbuffer
      modifies this, wrbuffer
      ensures Valid() && isOpen && width == w && wrbuffer == old(wrbuffer)
      ensures lines == Appended(old(lines), old(width), line[from..from + w])
    {
      hide Flat, AllWide, FitAll;
      ghost var text := line[from..from + w];
      Wipe();
      Ensure(w);
      NothingFits(w);
      Store(line, from, w);
      assert text == line[from..from + w];
    }

    /** Stores a line of the file's width. */
    method Store(line: array<Cell>, from: nat, w: nat)
      requires Valid() && isOpen && width == w > 0 && from + w <= line.Length && line != wrbuffer
      modifies this, wrbuffer
      ensures Valid() && isOpen && width == w && wrbuffer == old(wrbuffer)
      ensures lines == old(lines) + [line[from..from + w]] && line[..] == old(line[..])
    {
      hide Flat, AllWide;
      NewBuffer();
      var lsz := w * CELL_SIZE;
      if wrbufferSize - CELL_SIZE * wrbufferUsed < lsz && wrbufferSize >= lsz { Flush(); }
      if wrbufferSize - CELL_SIZE * wrbufferUsed < lsz {
        Flush();
        WriteDirect(line, from, w);
      } else {
        PutInBuffer(line, from, w);
      }
    }

    method NewBuffer()
      requires Valid() && isOpen
      modifies this
      ensures Valid() && isOpen && hasBuffer && width == old(width) && lines == old(lines) && wrbuffer == old(wrbuffer)
    {
      if !hasBuffer {
        hasBuffer := true;
        wrbufferSize, wrbufferUsed, wrbufferOfs := WRBUF_SIZE, 0, 0;
      }
    }

    /** A line longer than the buffer goes straight to the end of the file. */
    method WriteDirect(line: array<Cell>, from: nat, w: nat)
      requires Valid() && isOpen && width == w > 0 && wrbufferUsed == 0 && from + w <= line.Length
      modifies this
      ensures Valid() && isOpen && width == w && lines == old(lines) + [line[from..from + w]] &&
        wrbuffer == old(wrbuffer)
    {
      assert disk + wrbuffer[..0] == disk;
      FlatLength(lines, w);
      FlatSnoc(lines, line[from..from + w]);
      disk := WriteAt(disk, lcount * w, line[from..from + w]);
      lcount := lcount + 1;
      lines := lines + [line[from..from + w]];
      assert disk + wrbuffer[..0] == disk;
    }

    method PutInBuffer(line: array<Cell>, from: nat, w: nat)
      requires Valid() && isOpen && width == w > 0 && from + w <= line.Length && line != wrbuffer
      requires CELL_SIZE * (wrbufferUsed + w) <= wrbufferSize
      modifies this, wrbuffer
      ensures Valid() && isOpen && width == w && lines == old(lines) + [line[from..from + w]] &&
        wrbuffer == old(wrbuffer)
    {
      hide Flat, AllWide;
      var bofs := wrbufferUsed;
      ghost var was, text := wrbuffer[..bofs], line[from..from + w];
      if bofs == 0 {
        DiskSize();
        wrbufferOfs := lcount * w;
      }
      Extended(lines, w, disk, was, text);
      CopyIn(wrbuffer, bofs, line, from, w);
      wrbufferUsed := bofs + w;
      lcount := lcount + 1;
      assert wrbuffer[..wrbufferUsed] == was + text;
      lines := lines + [text];
    }

    lemma DiskSize()
      requires Valid() && isOpen && wrbufferUsed == 0
      ensures |disk| == lcount * width
    {
      assert disk + wrbuffer[..0] == disk;
      FlatLength(lines, width);
    }

    static method CopyIn(to: array<Cell>, at: nat, src: array<Cell>, from: nat, n: nat)
      requires to != src && at + n <= to.Length && from + n <= src.Length
      modifies to
      ensures to[..] == old(to[..at]) + src[from..from + n] + old(to[at + n..])
    {
      var k := 0;
      while k < n
        invariant 0 <= k <= n
        invariant forall i :: 0 <= i < to.Length ==>
          to[i] == if at <= i < at + k then src[from + (i - at)] else old(to[i])
      {
        to[at + k] := src[from + k];
        k := k + 1;
      }
    }

    /** Line `gy` of history and screen together, for a view as wide as the file. */
    method LoadLine(screen: array<Cell>, screenHeight: nat, hvWidth: nat, hvHeight: nat, gy: int)
      returns (line: Option<seq<Cell>>)
      requires Valid() && screen.Length == hvWidth * screenHeight
      modifies this
      ensures Valid() && lines == old(lines) && width == old(width) && wrbuffer == old(wrbuffer)
      ensures 0 <= gy < |lines| && hvHeight > 0 && width == hvWidth ==> line == Some(lines[gy])
      ensures 0 <= gy < |lines| && width != hvWidth ==> line == None
      ensures |lines| <= gy < |lines| + screenHeight && gy < |lines| + hvHeight && hvHeight > 0 ==>
        var at := (gy - |lines|) * hvWidth;
        0 <= at && at + hvWidth <= screen.Length && line == Some(screen[at..at + hvWidth])
      ensures gy < 0 || gy >= |lines| + hvHeight || gy >= |lines| + screenHeight ==> line == None
    {
      line := None;
      if hvHeight == 0 || gy < 0 || gy >= lcount + hvHeight { return; }
      if gy < lcount {
        Flush();
        if width != hvWidth { return; }
        assert disk + wrbuffer[..0] == disk;
        FlatLine(lines, width, gy);
        line := Some(disk[gy * width..gy * width + width]);
      } else if gy - lcount < screenHeight {
        var y := gy - lcount;
        MulMono(0, y, hvWidth);
        MulMono(y + 1, screenHeight, hvWidth);
        MulAdd(y, 1, hvWidth);
        line := Some(screen[y * hvWidth..y * hvWidth + hvWidth]);
      }
    }
  }
}
