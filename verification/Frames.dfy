/** One frame of the real window: the pending scroll copied, the dirty cells drawn. */
module Frames {
  import opened Cells
  import opened CellBuffers
  import opened TermModel
  import opened Fidelity
  import opened FidelityRuns
  import opened Render
  import opened Terminals
  import Painting

  /** What the drawing routines are told about the screen. */
  function ViewOf(t: Term): View {
    View(if S(t).hidden then None else Some((Pos(t).x, Pos(t).y)), t.shape, t.modes.reverse, t.colorMode)
  }

  /** The goal of drawing a cell is the cell as it should look on the active screen. */
  lemma GoalIsInk(conf: Conf, t: Term, i: nat)
    requires ConfOk(conf) && Safe(t) && i < |G(t).cells|
    ensures GoalAt(conf, ViewOf(t), G(t), i) == Paint(conf, InkAt(t, i))
  {
    hide EscOk, Safe, Row, Col, Paint;
    OnScreen(t);
    var w := G(t).width;
    RowColOf(Pos(t).x, Pos(t).y, w);
    IndexOf(i, w);
  }

  /** The window shows these inks. */
  ghost predicate Shows(win: Window, inks: seq<Ink>)
    requires ConfOk(win.conf)
    reads win.glyphs
  {
    |inks| == win.glyphs.Length && forall i :: 0 <= i < |inks| ==> win.glyphs[i] == Paint(win.conf, inks[i])
  }

  ghost predicate Fit(term: Terminal, win: Window)
    reads win, term, term.mainBuf, term.mainBuf.buf, term.altBuf, term.altBuf.buf, term.esc, term.esc.argv,
          term.esc.sbuf
  {
    term.Valid() && win.Valid() && G(term.Abs()).width == win.columns && G(term.Abs()).height == win.rows
  }

  /** The copy of `n` rows for a scroll by `lines` rows below row `y0`. */
  function PlanOf(up: bool, y0: int, lines: int, n: int, w: int): Plan {
    var src, dst := if up then y0 + lines else y0, if up then y0 else y0 + lines;
    Plan(src * w, dst * w, n * w)
  }

  /** The copy that a pending scroll asks for. */
  function PendingPlan(t: Term): Plan {
    var n := Abs(t.scrollCount);
    PlanOf(t.scrollCount < 0, t.scrollY0, n, t.scrollY1 - t.scrollY0 + 1 - n, G(t).width)
  }

  /** The window copy for a pending scroll, as the source index of each cell. */
  lemma CopySource(t: Term, i: nat)
    requires Safe(t) && Copies(t) && i < |G(t).cells|
    ensures var p, s := PendingPlan(t), Source(t, i);
      if p.dst <= i < p.dst + p.m then s == i - p.dst + p.src else s == -1 || s == i
  {
    hide EscOk, Safe;
    var w, n := G(t).width, Abs(t.scrollCount);
    MulAdd(t.scrollY0, n, w);
    MulAdd(t.scrollY1 + 1 - n, t.scrollY0, w);
    MulAdd(t.scrollY1 + 1, n, w);
    MulMono(0, n, w);
    assert (t.scrollY1 - t.scrollY0 + 1 - n) * w == (t.scrollY1 + 1) * w - n * w - t.scrollY0 * w;
  }

  /** Moves the pixels of a scroll: up or down. */
  method CopyMove(win: Window, up: bool, y0: nat, lines: nat, n: nat)
    requires win.Valid() && y0 + lines + n <= win.rows
    modifies win.glyphs
    ensures CopiedBy(PlanOf(up, y0, lines, n, win.columns), old(win.glyphs[..]), win.glyphs[..])
  {
    var height := win.conf.charHeight;
    MulAdd(y0, lines, height);
    var winy, winh := y0 * height, n * height;
    ghost var src, dst := if up then y0 + lines else y0, if up then y0 else y0 + lines;
    win.CopyRows(if up then winy + lines * height else winy, if up then winy else winy + lines * height,
                 winh, src, dst, n);
  }

  lemma PendingRows(t: Term)
    requires Safe(t) && Copies(t)
    ensures 0 <= t.scrollY0 <= t.scrollY1 < G(t).height && 0 < Abs(t.scrollCount) < t.scrollY1 - t.scrollY0
    ensures var n := Abs(t.scrollCount);
      PendingPlan(t) == PlanOf(t.scrollCount < 0, t.scrollY0, n, t.scrollY1 - t.scrollY0 + 1 - n, G(t).width)
    ensures |G(t).cells| == G(t).width * G(t).height
  {
    hide EscOk;
    OnScreen(t);
  }

  lemma CopiedAt(t: Term, inks: seq<Ink>, i: nat)
    requires Safe(t) && Copies(t) && |inks| == |G(t).cells| && i < |inks|
    ensures var s := Source(t, i); Copied(t, inks)[i] == if 0 <= s < |inks| then inks[s] else inks[i]
  {
    hide Source, Safe;
  }

  ghost predicate Depicts(conf: Conf, glyphs: seq<Glyph>, inks: seq<Ink>)
    requires ConfOk(conf)
  {
    |inks| == |glyphs| && forall i :: 0 <= i < |inks| ==> glyphs[i] == Paint(conf, inks[i])
  }

  lemma ShowsDepicts(win: Window, inks: seq<Ink>)
    requires ConfOk(win.conf)
    ensures Shows(win, inks) <==> Depicts(win.conf, win.glyphs[..], inks)
    ensures Shows(win, inks) ==> |inks| == win.glyphs.Length
  {
  }

  /** A window that showed `inks` shows them copied. */
  lemma CopyShows(conf: Conf, t: Term, inks: seq<Ink>, was: seq<Glyph>, now: seq<Glyph>)
    requires ConfOk(conf) && Safe(t) && Copies(t) && |inks| == |now| == |G(t).cells| && Depicts(conf, was, inks)
    requires CopiedBy(PendingPlan(t), was, now)
    ensures Depicts(conf, now, Copied(t, inks))
  {
    hide Safe, Paint, Copied, CopiedBy;
    forall i | 0 <= i < |inks| ensures now[i] == Paint(conf, Copied(t, inks)[i]) {
      CopyShowsAt(conf, t, inks, was, now, PendingPlan(t), i);
    }
  }

  lemma CopyShowsAt(conf: Conf, t: Term, inks: seq<Ink>, was: seq<Glyph>, now: seq<Glyph>, p: Plan, i: nat)
    requires ConfOk(conf) && Safe(t) && Copies(t) && |inks| == |was| == |now| == |G(t).cells| && i < |inks|
    requires forall i :: 0 <= i < |inks| ==> was[i] == Paint(conf, inks[i])
    requires p == PendingPlan(t) && CopiedBy(p, was, now)
    ensures now[i] == Paint(conf, Copied(t, inks)[i])
  {
    hide Safe, Source, Paint, Copied, PendingPlan, PlanOf;
    CopySource(t, i);
    CopiedAt(t, inks, i);
    var s := Source(t, i);
    if p.dst <= i < p.dst + p.m {
      assert now[i] == was[s];
    } else {
      assert now[i] == was[i];
    }
  }

  /** The copy for a scroll by `count` rows of the rows from `y0` to `y1`. */
  method CopyScrolled(win: Window, count: int, y0: int, y1: int, ghost t: Term, ghost inks: seq<Ink>)
    requires Safe(t) && Copies(t) && win.Valid() && win.columns == G(t).width && win.rows == G(t).height
    requires count == t.scrollCount && y0 == t.scrollY0 && y1 == t.scrollY1 && Shows(win, inks)
    modifies win.glyphs
    ensures Shows(win, Copied(t, inks))
  {
    hide EscOk, Safe, Shows, Depicts, Copied, CopiedBy, PlanOf, PendingPlan, Copies;
    PendingRows(t);
    ghost var was := win.glyphs[..];
    ShowsDepicts(win, inks);
    var lines := if count < 0 then -count else count;
    CopyMove(win, count < 0, y0, lines, y1 - y0 + 1 - lines);
    CopyShows(win.conf, t, inks, was, win.glyphs[..]);
    ShowsDepicts(win, Copied(t, inks));
  }

  /** A pending scroll is replayed as a copy of the window's own rows. */
  method CopyPending(term: Terminal, win: Window, ghost inks: seq<Ink>)
    requires Fit(term, win) && Shows(win, inks) && Copies(term.Abs())
    modifies win.glyphs
    ensures Shows(win, Copied(term.Abs(), inks))
  {
    hide EscOk, Safe, Shows, Copied, Copies, Terminal.Valid, Terminal.Abs;
    term.Fields();
    CopyScrolled(win, term.scrollCount, term.scrollY0, term.scrollY1, term.Abs(), inks);
  }

  /** The rows of a scroll that is not copied are to be drawn. */
  method MarkPending(term: Terminal)
    requires term.Valid()
    modifies term.Repr()
    ensures term.Valid() && term.Repr() == old(term.Repr()) && term.Abs() == MarkedPending(old(term.Abs()))
  {
    hide EscOk, Safe, Terminal.Valid, Terminal.Abs, Terminal.Repr, Region;
    term.Fields();
    var n := term.scrollCount;
    if n != 0 && n != LOCKED && (if n < 0 then -n else n) >= term.scrollY1 - term.scrollY0 {
      term.Process(0, term.scrollY0, term.Width(), term.scrollY1, Dirty);
    }
  }

  /** Drops what is pending; what is not copied is to be drawn. */
  method Prepare(term: Terminal)
    requires term.Valid()
    modifies term.Repr()
    ensures term.Valid() && term.Repr() == old(term.Repr()) && term.Abs() == Prepared(old(term.Abs()))
  {
    hide EscOk, Safe, Terminal.Valid, Terminal.Abs, Terminal.Repr, MarkedPending;
    MarkPending(term);
    term.Fields();
    term.SetScroll(0, term.scrollY0, term.scrollY1);
  }

  /** What drawing left in the window, as inks. */
  ghost function DrawnInks(t: Term, inks: seq<Ink>, was: seq<Glyph>, now: seq<Glyph>): (r: seq<Ink>)
    requires Safe(t) && |inks| == |now| == |was| == |G(t).cells|
    ensures |r| == |inks|
  {
    seq(|inks|, i requires 0 <= i < |inks| =>
      if now[i] == was[i] && !G(t).cells[i].dirty then inks[i] else InkAt(t, i))
  }

  lemma DrawnShows(conf: Conf, t: Term, inks: seq<Ink>, was: seq<Glyph>, now: seq<Glyph>)
    requires ConfOk(conf) && Safe(t) && |inks| == |was| == |now| == |G(t).cells|
    requires forall i :: 0 <= i < |inks| ==> was[i] == Paint(conf, inks[i])
    requires DrewFrom(conf, ViewOf(t), G(t), was, now)
    ensures var after := DrawnInks(t, inks, was, now);
      Drawn(t, inks, after) && forall i :: 0 <= i < |inks| ==> now[i] == Paint(conf, after[i])
  {
    hide EscOk, Safe, Paint, GoalAt, InkAt, DirtyCount;
    var after := DrawnInks(t, inks, was, now);
    forall i | 0 <= i < |inks| ensures now[i] == Paint(conf, after[i]) { GoalIsInk(conf, t, i); }
    if DirtyCount(G(t).cells) == 0 {
      forall i | 0 <= i < |inks| ensures after[i] == inks[i] {
        if G(t).cells[i].dirty { DirtyCountSome(G(t).cells, i); }
      }
    }
  }

  /** Every cell of the window is drawn as `t` wants it, or was clean and is as before. */
  ghost predicate DrewFrom(conf: Conf, view: View, g: Grid, was: seq<Glyph>, now: seq<Glyph>)
    requires ConfOk(conf) && Live(g)
  {
    |was| == |now| == |g.cells| && (DirtyCount(g.cells) == 0 ==> now == was) &&
    forall i :: 0 <= i < |was| ==> now[i] == GoalAt(conf, view, g, i) || (now[i] == was[i] && !g.cells[i].dirty)
  }

  method DrawBuf(term: Terminal, win: Window, view: View)
    requires Fit(term, win)
    modifies term.Repr(), win`lastFG, win`lastBG, win.glyphs
    ensures term.Valid() && term.Repr() == old(term.Repr()) && term.Buf().dirtyCount == 0
    ensures term.Abs() == WithG(old(term.Abs()), MarkAllClean(G(old(term.Abs()))))
    ensures DrewFrom(win.conf, view, G(old(term.Abs())), old(win.glyphs[..]), win.glyphs[..])
  {
    hide EscOk, Safe, DirtyCount, Region, DrewFrom;
    ghost var t := term.Abs();
    OnScreen(t);
    BothLive(t);
    CleanedSafe(t);
    DrawCells(win, term.Buf(), view);
    assert term.Abs() == WithG(t, MarkAllClean(G(t)));
  }

  method DrawCells(win: Window, cbuf: CellBuffer, view: View)
    requires Fits(win, cbuf)
    modifies win`lastFG, win`lastBG, win.glyphs, cbuf`dirtyCount, cbuf.buf
    ensures cbuf.InUse() && cbuf.G() == MarkAllClean(old(cbuf.G())) && cbuf.dirtyCount == 0
    ensures DrewFrom(win.conf, view, old(cbuf.G()), old(win.glyphs[..]), win.glyphs[..])
  {
    hide DirtyCount, Region, GoalAt;
    RenderDirty(win, cbuf, view);
  }

  /** Draws the dirty cells of the active screen. */
  method Draw(term: Terminal, win: Window)
    requires Fit(term, win)
    modifies term.Repr(), win`lastFG, win`lastBG, win.glyphs
    ensures term.Valid() && term.Repr() == old(term.Repr()) && term.Buf().dirtyCount == 0
    ensures term.Abs() == WithG(old(term.Abs()), MarkAllClean(G(old(term.Abs()))))
    ensures var t := old(term.Abs()); DrewFrom(win.conf, ViewOf(t), G(t), old(win.glyphs[..]), win.glyphs[..])
  {
    term.Fields();
    ghost var t := term.Abs();
    var s := term.Scr();
    var view := View(if s.hidden then None else Some((s.curpos.x, s.curpos.y)), term.shape, term.modes.reverse,
                     term.colorMode);
    assert view == ViewOf(t);
    hide EscOk, Safe, DrewFrom, MarkAllClean, Terminal.Valid, Terminal.Abs, Terminal.Repr, ViewOf;
    DrawBuf(term, win, view);
  }

  method CopyIfPending(term: Terminal, win: Window, ghost inks: seq<Ink>)
    requires Fit(term, win) && Shows(win, inks)
    modifies win.glyphs
    ensures |inks| == |G(term.Abs()).cells| && Shows(win, Copied(term.Abs(), inks))
  {
    hide EscOk, Safe, Paint, Copied, Terminal.Valid, Terminal.Abs;
    ghost var t := term.Abs();
    term.Fields();
    FitSize(term, win);
    if !Copies(t) { NotCopied(t, inks); }
    var n := term.scrollCount;
    if n != 0 && n != LOCKED && (if n < 0 then -n else n) < term.scrollY1 - term.scrollY0 {
      CopyPending(term, win, inks);
    }
  }

  method DrawShown(term: Terminal, win: Window, ghost inks: seq<Ink>) returns (ghost after: seq<Ink>)
    requires Fit(term, win) && Shows(win, inks)
    modifies term.Repr(), win`lastFG, win`lastBG, win.glyphs
    ensures term.Valid() && term.Repr() == old(term.Repr()) && Shows(win, after) && term.Buf().dirtyCount == 0
    ensures |inks| == |G(old(term.Abs())).cells| && Drawn(old(term.Abs()), inks, after)
    ensures term.Abs() == WithG(old(term.Abs()), MarkAllClean(G(old(term.Abs()))))
  {
    hide EscOk, Safe, Paint, DrewFrom, DrawnInks, Drawn, Terminal.Valid, Terminal.Abs, MarkAllClean;
    ghost var t, was := term.Abs(), win.glyphs[..];
    FitSize(term, win);
    Draw(term, win);
    DrawnShows(win.conf, t, inks, was, win.glyphs[..]);
    after := DrawnInks(t, inks, was, win.glyphs[..]);
  }

  /** One frame: from a window that shows `inks` to one that shows what the frame leaves. */
  method DrawFrame(term: Terminal, win: Window, ghost inks: seq<Ink>) returns (ghost after: seq<Ink>)
    requires Fit(term, win) && Shows(win, inks)
    modifies term.Repr(), win`lastFG, win`lastBG, win.glyphs
    ensures term.Valid() && term.Repr() == old(term.Repr()) && Shows(win, after) && term.Buf().dirtyCount == 0
    ensures |inks| == |G(old(term.Abs())).cells| && FrameStep(old(term.Abs()), inks, term.Abs(), after)
  {
    hide EscOk, Safe, Paint, Copied, Prepared, Drawn, Terminal.Valid, Terminal.Abs, MarkAllClean;
    ghost var t := term.Abs();
    FitSize(term, win);
    CopyIfPending(term, win, inks);
    Prepare(term);
    after := DrawShown(term, win, Copied(t, inks));
  }

  /** The window is right after a frame: every cell looks as the active screen says. */
  method DrawFaithful(term: Terminal, win: Window, ghost inks: seq<Ink>) returns (ghost after: seq<Ink>)
    requires Fit(term, win) && Shows(win, inks) && Faithful(term.Abs(), inks)
    modifies term.Repr(), win`lastFG, win`lastBG, win.glyphs
    ensures term.Valid() && term.Repr() == old(term.Repr()) && Shows(win, after) && Faithful(term.Abs(), after)
    ensures win.glyphs.Length == |G(term.Abs()).cells|
    ensures forall i :: 0 <= i < win.glyphs.Length ==> win.glyphs[i] == Paint(win.conf, InkAt(term.Abs(), i))
    ensures forall i :: 0 <= i < win.glyphs.Length ==>
      Painting.Legible(win.conf, InkAt(term.Abs(), i), win.glyphs[i])
  {
    ghost var t := term.Abs();
    assert Safe(t);
    hide EscOk, Safe, Paint, InkAt, FrameStep, Faithful, Painting.Legible, Terminal.Valid, Terminal.Abs, Terminal.Repr;
    after := DrawFrame(term, win, inks);
    FrameExact(t, inks, term.Abs(), after);
    forall i | 0 <= i < win.glyphs.Length
      ensures Painting.Legible(win.conf, InkAt(term.Abs(), i), Paint(win.conf, InkAt(term.Abs(), i)))
    {
      Painting.PaintLegible(win.conf, InkAt(term.Abs(), i));
    }
  }

  lemma NotCopied(t: Term, inks: seq<Ink>)
    requires Safe(t) && !Copies(t) && |inks| == |G(t).cells|
    ensures Copied(t, inks) == inks
  {
    hide Safe, Copies;
  }

  lemma FitSize(term: Terminal, win: Window)
    requires Fit(term, win)
    ensures |G(term.Abs()).cells| == win.glyphs.Length && Safe(term.Abs())
  {
    hide EscOk;
    OnScreen(term.Abs());
  }
}
