/** Frames, and the main theorem: over every run, right after each frame the window is exact. */
module FidelityRuns {
  import opened Cells
  import opened TermModel
  import opened CsiModel
  import opened GridFacts
  import opened Fidelity
  import opened FidelitySteps
  import Utf8

  // ---- frames -----------------------------------------------------------------------

  /** The pending scroll is short enough to be replayed as one window copy. */
  predicate Copies(t: Term) { Pending(t) && Abs(t.scrollCount) < t.scrollY1 - t.scrollY0 }

  function MarkedPending(t: Term): (r: Term)
    requires Safe(t)
    ensures Safe(r) && SameSize(G(r), G(t)) && r == WithG(t, G(r))
  {
    hide EscOk, Region;
    if Pending(t) && !Copies(t) then WithG(t, Region(G(t), 0, t.scrollY0, G(t).width, t.scrollY1, Dirty)) else t
  }

  /** Before drawing: a pending scroll that is not copied has its rows redrawn. */
  function Prepared(t: Term): (r: Term)
    requires Safe(t)
    ensures Safe(r) && r.scrollCount == 0 && SameSize(G(r), G(t)) && r == WithG(t.(scrollCount := 0), G(r))
  {
    hide EscOk, MarkedPending;
    MarkedPending(t).(scrollCount := 0)
  }

  /** The window copy: rows of the region move, the rows it exposes keep what they had. */
  function Copied(t: Term, win: seq<Ink>): (r: seq<Ink>)
    requires Safe(t) && |win| == |G(t).cells|
    ensures |r| == |win|
  {
    if Copies(t) then
      seq(|win|, i requires 0 <= i < |win| => var s := Source(t, i); if 0 <= s < |win| then win[s] else win[i])
    else win
  }

  /** Drawing covers every dirty cell; clean cells are left alone or drawn along with them. */
  ghost predicate Drawn(t: Term, win: seq<Ink>, after: seq<Ink>)
    requires Safe(t) && |win| == |G(t).cells|
  {
    |after| == |win| &&
    (forall i :: 0 <= i < |win| ==> after[i] == InkAt(t, i) || (after[i] == win[i] && !G(t).cells[i].dirty)) &&
    (DirtyCount(G(t).cells) == 0 ==> after == win)
  }

  /** One frame of a visible window. */
  ghost predicate FrameStep(t: Term, win: seq<Ink>, r: Term, after: seq<Ink>)
    requires Safe(t) && |win| == |G(t).cells|
  {
    var p := Prepared(t);
    r == WithG(p, MarkAllClean(G(p))) && Drawn(p, Copied(t, win), after)
  }

  /** Cells that look alike are drawn alike under the same cursor and drawing modes. */
  lemma InkSame(t: Term, r: Term, i: nat)
    requires Safe(t) && Safe(r) && SameSize(G(r), G(t)) && i < |G(t).cells| && SameLook(G(r).cells[i], G(t).cells[i])
    requires Pos(r) == Pos(t) && S(r).hidden == S(t).hidden && r.shape == t.shape
    requires r.modes.reverse == t.modes.reverse && r.colorMode == t.colorMode
    ensures InkAt(r, i) == InkAt(t, i)
  {
    hide EscOk, Safe;
  }

  /** Preparing changes no look, and dirties a pending region that is not copied. */
  lemma PreparedCell(t: Term, i: nat)
    requires Safe(t) && i < |G(t).cells|
    ensures InkAt(Prepared(t), i) == InkAt(t, i)
    ensures !G(Prepared(t)).cells[i].dirty ==> !G(t).cells[i].dirty && (Copies(t) || Source(t, i) == i)
  {
    hide EscOk, Row, Col, InkAt, At, MoveShift, Src;
    var p := Prepared(t);
    if Pending(t) && !Copies(t) {
      WholeRows(G(t), t.scrollY0, t.scrollY1, G(t).width, Dirty);
      assert SameLook(G(p).cells[i], G(t).cells[i]);
      if !G(p).cells[i].dirty { OutsideMove(t, i); }
    }
    InkSame(t, p, i);
  }

  /** What is clean when drawing starts is already in the copied window. */
  lemma CopiedShows(t: Term, win: seq<Ink>, i: nat)
    requires Safe(t) && Faithful(t, win) && i < |win| && !G(Prepared(t)).cells[i].dirty
    ensures Copied(t, win)[i] == InkAt(Prepared(t), i)
  {
    hide EscOk, Safe, Prepared, InkAt, Source;
    PreparedCell(t, i);
    assert Shown(t, win, i);
  }

  lemma OutsideMove(t: Term, i: int)
    requires !(MoveFrom(t) <= i < MoveTill(t))
    ensures Source(t, i) == i
  {
    hide ShiftOf;
  }

  lemma CleanedSafe(t: Term)
    requires Safe(t)
    ensures Safe(WithG(t, MarkAllClean(G(t))))
  {
    hide EscOk, Region;
  }

  /** The frame makes the window exact and leaves nothing dirty. */
  lemma FrameExact(t: Term, win: seq<Ink>, r: Term, after: seq<Ink>)
    requires Safe(t) && Faithful(t, win) && FrameStep(t, win, r, after)
    ensures Safe(r) && r.scrollCount == 0 && Exact(r, after) && Faithful(r, after)
    ensures forall i :: 0 <= i < |after| ==> !G(r).cells[i].dirty
  {
    hide EscOk, Safe, Row, Col, InkAt, Region, Prepared, Copied, DirtyCount;
    var p := Prepared(t);
    WholeGrid(G(p), Clean);
    CleanedSafe(p);
    forall i | 0 <= i < |after| ensures after[i] == InkAt(r, i) && !G(r).cells[i].dirty && Shown(r, after, i) {
      if !G(p).cells[i].dirty { CopiedShows(t, win, i); }
      InkSame(p, r, i);
    }
  }

  // ---- runs -------------------------------------------------------------------------

  datatype Event =
    | Input(b: Utf8.Byte, env: Env)
    | Frame
    | Focus(on: bool)
    | Blink(phase: int)
    | Redraw
    | GroupCheck(changed: bool)

  /** A focus change redraws the cursor. */
  function SetFocus(t: Term, on: bool): (r: Term)
    requires Safe(t)
    ensures Safe(r)
  {
    if t.shape.focused == on then t else InvalidateCursor(t.(shape := t.shape.(focused := on)))
  }

  /** A visible, focused cursor blinks. */
  function SetPhase(t: Term, phase: int): (r: Term)
    requires Safe(t)
    ensures Safe(r)
  {
    if S(t).hidden || !t.shape.focused || t.shape.phase == phase then t
    else InvalidateCursor(t.(shape := t.shape.(phase := phase)))
  }

  ghost predicate Next(t: Term, win: seq<Ink>, e: Event, r: Term, after: seq<Ink>)
    requires Safe(t) && |win| == |G(t).cells|
  {
    match e
    case Input(b, env) => r == ReadByte(t, b, env) && after == win
    case Frame => FrameStep(t, win, r, after)
    case Focus(on) => r == SetFocus(t, on) && after == win
    case Blink(phase) => r == SetPhase(t, phase) && after == win
    case Redraw => r == MarkAllDirty(t) && after == win
    case GroupCheck(changed) => r == (if changed then ReleaseAlt(t) else t) && after == win
  }

  lemma ShapeKeeps(t: Term, shape: CursorShape, win: seq<Ink>)
    requires Safe(t) && Faithful(t, win)
    ensures var r := t.(shape := shape); Safe(r) && Faithful(InvalidateCursor(r), win)
  {
    hide EscOk, Src, At, InvalidateCursor;
    var r := t.(shape := shape);
    forall i | 0 <= i < |win| && !G(r).cells[i].dirty && (i != CursorIndex(r) || S(r).hidden)
      ensures Shown(r, win, i)
    {
      assert Shown(t, win, i);
      assert InkAt(r, i) == InkAt(t, i);
    }
    InvalidateWhole(r, win);
  }

  predicate Resets(t: Term, e: Event) { e.Input? && IsResetByte(t, e.b) }

  /** Every step but the full reset keeps the window faithful; a frame makes it exact. */
  lemma NextKeeps(t: Term, win: seq<Ink>, e: Event, r: Term, after: seq<Ink>)
    requires Safe(t) && Faithful(t, win) && Next(t, win, e, r, after) && !Resets(t, e)
    ensures Safe(r) && Faithful(r, after)
    ensures e.Frame? ==> Exact(r, after)
  {
    hide EscOk, Safe, ReadByte, FrameStep, InvalidateCursor, MarkAllDirty, ReleaseAlt, Shown, Exact;
    match e
    case Input(b, env) => ReadByteKeeps(t, b, env, win);
    case Frame => FrameExact(t, win, r, after);
    case Focus(on) => ShapeKeeps(t, t.shape.(focused := on), win);
    case Blink(phase) => ShapeKeeps(t, t.shape.(phase := phase), win);
    case Redraw => AllDirtyKeeps(t, win);
    case GroupCheck(changed) => ReleaseKeeps(t, win);
  }

  /** A fresh terminal: nothing drawn yet, everything dirty, whatever the window holds. */
  ghost predicate Start(t: Term, win: seq<Ink>)
    requires Safe(t)
  {
    |win| == |G(t).cells| && forall i :: 0 <= i < |win| ==> G(t).cells[i].dirty
  }

  /** A run: states and windows, one more of each than events, linked step by step. */
  ghost predicate Run(ts: seq<Term>, wins: seq<seq<Ink>>, es: seq<Event>) {
    |ts| == |wins| == |es| + 1 &&
    (forall i :: 0 <= i < |ts| ==> Safe(ts[i]) && |wins[i]| == |G(ts[i]).cells|) &&
    Start(ts[0], wins[0]) &&
    forall i :: 0 <= i < |es| ==> Next(ts[i], wins[i], es[i], ts[i + 1], wins[i + 1])
  }

  /** At step `k` everything was due for drawing: a fresh terminal, or a redraw just asked for. */
  predicate AllDue(es: seq<Event>, k: nat)
    requires k <= |es|
  {
    k == 0 || es[k - 1].Redraw?
  }

  lemma DueIsFaithful(ts: seq<Term>, wins: seq<seq<Ink>>, es: seq<Event>, k: nat)
    requires Run(ts, wins, es) && k <= |es| && AllDue(es, k)
    ensures Faithful(ts[k], wins[k])
  {
    hide EscOk, FrameStep, Shown, ReadByte, Region;
    if k > 0 {
      assert Next(ts[k - 1], wins[k - 1], es[k - 1], ts[k], wins[k]);
      WholeGrid(G(ts[k - 1]), Dirty);
    }
  }

  /** From there on, as long as no full reset comes, the window stays faithful. */
  lemma {:induction false} RunFaithful(ts: seq<Term>, wins: seq<seq<Ink>>, es: seq<Event>, k: nat, n: nat)
    requires Run(ts, wins, es) && k <= n <= |es| && AllDue(es, k)
    requires forall i :: k <= i < n ==> !Resets(ts[i], es[i])
    ensures Faithful(ts[n], wins[n])
    decreases n
  {
    hide EscOk, Next, Shown, Resets;
    if n == k {
      DueIsFaithful(ts, wins, es, k);
    } else {
      RunFaithful(ts, wins, es, k, n - 1);
      assert Next(ts[n - 1], wins[n - 1], es[n - 1], ts[n], wins[n]);
      NextKeeps(ts[n - 1], wins[n - 1], es[n - 1], ts[n], wins[n]);
    }
  }

  /** Display fidelity: in every run the window is exact after each frame before which no full reset
      came since the start, or since a redraw was asked for. */
  lemma WindowExactAfterFrames(ts: seq<Term>, wins: seq<seq<Ink>>, es: seq<Event>, k: nat, n: nat)
    requires Run(ts, wins, es) && k <= n < |es| && AllDue(es, k) && es[n].Frame?
    requires forall i :: k <= i < n ==> !Resets(ts[i], es[i])
    ensures Exact(ts[n + 1], wins[n + 1])
  {
    assert !Resets(ts[n], es[n]);
    hide EscOk, Next, Shown, Resets, Exact;
    RunFaithful(ts, wins, es, k, n);
    assert Next(ts[n], wins[n], es[n], ts[n + 1], wins[n + 1]);
    NextKeeps(ts[n], wins[n], es[n], ts[n + 1], wins[n + 1]);
  }

  // ---- the full reset ---------------------------------------------------------------

  /** The window cell that cell `i` shows after the copy. */
  function CopyFrom(t: Term, i: int): (p: int)
    requires Safe(t) && 0 <= i < |G(t).cells|
    ensures 0 <= p < |G(t).cells|
  {
    var s := Source(t, i);
    if Copies(t) && 0 <= s < |G(t).cells| then s else i
  }

  /** Cell `i` will not be drawn by the next frame for its own sake. */
  predicate LeftAlone(t: Term, i: int)
    requires Safe(t) && 0 <= i < |G(t).cells|
  {
    !G(Prepared(t)).cells[i].dirty
  }

  /** Whatever else the next frame draws, it leaves an exact window. */
  ghost predicate FramesExact(t: Term, win: seq<Ink>)
    requires Safe(t) && |win| == |G(t).cells|
  {
    forall r: Term, after: seq<Ink> :: FrameStep(t, win, r, after) ==> Safe(r) && Exact(r, after)
  }

  /** The frame that draws nothing but dirty cells. */
  function LeastDrawn(t: Term, win: seq<Ink>): (after: seq<Ink>)
    requires Safe(t) && |win| == |G(t).cells|
    ensures |after| == |win|
  {
    seq(|win|, i requires 0 <= i < |win| => if LeftAlone(t, i) then Copied(t, win)[i] else InkAt(Prepared(t), i))
  }

  lemma LeastFrame(t: Term, win: seq<Ink>) returns (r: Term)
    requires Safe(t) && |win| == |G(t).cells|
    ensures FrameStep(t, win, r, LeastDrawn(t, win))
  {
    r := WithG(Prepared(t), MarkAllClean(G(Prepared(t))));
    hide EscOk, Safe, Prepared, InkAt, Copied, MarkAllClean;
    var cells := G(Prepared(t)).cells;
    if DirtyCount(cells) == 0 {
      forall i | 0 <= i < |win| ensures LeftAlone(t, i) {
        if cells[i].dirty { DirtyCountSome(cells, i); }
      }
    }
  }

  lemma CopiedFrom(t: Term, win: seq<Ink>, i: nat)
    requires Safe(t) && |win| == |G(t).cells| && i < |win|
    ensures Copied(t, win)[i] == win[CopyFrom(t, i)]
  {
    hide EscOk, Safe, Source, Copies;
  }

  /** What any frame leaves in cell `i`. */
  lemma FrameCell(t: Term, win: seq<Ink>, r: Term, after: seq<Ink>, i: nat)
    requires Safe(t) && |win| == |G(t).cells| && i < |win| && FrameStep(t, win, r, after)
    ensures Safe(r) && |after| == |win| == |G(r).cells| && InkAt(r, i) == InkAt(t, i)
    ensures after[i] == InkAt(t, i) || (LeftAlone(t, i) && after[i] == win[CopyFrom(t, i)])
  {
    hide EscOk, Safe, Row, Col, InkAt, Region, Prepared, Copied, DirtyCount, CopyFrom;
    var p := Prepared(t);
    WholeGrid(G(p), Clean);
    CleanedSafe(p);
    PreparedCell(t, i);
    InkSame(p, r, i);
    CopiedFrom(t, win, i);
  }

  /** Frames are exact if and only if the cells they leave alone are right after the copy. */
  lemma FramesExactIff(t: Term, win: seq<Ink>)
    requires Safe(t) && |win| == |G(t).cells|
    ensures FramesExact(t, win) <==>
      forall i :: 0 <= i < |win| && LeftAlone(t, i) ==> win[CopyFrom(t, i)] == InkAt(t, i)
  {
    hide EscOk, Safe, Prepared, InkAt, Copied, FrameStep, CopyFrom, LeftAlone, MarkAllClean;
    if FramesExact(t, win) { LeftAloneRight(t, win); }
    if forall i :: 0 <= i < |win| && LeftAlone(t, i) ==> win[CopyFrom(t, i)] == InkAt(t, i) {
      forall r: Term, after: seq<Ink> | FrameStep(t, win, r, after) ensures Safe(r) && Exact(r, after) {
        forall i: nat | i < |win|
          ensures Safe(r) && |after| == |win| == |G(r).cells| && after[i] == InkAt(r, i)
        {
          FrameCell(t, win, r, after, i);
        }
        FrameSafe(t, win, r, after);
      }
    }
  }

  lemma FrameSafe(t: Term, win: seq<Ink>, r: Term, after: seq<Ink>)
    requires Safe(t) && |win| == |G(t).cells| && FrameStep(t, win, r, after)
    ensures Safe(r) && |after| == |win| == |G(r).cells|
  {
    hide EscOk, Safe, Region, Prepared, Copied, InkAt, DirtyCount;
    CleanedSafe(Prepared(t));
  }

  /** The frame that draws least shows what exactness asks of the cells left alone. */
  lemma LeftAloneRight(t: Term, win: seq<Ink>)
    requires Safe(t) && |win| == |G(t).cells| && FramesExact(t, win)
    ensures forall i :: 0 <= i < |win| && LeftAlone(t, i) ==> win[CopyFrom(t, i)] == InkAt(t, i)
  {
    hide EscOk, Safe, Prepared, InkAt, Copied, FrameStep, CopyFrom, LeftAlone, MarkAllClean;
    var after := LeastDrawn(t, win);
    var r := LeastFrame(t, win);
    assert Safe(r) && Exact(r, after);
    forall i: nat | i < |win| && LeftAlone(t, i) ensures win[CopyFrom(t, i)] == InkAt(t, i) {
      FrameCell(t, win, r, after, i);
      CopiedFrom(t, win, i);
    }
  }

  /** Cell `i` looks the same before and after a full reset. */
  ghost predicate ResetHides(t: Term, i: nat)
    requires Safe(t) && i < |t.main.cells|
  {
    SameSize(G(t), t.main) && SameLook(t.main.cells[i], G(t).cells[i]) && !t.modes.reverse && CursorAt(t, i) == (i == 0)
  }

  /** What a full reset leaves as it is, and what it sets. */
  lemma ResetSets(t: Term)
    requires Safe(t)
    ensures var r := ResetMode(t);
      Safe(r) && G(r) == t.main && SameSize(G(t), G(r)) && |G(r).cells| == |t.main.cells| > 0 &&
      !r.onAlt && Pos(r) == HOME && !S(r).hidden && !r.modes.reverse && CursorIndex(r) == 0 &&
      r.colorMode == t.colorMode && r.shape == t.shape &&
      r.scrollCount == t.scrollCount && r.scrollY0 == t.scrollY0 && r.scrollY1 == t.scrollY1
  {
    hide EscOk, Row, Col;
  }

  lemma ResetSource(t: Term, i: int)
    requires Safe(t)
    ensures Source(ResetMode(t), i) == Source(t, i)
  {
    hide EscOk, Safe, ResetMode, Src, ShiftOf;
    ResetSets(t);
  }

  /** After a reset a cell looks in the window as it did before, exactly if the reset hides nothing there. */
  lemma ResetInk(t: Term, i: nat)
    requires Safe(t) && i < |t.main.cells|
    ensures i < |G(t).cells| && i < |G(ResetMode(t)).cells|
    ensures InkAt(ResetMode(t), i) == InkAt(t, i) <==> ResetHides(t, i)
  {
    hide EscOk, Safe, ResetMode;
    ResetSets(t);
    ResetCell(t, ResetMode(t), i);
  }

  /** Every cell the frame after a full reset leaves alone looks the same as before the reset. */
  ghost predicate ResetCovered(t: Term)
    requires Safe(t)
  {
    ResetSets(t);
    forall i :: 0 <= i < |t.main.cells| && LeftAlone(ResetMode(t), i) ==> ResetHides(t, i)
  }

  /** On the main screen, for every faithful window, whatever is dirty or pending: the frames after a
      full reset are exact if and only if the cells they leave alone hide nothing of the reset. */
  lemma ResetExactOnMain(t: Term, win: seq<Ink>)
    requires Safe(t) && !t.onAlt && Faithful(t, win)
    ensures Safe(ResetMode(t)) && |win| == |G(ResetMode(t)).cells|
    ensures FramesExact(ResetMode(t), win) <==> ResetCovered(t)
  {
    var r := ResetMode(t);
    ResetSets(t);
    FramesExactIff(r, win);
    forall i: nat | i < |win| && LeftAlone(r, i)
      ensures win[CopyFrom(r, i)] == InkAt(r, i) <==> ResetHides(t, i)
    {
      ResetSame(t, i);
      CopiedShows(t, win, i);
      CopiedFrom(t, win, i);
      PreparedCell(t, i);
      ResetInk(t, i);
    }
    hide EscOk, Safe, ResetMode, FramesExact, LeftAlone, CopyFrom, InkAt, ResetHides;
  }

  /** On the main screen the reset changes neither the cells nor what is pending. */
  lemma ResetSame(t: Term, i: nat)
    requires Safe(t) && !t.onAlt && i < |t.main.cells|
    ensures i < |G(ResetMode(t)).cells| && LeftAlone(ResetMode(t), i) == LeftAlone(t, i)
    ensures CopyFrom(ResetMode(t), i) == CopyFrom(t, i)
  {
    hide EscOk, Safe, ResetMode, Source, Region;
    ResetSets(t);
    ResetSource(t, i);
  }

  /** Spelled out: in reverse video everything must be due; a visible cursor away from the origin must
      stand on a cell that is; and the origin must be, unless it held the visible cursor. */
  lemma ResetCoveredOnMain(t: Term)
    requires Safe(t) && !t.onAlt
    ensures ResetCovered(t) <==>
      (t.modes.reverse ==> forall i :: 0 <= i < |G(t).cells| ==> !LeftAlone(t, i)) &&
      (!S(t).hidden && CursorIndex(t) != 0 ==> !LeftAlone(t, CursorIndex(t))) &&
      (|G(t).cells| > 0 && (LeftAlone(t, 0) ==> CursorAt(t, 0)))
  {
    hide EscOk, Safe, ResetMode, LeftAlone;
    ResetSets(t);
    forall i: nat | i < |t.main.cells|
      ensures i < |G(ResetMode(t)).cells| && LeftAlone(ResetMode(t), i) == LeftAlone(t, i)
    {
      ResetSame(t, i);
    }
    var c := CursorIndex(t);
    assert ResetHides(t, c) <==> !t.modes.reverse && CursorAt(t, c) == (c == 0);
    assert ResetHides(t, 0) <==> !t.modes.reverse && CursorAt(t, 0);
  }

  /** What every faithful window shows at `p`: some clean cell comes from there and looks so. */
  ghost predicate Forced(t: Term, p: int, ink: Ink)
    requires Safe(t)
  {
    exists j :: 0 <= j < |G(t).cells| && !G(t).cells[j].dirty && Source(t, j) == p && InkAt(t, j) == ink
  }

  /** The frames after a full reset are exact, whichever of the faithful windows it met. */
  ghost predicate ResetAlwaysExact(t: Term)
    requires Safe(t)
  {
    ResetSets(t);
    forall win: seq<Ink> :: Faithful(t, win) ==> FramesExact(ResetMode(t), win)
  }

  /** Every cell the frame after a full reset leaves alone shows what faithfulness forces. */
  ghost predicate ResetForced(t: Term)
    requires Safe(t)
  {
    ResetSets(t);
    forall i :: 0 <= i < |t.main.cells| && LeftAlone(ResetMode(t), i) ==>
      Forced(t, CopyFrom(ResetMode(t), i), InkAt(ResetMode(t), i))
  }

  /** From either screen, with anything dirty and anything pending: the frames after a full reset are
      exact for every window the terminal may have shown, if and only if each cell they leave alone
      shows what some clean cell of the screen before had there. */
  lemma ResetExactIff(t: Term, seen: seq<Ink>)
    requires Safe(t) && Faithful(t, seen)
    ensures ResetAlwaysExact(t) <==> ResetForced(t)
  {
    hide EscOk, Safe, ResetMode, FramesExact, LeftAlone, CopyFrom, InkAt, Shown, Forced;
    ResetSets(t);
    if ResetForced(t) {
      forall win: seq<Ink> | Faithful(t, win) ensures FramesExact(ResetMode(t), win) { ForcedExact(t, win); }
    }
    if ResetAlwaysExact(t) {
      forall i: nat | i < |t.main.cells| && LeftAlone(ResetMode(t), i)
        ensures Forced(t, CopyFrom(ResetMode(t), i), InkAt(ResetMode(t), i))
      {
        ExactForced(t, seen, i);
      }
    }
  }

  lemma ForcedShown(t: Term, win: seq<Ink>, p: int, ink: Ink)
    requires Safe(t) && Faithful(t, win) && Forced(t, p, ink)
    ensures 0 <= p < |win| && win[p] == ink
  {
    hide EscOk, Safe, Source, InkAt;
    var j :| 0 <= j < |G(t).cells| && !G(t).cells[j].dirty && Source(t, j) == p && InkAt(t, j) == ink;
    assert Shown(t, win, j);
  }

  lemma ForcedExact(t: Term, win: seq<Ink>)
    requires Safe(t) && Faithful(t, win) && ResetForced(t)
    ensures Safe(ResetMode(t)) && |win| == |G(ResetMode(t)).cells| && FramesExact(ResetMode(t), win)
  {
    hide EscOk, Safe, ResetMode, FramesExact, LeftAlone, CopyFrom, InkAt, Forced, Shown;
    var r := ResetMode(t);
    ResetSets(t);
    forall i: nat | i < |win| && LeftAlone(r, i) ensures win[CopyFrom(r, i)] == InkAt(r, i) {
      ForcedShown(t, win, CopyFrom(r, i), InkAt(r, i));
    }
    FramesExactIff(r, win);
  }

  /** A window cell no clean cell comes from may hold anything. */
  lemma ExactForced(t: Term, seen: seq<Ink>, i: nat)
    requires Safe(t) && Faithful(t, seen) && ResetAlwaysExact(t) && i < |t.main.cells|
    requires Safe(ResetMode(t)) && i < |G(ResetMode(t)).cells| && LeftAlone(ResetMode(t), i)
    ensures Forced(t, CopyFrom(ResetMode(t), i), InkAt(ResetMode(t), i))
  {
    hide EscOk, Safe, ResetMode, FramesExact, LeftAlone, CopyFrom, InkAt, Source;
    var r := ResetMode(t);
    ResetSets(t);
    var p, ink := CopyFrom(r, i), InkAt(r, i);
    if j :| 0 <= j < |G(t).cells| && !G(t).cells[j].dirty && Source(t, j) == p {
      assert Shown(t, seen, j);
      FramesExactIff(r, seen);
    } else {
      var win := seen[p := ink.(ch := ink.ch + 1)];
      forall j | 0 <= j < |win| && !G(t).cells[j].dirty ensures Shown(t, win, j) { assert Shown(t, seen, j); }
      assert Faithful(t, win);
      FramesExactIff(r, win);
    }
  }

  /** From the alternate screen with no scroll pending: every cell clean on the main screen must have
      been clean on the other one too, and look the same after the reset. */
  lemma ResetExactFromAlt(t: Term, seen: seq<Ink>)
    requires Safe(t) && t.onAlt && !Pending(t) && Faithful(t, seen)
    ensures SameSize(t.main, t.alt)
    ensures ResetAlwaysExact(t) <==>
      forall i :: 0 <= i < |t.main.cells| && !t.main.cells[i].dirty ==> !t.alt.cells[i].dirty && ResetHides(t, i)
  {
    hide EscOk, Safe, ResetMode, LeftAlone, CopyFrom, InkAt, Forced, ResetHides, ResetAlwaysExact;
    ResetSets(t);
    ResetExactIff(t, seen);
    forall i: nat | i < |t.main.cells|
      ensures i < |G(ResetMode(t)).cells| && LeftAlone(ResetMode(t), i) == !t.main.cells[i].dirty
      ensures Forced(t, CopyFrom(ResetMode(t), i), InkAt(ResetMode(t), i)) <==>
        !t.alt.cells[i].dirty && ResetHides(t, i)
    {
      ForcedFromAlt(t, i);
    }
  }

  lemma ForcedFromAlt(t: Term, i: nat)
    requires Safe(t) && t.onAlt && !Pending(t) && i < |t.main.cells|
    ensures i < |t.alt.cells| && i < |G(ResetMode(t)).cells| && LeftAlone(ResetMode(t), i) == !t.main.cells[i].dirty
    ensures Forced(t, CopyFrom(ResetMode(t), i), InkAt(ResetMode(t), i)) <==> !t.alt.cells[i].dirty && ResetHides(t, i)
  {
    hide EscOk, Safe, ResetMode, InkAt, ResetHides;
    ResetSets(t);
    ResetInk(t, i);
    assert CopyFrom(ResetMode(t), i) == i;
    assert Source(t, i) == i;
  }

  /** A frame was just drawn, and the screen not shown holds no dirty cell either. */
  ghost predicate JustDrawn(t: Term, win: seq<Ink>)
    requires Safe(t)
  {
    |win| == |t.main.cells| && Exact(t, win) && t.scrollCount == 0 &&
    (forall i :: 0 <= i < |G(t).cells| ==> !G(t).cells[i].dirty) &&
    (forall i :: 0 <= i < |t.main.cells| ==> !t.main.cells[i].dirty)
  }

  /** The states in which a full reset changes nothing one could see. */
  ghost predicate ResetInvisible(t: Term)
    requires Safe(t)
  {
    !t.modes.reverse && !S(t).hidden && Pos(t).x == 0 && Pos(t).y == 0 &&
    (t.onAlt ==> forall i :: 0 <= i < |t.main.cells| ==> SameLook(t.main.cells[i], t.alt.cells[i]))
  }

  /** Right after a frame the condition is simple: the next one is exact if and only if the reset was invisible. */
  lemma ResetJustDrawn(t: Term, win: seq<Ink>, r: Term, after: seq<Ink>)
    requires Safe(t) && JustDrawn(t, win) && FrameStep(ResetMode(t), win, r, after)
    ensures Safe(r) && (Exact(r, after) <==> ResetInvisible(t))
  {
    hide EscOk, Row, Col, At, Region, DirtyCount, Prepared, FrameStep, InkAt, Safe;
    ResetFrame(t, win, r, after);
    OriginIndex(t);
    OriginIndex(r);
    forall i | 0 <= i < |after| ensures after[i] == InkAt(r, i) <==> ResetHides(t, i) {
      assert win[i] == InkAt(t, i);
      ResetCell(t, r, i);
    }
    if Exact(r, after) {
      assert ResetHides(t, 0);
      forall i | t.onAlt && 0 <= i < |t.main.cells| ensures SameLook(t.main.cells[i], t.alt.cells[i]) {
        assert ResetHides(t, i);
      }
    }
  }

  lemma ResetCell(t: Term, r: Term, i: nat)
    requires Safe(t) && Safe(r) && !r.onAlt && Pos(r) == HOME && !S(r).hidden && !r.modes.reverse && CursorIndex(r) == 0
    requires r.colorMode == t.colorMode && r.shape == t.shape && SameSize(r.main, t.main) && i < |t.main.cells|
    requires SameSize(G(t), t.main) && SameLook(r.main.cells[i], t.main.cells[i])
    ensures InkAt(r, i) == InkAt(t, i) <==> ResetHides(t, i)
  {
    hide EscOk, Safe, CursorIndex;
  }

  /** Nothing is dirty after the reset, so the frame draws nothing. */
  lemma ResetFrame(t: Term, win: seq<Ink>, r: Term, after: seq<Ink>)
    requires Safe(t) && JustDrawn(t, win) && FrameStep(ResetMode(t), win, r, after)
    ensures after == win && Safe(r) && !r.onAlt && Pos(r) == HOME && !S(r).hidden && !r.modes.reverse
    ensures r.colorMode == t.colorMode && r.shape == t.shape && SameSize(r.main, t.main) && SameSize(G(t), t.main)
    ensures |win| == |t.main.cells| > 0
    ensures forall i :: 0 <= i < |t.main.cells| ==> SameLook(r.main.cells[i], t.main.cells[i])
  {
    hide EscOk, Row, Col, At, Region, DirtyCount, InkAt;
    WholeGrid(t.main, Clean);
    DirtyCountNone(t.main.cells);
  }

  /** Cell 0 is the origin, and only the origin. */
  lemma OriginIndex(t: Term)
    requires Safe(t)
    ensures CursorIndex(t) == 0 <==> Pos(t).x == 0 && Pos(t).y == 0
  {
    hide EscOk;
    if Pos(t).y > 0 { MulMono(1, Pos(t).y, G(t).width); }
  }

  /** A one-cell terminal in reverse video, just drawn. */
  function ReverseCell(): (t: Term)
    ensures Safe(t)
  {
    var g := Grid(1, 1, [DEFAULT_CELL.(dirty := false)]);
    var scr := Screen(HOME, HOME, PLAIN_ATTR, false, 0, 0, PLAIN_ATTR, GfxSet(false, false), NO_MODES);
    var zeros := seq(SBUF_SIZE, _ => 0);
    assert zeros[0] == 0;
    Term(g, NO_GRID, scr, scr, false, NO_MODES.(reverse := true), GfxSet(true, false), 0, 0, 0,
         EscSeq(Ground, 0, 0, seq(ARG_SIZE, _ => -1), 0, zeros, 0), 0, false, [], CursorShape(true, 0), false, 0)
  }

  /** With nothing pending and nothing dirty a frame draws nothing. */
  lemma IdleFrame(t: Term, win: seq<Ink>)
    requires Safe(t) && t.scrollCount == 0 && |win| == |G(t).cells|
    requires forall i :: 0 <= i < |win| ==> !G(t).cells[i].dirty
    ensures FrameStep(t, win, WithG(t, MarkAllClean(G(t))), win)
  {
    hide EscOk, Safe, Region, InkAt;
    assert t.(scrollCount := 0) == t;
  }

  lemma ShownOne(t: Term, win: seq<Ink>)
    requires t == ReverseCell() && win == [InkAt(t, 0)]
    ensures JustDrawn(t, win)
  {
    hide EscOk, Safe, CursorIndex;
  }

  /** The full reset does break fidelity: reverse video stays on the window. */
  lemma ResetBreaks()
    ensures exists t: Term, win: seq<Ink>, r: Term, after: seq<Ink> ::
      Safe(t) && JustDrawn(t, win) && FrameStep(ResetMode(t), win, r, after) && Safe(r) && !Exact(r, after)
  {
    hide EscOk, Safe, FrameStep, MarkAllClean, CursorIndex, Exact;
    var t := ReverseCell();
    var win := [InkAt(t, 0)];
    ShownOne(t, win);
    IdleFrame(ResetMode(t), win);
    ResetJustDrawn(t, win, WithG(ResetMode(t), MarkAllClean(G(ResetMode(t)))), win);
  }
}
