/** The two screens: what entering and leaving the alternate one shows, keeps and clears. */
module Screens {
  import opened Cells
  import opened TermModel
  import opened CsiModel
  import opened GridFacts
  import opened ScrollbackRuns
  import opened Erasing
  import opened AltScreen

  /** The alternate screen is kept as it was; a terminal that has none gets an empty one. */
  ghost predicate AltKept(t: Term, r: Term) {
    if t.alt != NO_GRID then SameSize(r.alt, t.alt) && SameButDirty(t.alt.cells, r.alt.cells) && r.altScr == t.altScr
    else
      SameSize(r.alt, t.main) && r.altScr.attr == PLAIN_ATTR && r.altScr.curpos == HOME && !r.altScr.hidden &&
      forall i :: 0 <= i < |r.alt.cells| ==> SameLook(r.alt.cells[i], DEFAULT_CELL)
  }

  /** The alternate screen is empty, in the default colours. */
  ghost predicate AltBlank(r: Term) {
    var a := r.altScr.attr;
    a.style == PLAIN && a.fg == DEFAULT_COLOR && a.bg == DEFAULT_COLOR &&
    forall i :: 0 <= i < |r.alt.cells| ==> SameLook(r.alt.cells[i], a)
  }

  // ---- one switch -------------------------------------------------------------------

  lemma KeptTwice(t: Term, u: Term, v: Term)
    requires AltKept(t, u) && u.alt != NO_GRID && AltKept(u, v)
    ensures AltKept(t, v)
  {
  }

  lemma InvalidatedAlt(t: Term)
    requires Safe(t) && t.alt != NO_GRID
    ensures var r := InvalidateCursor(t); Safe(r) && r.alt != NO_GRID && AltKept(t, r)
  {
    hide EscOk, Row, Col, InRect;
  }

  /** With an alternate screen there, both ways of switching keep it. */
  lemma SwitchedKeeps(t: Term)
    requires Safe(t) && t.alt != NO_GRID
    ensures AltKept(t, SwitchRedrawing(t)) && SwitchRedrawing(t).alt != NO_GRID
    ensures AltKept(t, SwitchMerging(t)) && SwitchMerging(t).alt != NO_GRID
  {
    hide EscOk, Region, MergeAllDirty, SameButDirty;
    BothUsable(t);
    AltLive(t);
    MarkedSame(t.alt, Clean);
    MarkedSame(t.alt, Dirty);
    MarkedSame(MarkAllClean(t.alt), Dirty);
    SameTwice(t.alt.cells, MarkAllClean(t.alt).cells,
              Region(MarkAllClean(t.alt), 0, 0, t.alt.width - 1, t.alt.height - 1, Dirty).cells);
    MergedSame(t.alt, t.main);
    Unchanged(t.alt.cells);
  }

  lemma AltLive(t: Term)
    requires Safe(t) && t.alt != NO_GRID
    ensures EnsureAlt(t) == t && Live(t.alt)
  {
    hide EscOk;
  }

  /** Without one, an empty one is shown. */
  lemma FreshMerging(t: Term)
    requires Safe(t) && t.alt == NO_GRID
    ensures AltKept(t, SwitchMerging(t)) && SwitchMerging(t).alt != NO_GRID
  {
    hide EscOk, Region, MergeAllDirty;
    BothUsable(t);
    MergedSame(EnsureAlt(t).alt, t.main);
  }

  lemma FreshRedrawing(t: Term)
    requires Safe(t) && t.alt == NO_GRID
    ensures AltKept(t, SwitchRedrawing(t)) && SwitchRedrawing(t).alt != NO_GRID
  {
    hide EscOk, Region;
    var t1 := t.(scrollCount := 0, main := MarkAllClean(t.main));
    BothUsable(t1);
    MarkedSame(EnsureAlt(t1).alt, Dirty);
  }

  /** Only the shown screen has its cursor marked. */
  lemma InvalidatedNone(t: Term)
    requires Safe(t) && t.alt == NO_GRID
    ensures var r := InvalidateCursor(t); r.alt == NO_GRID && SameSize(r.main, t.main)
    ensures forall q :: AltKept(InvalidateCursor(t), q) ==> AltKept(t, q)
  {
    hide EscOk, Row, Col, InRect;
  }

  /** A switch of screens, either way. */
  lemma SwitchedAlt(t: Term)
    requires Safe(t)
    ensures AltKept(t, SwitchScreen(t)) && SwitchScreen(t).alt != NO_GRID
  {
    hide EscOk, Safe, InvalidateCursor, SwitchRedrawing, SwitchMerging, AltKept;
    var t1 := InvalidateCursor(t);
    var t2 := if t1.scrollCount != 0 then SwitchRedrawing(t1) else SwitchMerging(t1);
    if t.alt == NO_GRID {
      InvalidatedNone(t);
      FreshMerging(t1);
      FreshRedrawing(t1);
      assert AltKept(t, t2);
    } else {
      InvalidatedAlt(t);
      SwitchedKeeps(t1);
      KeptTwice(t, t1, t2);
    }
    InvalidatedAlt(t2);
    KeptTwice(t, t2, SwitchScreen(t));
  }

  // ---- the modes --------------------------------------------------------------------

  /** The main screen keeps its cells. */
  ghost predicate MainKept(t: Term, r: Term) { SameButDirty(t.main.cells, r.main.cells) }

  /** Nothing but the shown screen is another one. */
  ghost predicate Switched(t: Term, r: Term) {
    r.onAlt == !t.onAlt && MainKept(t, r) && AltKept(t, r) && r.alt != NO_GRID && r.mainScr == t.mainScr &&
    r.modes == t.modes && r.charset == t.charset
  }

  lemma Switches(t: Term)
    requires Safe(t)
    ensures Switched(t, SwitchScreen(t))
  {
    hide EscOk, Safe, SwitchScreen, AltKept, SameButDirty;
    SwitchedMain(t);
    SwitchedAlt(t);
  }

  /** What modes 47, 1047 and 1049 do when they are set: the first two show the alternate screen as it was
      left, the last one saves the cursor and shows it empty. */
  ghost predicate EnteredBy(t: Term, r: Term, n: nat) {
    if t.onAlt || t.modes.noAltScreen then r == t
    else if n == 1049 then
      r.onAlt && MainKept(t, r) && AltBlank(r) && r.modes == t.modes && r.charset == t.charset &&
      r.mainScr == t.mainScr.(cursaved := Pos(t), attrSaved := S(t).attr, charsetSaved := t.charset,
                              modesSaved := t.modes)
    else Switched(t, r)
  }

  /** And when they are reset: the first leaves the alternate screen as it is, the others empty it, and the
      last one brings back the saved cursor. */
  ghost predicate LeftBy(t: Term, r: Term, n: nat) {
    if !t.onAlt || t.modes.noAltScreen then r == t
    else if n == 47 then Switched(t, r)
    else
      !r.onAlt && MainKept(t, r) && AltBlank(r) &&
      (n == 1047 ==> r.mainScr == t.mainScr && r.modes == t.modes && r.charset == t.charset) &&
      (n == 1049 ==> Restored(t.mainScr, r))
  }

  lemma EntersBy(t: Term, n: nat)
    requires Safe(t) && n in {47, 1047, 1049}
    ensures EnteredBy(t, PrivStep(t, n, true), n)
  {
    hide EscOk, Safe, SwitchScreen, ClearPlain, AltKept, AltBlank, SameButDirty;
    EntersAs(t, n);
    if !t.onAlt && !t.modes.noAltScreen {
      if n == 1049 {
        Enters(t);
        ClearedAlt(SwitchScreen(SaveCursor(t, SaveXTerm)));
        SwitchedMain(SaveCursor(t, SaveXTerm));
      } else {
        Switches(t);
      }
    }
  }

  lemma EntersAs(t: Term, n: nat)
    requires Safe(t) && n in {47, 1047, 1049}
    ensures PrivStep(t, n, true) == EnterAlt(t, n) && PrivStep(t, n, false) == LeaveAlt(t, n)
  {
    hide EscOk, Safe, EnterAlt, LeaveAlt, ClearAndHome, SetReverse, SetOrigin, ShowCursor;
  }

  /** Clearing the alternate screen empties it and leaves the main one alone. */
  lemma ClearedAlt(t: Term)
    requires Safe(t) && t.onAlt
    ensures var r := ClearPlain(t);
      r.onAlt && AltBlank(r) && r.main == t.main && r.mainScr == t.mainScr && r.modes == t.modes &&
      r.charset == t.charset
  {
    hide EscOk, Safe, Region;
    AllIs(PlainPen(t));
  }

  lemma LeavesBy(t: Term, n: nat)
    requires Safe(t) && n in {47, 1047, 1049}
    ensures LeftBy(t, PrivStep(t, n, false), n)
  {
    hide EscOk, Safe, SwitchScreen, ClearPlain, RestoreCursor, AltKept, AltBlank, SameButDirty, Restored;
    EntersAs(t, n);
    if t.onAlt && !t.modes.noAltScreen {
      if n == 47 {
        Switches(t);
      } else {
        ClearedAlt(t);
        var t1 := ClearPlain(t);
        Switches(t1);
        var t2 := SwitchScreen(t1);
        BlankKept(t1, t2);
        RestoredMain(t2);
        RestoredAlt(t2);
        Unchanged(t2.main.cells);
        SameTwice(t.main.cells, t2.main.cells, LeaveAlt(t, n).main.cells);
      }
    }
  }

  lemma BlankKept(t: Term, r: Term)
    requires AltBlank(t) && AltKept(t, r)
    ensures AltBlank(r)
  {
  }

  lemma RestoredAlt(t: Term)
    requires Safe(t) && !t.onAlt && AltBlank(t)
    ensures AltBlank(RestoreCursor(t, SaveXTerm))
  {
    hide EscOk;
  }

  /** Switching the alternate screen off leaves it. */
  lemma SwitchedOff(t: Term)
    requires Safe(t)
    ensures var r := PrivStep(t, 1046, false);
      !r.onAlt && r.modes == t.modes.(noAltScreen := true) && MainKept(t, r) && r.mainScr == t.mainScr &&
      (t.onAlt ==> AltKept(t, r))
  {
    hide EscOk, Safe, SwitchScreen, ClearAndHome, SetReverse, SetOrigin, ShowCursor, AltKept, SameButDirty;
    var t1 := t.(modes := t.modes.(noAltScreen := true));
    ModesSet(t, t1.modes);
    Unchanged(t.main.cells);
    if t.onAlt { Switches(t1); SameAlt(t, t1); }
  }

  lemma ModesSet(t: Term, m: Modes)
    requires Safe(t)
    ensures Safe(t.(modes := m))
  {
    hide EscOk;
  }

  lemma AltThere(t: Term)
    requires Safe(t) && t.onAlt
    ensures t.alt != NO_GRID
  {
    hide EscOk;
  }

  lemma SameAlt(t: Term, u: Term)
    requires u.alt == t.alt && u.altScr == t.altScr && u.main == t.main
    ensures forall r :: AltKept(u, r) ==> AltKept(t, r)
  {
  }

  /** Leaving the alternate screen for a while: with mode 47 it looks as before when it is shown again, with
      mode 1047 it is empty. */
  lemma SeenAgain(t: Term)
    requires Safe(t) && t.onAlt && !t.modes.noAltScreen
    ensures var r := PrivStep(PrivStep(t, 47, false), 47, true);
      r.onAlt && SameButDirty(t.alt.cells, r.alt.cells) && r.altScr == t.altScr
    ensures var r := PrivStep(PrivStep(t, 1047, false), 1047, true); r.onAlt && AltBlank(r)
  {
    hide EscOk, Safe, PrivStep, AltKept, AltBlank, SameButDirty;
    LeavesBy(t, 47);
    LeavesBy(t, 1047);
    var u, v := PrivStep(t, 47, false), PrivStep(t, 1047, false);
    EntersBy(u, 47);
    EntersBy(v, 1047);
    AltThere(t);
    KeptTwice(t, u, PrivStep(u, 47, true));
    KeptIs(t, PrivStep(u, 47, true));
    BlankKept(v, PrivStep(v, 1047, true));
  }

  lemma KeptIs(t: Term, r: Term)
    requires t.alt != NO_GRID && AltKept(t, r)
    ensures SameButDirty(t.alt.cells, r.alt.cells) && r.altScr == t.altScr
  {
  }
}
