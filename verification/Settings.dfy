/** Settings: saved cursors, character sets, modes and the alignment test, from the bytes that ask for
    them to what they change. */
module Settings {
  import opened Cells
  import opened TermModel
  import opened CsiModel
  import opened GridFacts
  import opened ScrollbackRuns
  import opened Commands
  import opened CursorMoves
  import opened Erasing
  import AltScreen
  import Typing
  import Utf8

  // ---- saving and restoring ---------------------------------------------------------

  /** What was saved in `t` is still there in `u`: only the cursor, the pen and the region may differ. */
  ghost predicate StillSaved(t: Term, u: Term) {
    u.onAlt == t.onAlt && S(u).cursaved == Pos(t) && S(u).attrSaved == S(t).attr && S(u).charsetSaved == t.charset &&
    S(u).modesSaved == t.modes
  }

  /** Restoring brings back cursor, pending wrap included, pen, character sets and, in one variant, wrapping. */
  lemma RestoresSaved(t: Term, u: Term, kind: SaveKind)
    requires Safe(t) && Safe(u) && StillSaved(t, u) && !kind.SaveSimple?
    ensures var r := RestoreCursor(u, kind);
      Pos(r) == Pos(t) && S(r).attr == S(t).attr && r.charset == t.charset && r.onAlt == t.onAlt &&
      r.modes.gfx0 == t.modes.gfx0 && r.modes.gfx1 == t.modes.gfx1 &&
      (kind.SaveXTerm? ==> r.modes.wrap == t.modes.wrap) &&
      SameSize(G(r), G(u)) && SameButDirty(G(u).cells, G(r).cells)
  {
    hide EscOk, Safe, RestorePos;
    RestoresPlace(u);
  }

  lemma RestoresPlace(u: Term)
    requires Safe(u)
    ensures SameSize(G(RestorePos(u)), G(u)) && SameButDirty(G(u).cells, G(RestorePos(u)).cells)
  {
    hide EscOk, InvalidateCursor;
    Typing.InvalidateSame(u);
    var saved := S(u).cursaved;
    if saved.x != Pos(u).x || saved.y != Pos(u).y {
      Typing.InvalidateSame(WithPos(InvalidateCursor(u), saved));
    }
  }

  const SAVE: Utf8.Byte := '7' as int
  const RESTORE: Utf8.Byte := '8' as int

  lemma SaveRead(t: Term, e0: Env, e1: Env)
    requires Ready(t)
    ensures var u := ReadAll(t, [ESC, SAVE], [e0, e1]);
      Ready(u) && StillSaved(t, u) && Pos(u) == Pos(t) && G(u) == G(t) && u.modes == t.modes &&
      u.charset == t.charset &&
      S(u).attr == S(t).attr && S(u).scTop == S(t).scTop && S(u).scBot == S(t).scBot
  {
    hide EscOk, Safe, ReadAll, Index, ReverseIndex, PutC, CurMoveAbs, ResetMode, RestoreCursor, Utf8.AtBoundary;
    EscapeRuns(t, SAVE, e0, e1);
  }

  /** Save, any one move, restore: the cursor, the pen and the character sets are back, and no cell has changed. */
  lemma SaveMoveRestore(t: Term, args: seq<int>, cmd: Utf8.Byte, e: seq<Env>, envs: seq<Env>)
    requires Ready(t) && GoodArgs(args) && (Steps(cmd) || Jumps(cmd)) && |envs| == |CommandText(0, args, cmd)| &&
      |e| == 4
    ensures var u := ReadAll(t, [ESC, SAVE], [e[0], e[1]]);
      var v := ReadAll(u, CommandText(0, args, cmd), envs);
      var r := ReadAll(v, [ESC, RESTORE], [e[2], e[3]]);
      Pos(r) == Pos(t) && S(r).attr == S(t).attr && r.charset == t.charset && SameButDirty(G(t).cells, G(r).cells)
  {
    hide EscOk, Safe, ReadAll, EscRun, CommandText, MovesAsAsked, SameButDirty, Utf8.AtBoundary;
    SaveRead(t, e[0], e[1]);
    var u := ReadAll(t, [ESC, SAVE], [e[0], e[1]]);
    MoveRead(u, args, cmd, envs);
    var v := ReadAll(u, CommandText(0, args, cmd), envs);
    MovesKeepSaved(t, u, v, args, cmd);
    EscapeRuns(v, RESTORE, e[2], e[3]);
    RestoreRuns(v.(rdcp := RESTORE), e[3].accel);
    RestoresSaved(t, v.(rdcp := RESTORE), SaveDec);
    AltScreen.SameTwice(G(t).cells, G(v).cells, G(ReadAll(v, [ESC, RESTORE], [e[2], e[3]])).cells);
  }

  lemma RestoreRuns(t: Term, accel: bool)
    requires Safe(t)
    ensures EscRun(t, RESTORE, accel) == RestoreCursor(t, SaveDec)
  {
    hide EscOk, Safe, RestoreCursor;
  }

  lemma MovesKeepSaved(t: Term, u: Term, v: Term, args: seq<int>, cmd: Utf8.Byte)
    requires StillSaved(t, u) && (Steps(cmd) || Jumps(cmd)) && G(u) == G(t)
    requires MovesAsAsked(u, v, cmd, Given(args, 0, 1), Given(args, 1, 1))
    ensures StillSaved(t, v) && SameButDirty(G(t).cells, G(v).cells)
  {
    hide SameButDirty, NearCol, NearRow, RowAway;
  }

  const ANSI_SAVE: Utf8.Byte := 's' as int
  const ANSI_RESTORE: Utf8.Byte := 'u' as int

  /** The same as a pair of commands, `ESC [ s` and `ESC [ u`. */
  lemma SavedByCommand(t: Term, u: Term, es: seq<Env>, eu: seq<Env>)
    requires Ready(t) && |es| == |CommandText(0, [], ANSI_SAVE)|
    requires Ready(u) && |eu| == |CommandText(0, [], ANSI_RESTORE)|
    ensures var s := ReadAll(t, CommandText(0, [], ANSI_SAVE), es);
      StillSaved(t, s) && G(s) == G(t) && Pos(s) == Pos(t) && S(s).attr == S(t).attr && s.modes == t.modes
    ensures StillSaved(t, u) ==>
      var r := ReadAll(u, CommandText(0, [], ANSI_RESTORE), eu);
      Pos(r) == Pos(t) && S(r).attr == S(t).attr && r.charset == t.charset &&
      r.modes.gfx0 == t.modes.gfx0 && r.modes.gfx1 == t.modes.gfx1 && SameButDirty(G(u).cells, G(r).cells)
  {
    hide EscOk, Safe, ReadAll, CsiRun, RestoreCursor, CommandText, Padded, SameButDirty, Utf8.AtBoundary;
    CommandRuns(t, 0, [], ANSI_SAVE, es);
    CommandRuns(u, 0, [], ANSI_RESTORE, eu);
    var u1 := Ordered(u, 0, [], ANSI_RESTORE);
    AnsiRuns(Ordered(t, 0, [], ANSI_SAVE), es[|es| - 1].accel);
    AnsiRuns(u1, eu[|eu| - 1].accel);
    if StillSaved(t, u) { RestoresSaved(t, u1, SaveAnsi); }
  }

  lemma AnsiRuns(t: Term, accel: bool)
    requires Safe(t) && t.esc.priv == 0
    ensures t.esc.cmd == ANSI_SAVE ==> CsiRun(t, accel) == SaveCursor(t, SaveAnsi)
    ensures t.esc.cmd == ANSI_RESTORE ==> CsiRun(t, accel) == RestoreCursor(t, SaveAnsi)
  {
    hide EscOk, Safe, Among, SaveCursor, RestoreCursor, CsiErase, CsiScroll, CsiStep, CsiGoTo, CsiMove, CsiModes;
    Grouped(ANSI_SAVE);
    Grouped(ANSI_RESTORE);
  }

  // ---- character sets ---------------------------------------------------------------

  /** Designating line drawing, or anything else, for one of the two sets. */
  lemma CharsetRead(t: Term, g1: bool, c: Utf8.Byte, envs: seq<Env>)
    requires Ready(t) && 0x20 <= c < 0x7f && |envs| == 3
    ensures ReadAll(t, [ESC, if g1 then 0x29 else 0x28, c], envs) ==
      t.(rdcp := c, modes := if g1 then t.modes.(gfx1 := c == '0' as int) else t.modes.(gfx0 := c == '0' as int))
  {
    hide EscOk, Safe, ProcessChar, ReadByte, ReadAll, Utf8.AtBoundary;
    var b: Utf8.Byte := if g1 then 0x29 else 0x28;
    SelectRead(t, g1, envs[0], envs[1]);
    var t2 := t.(rdcp := b, esc := t.esc.(state := if g1 then CharsetG1 else CharsetG0));
    AsciiByte(t2, c, envs[2]);
    Designated(t2.(rdcp := c), g1, c, envs[2]);
    ReadOn(t, [ESC, b], [c], [envs[0], envs[1]], [envs[2]]);
    ReadOne(t2, c, envs[2]);
    assert [ESC, b] + [c] == [ESC, b, c] && [envs[0], envs[1]] + [envs[2]] == envs;
  }

  lemma SelectRead(t: Term, g1: bool, e0: Env, e1: Env)
    requires Ready(t)
    ensures var b: Utf8.Byte := if g1 then 0x29 else 0x28;
      var u := t.(rdcp := b, esc := t.esc.(state := if g1 then CharsetG1 else CharsetG0));
      Safe(u) && Utf8.AtBoundary(b) && ReadAll(t, [ESC, b], [e0, e1]) == u
  {
    hide EscOk, Safe, ProcessChar, ReadByte, ReadAll, Utf8.AtBoundary;
    var b: Utf8.Byte := if g1 then 0x29 else 0x28;
    AsciiByte(t, ESC, e0);
    Escaped(t.(rdcp := ESC), e0);
    var t1 := t.(rdcp := ESC, esc := t.esc.(state := Escape));
    AsciiByte(t1, b, e1);
    Selected(t1.(rdcp := b), g1, e1);
    TwoBytes(t, ESC, b, e0, e1);
  }

  lemma Selected(t: Term, g1: bool, env: Env)
    requires Safe(t) && t.esc.state == Escape
    ensures ProcessChar(t, if g1 then 0x29 else 0x28, env) ==
      t.(esc := t.esc.(state := if g1 then CharsetG1 else CharsetG0))
  {
    hide EscOk, Safe, PutC, EscRun;
  }

  lemma Designated(t: Term, g1: bool, c: Utf8.Byte, env: Env)
    requires Safe(t) && t.esc.state == (if g1 then CharsetG1 else CharsetG0) && 0x20 <= c < 0x7f
    ensures ProcessChar(t, c, env) ==
      t.(esc := t.esc.(state := Ground),
         modes := if g1 then t.modes.(gfx1 := c == '0' as int) else t.modes.(gfx0 := c == '0' as int))
  {
    hide EscOk, Safe, PutC;
  }

  /** Shifting out and in chooses the set in use. */
  lemma ShiftRead(t: Term, b: Utf8.Byte, env: Env)
    requires Ready(t) && (b == 0x0e || b == 0x0f)
    ensures ReadByte(t, b, env) == t.(rdcp := b, charset := GfxSet(b == 0x0f, b == 0x0e))
  {
    hide EscOk, Safe, ReadByte, PutC, Utf8.AtBoundary;
    AsciiByte(t, b, env);
  }

  /** Line drawing is in use. */
  predicate Drawing(t: Term) { (t.modes.gfx0 && t.charset.g0) || (t.modes.gfx1 && t.charset.g1) }

  /** Other characters, and all of them while line drawing is not in use, are themselves. */
  lemma OthersDrawn(t: Term, cp: nat)
    requires !Drawing(t) || cp < 0x60 || cp >= 0x7f
    ensures Translate(t, cp) == cp
  {
    hide GFX_TABLE;
  }

  /** The line drawing characters are those of the DEC special graphics set: corners and crossings, */
  lemma LinesDrawn(t: Term)
    requires Drawing(t) && !t.terminusGfx
    ensures Translate(t, 'j' as int) == 0x2518 && Translate(t, 'k' as int) == 0x2510 &&
      Translate(t, 'l' as int) == 0x250c
    ensures Translate(t, 'm' as int) == 0x2514 && Translate(t, 'n' as int) == 0x253c
    ensures Translate(t, 'q' as int) == 0x2500 && Translate(t, 'x' as int) == 0x2502
    ensures Translate(t, 't' as int) == 0x251c && Translate(t, 'u' as int) == 0x2524
    ensures Translate(t, 'v' as int) == 0x2534 && Translate(t, 'w' as int) == 0x252c
  {
  }

  /** and symbols. */
  lemma SymbolsDrawn(t: Term)
    requires Drawing(t) && !t.terminusGfx
    ensures Translate(t, '`' as int) == 0x25c6 && Translate(t, 'a' as int) == 0x2592 && Translate(t, 'f' as int) == 0xb0
    ensures Translate(t, 'g' as int) == 0xb1 && Translate(t, 'y' as int) == 0x2264 && Translate(t, 'z' as int) == 0x2265
    ensures Translate(t, '{' as int) == 0x3c0 && Translate(t, '|' as int) == 0x2260 && Translate(t, '}' as int) == 0xa3
    ensures Translate(t, '~' as int) == 0xb7
  {
  }

  // ---- the alignment test -----------------------------------------------------------

  /** Every cell is an E in the pen's style and colours. */
  lemma AlignmentShown(t: Term, i: nat)
    requires Safe(t) && i < |G(t).cells|
    ensures SameLook(G(FillScreen(t)).cells[i], S(t).attr.(ch := 'E' as int))
  {
    hide EscOk, Safe, Row, Col;
    SafeGrid(t);
    RowInGrid(i, G(t).width, G(t).height);
  }

  // ---- private modes ----------------------------------------------------------------

  const SET: Utf8.Byte := 'h' as int
  const RESET: Utf8.Byte := 'l' as int

  lemma PrivRuns(t: Term, n: nat, on: bool, accel: bool)
    requires Safe(t) && n <= 0xffff && t.esc.argv == Padded([n]) && t.esc.argc == 1 && t.esc.priv == 1
    requires t.esc.cmd == if on then SET else RESET
    ensures CsiRun(t, accel) == PrivStep(t, n, on)
  {
    hide EscOk, Safe, PrivStep, Padded, PrivateCodes;
    PrivModesNext(t, t.esc.argv, 1, 0, on);
    PrivModesNext(PrivStep(t, n, on), t.esc.argv, 1, 1, on);
  }

  /** `ESC [ ? n h` and `ESC [ ? n l` carry out private mode `n` and nothing else. */
  lemma PrivRead(t: Term, n: nat, on: bool, envs: seq<Env>)
    requires Ready(t) && n <= 0xffff && |envs| == |CommandText(1, [n], if on then SET else RESET)|
    ensures var u := Ordered(t, 1, [n], if on then SET else RESET);
      Safe(u) && ReadAll(t, CommandText(1, [n], if on then SET else RESET), envs) == PrivStep(u, n, on)
  {
    hide EscOk, Safe, CsiRun, PrivStep, CommandText, ReadAll, Padded;
    CommandRuns(t, 1, [n], if on then SET else RESET, envs);
    PrivRuns(Ordered(t, 1, [n], if on then SET else RESET), n, on, envs[|envs| - 1].accel);
  }

  /** Reverse video, origin mode, wrapping, the cursor's visibility, carriage returns with line feeds and
      the use of the alternate screen: what turning each of them on or off changes. */
  ghost predicate ModeAsAsked(t: Term, r: Term, n: nat, on: bool) {
    (n == 5 ==> r == WithG(t, G(r)).(modes := t.modes.(reverse := on)) && SameButDirty(G(t).cells, G(r).cells)) &&
    (n == 6 ==>
       r.modes == t.modes.(origin := on) && Pos(r).x == 0 && Pos(r).y == (if on then S(t).scTop else 0) &&
       !Pos(r).lastCol && SameButDirty(G(t).cells, G(r).cells)) &&
    (n == 7 ==>
       r == (if on then t else WithPos(t, Pos(t).(lastCol := false))).(modes := t.modes.(wrap := on))) &&
    (n == 20 ==> r == t.(modes := t.modes.(crlf := on))) &&
    (n == 25 ==>
       S(r) == S(t).(hidden := !on) && r == WithS(WithG(t, G(r)), S(r)) && SameButDirty(G(t).cells, G(r).cells)) &&
    (n == 1046 && on ==> r == t.(modes := t.modes.(noAltScreen := false))) &&
    (n == 2 && on ==> r == t.(modes := t.modes.(gfx0 := false, gfx1 := false)))
  }

  lemma ModeSteps(t: Term, n: nat, on: bool)
    requires Safe(t)
    ensures ModeAsAsked(t, PrivStep(t, n, on), n, on)
  {
    hide EscOk, Safe, PrivSet, PrivReset, SetReverse, SetOrigin, ShowCursor, ModeAsAsked;
    StepsAre(t, on);
    if n == 5 { ReverseSet(t, on); }
    else if n == 6 { OriginSet(t, on); }
    else if n == 25 { VisibleSet(t, on); }
    else { BitSet(t, n, on); }
  }

  lemma StepsAre(t: Term, on: bool)
    requires Safe(t)
    ensures PrivStep(t, 5, on) == SetReverse(t, on) && PrivStep(t, 6, on) == SetOrigin(t, on)
    ensures PrivStep(t, 25, on) == ShowCursor(t, on)
  {
    hide EscOk, Safe, SetReverse, SetOrigin, ShowCursor;
  }

  lemma BitSet(t: Term, n: nat, on: bool)
    requires Safe(t) && n != 5 && n != 6 && n != 25
    ensures ModeAsAsked(t, PrivStep(t, n, on), n, on)
  {
    hide EscOk, Safe, ClearAndHome, SetReverse, SetOrigin, ShowCursor, EnterAlt, LeaveAlt, SaveCursor, RestoreCursor,
         AltOff, SameButDirty;
  }

  /** Columns switched: the screen is cleared and the cursor goes home. */
  lemma ColumnsSwitched(t: Term, on: bool)
    requires Safe(t)
    ensures var r := PrivStep(t, 3, on);
      SameSize(G(r), G(t)) && S(r).attr == S(t).attr && Pos(r).x == 0 && !Pos(r).lastCol &&
      Pos(r).y == (if t.modes.origin then S(t).scTop else 0) &&
      forall i :: 0 <= i < |G(r).cells| ==> SameLook(G(r).cells[i], S(t).attr)
  {
    hide EscOk, Safe, EraseAll, CurMoveAbs, SetReverse, SetOrigin, ShowCursor, PrivBit;
    OnScreen(t);
    var t1 := LcfReset(t);
    AllIs(t1);
    var t2 := EraseAll(t1);
    AbsLands(t2, 0, 0);
  }

  /** The cursor saved and restored as a mode. */
  lemma SavedAsMode(t: Term, u: Term)
    requires Safe(t) && Safe(u)
    ensures var s := PrivStep(t, 1048, true);
      StillSaved(t, s) && G(s) == G(t) && Pos(s) == Pos(t) && S(s).attr == S(t).attr && s.modes == t.modes
    ensures StillSaved(t, u) ==>
      var r := PrivStep(u, 1048, false);
      Pos(r) == Pos(t) && S(r).attr == S(t).attr && r.charset == t.charset && r.modes.wrap == t.modes.wrap &&
      r.modes.gfx0 == t.modes.gfx0 && r.modes.gfx1 == t.modes.gfx1 && SameButDirty(G(u).cells, G(r).cells)
  {
    hide EscOk, Safe, RestoreCursor, ClearAndHome, SetReverse, SetOrigin, ShowCursor, EnterAlt, LeaveAlt, AltOff,
         PrivBit, SameButDirty;
    if StillSaved(t, u) { RestoresSaved(t, u, SaveXTerm); }
  }

  lemma AllMarked(t: Term)
    requires Safe(t)
    ensures SameSize(G(t), G(MarkAllDirty(t))) && SameButDirty(G(t).cells, G(MarkAllDirty(t)).cells)
  {
    hide EscOk, Row, Col, InRect;
  }

  lemma ReverseSet(t: Term, on: bool)
    requires Safe(t)
    ensures ModeAsAsked(t, SetReverse(t, on), 5, on)
  {
    hide EscOk, MarkAllDirty, SameButDirty;
    AltScreen.Unchanged(G(t).cells);
    if t.modes.reverse != on { AllMarked(t.(modes := t.modes.(reverse := on))); }
  }

  lemma OriginSet(t: Term, on: bool)
    requires Safe(t)
    ensures ModeAsAsked(t, SetOrigin(t, on), 6, on)
  {
    hide EscOk, CurMoveAbs;
    OnScreen(t);
    var t1 := LcfResetNoMove(t);
    AbsLands(t1.(modes := t1.modes.(origin := on)), 0, 0);
  }

  lemma VisibleSet(t: Term, on: bool)
    requires Safe(t)
    ensures ModeAsAsked(t, ShowCursor(t, on), 25, on)
  {
    hide EscOk, InvalidateCursor;
    Typing.InvalidateSame(t);
    if on && S(t).hidden { Typing.InvalidateSame(WithS(t, S(t).(hidden := false))); }
  }

  // ---- plain modes ------------------------------------------------------------------

  /** Insert mode and carriage returns with line feeds, from the bytes. */
  lemma PlainModeRead(t: Term, n: nat, on: bool, envs: seq<Env>)
    requires Ready(t) && (n == 4 || n == 20) && |envs| == |CommandText(0, [n], if on then SET else RESET)|
    ensures var m := if n == 4 then t.modes.(insert := on) else t.modes.(crlf := on);
      ReadAll(t, CommandText(0, [n], if on then SET else RESET), envs) ==
        Ordered(t, 0, [n], if on then SET else RESET).(modes := m)
  {
    hide EscOk, Safe, CsiRun, CommandText, ReadAll, Padded;
    CommandRuns(t, 0, [n], if on then SET else RESET, envs);
    PlainRuns(Ordered(t, 0, [n], if on then SET else RESET), n, on, envs[|envs| - 1].accel);
  }

  lemma PlainRuns(t: Term, n: nat, on: bool, accel: bool)
    requires Safe(t) && (n == 4 || n == 20) && t.esc.argv == Padded([n]) && t.esc.argc == 1 && t.esc.priv == 0
    requires t.esc.cmd == if on then SET else RESET
    ensures CsiRun(t, accel) == t.(modes := if n == 4 then t.modes.(insert := on) else t.modes.(crlf := on))
  {
    hide EscOk, Safe, Among, Padded;
    Grouped(if on then SET else RESET);
    assert PlainModes(SetPlainMode(t.modes, n, on), t.esc.argv, 1, 1, on) == SetPlainMode(t.modes, n, on);
  }

  // ---- the alternate screen ---------------------------------------------------------

  /** Entering the alternate screen with mode 1049 shows an empty one: every cell is blank, in the default colours. */
  lemma EnteredBlank(t: Term, i: nat)
    requires Safe(t) && !t.onAlt && !t.modes.noAltScreen && i < |G(EnterAlt(t, 1049)).cells|
    ensures var a := EnterAlt(t, 1049);
      a.onAlt && S(a).attr.style == PLAIN && S(a).attr.fg == DEFAULT_COLOR && S(a).attr.bg == DEFAULT_COLOR &&
      SameLook(G(a).cells[i], S(a).attr)
  {
    hide EscOk, Safe, SwitchScreen, EraseAll, Erased;
    var t1 := SwitchScreen(SaveCursor(t, SaveXTerm));
    var p := PlainPen(t1);
    AllIs(p);
    AllBlank(p, EraseAll(p), i);
  }

  lemma AllBlank(t: Term, r: Term, i: nat)
    requires Erased(t, r, 0, |G(t).cells|) && i < |G(r).cells|
    ensures S(r).attr == S(t).attr && r.onAlt == t.onAlt && SameLook(G(r).cells[i], S(r).attr)
  {
  }

  // ---- the terminal's own requests --------------------------------------------------

  lemma ColorsRun(t: Term, k: nat, accel: bool)
    requires Safe(t) && 1 <= k <= 3 && t.esc.argv == Padded([666, 69, 669, k]) && t.esc.argc == 4 && t.esc.priv == 1
    requires t.esc.cmd == SET
    ensures CsiRun(t, accel) == MarkAllDirty(t.(colorMode := k - 1))
  {
    hide EscOk, PrivModes, MarkAllDirty, Padded;
    var r := PrivateCode(t, k, true);
    assert PrivateCodes(r, t.esc.argv, 4, 4, true) == r;
  }

  /** The private request for a colour mode sets it and has everything drawn anew. */
  lemma ColorsRead(t: Term, k: nat, envs: seq<Env>)
    requires Ready(t) && 1 <= k <= 3 && |envs| == |CommandText(1, [666, 69, 669, k], SET)|
    ensures var u := ReadAll(t, CommandText(1, [666, 69, 669, k], SET), envs);
      u.colorMode == k - 1 && u.modes == t.modes && S(u) == S(t) && SameButDirty(G(t).cells, G(u).cells) &&
      forall i :: 0 <= i < |G(u).cells| ==> G(u).cells[i].dirty
  {
    hide EscOk, Safe, CsiRun, CommandText, ReadAll, Padded, SameButDirty;
    CommandRuns(t, 1, [666, 69, 669, k], SET, envs);
    var u := Ordered(t, 1, [666, 69, 669, k], SET);
    ColorsRun(u, k, envs[|envs| - 1].accel);
    AllDue(u, k - 1);
  }

  lemma HistoryRun(t: Term, on: bool, accel: bool)
    requires Safe(t) && t.esc.argv == Padded([666, 69, 669, 69]) && t.esc.argc == 4 && t.esc.priv == 1
    requires t.esc.cmd == if on then SET else RESET
    ensures CsiRun(t, accel) == if on then t.(historyEnabled := true) else t.(history := [])
  {
    hide EscOk, PrivModes, MarkAllDirty, Padded;
    var r := PrivateCode(t, 69, on);
    assert PrivateCodes(r, t.esc.argv, 4, 4, on) == r;
  }

  /** The private request for the history turns it on, or drops its lines. */
  lemma HistoryRead(t: Term, on: bool, envs: seq<Env>)
    requires Ready(t) && |envs| == |CommandText(1, [666, 69, 669, 69], if on then SET else RESET)|
    ensures var u := ReadAll(t, CommandText(1, [666, 69, 669, 69], if on then SET else RESET), envs);
      u == t.(esc := u.esc, rdcp := u.rdcp, historyEnabled := on || t.historyEnabled,
              history := if on then t.history else [])
  {
    hide EscOk, Safe, CsiRun, CommandText, ReadAll, Padded;
    CommandRuns(t, 1, [666, 69, 669, 69], if on then SET else RESET, envs);
    HistoryRun(Ordered(t, 1, [666, 69, 669, 69], if on then SET else RESET), on, envs[|envs| - 1].accel);
  }

  lemma AllDue(t: Term, mode: int)
    requires Safe(t)
    ensures var r := MarkAllDirty(t.(colorMode := mode));
      r.colorMode == mode && r.modes == t.modes && S(r) == S(t) && SameButDirty(G(t).cells, G(r).cells) &&
      forall i :: 0 <= i < |G(r).cells| ==> G(r).cells[i].dirty
  {
    hide EscOk, Row, Col;
    SafeGrid(t);
    WholeGrid(G(t), Dirty);
  }

  // ---- cancelling, and a fresh start ------------------------------------------------

  /** Whatever sequence or string is being read, the cancel character ends it and does nothing else. */
  lemma Cancelled(t: Term, env: Env)
    requires Safe(t) && Utf8.AtBoundary(t.rdcp)
    ensures ReadByte(t, 0x18, env) == t.(rdcp := 0x18, esc := t.esc.(state := Ground))
  {
    hide EscOk, Safe, ReadByte, PutC, Utf8.AtBoundary;
    AsciiByte(t, 0x18, env);
  }

  /** A new terminal: an empty screen with default colours, the cursor visible at home, the whole screen
      as region, wrapping on and every other mode off. */
  lemma FreshTerminal(w: nat, h: nat, historyOn: bool, gfx: bool, shape: CursorShape)
    requires 0 < w <= MAX_SIDE && 0 < h <= MAX_SIDE
    ensures var t := NewTerm(w, h, historyOn, gfx, shape);
      Ready(t) && StartsAfresh(t) && t.history == [] && G(t).width == w && G(t).height == h &&
      forall i :: 0 <= i < |G(t).cells| ==> SameLook(G(t).cells[i], S(t).attr)
  {
    hide EscOk;
  }

  ghost predicate StartsAfresh(t: Term) {
    !t.onAlt && Pos(t) == HOME && S(t).cursaved == HOME && !S(t).hidden && S(t).scTop == 0 &&
    S(t).scBot == G(t).height - 1 &&
    S(t).attr == Cell(0x20, PLAIN, DEFAULT_COLOR, DEFAULT_COLOR, false, false) && !Drawing(t) && t.modes.wrap &&
    !t.modes.insert && !t.modes.crlf && !t.modes.reverse && !t.modes.noAltScreen && !t.modes.origin &&
    t.esc.state == Ground
  }

  /** The full reset starts afresh on the main screen, whose cells it leaves alone. */
  lemma ResetStartsAfresh(t: Term)
    requires Safe(t)
    ensures var r := ResetMode(t); StartsAfresh(r) && G(r) == t.main && r.alt == NO_GRID && r.history == t.history
  {
    hide EscOk;
  }
}
