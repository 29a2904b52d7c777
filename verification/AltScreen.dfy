/** The alternate screen: whatever a full-screen program does there, the main screen comes back
    as it was left. */
module AltScreen {
  import opened Cells
  import opened TermModel
  import opened CsiModel
  import opened GridFacts
  import opened Scrollback
  import opened ScrollbackRuns
  import Utf8

  /** The same screen is shown, and the main one is out of reach while the other is shown. */
  predicate Stays(t: Term, r: Term) {
    r.onAlt == t.onAlt && (t.onAlt ==> r.main == t.main && r.mainScr == t.mainScr) &&
    (t.onAlt && !t.modes.noAltScreen ==> !r.modes.noAltScreen)
  }

  /** A step that may also leave the alternate screen, or enter it. */
  predicate Apart(t: Term, r: Term) {
    t.onAlt && !t.modes.noAltScreen && r.onAlt ==> Stays(t, r)
  }

  lemma StaysTrans(t: Term, u: Term, v: Term)
    requires Stays(t, u) && Stays(u, v)
    ensures Stays(t, v)
  {
  }

  lemma UntouchedStays(t: Term, r: Term)
    requires Untouched(t, r)
    ensures Stays(t, r)
  {
  }

  lemma ScreenStays(t: Term, g: Grid, s: Screen)
    ensures Stays(t, WithG(t, g)) && Stays(t, WithS(t, s))
  {
  }

  // ---- scrolling and characters -----------------------------------------------------

  lemma ScrollStays(t: Term, lines: int, accel: bool)
    requires Safe(t)
    ensures Stays(t, ScrollInternal(t, lines, accel))
    ensures Stays(t, ScrollUp(t, lines, accel)) && Stays(t, ScrollDown(t, lines, accel))
  {
    hide EscOk, Safe, ScrollInternal, RowOf;
    ScrollKept(t, lines, accel);
    var t1 := if lines == 1 && t.historyEnabled && !t.onAlt && t.mainScr.scTop == 0 then AppendHistory(t) else t;
    ScrollKept(t1, -lines, accel);
  }

  lemma LcfStays(t: Term, accel: bool)
    requires Safe(t)
    ensures Stays(t, LcfDo(t, accel))
  {
    hide EscOk, Safe, LcfStart, ScrollUp, NextRow, Untouched;
    if Pos(t).lastCol {
      var t1 := LcfStart(t);
      UntouchedStays(t, t1);
      var t2 := WithPos(t1, Pos(t1).(x := 0));
      ScreenStays(t1, G(t1), S(t2));
      AtRowStart(t1);
      if Pos(t2).y == S(t2).scBot { ScrollStays(t2, 1, accel); } else { UntouchedStays(t2, NextRow(t2)); }
    }
  }

  lemma AtRowStart(t: Term)
    requires Safe(t) && !Pos(t).lastCol
    ensures var t2 := WithPos(t, Pos(t).(x := 0)); Safe(t2) && !Pos(t2).lastCol && Stays(t, t2)
  {
    hide EscOk;
  }

  lemma PutCharStays(t: Term, cp: nat, accel: bool)
    requires Safe(t)
    ensures Stays(t, PutChar(t, cp, accel))
  {
    hide EscOk, Safe, LcfDo, WriteHere, Advance, Translate, MarkWrap, Untouched;
    var t1 := StaleWrap(t);
    assert Stays(t, t1);
    LcfStays(t1, accel);
    var t2 := LcfDo(t1, accel);
    var t3 := WriteHere(t2, Translate(t, cp));
    ScreenStays(t2, G(t3), S(t2));
    UntouchedStays(t3, Advance(t3));
  }

  lemma LineFeedStays(t: Term, accel: bool)
    requires Safe(t)
    ensures Stays(t, LineFeed(t, accel))
  {
    hide EscOk, Safe, MarkWrap, FeedScroll, FeedStep, Untouched;
    var t1 := LcfReset(t);
    var t2 := MarkWrap(t1, Pos(t1).y, false);
    assert Stays(t, t2);
    if Pos(t2).y == S(t2).scBot { FeedScrollStays(t2, accel); } else { UntouchedStays(t2, FeedStep(t2)); }
  }

  lemma FeedScrollStays(t: Term, accel: bool)
    requires Safe(t) && !Pos(t).lastCol
    ensures Stays(t, FeedScroll(t, accel))
  {
    hide EscOk, Safe, ScrollUp, InvalidateCursor;
    ScrollStays(t, 1, accel);
  }

  lemma StepsStay(t: Term)
    requires Safe(t)
    ensures Stays(t, BackSpace(t)) && Stays(t, Tab(t)) && Stays(t, CarriageReturn(t)) && Stays(t, LcfResetNoMove(t))
  {
    hide EscOk, MoveTo, MarkWrap;
  }

  lemma PutCStays(t: Term, cp: nat, accel: bool)
    requires Safe(t)
    ensures Stays(t, PutC(t, cp, accel))
  {
    hide EscOk, Safe, PutChar, LineFeed, BackSpace, Tab, CarriageReturn, LcfResetNoMove;
    StepsStay(t);
    PutCharStays(t, cp, accel);
    LineFeedStays(t, accel);
  }

  // ---- control sequences ------------------------------------------------------------

  lemma EraseStays(t: Term, x0: int, y0: int, x1: int, y1: int)
    requires Safe(t)
    ensures Stays(t, Erase(t, x0, y0, x1, y1))
  {
    hide EscOk, Region;
  }

  lemma ErasesStay(t: Term)
    requires Safe(t)
    ensures Stays(t, EraseDisplay(t)) && Stays(t, EraseLine(t)) && Stays(t, EraseAll(t))
  {
    hide EscOk, Safe, Region;
  }

  lemma CsiEraseStays(t: Term)
    requires Safe(t)
    ensures Stays(t, CsiErase(t))
  {
    hide EscOk, Safe, ShiftChars, Erase, EraseDisplay, EraseLine, Arg1;
    ErasesStay(LcfReset(t));
    var t1 := LcfReset(t);
    EraseStays(t1, Pos(t1).x, Pos(t1).y, Pos(t1).x + Arg1(t1, 0) - 1, Pos(t1).y);
  }

  lemma ScrollBelowStays(t: Term, lines: int, accel: bool)
    requires Safe(t)
    ensures Stays(t, ScrollBelow(t, lines, accel))
  {
    hide EscOk, ScrollInternal;
    var s := S(t);
    if s.scTop <= s.curpos.y <= s.scBot { ScrollKept(WithS(t, s.(scTop := Max(s.scTop, s.curpos.y))), lines, accel); }
  }

  lemma CsiScrollStays(t: Term, accel: bool)
    requires Safe(t)
    ensures Stays(t, CsiScroll(t, accel))
  {
    hide EscOk, Safe, ScrollBelow, ScrollUp, ScrollDown, Arg1;
    var t1 := LcfReset(t);
    var n := Arg1(t, 0);
    ScrollBelowStays(t1, n, accel);
    ScrollBelowStays(t1, -n, accel);
    ScrollStays(t1, n, accel);
  }

  lemma MovesStay(t: Term, dx: int, dy: int)
    requires Safe(t)
    ensures Stays(t, CurMoveRel(t, dx, dy)) && Stays(t, CurMoveAbs(t, dx, dy)) && Stays(t, LcfReset(t))
  {
    hide EscOk, CurMoveRel, CurMoveAbs;
  }

  lemma CsiStepStays(t: Term)
    requires Safe(t)
    ensures Stays(t, CsiStep(t)) && Stays(t, CsiGoTo(t))
  {
    hide EscOk, Safe, CurMoveRel, CurMoveAbs, StepOf;
  }

  lemma SetRegionStays(t: Term)
    requires Safe(t)
    ensures Stays(t, SetRegion(t))
  {
    hide EscOk, Safe, CurMoveAbs;
  }

  lemma TabStays(t: Term, nx: int)
    requires Safe(t) && 0 <= nx < G(t).width
    ensures Stays(t, MoveToTab(LcfReset(t), nx))
  {
    hide EscOk, MoveTo;
  }

  lemma CsiMoveStays(t: Term)
    requires Safe(t)
    ensures Stays(t, CsiMove(t))
  {
    hide EscOk, Safe, SetRegion, MoveToTab, TabForward, TabBack, LcfReset;
    OnScreen(t);
    var n := Arg1(t, 0);
    SetRegionStays(t);
    TabForwardOk(Pos(t).x, G(t).width, n);
    TabStays(t, TabForward(Pos(t).x, G(t).width, n));
    TabStays(t, TabBack(Pos(t).x, n));
  }

  lemma RestoreStays(t: Term, kind: SaveKind)
    requires Safe(t)
    ensures Stays(t, RestoreCursor(t, kind)) && Stays(t, SaveCursor(t, kind))
  {
    hide EscOk, RestorePos;
  }

  lemma {:induction false} PlainModesStay(m: Modes, argv: seq<int>, argc: nat, i: nat, on: bool)
    requires argc <= |argv|
    ensures PlainModes(m, argv, argc, i, on).noAltScreen == m.noAltScreen
    decreases argc - i
  {
    hide SetPlainMode;
    if i < argc {
      PlainModeStays(m, argv[i], on);
      PlainModesStay(SetPlainMode(m, argv[i], on), argv, argc, i + 1, on);
    }
  }

  lemma PlainModeStays(m: Modes, arg: int, on: bool)
    ensures SetPlainMode(m, arg, on).noAltScreen == m.noAltScreen
  {
  }

  lemma CsiModesStay(t: Term)
    requires Safe(t)
    ensures Stays(t, CsiModes(t))
  {
    hide EscOk, Safe, PlainModes, Sgr, Stays;
    ArgsFit(t);
    StaysSelf(t);
    ScreenStays(t, G(t), S(t).(attr := Sgr(S(t).attr, t.esc.argv, t.esc.argc)));
    PlainModesStay(t.modes, t.esc.argv, t.esc.argc, 0, true);
    PlainModesStay(t.modes, t.esc.argv, t.esc.argc, 0, false);
    ModesStay(t, PlainModes(t.modes, t.esc.argv, t.esc.argc, 0, true));
    ModesStay(t, PlainModes(t.modes, t.esc.argv, t.esc.argc, 0, false));
  }

  lemma ModesStay(t: Term, m: Modes)
    requires m.noAltScreen == t.modes.noAltScreen
    ensures Stays(t, t.(modes := m))
  {
  }

  lemma ArgsFit(t: Term)
    requires Safe(t)
    ensures EscOk(t.esc) && 0 <= t.esc.argc <= |t.esc.argv|
  {
    assert EscOk(t.esc);
  }

  lemma CsiNormalStays(t: Term, accel: bool)
    requires Safe(t)
    ensures Stays(t, CsiNormal(t, accel))
  {
    hide EscOk, CsiErase, CsiScroll, CsiStep, CsiGoTo, CsiMove, CsiModes, SaveCursor, Among, RestoreCursor, Safe, Stays;
    CsiModesStay(t);
    CsiEraseStays(t);
    CsiScrollStays(t, accel);
    CsiStepStays(t);
    CsiMoveStays(t);
    RestoreStays(t, SaveAnsi);
  }

  lemma SettingsStay(t: Term, on: bool)
    requires Safe(t)
    ensures Stays(t, SetReverse(t, on)) && Stays(t, SetOrigin(t, on)) && Stays(t, ShowCursor(t, on))
  {
    hide EscOk, Safe, SetReverse, SetOrigin, ShowCursor, Stays;
    ReverseStays(t, on);
    OriginStays(t, on);
    ShowStays(t, on);
  }

  lemma ReverseStays(t: Term, on: bool)
    requires Safe(t)
    ensures Stays(t, SetReverse(t, on))
  {
    hide EscOk, MarkAllDirty;
  }

  lemma OriginStays(t: Term, on: bool)
    requires Safe(t)
    ensures Stays(t, SetOrigin(t, on))
  {
    hide EscOk, CurMoveAbs;
  }

  lemma ShowStays(t: Term, on: bool)
    requires Safe(t)
    ensures Stays(t, ShowCursor(t, on))
  {
    hide EscOk, InvalidateCursor;
  }

  lemma ClearsStay(t: Term)
    requires Safe(t)
    ensures Stays(t, ClearAndHome(t)) && Stays(t, ClearPlain(t))
  {
    hide EscOk, Safe, CurMoveAbs, EraseAll;
    ErasesStay(LcfReset(t));
    ErasesStay(PlainPen(t));
  }

  lemma BitsStay(t: Term, arg: int)
    requires Safe(t) && t.onAlt
    ensures EnterAlt(t, arg) == t && Stays(t, t.(modes := PrivBit(t.modes, arg, true)))
  {
    hide EscOk, Safe;
  }

  /** On the alternate screen no mode that is set leads away from it. */
  lemma PrivSetStays(t: Term, arg: int)
    requires Safe(t) && t.onAlt
    ensures Stays(t, PrivSet(t, arg))
  {
    hide EscOk, Safe, ClearAndHome, SetReverse, SetOrigin, ShowCursor, EnterAlt, SaveCursor, PrivBit;
    SettingsStay(t, true);
    ClearsStay(t);
    RestoreStays(t, SaveXTerm);
    BitsStay(t, arg);
  }

  /** A mode that is reset may leave the alternate screen, but never enters it. */
  lemma PrivResetApart(t: Term, arg: int)
    requires Safe(t)
    ensures Apart(t, PrivReset(t, arg)) && (!t.onAlt ==> !PrivReset(t, arg).onAlt)
  {
    hide EscOk, Safe, ClearAndHome, SetReverse, SetOrigin, ShowCursor, LeaveAlt, WrapOff, AltOff, RestoreCursor;
    SettingsStay(t, false);
    ClearsStay(t);
    OffsApart(t, arg);
    RestoreStays(t, SaveXTerm);
  }

  lemma OffsApart(t: Term, arg: int)
    requires Safe(t)
    ensures Stays(t, WrapOff(t))
    ensures !AltOff(t).onAlt && (!t.onAlt || !t.modes.noAltScreen ==> !LeaveAlt(t, arg).onAlt)
  {
    hide EscOk, Safe, ClearPlain, RestoreCursor, SwitchScreen;
    ClearsStay(t);
    var t1 := if arg != 47 then ClearPlain(t) else t;
    RestoreStays(SwitchScreen(t1), SaveXTerm);
  }

  lemma {:induction false} PrivModesApart(t: Term, argv: seq<int>, argc: nat, i: nat, on: bool)
    requires Safe(t) && argc <= |argv|
    ensures Apart(t, PrivModes(t, argv, argc, i, on))
    ensures !on && !t.onAlt ==> !PrivModes(t, argv, argc, i, on).onAlt
    decreases argc - i
  {
    hide EscOk, Safe, PrivSet, PrivReset, Stays;
    StaysSelf(t);
    if i < argc {
      var u := PrivStep(t, argv[i], on);
      PrivModesApart(u, argv, argc, i + 1, on);
      if !on { PrivResetApart(t, argv[i]); } else if t.onAlt { PrivSetStays(t, argv[i]); }
      StaysShown(t, u);
      ApartAfter(t, u, PrivModes(u, argv, argc, i + 1, on));
    }
  }

  lemma StaysSelf(t: Term)
    ensures Stays(t, t)
  {
  }

  lemma StaysShown(t: Term, r: Term)
    ensures Stays(t, r) ==> r.onAlt == t.onAlt && (t.onAlt && !t.modes.noAltScreen ==> !r.modes.noAltScreen)
  {
  }

  lemma ApartAfter(t: Term, u: Term, v: Term)
    requires (t.onAlt && !t.modes.noAltScreen && u.onAlt ==> Stays(t, u)) && Apart(u, v)
    requires t.onAlt && !u.onAlt ==> !v.onAlt || t.modes.noAltScreen
    ensures Apart(t, v)
  {
  }

  lemma PrivateCodeStays(t: Term, code: int, on: bool)
    requires Safe(t)
    ensures Stays(t, PrivateCode(t, code, on))
  {
    hide EscOk, Safe, Region;
  }

  lemma {:induction false} PrivateCodesStay(t: Term, argv: seq<int>, argc: nat, i: nat, on: bool)
    requires Safe(t) && argc <= |argv|
    ensures Stays(t, PrivateCodes(t, argv, argc, i, on))
    decreases argc - i
  {
    hide EscOk, Safe, PrivateCode;
    if i < argc {
      PrivateCodeStays(t, argv[i], on);
      PrivateCodesStay(PrivateCode(t, argv[i], on), argv, argc, i + 1, on);
    }
  }

  lemma CsiPrivApart(t: Term)
    requires Safe(t)
    ensures Apart(t, CsiPriv(t))
  {
    hide PrivModes, PrivateCodes;
    var e := t.esc;
    PrivateCodesStay(t, e.argv, e.argc, 3, e.cmd == 'h' as int);
    PrivModesApart(t, e.argv, e.argc, 0, e.cmd == 'h' as int);
  }

  // ---- characters and bytes ---------------------------------------------------------

  lemma EscOnlyApart(t: Term, t1: Term, r: Term)
    requires t1 == t.(esc := t1.esc, rdcp := t1.rdcp) && Apart(t1, r)
    ensures Apart(t, r)
  {
  }

  lemma ProcessCsiApart(t: Term, cp: nat, accel: bool)
    requires Safe(t) && t.esc.state in {Csi, CsiIgnore}
    ensures Apart(t, ProcessCsi(t, cp, accel))
  {
    hide CsiNextChar, FillArgs, CsiPriv, CsiNormal;
    var (e, done) := CsiNextChar(t.esc, cp);
    if done && e.state != CsiIgnore && e.cmd != 0 {
      var t1 := t.(esc := e.(state := Ground));
      var t2 := t1.(esc := FillArgs(t1.esc));
      CsiPrivApart(t2);
      CsiNormalStays(t2, accel);
      EscOnlyApart(t, t2, CsiRun(t2, accel));
    }
  }

  lemma EscRunApart(t: Term, cp: nat, accel: bool)
    requires Safe(t)
    ensures Apart(t, EscRun(t, cp, accel))
  {
    hide EscOk, Safe, PutC, LcfReset, Index, ReverseIndex, CurMoveAbs, RestoreCursor, SaveCursor, Stays;
    if cp == 'D' as int || cp == 'M' as int { IndexStays(t, accel); }
    else if cp == 'E' as int { NewLineStays(t, accel); }
    else if cp == 'F' as int { MovesStay(t, 0, G(t).height - 1); }
    else if cp == '7' as int || cp == '8' as int { RestoreStays(t, SaveDec); }
    else { StaysSelf(t); }
  }

  lemma NewLineStays(t: Term, accel: bool)
    requires Safe(t)
    ensures Stays(t, PutC(PutC(LcfReset(t), 0x0a, accel), 0x0d, accel))
  {
    hide EscOk, Safe, PutC, LcfReset, Stays;
    var t1 := LcfReset(t);
    var t2 := PutC(t1, 0x0a, accel);
    MovesStay(t, 0, 0);
    PutCStays(t1, 0x0a, accel);
    PutCStays(t2, 0x0d, accel);
    StaysTrans(t, t1, t2);
    StaysTrans(t, t2, PutC(t2, 0x0d, accel));
  }

  lemma IndexStays(t: Term, accel: bool)
    requires Safe(t)
    ensures Stays(t, Index(t, accel)) && Stays(t, ReverseIndex(t, accel))
  {
    hide EscOk, Safe, ScrollUp, ScrollDown, CurMoveRel, LcfReset, Stays;
    var t1 := LcfReset(t);
    MovesStay(t, 0, 0);
    ScrollStays(t1, 1, accel);
    MovesStay(t1, 0, 1);
    MovesStay(t1, 0, -1);
    StaysSelf(t1);
    StaysTrans(t, t1, Index(t, accel));
    StaysTrans(t, t1, ReverseIndex(t, accel));
  }

  lemma ProcessEscApart(t: Term, cp: nat, accel: bool)
    requires Safe(t)
    ensures Apart(t, ProcessEsc(t, cp, accel))
  {
    hide EscOk, Safe, EscRun, StartString, StartCsi;
    var t1 := ToGround(t);
    EscRunApart(t1, cp, accel);
    EscOnlyApart(t, t1, ProcessEsc(t, cp, accel));
  }

  lemma StringsStay(t: Term, cp: nat, accel: bool)
    requires Safe(t)
    ensures Stays(t, StringControl(t, cp, accel).0) && Stays(t, ProcessHash(t, cp)) && Stays(t, ToGround(t))
    ensures Stays(t, Designate(t, true, cp)) && Stays(t, Designate(t, false, cp))
    ensures t.esc.state == Dcs ==> Stays(t, ProcessDcs(t, cp))
  {
    hide EscOk, Safe, PutC, Region, AppendChar;
    PutCStays(ToGround(t), cp, accel);
    PutCStays(ToGround(t), '?' as int, accel);
  }

  lemma ProcessOscStays(t: Term, cp: nat, env: Env)
    requires Safe(t) && t.esc.state == Osc
    ensures Stays(t, ProcessOsc(t, cp, env))
  {
    hide EscOk, Safe, OscText, StringControl, FinishOsc, Stays;
    var t1 := if cp == 0x07 || cp == 0x1b then FinishOsc(t, env.newGroup) else t;
    StaysSelf(t);
    FinishStays(t, env.newGroup);
    StringsStay(t1, cp, env.accel);
    StaysTrans(t, t1, StringControl(t1, cp, env.accel).0);
    ArgsFit(t);
    EscOnlyStays(t, OscText(t.esc, cp));
  }

  lemma FinishStays(t: Term, newGroup: bool)
    requires Safe(t)
    ensures Stays(t, FinishOsc(t, newGroup))
  {
    hide EscOk, Safe;
  }

  lemma EscOnlyStays(t: Term, e: EscSeq)
    ensures Stays(t, t.(esc := e))
  {
  }

  lemma ProcessStateApart(t: Term, cp: nat, env: Env)
    requires Safe(t)
    ensures Apart(t, ProcessState(t, cp, env))
  {
    hide EscOk, Safe, PutC, ProcessEsc, ProcessCsi, ProcessHash, ProcessOsc, ProcessDcs, StringControl, Designate,
         ToGround, Stays;
    StringsStay(t, cp, env.accel);
    match t.esc.state
    case Ground => PutCStays(t, cp, env.accel);
    case Escape => ProcessEscApart(t, cp, env.accel);
    case Csi => ProcessCsiApart(t, cp, env.accel);
    case CsiIgnore => ProcessCsiApart(t, cp, env.accel);
    case Osc => ProcessOscStays(t, cp, env);
    case _ =>
  }

  lemma ProcessCharApart(t: Term, cp: nat, env: Env)
    requires Safe(t)
    ensures Apart(t, ProcessChar(t, cp, env))
  {
    hide EscOk, Safe, ControlChar, ProcessState;
    ControlStays(t, cp, env.accel);
    ProcessStateApart(t, cp, env);
  }

  lemma ControlStays(t: Term, cp: nat, accel: bool)
    requires Safe(t)
    ensures Stays(t, ControlChar(t, cp, accel).0)
  {
    hide EscOk, Safe, PutC, ToGround, ToState;
    if cp == 0x1a { PutCStays(t, '?' as int, accel); } else if cp < 0x20 { PutCStays(t, cp, accel); }
  }

  lemma ReadByteApart(t: Term, b: Utf8.Byte, env: Env)
    requires Safe(t)
    ensures Apart(t, ReadByte(t, b, env))
  {
    hide EscOk, PutC, ProcessChar, Utf8.Consume, Utf8.Packed;
    Utf8.ConsumePacked(t.rdcp, b);
    var w := Utf8.Consume(t.rdcp, b);
    var t1 := t.(rdcp := w);
    ProcessCharApart(t1, w, env);
    PutCStays(t1, Utf8.REPLACEMENT, env.accel);
    EscOnlyApart(t, t1, ReadByte(t, b, env));
  }

  // ---- runs -------------------------------------------------------------------------

  /** The alternate screen is shown after every byte of the run. */
  ghost predicate StaysOnAlt(t: Term, bytes: seq<Utf8.Byte>, envs: seq<Env>)
    requires Safe(t) && |envs| == |bytes|
    decreases |bytes|
  {
    bytes != [] ==>
      var u := ReadByte(t, bytes[0], envs[0]);
      u.onAlt && StaysOnAlt(u, bytes[1..], envs[1..])
  }

  /** Whatever is sent while the alternate screen is shown, the main one stays as it is, cursor,
      saved cursor and scroll region included. */
  lemma {:induction false} MainUntouched(t: Term, bytes: seq<Utf8.Byte>, envs: seq<Env>)
    requires Safe(t) && |envs| == |bytes| && t.onAlt && !t.modes.noAltScreen && StaysOnAlt(t, bytes, envs)
    ensures Stays(t, ReadAll(t, bytes, envs))
    decreases |bytes|
  {
    hide EscOk, Safe, ReadByte;
    if bytes != [] {
      var u := ReadByte(t, bytes[0], envs[0]);
      ReadByteApart(t, bytes[0], envs[0]);
      MainUntouched(u, bytes[1..], envs[1..]);
    }
  }

  lemma InvalidatedMain(t: Term)
    requires Safe(t)
    ensures var r := InvalidateCursor(t);
      SameButDirty(t.main.cells, r.main.cells) && r == t.(main := r.main, alt := r.alt)
  {
    hide EscOk, Row, Col, InRect;
  }

  lemma MergedSame(d: Grid, s: Grid)
    requires Live(d) && Live(s)
    ensures SameButDirty(d.cells, MergeAllDirty(d, s).cells)
  {
    hide Row, Col;
  }

  lemma MarkedSame(g: Grid, op: RegionOp)
    requires Live(g) && (op == Clean || op == Dirty)
    ensures SameButDirty(g.cells, Region(g, 0, 0, g.width - 1, g.height - 1, op).cells)
  {
    hide Row, Col, InRect;
  }

  /** A switch changes no more of the main screen than dirty bits. */
  lemma SwitchedMain(t: Term)
    requires Safe(t)
    ensures var r := SwitchScreen(t);
      SameButDirty(t.main.cells, r.main.cells) && r.mainScr == t.mainScr && r.modes == t.modes && r.charset == t.charset
  {
    hide EscOk, InvalidateCursor, SwitchRedrawing, SwitchMerging, SameButDirty;
    var t1 := InvalidateCursor(t);
    InvalidatedMain(t);
    SwitchedBoth(t1);
    var t2 := if t1.scrollCount != 0 then SwitchRedrawing(t1) else SwitchMerging(t1);
    InvalidatedMain(t2);
    SameTwice(t.main.cells, t1.main.cells, t2.main.cells);
    SameTwice(t.main.cells, t2.main.cells, SwitchScreen(t).main.cells);
  }

  lemma SameTwice(a: seq<Cell>, b: seq<Cell>, c: seq<Cell>)
    requires SameButDirty(a, b) && SameButDirty(b, c)
    ensures SameButDirty(a, c)
  {
  }

  lemma SwitchedBoth(t: Term)
    requires Safe(t)
    ensures var r := SwitchRedrawing(t);
      SameButDirty(t.main.cells, r.main.cells) && r.mainScr == t.mainScr && r.modes == t.modes && r.charset == t.charset
    ensures var r := SwitchMerging(t);
      SameButDirty(t.main.cells, r.main.cells) && r.mainScr == t.mainScr && r.modes == t.modes && r.charset == t.charset
  {
    hide EscOk, Region, MergeAllDirty, SameButDirty;
    BothUsable(t);
    MarkedSame(t.main, Clean);
    MarkedSame(t.main, Dirty);
    MarkedSame(MarkAllClean(t.main), Dirty);
    SameTwice(t.main.cells, MarkAllClean(t.main).cells,
              Region(MarkAllClean(t.main), 0, 0, t.main.width - 1, t.main.height - 1, Dirty).cells);
    MergedSame(t.main, EnsureAlt(t).alt);
    Unchanged(t.main.cells);
  }

  lemma Unchanged(a: seq<Cell>)
    ensures SameButDirty(a, a)
  {
  }

  lemma BothUsable(t: Term)
    requires Safe(t)
    ensures Live(t.main) && Live(EnsureAlt(t).alt) && (t.onAlt ==> EnsureAlt(t) == t)
  {
    hide EscOk;
  }

  /** Entering: the cursor, its attributes and modes are saved, the main screen only loses dirty bits. */
  lemma Enters(t: Term)
    requires Safe(t) && !t.onAlt && !t.modes.noAltScreen
    ensures var a := EnterAlt(t, 1049);
      a.onAlt && !a.modes.noAltScreen && SameButDirty(t.main.cells, a.main.cells) &&
      a.mainScr == t.mainScr.(cursaved := t.mainScr.curpos, attrSaved := t.mainScr.attr, charsetSaved := t.charset,
                              modesSaved := t.modes)
  {
    hide EscOk, Safe, SwitchScreen, ClearPlain, SameButDirty;
    var t1 := SaveCursor(t, SaveXTerm);
    SwitchedMain(t1);
    ClearsStay(SwitchScreen(t1));
  }

  /** Leaving: the main screen only changes dirty bits, and what was saved with it comes back. */
  lemma Leaves(b: Term)
    requires Safe(b) && b.onAlt && !b.modes.noAltScreen
    ensures var c := LeaveAlt(b, 1049);
      !c.onAlt && SameButDirty(b.main.cells, c.main.cells) && Restored(b.mainScr, c)
  {
    hide EscOk, Safe, SwitchScreen, ClearPlain, RestoreCursor, SameButDirty, Restored;
    var b1 := ClearPlain(b);
    ClearsStay(b);
    var b2 := SwitchScreen(b1);
    SwitchedMain(b1);
    RestoredMain(b2);
    SameTwice(b.main.cells, b2.main.cells, LeaveAlt(b, 1049).main.cells);
  }

  /** Cursor, attributes, character sets and wrapping are those that were saved. */
  predicate Restored(saved: Screen, c: Term) {
    Pos(c) == saved.cursaved && S(c).attr == saved.attrSaved && c.charset == saved.charsetSaved &&
    c.modes.gfx0 == saved.modesSaved.gfx0 && c.modes.gfx1 == saved.modesSaved.gfx1 &&
    c.modes.wrap == saved.modesSaved.wrap
  }

  lemma RestoredMain(t: Term)
    requires Safe(t) && !t.onAlt
    ensures var c := RestoreCursor(t, SaveXTerm);
      !c.onAlt && SameButDirty(t.main.cells, c.main.cells) && Restored(t.mainScr, c)
  {
    hide EscOk, RestorePos, SameButDirty;
    RestoredPos(t);
  }

  lemma RestoredPos(t: Term)
    requires Safe(t) && !t.onAlt
    ensures var c := RestorePos(t);
      !c.onAlt && SameButDirty(t.main.cells, c.main.cells) && c.mainScr == t.mainScr.(curpos := t.mainScr.cursaved) &&
      c.modes == t.modes
  {
    hide EscOk, InvalidateCursor, SameButDirty;
    var saved := S(t).cursaved;
    Unchanged(t.main.cells);
    if saved.x != Pos(t).x || saved.y != Pos(t).y {
      var t1 := InvalidateCursor(t);
      InvalidatedMain(t);
      var t2 := WithPos(t1, saved);
      InvalidatedMain(t2);
      SameTwice(t.main.cells, t1.main.cells, InvalidateCursor(t2).main.cells);
    }
  }

  /** The round trip of a full-screen program: enter the alternate screen, send anything that does not
      leave it, leave again. The main screen is as before, wrap marks included, and so are cursor,
      attributes, character sets and wrapping. */
  lemma RoundTrip(t: Term, bytes: seq<Utf8.Byte>, envs: seq<Env>)
    requires Safe(t) && !t.onAlt && !t.modes.noAltScreen && |envs| == |bytes| &&
      StaysOnAlt(EnterAlt(t, 1049), bytes, envs)
    ensures var c := LeaveAlt(ReadAll(EnterAlt(t, 1049), bytes, envs), 1049);
      !c.onAlt && SameButDirty(t.main.cells, c.main.cells) && Pos(c) == Pos(t) && S(c).attr == S(t).attr &&
      c.charset == t.charset && c.modes.gfx0 == t.modes.gfx0 && c.modes.gfx1 == t.modes.gfx1 &&
      c.modes.wrap == t.modes.wrap
  {
    hide EscOk, Safe, EnterAlt, LeaveAlt, SameButDirty;
    var a := EnterAlt(t, 1049);
    Enters(t);
    MainUntouched(a, bytes, envs);
    var b := ReadAll(a, bytes, envs);
    Leaves(b);
    SameTwice(t.main.cells, a.main.cells, LeaveAlt(b, 1049).main.cells);
  }
}
