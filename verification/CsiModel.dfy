/** The escape-sequence machine as functions on terminal states: the parameter parser,
    the control-sequence handlers and the per-character dispatcher. */
module CsiModel {
  import opened Cells
  import opened TermModel
  import Utf8

  // ---- the parameter parser ---------------------------------------------------------

  function StartCsi(e: EscSeq): EscSeq {
    e.(state := Csi, argc := 0, priv := 0, cmd := 0)
  }

  function StartString(e: EscSeq, state: ParseState): (r: EscSeq)
    requires EscOk(e)
    ensures EscOk(r)
  {
    var r := e.(state := state, sbufpos := 0, cmd := 0, priv := 0, sbuf := e.sbuf[0 := 0]);
    assert r.sbuf[0] == 0;
    r
  }

  /** One parameter character; the flag says that it was the final one. */
  function CsiNextChar(e: EscSeq, cp: nat): (r: (EscSeq, bool))
    requires EscOk(e)
    ensures EscOk(r.0) || e.state in {Osc, Dcs}
    ensures EscOk(r.0.(state := Ground))
  {
    if cp == '?' as int && e.argc == 0 then (e.(priv := 1), false)
    else if cp == '>' as int && e.argc == 0 then (e.(priv := -1), false)
    else if cp == ';' as int || cp == ':' as int then
      var e1 := if e.argc == 0 then e.(argv := e.argv[0 := -1], argc := 1) else e;
      var e2 := if e1.argc < ARG_SIZE then e1.(argv := e1.argv[e1.argc := -1]) else e1;
      (e2.(argc := Min(ARG_SIZE, e2.argc + 1)), false)
    else if '0' as int <= cp <= '9' as int then
      var e1 := if e.argc == 0 then e.(argv := e.argv[0 := 0], argc := 1) else e;
      var i := e1.argc - 1;
      var val := if e1.argv[i] == -1 then 0 else e1.argv[i];
      (e1.(argv := e1.argv[i := (val * 10 + (cp - '0' as int)) % 0x1_0000]), false)
    else if 0x40 <= cp <= 0x7e then (e.(cmd := cp), true)
    else (e.(state := CsiIgnore), false)
  }

  /** Arguments beyond the last one count as omitted. */
  function FillArgs(e: EscSeq): (r: EscSeq)
    requires EscOk(e)
    ensures EscOk(r) && r == e.(argv := r.argv)
    ensures forall i :: 0 <= i < ARG_SIZE ==> r.argv[i] == if i < e.argc then e.argv[i] else -1
  {
    e.(argv := seq(ARG_SIZE, i requires 0 <= i < ARG_SIZE => if i < e.argc then e.argv[i] else -1))
  }

  // ---- colours and attributes -------------------------------------------------------

  const STD_COLOR: nat := 0xff00_0000

  /** Arguments after 38 or 48: the colour, if one is set, and where the next attribute starts. */
  function SgrColor(argv: seq<int>, argc: nat, i: nat): (r: (Option<nat>, nat))
    requires argc <= |argv| && i <= argc
    ensures i <= r.1 <= i + 4
    ensures r.0.Some? ==>
      r.0.value < 0x100_0000 || STD_COLOR <= r.0.value < STD_COLOR + 256 || r.0.value == DEFAULT_COLOR
  {
    if i + 1 < argc && argv[i] == 5 then (Some(STD_COLOR + Max(0, argv[i + 1]) % 256), i + 2)
    else if i < argc && argv[i] == 2 then
      if i + 3 < argc && argv[i + 1] >= 0 && argv[i + 2] >= 0 && argv[i + 3] >= 0 then
        (Some(argv[i + 1] % 256 * 0x1_0000 + argv[i + 2] % 256 * 0x100 + argv[i + 3] % 256), i + 4)
      else (None, i + 4)
    else (Some(DEFAULT_COLOR), i)
  }

  function SgrOne(a: Cell, n: int): Cell {
    if n == 0 then a.(style := PLAIN, fg := DEFAULT_COLOR, bg := DEFAULT_COLOR)
    else if n == 1 then a.(style := a.style.(bold := true))
    else if n == 4 then a.(style := a.style.(underline := true))
    else if n == 5 then a.(style := a.style.(blink := true))
    else if n == 7 then a.(style := a.style.(inverse := true))
    else if n == 22 then a.(style := a.style.(bold := false))
    else if n == 24 then a.(style := a.style.(underline := false))
    else if n == 25 then a.(style := a.style.(blink := false))
    else if n == 27 then a.(style := a.style.(inverse := false))
    else if n == 39 then a.(fg := DEFAULT_COLOR)
    else if n == 49 then a.(bg := DEFAULT_COLOR)
    else if 30 <= n <= 37 then a.(fg := STD_COLOR + (n - 30))
    else if 40 <= n <= 47 then a.(bg := STD_COLOR + (n - 40))
    else if 90 <= n <= 97 then a.(fg := STD_COLOR + (n - 90 + 8))
    else if 100 <= n <= 107 then a.(bg := STD_COLOR + (n - 100 + 8))
    else a
  }

  function SgrFrom(a: Cell, argv: seq<int>, argc: nat, i: nat): Cell
    requires argc <= |argv|
    decreases argc - i
  {
    if i >= argc then a
    else
      var n := Max(0, argv[i]);
      if n == 38 || n == 48 then
        var (c, next) := SgrColor(argv, argc, i + 1);
        var a1 := if c.None? then a else if n == 38 then a.(fg := c.value) else a.(bg := c.value);
        SgrFrom(a1, argv, argc, next)
      else SgrFrom(SgrOne(a, n), argv, argc, i + 1)
  }

  function Sgr(a: Cell, argv: seq<int>, argc: nat): Cell
    requires argc <= |argv|
  {
    if argc == 0 then SgrOne(a, 0) else SgrFrom(a, argv, argc, 0)
  }

  /** No argument past the last is read, whatever the parser has left there. */
  lemma {:induction false} SgrReadsOnly(a: Cell, argv: seq<int>, argv1: seq<int>, argc: nat, i: nat)
    requires argc <= |argv| && argc <= |argv1| && forall k :: 0 <= k < argc ==> argv[k] == argv1[k]
    ensures SgrFrom(a, argv, argc, i) == SgrFrom(a, argv1, argc, i)
    decreases argc - i
  {
    hide SgrColor, SgrOne;
    if i < argc {
      var n := Max(0, argv[i]);
      if n == 38 || n == 48 {
        ColorReadsOnly(argv, argv1, argc, i + 1);
        var (c, next) := SgrColor(argv, argc, i + 1);
        var a1 := if c.None? then a else if n == 38 then a.(fg := c.value) else a.(bg := c.value);
        SgrReadsOnly(a1, argv, argv1, argc, next);
      } else {
        SgrReadsOnly(SgrOne(a, n), argv, argv1, argc, i + 1);
      }
    }
  }

  lemma ColorReadsOnly(argv: seq<int>, argv1: seq<int>, argc: nat, i: nat)
    requires argc <= |argv| && argc <= |argv1| && i <= argc && forall k :: 0 <= k < argc ==> argv[k] == argv1[k]
    ensures SgrColor(argv, argc, i) == SgrColor(argv1, argc, i)
  {
  }

  // ---- handlers ---------------------------------------------------------------------

  /** What a character's processing cannot know by itself: whether scrolls may be replayed as window
      copies, and whether the foreground process group turns out to have changed. */
  datatype Env = Env(accel: bool, newGroup: bool)

  function Arg0(t: Term, i: nat): int
    requires Safe(t) && i < ARG_SIZE
  {
    if t.esc.argv[i] != -1 then t.esc.argv[i] else 0
  }

  function Arg1(t: Term, i: nat, default: int := 1): int
    requires Safe(t) && i < ARG_SIZE
  {
    if t.esc.argv[i] > 0 then t.esc.argv[i] else default
  }

  function Erase(t: Term, x0: int, y0: int, x1: int, y1: int): (r: Term)
    requires Safe(t)
    ensures Safe(r) && r == WithG(t, G(r)) && SameSize(G(r), G(t))
  {
    WithG(t, Region(G(t), x0, y0, x1, y1, FillWith(Some(S(t).attr))))
  }

  function EraseAll(t: Term): (r: Term)
    requires Safe(t)
    ensures Safe(r) && r == WithG(t, G(r)) && SameSize(G(r), G(t))
  {
    Erase(t, 0, 0, G(t).width - 1, G(t).height - 1)
  }

  function EraseBelow(t: Term): (r: Term)
    requires Safe(t)
    ensures Safe(r) && r == WithG(t, G(r)) && SameSize(G(r), G(t))
  {
    hide EscOk, Erase;
    Erase(Erase(t, Pos(t).x, Pos(t).y, G(t).width - 1, Pos(t).y), 0, Pos(t).y + 1, G(t).width - 1, G(t).height - 1)
  }

  function EraseAbove(t: Term): (r: Term)
    requires Safe(t)
    ensures Safe(r) && r == WithG(t, G(r)) && SameSize(G(r), G(t))
  {
    hide EscOk, Erase;
    Erase(Erase(t, 0, Pos(t).y, Pos(t).x, Pos(t).y), 0, 0, G(t).width - 1, Pos(t).y - 1)
  }

  function EraseDisplay(t: Term): (r: Term)
    requires Safe(t)
    ensures Safe(r)
  {
    hide EscOk, EraseBelow, EraseAbove, EraseAll;
    match Arg0(t, 0)
    case 0 => EraseBelow(t)
    case 1 => EraseAbove(t)
    case 2 => EraseAll(t)
    case 3 => EraseAll(t)
    case _ => t
  }

  function EraseLine(t: Term): (r: Term)
    requires Safe(t)
    ensures Safe(r)
  {
    var w, x, y := G(t).width, Pos(t).x, Pos(t).y;
    match Arg0(t, 0)
    case 0 => Erase(t, x, y, w - 1, y)
    case 1 => Erase(t, 0, y, x, y)
    case 2 => Erase(t, 0, y, w - 1, y)
    case _ => t
  }

  /** Scrolls the part of the region from the cursor down; never into the history. */
  function ScrollBelow(t: Term, lines: int, accel: bool): (r: Term)
    requires Safe(t)
    ensures Safe(r)
  {
    hide EscOk, Region, ScrollInternal;
    var s := S(t);
    if s.scTop <= s.curpos.y <= s.scBot then
      var t1 := WithS(t, s.(scTop := Max(s.scTop, s.curpos.y)));
      var t2 := ScrollInternal(t1, lines, accel);
      WithS(t2, S(t2).(scTop := s.scTop))
    else t
  }

  function TabForward(x: int, w: int, n: nat): int
    decreases n
  {
    if n == 0 || x == w - 1 then x else TabForward(NextTab(x, w), w, n - 1)
  }

  function TabBack(x: nat, n: nat): (r: nat)
    ensures r <= x
    decreases n
  {
    if n == 0 || x == 0 then x else TabBack((x - 1) / 8 * 8, n - 1)
  }

  lemma {:induction false} TabForwardOk(x: int, w: int, n: nat)
    requires 0 <= x < w
    ensures 0 <= TabForward(x, w, n) < w
    decreases n
  {
    if n > 0 && x != w - 1 { TabForwardOk(NextTab(x, w), w, n - 1); }
  }

  function MoveToTab(t: Term, nx: int): (r: Term)
    requires Safe(t) && 0 <= nx < G(t).width && !Pos(t).lastCol
    ensures Safe(r)
  {
    if nx == Pos(t).x then t else
      var t1 := MoveTo(t, nx, Pos(t).y);
      WithPos(t1, Pos(t1).(justMoved := true))
  }

  /** A region with its top below its bottom is read as the whole screen. */
  function WithRows(t: Term, first: int, last: int): (r: Term)
    requires Safe(t) && 0 <= first < G(t).height && 0 <= last < G(t).height
    ensures Safe(r)
  {
    hide EscOk;
    WithS(t, if first > last then S(t).(scTop := 0, scBot := G(t).height - 1) else S(t).(scTop := first, scBot := last))
  }

  function RegionRows(t: Term): (r: (int, int))
    requires Safe(t)
    ensures 0 <= r.0 < G(t).height && 0 <= r.1 < G(t).height
  {
    hide EscOk, Arg1;
    OnScreen(t);
    var h := G(t).height;
    (Clamp(Arg1(t, 0), 1, h) - 1, Clamp(Arg1(t, 1, h), 1, h) - 1)
  }

  function WithRegion(t: Term): (r: Term)
    requires Safe(t)
    ensures Safe(r)
  {
    hide EscOk, WithRows, RegionRows;
    var rows := RegionRows(t);
    WithRows(LcfResetNoMove(t), rows.0, rows.1)
  }

  function SetRegion(t: Term): (r: Term)
    requires Safe(t)
    ensures Safe(r)
  {
    CurMoveAbs(WithRegion(t), 0, 0)
  }

  /** Commands that clear or shift cells of the screen. */
  function CsiErase(t: Term): (r: Term)
    requires Safe(t)
    ensures Safe(r)
  {
    hide EscOk, ShiftChars, Erase, EraseDisplay, EraseLine;
    var n := Arg1(t, 0);
    var t1 := LcfReset(t);
    var attr := Some(S(t1).attr);
    var c := t.esc.cmd;
    if c == '@' as int then WithG(t1, ShiftChars(G(t1), Pos(t1).x, Pos(t1).y, n, true, attr))
    else if c == 'P' as int then WithG(t1, ShiftChars(G(t1), Pos(t1).x, Pos(t1).y, n, false, attr))
    else if c == 'X' as int then Erase(t1, Pos(t1).x, Pos(t1).y, Pos(t1).x + n - 1, Pos(t1).y)
    else if c == 'J' as int then EraseDisplay(t1)
    else if c == 'K' as int then EraseLine(t1)
    else t1
  }

  /** Commands that scroll. */
  function CsiScroll(t: Term, accel: bool): (r: Term)
    requires Safe(t)
    ensures Safe(r)
  {
    hide EscOk, ScrollBelow, ScrollUp, ScrollDown;
    var n := Arg1(t, 0);
    var t1 := LcfReset(t);
    var c := t.esc.cmd;
    if c == 'L' as int then ScrollBelow(t1, n, accel)
    else if c == 'M' as int then ScrollBelow(t1, -n, accel)
    else if c == 'S' as int then ScrollUp(t1, n, accel)
    else if c == 'T' as int then ScrollDown(t1, n, accel)
    else t1
  }

  /** How far a relative move goes. */
  function StepOf(c: int, n: int, x: int): (int, int) {
    if c == 'A' as int then (0, -n)
    else if c == 'B' as int || c == 'e' as int then (0, n)
    else if c == 'C' as int || c == 'a' as int then (n, 0)
    else if c == 'D' as int then (-n, 0)
    else if c == 'E' as int then (-x, n)
    else if c == 'F' as int then (-x, -n)
    else (0, 0)
  }

  /** Relative moves. */
  function CsiStep(t: Term): (r: Term)
    requires Safe(t)
    ensures Safe(r)
  {
    hide EscOk, CurMoveRel;
    var d := StepOf(t.esc.cmd, Arg1(t, 0), Pos(t).x);
    CurMoveRel(t, d.0, d.1)
  }

  /** Where an absolute move goes. */
  function GoToOf(c: int, n: int, n1: int, pos: CursorPos): (int, int) {
    if c == 'G' as int || c == '`' as int then (n - 1, pos.y)
    else if c == 'd' as int then (pos.x, n - 1)
    else (n1 - 1, n - 1)
  }

  /** Absolute moves. */
  function CsiGoTo(t: Term): (r: Term)
    requires Safe(t)
    ensures Safe(r)
  {
    hide EscOk, CurMoveAbs;
    var to := GoToOf(t.esc.cmd, Arg1(t, 0), Arg1(t, 1), Pos(t));
    CurMoveAbs(t, to.0, to.1)
  }

  /** Tabs and the scroll region. */
  function CsiMove(t: Term): (r: Term)
    requires Safe(t)
    ensures Safe(r)
  {
    hide EscOk, SetRegion, MoveToTab, TabForward, TabBack;
    var n := Arg1(t, 0);
    var c := t.esc.cmd;
    if c == 'I' as int then
      TabForwardOk(Pos(t).x, G(t).width, n);
      MoveToTab(LcfReset(t), TabForward(Pos(t).x, G(t).width, n))
    else if c == 'Z' as int then MoveToTab(LcfReset(t), TabBack(Pos(t).x, n))
    else if c == 'r' as int then SetRegion(t)
    else t
  }

  function SetPlainMode(m: Modes, arg: int, on: bool): Modes {
    if arg == 4 then m.(insert := on) else if arg == 20 then m.(crlf := on) else m
  }

  function PlainModes(m: Modes, argv: seq<int>, argc: nat, i: nat, on: bool): Modes
    requires argc <= |argv|
    decreases argc - i
  {
    if i >= argc then m else PlainModes(SetPlainMode(m, argv[i], on), argv, argc, i + 1, on)
  }

  /** Modes and attributes. */
  function CsiModes(t: Term): (r: Term)
    requires Safe(t)
    ensures Safe(r)
  {
    var c := t.esc.cmd;
    if c == 'h' as int then t.(modes := PlainModes(t.modes, t.esc.argv, t.esc.argc, 0, true))
    else if c == 'l' as int then t.(modes := PlainModes(t.modes, t.esc.argv, t.esc.argc, 0, false))
    else if c == 'm' as int then WithS(t, S(t).(attr := Sgr(S(t).attr, t.esc.argv, t.esc.argc)))
    else t
  }

  const ERASES := "@PXJK"
  const SCROLLS := "LMST"
  const STEPS := "ABeCaDEF"
  const GOTOS := "G`dHf"
  const MOVES := "IZr"

  predicate Among(cmd: int, names: string) { exists i :: 0 <= i < |names| && names[i] as int == cmd }

  function CsiNormal(t: Term, accel: bool): (r: Term)
    requires Safe(t)
    ensures Safe(r)
  {
    var c := t.esc.cmd;
    if Among(c, ERASES) then CsiErase(t)
    else if Among(c, SCROLLS) then CsiScroll(t, accel)
    else if Among(c, STEPS) then CsiStep(t)
    else if Among(c, GOTOS) then CsiGoTo(t)
    else if Among(c, MOVES) then CsiMove(t)
    else if c == 's' as int then SaveCursor(t, SaveAnsi)
    else if c == 'u' as int then RestoreCursor(t, SaveAnsi)
    else CsiModes(t)
  }

  function SetColorMode(t: Term, mode: int): (r: Term)
    requires Safe(t)
    ensures Safe(r)
  {
    MarkAllDirty(t.(colorMode := mode))
  }

  /** The private `666;69;669;code...` requests; `on` tells `h` from `l`. */
  function PrivateCode(t: Term, code: int, on: bool): (r: Term)
    requires Safe(t)
    ensures Safe(r)
  {
    if code == 1 then SetColorMode(t, 0)
    else if code == 2 then SetColorMode(t, 1)
    else if code == 3 then SetColorMode(t, 2)
    else if code == 69 then if on then t.(historyEnabled := true) else t.(history := [])
    else t
  }

  lemma PrivateCodeEsc(t: Term, code: int, on: bool)
    requires Safe(t)
    ensures PrivateCode(t, code, on).esc == t.esc
  {
    hide EscOk, Safe, SetColorMode;
    ColorModeEsc(t, 0);
    ColorModeEsc(t, 1);
    ColorModeEsc(t, 2);
  }

  lemma ColorModeEsc(t: Term, mode: int)
    requires Safe(t)
    ensures SetColorMode(t, mode).esc == t.esc
  {
    hide EscOk, MarkAllDirty;
  }

  function PrivateCodes(t: Term, argv: seq<int>, argc: nat, i: nat, on: bool): (r: Term)
    requires Safe(t) && argc <= |argv|
    ensures Safe(r)
    decreases argc - i
  {
    if i >= argc then t else PrivateCodes(PrivateCode(t, argv[i], on), argv, argc, i + 1, on)
  }

  predicate IsPrivate(e: EscSeq)
    requires EscOk(e)
  {
    e.argc >= 4 && e.argv[0] == 666 && e.argv[1] == 69 && e.argv[2] == 669
  }

  function PlainPen(t: Term): (r: Term)
    requires Safe(t)
    ensures Safe(r)
  {
    WithS(t, S(t).(attr := S(t).attr.(style := PLAIN, fg := DEFAULT_COLOR, bg := DEFAULT_COLOR)))
  }

  function SetReverse(t: Term, on: bool): (r: Term)
    requires Safe(t)
    ensures Safe(r)
  {
    if t.modes.reverse == on then t else MarkAllDirty(t.(modes := t.modes.(reverse := on)))
  }

  function SetOrigin(t: Term, on: bool): (r: Term)
    requires Safe(t)
    ensures Safe(r)
  {
    var t1 := LcfResetNoMove(t);
    CurMoveAbs(t1.(modes := t1.modes.(origin := on)), 0, 0)
  }

  /** Column-mode switching only clears the screen. */
  function ClearAndHome(t: Term): (r: Term)
    requires Safe(t)
    ensures Safe(r)
  {
    CurMoveAbs(EraseAll(LcfReset(t)), 0, 0)
  }

  function ShowCursor(t: Term, on: bool): (r: Term)
    requires Safe(t)
    ensures Safe(r)
  {
    if on then if S(t).hidden then InvalidateCursor(WithS(t, S(t).(hidden := false))) else t
    else if S(t).hidden then t
    else var t1 := InvalidateCursor(t); WithS(t1, S(t1).(hidden := true))
  }

  /** Default attributes, and the whole screen cleared with them. */
  function ClearPlain(t: Term): (r: Term)
    requires Safe(t)
    ensures Safe(r)
  {
    hide EscOk, EraseAll;
    EraseAll(PlainPen(t))
  }

  function EnterAlt(t: Term, arg: int): (r: Term)
    requires Safe(t)
    ensures Safe(r)
  {
    if t.onAlt || t.modes.noAltScreen then t
    else if arg == 1049 then ClearPlain(SwitchScreen(SaveCursor(t, SaveXTerm)))
    else SwitchScreen(t)
  }

  function LeaveSwitch(t: Term, arg: int): (r: Term)
    requires Safe(t)
    ensures Safe(r)
  {
    hide EscOk, SwitchScreen, RestoreCursor;
    var t1 := SwitchScreen(t);
    if arg == 1049 then RestoreCursor(t1, SaveXTerm) else t1
  }

  function LeaveAlt(t: Term, arg: int): (r: Term)
    requires Safe(t)
    ensures Safe(r)
  {
    if !t.onAlt || t.modes.noAltScreen then t
    else
      LeaveSwitch(if arg != 47 then ClearPlain(t) else t, arg)
  }

  /** The private modes that are one mode bit each. */
  function PrivBit(m: Modes, arg: int, on: bool): Modes {
    if arg == 2 && on then m.(gfx0 := false, gfx1 := false)
    else if arg == 7 && on then m.(wrap := true)
    else if arg == 20 then m.(crlf := on)
    else if arg == 1046 then m.(noAltScreen := !on)
    else m
  }

  function PrivSet(t: Term, arg: int): (r: Term)
    requires Safe(t)
    ensures Safe(r)
  {
    if arg == 3 then ClearAndHome(t)
    else if arg == 5 then SetReverse(t, true)
    else if arg == 6 then SetOrigin(t, true)
    else if arg == 25 then ShowCursor(t, true)
    else if arg == 47 || arg == 1047 || arg == 1049 then EnterAlt(t, arg)
    else if arg == 1048 then SaveCursor(t, SaveXTerm)
    else t.(modes := PrivBit(t.modes, arg, true))
  }

  /** Wrapping off: a wrap that is pending is forgotten. */
  function WrapOff(t: Term): (r: Term)
    requires Safe(t)
    ensures Safe(r)
  {
    var t1 := LcfResetNoMove(t);
    t1.(modes := t1.modes.(wrap := false))
  }

  /** The alternate screen is disabled, and left. */
  function AltOff(t: Term): (r: Term)
    requires Safe(t)
    ensures Safe(r)
  {
    hide EscOk, SwitchScreen;
    var t1 := t.(modes := PrivBit(t.modes, 1046, false));
    if t1.onAlt then SwitchScreen(t1) else t1
  }

  function PrivReset(t: Term, arg: int): (r: Term)
    requires Safe(t)
    ensures Safe(r)
  {
    if arg == 3 then ClearAndHome(t)
    else if arg == 5 then SetReverse(t, false)
    else if arg == 6 then SetOrigin(t, false)
    else if arg == 7 then WrapOff(t)
    else if arg == 25 then ShowCursor(t, false)
    else if arg == 1046 then AltOff(t)
    else if arg == 47 || arg == 1047 || arg == 1049 then LeaveAlt(t, arg)
    else if arg == 1048 then RestoreCursor(t, SaveXTerm)
    else t.(modes := PrivBit(t.modes, arg, false))
  }

  function PrivStep(t: Term, arg: int, on: bool): (r: Term)
    requires Safe(t)
    ensures Safe(r)
  {
    if on then PrivSet(t, arg) else PrivReset(t, arg)
  }

  function PrivModes(t: Term, argv: seq<int>, argc: nat, i: nat, on: bool): (r: Term)
    requires Safe(t) && argc <= |argv|
    ensures Safe(r)
    decreases argc - i
  {
    if i >= argc then t
    else PrivModes(PrivStep(t, argv[i], on), argv, argc, i + 1, on)
  }

  lemma PrivModesNext(t: Term, argv: seq<int>, argc: nat, i: nat, on: bool)
    requires Safe(t) && argc <= |argv|
    ensures PrivModes(t, argv, argc, i, on) ==
      if i >= argc then t else PrivModes(PrivStep(t, argv[i], on), argv, argc, i + 1, on)
  {
    hide EscOk, Safe, PrivStep;
  }

  function CsiPriv(t: Term): (r: Term)
    requires Safe(t)
    ensures Safe(r)
  {
    var e := t.esc;
    if e.cmd == 'h' as int || e.cmd == 'l' as int then
      if IsPrivate(e) then PrivateCodes(t, e.argv, e.argc, 3, e.cmd == 'h' as int)
      else PrivModes(t, e.argv, e.argc, 0, e.cmd == 'h' as int)
    else t
  }

  /** `?` sequences are private, but for two that clear; `>` sequences are ignored. */
  function CsiRun(t: Term, accel: bool): (r: Term)
    requires Safe(t)
    ensures Safe(r)
  {
    var c := t.esc.cmd;
    if t.esc.priv < 0 then t
    else if t.esc.priv > 0 && c != 'J' as int && c != 'K' as int then CsiPriv(t)
    else CsiNormal(t, accel)
  }

  /** Executes the finished sequence, unless it was marked as unsupported. */
  function CsiHandle(t: Term, accel: bool): (r: Term)
    requires Safe(t.(esc := t.esc.(state := Ground)))
    ensures Safe(r)
  {
    var t1 := t.(esc := t.esc.(state := Ground));
    if t.esc.state == CsiIgnore || t.esc.cmd == 0 then t1
    else CsiRun(t1.(esc := FillArgs(t1.esc)), accel)
  }

  function ProcessCsi(t: Term, cp: nat, accel: bool): (r: Term)
    requires Safe(t) && t.esc.state in {Csi, CsiIgnore}
    ensures Safe(r)
  {
    var (e, done) := CsiNextChar(t.esc, cp);
    var t1 := t.(esc := e);
    if done then CsiHandle(t1, accel) else t1
  }

  // ---- strings ----------------------------------------------------------------------

  /** Appends an encoded character if it and its terminator fit, else marks the string as overlong. */
  function AppendChar(e: EscSeq, cp: nat): (r: EscSeq)
    requires EscOk(e) && e.state in {Osc, Dcs}
    ensures EscOk(r) && r == e.(sbuf := r.sbuf, sbufpos := r.sbufpos)
  {
    var u := Utf8.Encode(cp);
    if e.sbufpos + |u| < SBUF_SIZE - 1 then
      var s := e.sbuf[..e.sbufpos] + u + [0] + e.sbuf[e.sbufpos + |u| + 1..];
      assert s[e.sbufpos + |u|] == 0;
      e.(sbuf := s, sbufpos := e.sbufpos + |u|)
    else e.(sbufpos := SBUF_SIZE)
  }

  function ToGround(t: Term): (r: Term)
    requires Safe(t)
    ensures Safe(r) && r == t.(esc := r.esc)
  {
    t.(esc := t.esc.(state := Ground))
  }

  function ToState(t: Term, s: ParseState): (r: Term)
    requires Safe(t) && s !in {Osc, Dcs}
    ensures Safe(r) && r == t.(esc := r.esc)
  {
    t.(esc := t.esc.(state := s))
  }

  /** A finished title may turn up a new process group, which drops an unused alternate screen. */
  function FinishOsc(t: Term, newGroup: bool): (r: Term)
    requires Safe(t)
    ensures Safe(r)
  {
    if t.esc.state == Osc && t.esc.cmd == 2 && newGroup then ReleaseAlt(t) else t
  }

  /** Control characters that end any string: the flag says whether this one does. */
  function StringControl(t: Term, cp: nat, accel: bool): (r: (Term, bool))
    requires Safe(t)
    ensures Safe(r.0)
  {
    var t1 := ToGround(t);
    if cp == 0x07 || cp == 0x18 then (t1, true)
    else if 0x08 <= cp <= 0x0d then (PutC(t1, cp, accel), true)
    else if cp == 0x0e then (t1.(charset := GfxSet(false, true)), true)
    else if cp == 0x0f then (t1.(charset := GfxSet(true, false)), true)
    else if cp == 0x1a then (PutC(t1, '?' as int, accel), true)
    else if cp == 0x1b then (ToState(t1, Escape), true)
    else (t, false)
  }

  function OscText(e: EscSeq, cp: nat): (r: EscSeq)
    requires EscOk(e) && e.state == Osc
    ensures EscOk(r)
  {
    if '0' as int <= cp <= '9' as int && e.priv >= 0 then
      e.(cmd := Min(255, e.cmd * 10 + (cp - '0' as int)), priv := Min(255, e.priv + 1))
    else if cp == ';' as int && e.priv >= 0 then
      e.(priv := -1, cmd := if e.cmd == 0 || e.cmd == 2 then 2 else 0)
    else
      var e1 := if e.priv >= 0 then e.(priv := -1, cmd := 0) else e;
      if e1.cmd == 2 then AppendChar(e1, cp) else e1
  }

  function ProcessOsc(t: Term, cp: nat, env: Env): (r: Term)
    requires Safe(t) && t.esc.state == Osc
    ensures Safe(r)
  {
    var t1 := if cp == 0x07 || cp == 0x1b then FinishOsc(t, env.newGroup) else t;
    var (t2, ended) := StringControl(t1, cp, env.accel);
    if ended then t2
    else if cp == 0x7f || cp < 0x20 then t
    else t.(esc := OscText(t.esc, cp))
  }

  /** A character that does not end the string leaves the terminal as it was until it is stored. */
  lemma StringGoesOn(t: Term, cp: nat, env: Env)
    requires Safe(t) && cp != 0x07 && cp != 0x1b
    ensures !StringControl(t, cp, env.accel).1 ==> StringControl(t, cp, env.accel).0 == t
  {
    hide EscOk, Safe, PutC;
  }

  function ProcessDcs(t: Term, cp: nat): (r: Term)
    requires Safe(t) && t.esc.state == Dcs
    ensures Safe(r)
  {
    if cp == 0x18 || cp == 0x1a then ToGround(t)
    else if cp == 0x1b then
      // the query string the reply is chosen by is terminated where its length says
      assert 0 < t.esc.sbufpos < SBUF_SIZE ==> t.esc.sbuf[t.esc.sbufpos] == 0;
      ToState(t, Escape)
    else t.(esc := AppendChar(t.esc, cp))
  }

  // ---- the dispatcher ---------------------------------------------------------------

  function Index(t: Term, accel: bool): (r: Term)
    requires Safe(t)
    ensures Safe(r)
  {
    var t1 := LcfReset(t);
    var s := S(t1);
    if s.scTop <= s.curpos.y <= s.scBot then
      if s.curpos.y == s.scBot then ScrollUp(t1, 1, accel) else CurMoveRel(t1, 0, 1)
    else t1
  }

  function ReverseIndex(t: Term, accel: bool): (r: Term)
    requires Safe(t)
    ensures Safe(r)
  {
    var t1 := LcfReset(t);
    var s := S(t1);
    if s.scTop <= s.curpos.y <= s.scBot then
      if s.curpos.y == s.scTop then ScrollDown(t1, 1, accel) else CurMoveRel(t1, 0, -1)
    else t1
  }

  predicate IsReset(t: Term, cp: nat) { t.esc.state == Escape && cp == 'c' as int }

  /** The first character after ESC, when it starts a longer sequence: the flag says whether it does. */
  function EscStart(t: Term, cp: nat): (r: (Term, bool))
    requires Safe(t)
    ensures Safe(r.0) && (!r.1 ==> r.0 == t)
  {
    if cp == '[' as int then (t.(esc := StartCsi(t.esc)), true)
    else if cp == ']' as int then (t.(esc := StartString(t.esc, Osc)), true)
    else if cp == 'P' as int then (t.(esc := StartString(t.esc, Dcs)), true)
    else if cp == '(' as int then (ToState(t, CharsetG0), true)
    else if cp == ')' as int then (ToState(t, CharsetG1), true)
    else if cp == '#' as int then (ToState(t, Hash), true)
    else if cp == '%' as int then (ToState(t, Percent), true)
    else if cp == '^' as int then (ToState(t, IgnoreString), true)
    else (t, false)
  }

  /** The one-character sequences. */
  function EscRun(t: Term, cp: nat, accel: bool): (r: Term)
    requires Safe(t)
    ensures Safe(r)
  {
    hide EscOk, Index, ReverseIndex, PutC, CurMoveAbs, ResetMode, RestoreCursor;
    if cp == 'D' as int then Index(t, accel)
    else if cp == 'E' as int then PutC(PutC(LcfReset(t), 0x0a, accel), 0x0d, accel)
    else if cp == 'F' as int then CurMoveAbs(t, 0, G(t).height - 1)
    else if cp == 'M' as int then ReverseIndex(t, accel)
    else if cp == 'c' as int then ResetMode(t)
    else if cp == '7' as int then SaveCursor(t, SaveDec)
    else if cp == '8' as int then RestoreCursor(t, SaveDec)
    else t
  }

  function ProcessEsc(t: Term, cp: nat, accel: bool): (r: Term)
    requires Safe(t)
    ensures Safe(r)
  {
    hide EscOk, EscStart, EscRun;
    var t1 := EscStart(ToGround(t), cp);
    if t1.1 then t1.0 else EscRun(t1.0, cp, accel)
  }

  function AlignPen(a: Cell): RegionOp { Fill('E' as int, a.style, a.fg, a.bg) }

  /** The alignment test fills the screen with E's. */
  function FillScreen(t: Term): (r: Term)
    requires Safe(t)
    ensures Safe(r)
  {
    hide EscOk, Region;
    WithG(t, Region(G(t), 0, 0, G(t).width - 1, G(t).height - 1, AlignPen(S(t).attr)))
  }

  function ProcessHash(t: Term, cp: nat): (r: Term)
    requires Safe(t)
    ensures Safe(r)
  {
    hide EscOk, FillScreen;
    if cp == '8' as int then FillScreen(ToGround(t)) else ToGround(t)
  }

  /** Control characters outside strings: the flag says whether this was one. */
  function ControlChar(t: Term, cp: nat, accel: bool): (r: (Term, bool))
    requires Safe(t)
    ensures Safe(r.0) && (!r.1 ==> r.0 == t)
  {
    if t.esc.state in {Osc, Dcs} then (t, false)
    else if cp == 0x07 || cp == 0x7f then (t, true)
    else if cp == 0x0e then (t.(charset := GfxSet(false, true)), true)
    else if cp == 0x0f then (t.(charset := GfxSet(true, false)), true)
    else if cp == 0x1a then (ToGround(PutC(t, '?' as int, accel)), true)
    else if cp == 0x18 then (ToGround(t), true)
    else if cp == 0x1b then (ToState(t, Escape), true)
    else if cp < 0x20 then (PutC(t, cp, accel), true)
    else (t, false)
  }

  /** Which line-drawing set a designation selects. */
  function Designate(t: Term, g1: bool, cp: nat): (r: Term)
    requires Safe(t)
    ensures Safe(r)
  {
    hide EscOk;
    var t1 := ToGround(t);
    if g1 then t1.(modes := t1.modes.(gfx1 := cp == '0' as int)) else t1.(modes := t1.modes.(gfx0 := cp == '0' as int))
  }

  /** A character that is no control character, by the parser's state. */
  function ProcessState(t: Term, cp: nat, env: Env): (r: Term)
    requires Safe(t)
    ensures Safe(r)
  {
    hide EscOk, PutC, ProcessEsc, ProcessCsi, ProcessHash, ProcessOsc, ProcessDcs, StringControl, Designate;
    match t.esc.state
    case Ground => PutC(t, cp, env.accel)
    case Escape => ProcessEsc(t, cp, env.accel)
    case Csi => ProcessCsi(t, cp, env.accel)
    case CsiIgnore => ProcessCsi(t, cp, env.accel)
    case CharsetG0 => Designate(t, false, cp)
    case CharsetG1 => Designate(t, true, cp)
    case Hash => ProcessHash(t, cp)
    case Percent => ToGround(t)
    case Osc => ProcessOsc(t, cp, env)
    case Dcs => ProcessDcs(t, cp)
    case IgnoreString => StringControl(t, cp, env.accel).0
  }

  /** One decoded character from the child process. */
  function ProcessChar(t: Term, cp: nat, env: Env): (r: Term)
    requires Safe(t)
    ensures Safe(r)
  {
    hide EscOk, ControlChar, ProcessState;
    var (t1, eaten) := ControlChar(t, cp, env.accel);
    if eaten then t1 else ProcessState(t1, cp, env)
  }

  /** One byte from the child process, outside selection mode. */
  function ReadByte(t: Term, b: Utf8.Byte, env: Env): (r: Term)
    requires Safe(t)
    ensures Safe(r)
  {
    Utf8.ConsumePacked(t.rdcp, b);
    var w := Utf8.Consume(t.rdcp, b);
    var t1 := t.(rdcp := w);
    if Utf8.ValidCp(w) then ProcessChar(t1, w, env)
    else if Utf8.Rejected(w) then PutC(t1, Utf8.REPLACEMENT, env.accel)
    else t1
  }
}
