/** Where the cursor ends up: every command that moves it, from its bytes to its row and column. */
module CursorMoves {
  import opened Cells
  import opened TermModel
  import opened CsiModel
  import opened CsiText
  import opened GridFacts
  import opened ScrollbackRuns
  import opened Commands
  import Typing
  import Utf8

  // ---- what a move leaves -----------------------------------------------------------

  /** The cursor stands there, with no wrap pending, and nothing else can be told apart but dirty bits. */
  ghost predicate LandsAt(t: Term, r: Term, x: int, y: int) {
    Pos(r).x == x && Pos(r).y == y && !Pos(r).lastCol &&
    r.onAlt == t.onAlt && S(r) == S(t).(curpos := Pos(r)) && r.modes == t.modes && r.charset == t.charset &&
    SameSize(G(r), G(t)) && SameButDirty(G(t).cells, G(r).cells)
  }

  /** Column `x`, or the nearest one there is. */
  function NearCol(t: Term, x: int): int { Clamp(x, 0, G(t).width - 1) }

  /** Row `y`, or the nearest one there is; in origin mode rows count from the region's top and end
      with the region. */
  function NearRow(t: Term, y: int): int {
    if t.modes.origin then Clamp(S(t).scTop + y, S(t).scTop, S(t).scBot) else Clamp(y, 0, G(t).height - 1)
  }

  /** The row `dy` rows away, or the nearest one there is; in origin mode the region holds the cursor. */
  function RowAway(t: Term, dy: int): int {
    if t.modes.origin then Clamp(Clamp(Pos(t).y, S(t).scTop, S(t).scBot) + dy, S(t).scTop, S(t).scBot)
    else Clamp(Pos(t).y + dy, 0, G(t).height - 1)
  }

  lemma Sides(t: Term)
    requires Safe(t)
    ensures 0 < G(t).width <= MAX_SIDE && 0 < G(t).height <= MAX_SIDE
  {
    hide EscOk;
  }

  lemma GoToLands(t: Term, x: int, y: int)
    requires Safe(t) && 0 <= x < G(t).width && 0 <= y < G(t).height && !Pos(t).lastCol
    ensures LandsAt(t, GoTo(t, x, y), x, y)
  {
    hide EscOk, InvalidateCursor;
    if x != Pos(t).x || y != Pos(t).y {
      Typing.InvalidateSame(t);
      var t1 := InvalidateCursor(t);
      Typing.InvalidateSame(WithPos(t1, CursorPos(x, y, false, true)));
    }
  }

  lemma ResetLands(t: Term, r: Term, x: int, y: int)
    requires Safe(t) && LandsAt(LcfReset(t), r, x, y)
    ensures LandsAt(t, r, x, y)
  {
    hide EscOk;
  }

  lemma AbsLands(t: Term, nx: int, ny: int)
    requires Safe(t)
    ensures LandsAt(t, CurMoveAbs(t, nx, ny), NearCol(t, nx), NearRow(t, ny))
  {
    hide EscOk, Safe, GoTo, LcfReset, LandsAt;
    OnScreen(t);
    GoToLands(LcfReset(t), Clamp(nx, 0, G(t).width - 1), AbsRow(t, ny));
    ResetLands(t, CurMoveAbs(t, nx, ny), Clamp(nx, 0, G(t).width - 1), AbsRow(t, ny));
  }

  /** A step is limited to 32767 rows and columns, which no screen is large enough to show. */
  lemma RelLands(t: Term, dx: int, dy: int)
    requires Safe(t)
    ensures LandsAt(t, CurMoveRel(t, dx, dy), NearCol(t, Pos(t).x + dx), RowAway(t, dy))
  {
    hide EscOk, Safe, GoTo, LcfReset, LandsAt;
    OnScreen(t);
    Sides(t);
    GoToLands(LcfReset(t), RelCol(t, dx), RelRow(t, dy));
    ResetLands(t, CurMoveRel(t, dx, dy), RelCol(t, dx), RelRow(t, dy));
  }

  // ---- CSI moves --------------------------------------------------------------------

  /** Argument `i` of a command, when it is given and not zero. */
  function Given(args: seq<int>, i: nat, default: int): int {
    if i < |args| && args[i] > 0 then args[i] else default
  }

  const UP: Utf8.Byte := 'A' as int
  const DOWN: Utf8.Byte := 'B' as int
  const RIGHT: Utf8.Byte := 'C' as int
  const LEFT: Utf8.Byte := 'D' as int
  const NEXT_LINE: Utf8.Byte := 'E' as int
  const LAST_LINE: Utf8.Byte := 'F' as int
  const RIGHT_TOO: Utf8.Byte := 'a' as int
  const DOWN_TOO: Utf8.Byte := 'e' as int
  const TO_COLUMN: Utf8.Byte := 'G' as int
  const TO_COLUMN_TOO: Utf8.Byte := '`' as int
  const TO_ROW: Utf8.Byte := 'd' as int
  const TO_PLACE: Utf8.Byte := 'H' as int
  const TO_PLACE_TOO: Utf8.Byte := 'f' as int

  predicate Steps(cmd: Utf8.Byte) { cmd in {UP, DOWN, RIGHT, LEFT, NEXT_LINE, LAST_LINE, RIGHT_TOO, DOWN_TOO} }

  predicate Jumps(cmd: Utf8.Byte) { cmd in {TO_COLUMN, TO_COLUMN_TOO, TO_ROW, TO_PLACE, TO_PLACE_TOO} }

  /** Which group of commands a letter belongs to. */
  lemma Grouped(cmd: Utf8.Byte)
    ensures Among(cmd, ERASES) <==> cmd in {0x40, 0x50, 0x58, 0x4a, 0x4b}
    ensures Among(cmd, SCROLLS) <==> cmd in {0x4c, 0x4d, 0x53, 0x54}
    ensures Among(cmd, STEPS) <==> Steps(cmd)
    ensures Among(cmd, GOTOS) <==> Jumps(cmd)
    ensures Among(cmd, MOVES) <==> cmd in {0x49, 0x5a, 0x72}
  {
    FiveNames(cmd, ERASES);
    FourNames(cmd, SCROLLS);
    FiveNames(cmd, GOTOS);
    ThreeNames(cmd, MOVES);
    EightNames(cmd, STEPS);
  }

  lemma ThreeNames(cmd: int, names: string)
    requires |names| == 3
    ensures Among(cmd, names) <==> cmd in {names[0] as int, names[1] as int, names[2] as int}
  {
  }

  lemma FourNames(cmd: int, names: string)
    requires |names| == 4
    ensures Among(cmd, names) <==> cmd in {names[0] as int, names[1] as int, names[2] as int, names[3] as int}
  {
  }

  lemma FiveNames(cmd: int, names: string)
    requires |names| == 5
    ensures Among(cmd, names) <==>
      cmd in {names[0] as int, names[1] as int, names[2] as int, names[3] as int, names[4] as int}
  {
  }

  lemma EightNames(cmd: int, names: string)
    requires |names| == 8
    ensures Among(cmd, names) <==>
      cmd in {names[0] as int, names[1] as int, names[2] as int, names[3] as int,
              names[4] as int, names[5] as int, names[6] as int, names[7] as int}
  {
  }

  /** Where each moving command takes the cursor. */
  ghost predicate MovesAsAsked(t: Term, r: Term, cmd: Utf8.Byte, n: int, m: int) {
    (cmd == UP ==> LandsAt(t, r, Pos(t).x, RowAway(t, -n))) &&
    (cmd == DOWN || cmd == DOWN_TOO ==> LandsAt(t, r, Pos(t).x, RowAway(t, n))) &&
    (cmd == RIGHT || cmd == RIGHT_TOO ==> LandsAt(t, r, NearCol(t, Pos(t).x + n), RowAway(t, 0))) &&
    (cmd == LEFT ==> LandsAt(t, r, NearCol(t, Pos(t).x - n), RowAway(t, 0))) &&
    (cmd == NEXT_LINE ==> LandsAt(t, r, 0, RowAway(t, n))) &&
    (cmd == LAST_LINE ==> LandsAt(t, r, 0, RowAway(t, -n))) &&
    (cmd == TO_COLUMN || cmd == TO_COLUMN_TOO ==> LandsAt(t, r, NearCol(t, n - 1), NearRow(t, Pos(t).y))) &&
    (cmd == TO_ROW ==> LandsAt(t, r, Pos(t).x, NearRow(t, n - 1))) &&
    (cmd == TO_PLACE || cmd == TO_PLACE_TOO ==> LandsAt(t, r, NearCol(t, m - 1), NearRow(t, n - 1)))
  }

  lemma StepsAsAsked(t: Term, args: seq<int>, cmd: Utf8.Byte)
    requires Safe(t) && |args| <= ARG_SIZE && t.esc.argv == Padded(args) && t.esc.cmd == cmd && Steps(cmd)
    ensures MovesAsAsked(t, CsiStep(t), cmd, Given(args, 0, 1), Given(args, 1, 1))
  {
    hide EscOk, Safe, CurMoveRel, LandsAt, RowAway, Padded;
    OnScreen(t);
    var d := StepOf(cmd, Arg1(t, 0), Pos(t).x);
    RelLands(t, d.0, d.1);
  }

  lemma JumpsAsAsked(t: Term, args: seq<int>, cmd: Utf8.Byte)
    requires Safe(t) && |args| <= ARG_SIZE && t.esc.argv == Padded(args) && t.esc.cmd == cmd && Jumps(cmd)
    ensures MovesAsAsked(t, CsiGoTo(t), cmd, Given(args, 0, 1), Given(args, 1, 1))
  {
    hide EscOk, Safe, CurMoveAbs, LandsAt, NearRow, Padded;
    OnScreen(t);
    var to := GoToOf(cmd, Arg1(t, 0), Arg1(t, 1), Pos(t));
    AbsLands(t, to.0, to.1);
  }

  lemma MovesRun(t: Term, args: seq<int>, cmd: Utf8.Byte, accel: bool)
    requires Safe(t) && |args| <= ARG_SIZE && t.esc.argv == Padded(args) && t.esc.cmd == cmd && t.esc.priv == 0
    requires Steps(cmd) || Jumps(cmd)
    ensures MovesAsAsked(t, CsiRun(t, accel), cmd, Given(args, 0, 1), Given(args, 1, 1))
    ensures CsiRun(t, accel).esc == t.esc && CsiRun(t, accel).rdcp == t.rdcp
  {
    hide EscOk, Safe, CsiStep, CsiGoTo, MovesAsAsked, Padded, Among;
    Grouped(cmd);
    MovesKeepParser(t);
    if Steps(cmd) { StepsAsAsked(t, args, cmd); } else { JumpsAsAsked(t, args, cmd); }
  }

  lemma MovesKeepParser(t: Term)
    requires Safe(t)
    ensures CsiStep(t).esc == t.esc && CsiStep(t).rdcp == t.rdcp && CsiGoTo(t).esc == t.esc && CsiGoTo(t).rdcp == t.rdcp
  {
    hide EscOk, Safe, CurMoveRel, CurMoveAbs;
  }

  /** The parser and the decoder are no part of a move. */
  lemma OrderedMoves(t: Term, args: seq<int>, cmd: Utf8.Byte, r: Term)
    requires |args| <= ARG_SIZE
    requires MovesAsAsked(Ordered(t, 0, args, cmd), r, cmd, Given(args, 0, 1), Given(args, 1, 1))
    ensures MovesAsAsked(t, r, cmd, Given(args, 0, 1), Given(args, 1, 1))
  {
    hide Padded;
  }

  /** Moves, end to end: the bytes of a moving command, read between two sequences, take the cursor
      where its arguments say, and change no cell. */
  lemma MoveRead(t: Term, args: seq<int>, cmd: Utf8.Byte, envs: seq<Env>)
    requires Ready(t) && GoodArgs(args) && (Steps(cmd) || Jumps(cmd)) && |envs| == |CommandText(0, args, cmd)|
    ensures MovesAsAsked(t, ReadAll(t, CommandText(0, args, cmd), envs), cmd, Given(args, 0, 1), Given(args, 1, 1))
    ensures Ready(ReadAll(t, CommandText(0, args, cmd), envs))
  {
    hide EscOk, Safe, CsiRun, MovesAsAsked, Padded, CommandText, Utf8.AtBoundary;
    CommandRuns(t, 0, args, cmd, envs);
    Utf8.Accepted(cmd);
    MovesRun(Ordered(t, 0, args, cmd), args, cmd, envs[|envs| - 1].accel);
    OrderedMoves(t, args, cmd, ReadAll(t, CommandText(0, args, cmd), envs));
  }

  /** Cursor addressing: `ESC [ r ; c H` goes to column c and row r, counted from 1 and limited to the
      screen; in origin mode the row counts from the region's top and stops at its bottom. */
  lemma Addressed(t: Term, r: nat, c: nat, cmd: Utf8.Byte, envs: seq<Env>)
    requires Ready(t) && r <= 0xffff && c <= 0xffff && (cmd == 'H' as int || cmd == 'f' as int)
    requires |envs| == |Digits(r)| + |Digits(c)| + 4
    ensures var text: Bytes := [ESC, BRACKET] + Digits(r) + [SEMICOLON] + Digits(c) + [cmd];
      var u := ReadAll(t, text, envs);
      Pos(u).x == Clamp(c - 1, 0, G(t).width - 1) && !Pos(u).lastCol &&
      Pos(u).y == (if t.modes.origin then Clamp(S(t).scTop + Max(r - 1, 0), S(t).scTop, S(t).scBot)
                   else Clamp(r - 1, 0, G(t).height - 1)) &&
      SameButDirty(G(t).cells, G(u).cells)
  {
    hide EscOk, Safe, SameButDirty, Digits, CommandText, ReadAll, MovesAsAsked;
    TwoArgs(r, c, cmd);
    MoveRead(t, [r, c], cmd, envs);
    PlacedAt(t, ReadAll(t, CommandText(0, [r, c], cmd), envs), r, c, cmd);
  }

  lemma PlacedAt(t: Term, u: Term, r: nat, c: nat, cmd: Utf8.Byte)
    requires Safe(t) && (cmd == 'H' as int || cmd == 'f' as int)
    requires MovesAsAsked(t, u, cmd, Given([r, c], 0, 1), Given([r, c], 1, 1))
    ensures Pos(u).x == Clamp(c - 1, 0, G(t).width - 1) && !Pos(u).lastCol
    ensures Pos(u).y == if t.modes.origin then Clamp(S(t).scTop + Max(r - 1, 0), S(t).scTop, S(t).scBot)
      else Clamp(r - 1, 0, G(t).height - 1)
    ensures SameButDirty(G(t).cells, G(u).cells)
  {
    hide EscOk, Safe, SameButDirty;
    OnScreen(t);
  }

  // ---- tab stops --------------------------------------------------------------------

  /** Every eighth column is a tab stop, and so is the last one. */
  lemma {:induction false} TabForwardIs(x: nat, w: nat, n: nat)
    requires x < w && n > 0
    ensures TabForward(x, w, n) == Min((x / 8 + n) * 8, w - 1)
    decreases n
  {
    if x != w - 1 {
      var nx := NextTab(x, w);
      if nx != w - 1 && n > 1 { TabForwardIs(nx, w, n - 1); }
    }
  }

  lemma {:induction false} TabBackIs(x: nat, n: nat)
    requires n > 0
    ensures TabBack(x, n) == Max(0, (x + 7) / 8 - n) * 8
    decreases n
  {
    if x > 0 && n > 1 { TabBackIs((x - 1) / 8 * 8, n - 1); }
  }

  lemma ToTabLands(t: Term, nx: int)
    requires Safe(t) && 0 <= nx < G(t).width
    ensures LandsAt(t, MoveToTab(LcfReset(t), nx), nx, Pos(t).y)
  {
    hide EscOk, MoveTo;
    var t1 := LcfReset(t);
    Typing.MoveSame(t1, nx, Pos(t1).y);
  }

  const TAB_ON: Utf8.Byte := 'I' as int
  const TAB_BACK: Utf8.Byte := 'Z' as int

  /** The column of the `n`-th tab stop to the right, or to the left. */
  function TabColumn(x: nat, w: nat, n: nat, cmd: Utf8.Byte): int {
    if cmd == TAB_ON then Min((x / 8 + n) * 8, w - 1) else Max(0, (x + 7) / 8 - n) * 8
  }

  lemma TabsRun(t: Term, args: seq<int>, cmd: Utf8.Byte, accel: bool)
    requires Safe(t) && |args| <= ARG_SIZE && t.esc.argv == Padded(args) && t.esc.cmd == cmd && t.esc.priv == 0
    requires cmd == TAB_ON || cmd == TAB_BACK
    ensures 0 <= Pos(t).x
    ensures LandsAt(t, CsiRun(t, accel), TabColumn(Pos(t).x, G(t).width, Given(args, 0, 1), cmd), Pos(t).y)
  {
    hide EscOk, Safe, CsiMove, LandsAt, Padded, TabColumn, Among;
    Grouped(cmd);
    TabsLand(t, args, cmd);
  }

  lemma TabsLand(t: Term, args: seq<int>, cmd: Utf8.Byte)
    requires Safe(t) && |args| <= ARG_SIZE && t.esc.argv == Padded(args) && t.esc.cmd == cmd
    requires cmd == TAB_ON || cmd == TAB_BACK
    ensures 0 <= Pos(t).x
    ensures LandsAt(t, CsiMove(t), TabColumn(Pos(t).x, G(t).width, Given(args, 0, 1), cmd), Pos(t).y)
  {
    hide EscOk, Safe, MoveToTab, LcfReset, LandsAt, Padded, TabForward, TabBack;
    OnScreen(t);
    var x, n := Pos(t).x, Arg1(t, 0);
    TabForwardOk(x, G(t).width, n);
    if cmd == TAB_ON {
      TabForwardIs(x, G(t).width, n);
      ToTabLands(t, TabForward(x, G(t).width, n));
    } else {
      TabBackIs(x, n);
      ToTabLands(t, TabBack(x, n));
    }
  }

  /** Tabbing forth and back by any number of stops. */
  lemma TabRead(t: Term, args: seq<int>, cmd: Utf8.Byte, envs: seq<Env>)
    requires Ready(t) && GoodArgs(args) && (cmd == TAB_ON || cmd == TAB_BACK)
    requires |envs| == |CommandText(0, args, cmd)|
    ensures 0 <= Pos(t).x
    ensures LandsAt(t, ReadAll(t, CommandText(0, args, cmd), envs),
                    TabColumn(Pos(t).x, G(t).width, Given(args, 0, 1), cmd), Pos(t).y)
  {
    hide EscOk, Safe, CsiRun, Padded, CommandText, TabColumn;
    CommandRuns(t, 0, args, cmd, envs);
    TabsRun(Ordered(t, 0, args, cmd), args, cmd, envs[|envs| - 1].accel);
  }

  // ---- the scroll region ------------------------------------------------------------

  /** The region is the one asked for, or the whole screen when its rows are in the wrong order, and the
      cursor stands in its home corner. */
  ghost predicate RegionIs(t: Term, r: Term, first: int, last: int) {
    var s := S(t).(curpos := Pos(r), scTop := if first <= last then first else 0,
                   scBot := if first <= last then last else G(t).height - 1);
    S(r) == s && Pos(r).x == 0 && Pos(r).y == (if t.modes.origin then s.scTop else 0) && !Pos(r).lastCol &&
    r.onAlt == t.onAlt && r.modes == t.modes && SameSize(G(r), G(t)) && SameButDirty(G(t).cells, G(r).cells)
  }

  lemma RegionSet(t: Term)
    requires Safe(t)
    ensures var h := G(t).height;
      RegionIs(t, SetRegion(t), Clamp(Arg1(t, 0), 1, h) - 1, Clamp(Arg1(t, 1, h), 1, h) - 1)
  {
    hide EscOk, CurMoveAbs, Arg1;
    OnScreen(t);
    AbsLands(WithRegion(t), 0, 0);
  }

  lemma RegionRun(t: Term, args: seq<int>, accel: bool)
    requires Safe(t) && |args| <= ARG_SIZE && t.esc.argv == Padded(args) && t.esc.cmd == 'r' as int && t.esc.priv == 0
    ensures var h := G(t).height;
      RegionIs(t, CsiRun(t, accel), Clamp(Given(args, 0, 1), 1, h) - 1, Clamp(Given(args, 1, h), 1, h) - 1)
  {
    hide EscOk, Safe, SetRegion, RegionIs, Padded, Among;
    Grouped('r' as int);
    RegionSet(t);
  }

  /** Setting the scroll region. */
  lemma RegionRead(t: Term, args: seq<int>, envs: seq<Env>)
    requires Ready(t) && GoodArgs(args) && |envs| == |CommandText(0, args, 'r' as int)|
    ensures var h := G(t).height;
      RegionIs(t, ReadAll(t, CommandText(0, args, 'r' as int), envs),
               Clamp(Given(args, 0, 1), 1, h) - 1, Clamp(Given(args, 1, h), 1, h) - 1)
  {
    hide EscOk, Safe, CsiRun, ReadAll, RegionIs, Padded, CommandText, Clamp, Given;
    CommandRuns(t, 0, args, 'r' as int, envs);
    var u, h := Ordered(t, 0, args, 'r' as int), G(t).height;
    RegionRun(u, args, envs[|envs| - 1].accel);
    OrderedRegion(t, u, CsiRun(u, envs[|envs| - 1].accel),
                  Clamp(Given(args, 0, 1), 1, h) - 1, Clamp(Given(args, 1, h), 1, h) - 1);
  }

  lemma OrderedRegion(t: Term, u: Term, r: Term, first: int, last: int)
    requires u == t.(esc := u.esc, rdcp := u.rdcp) && RegionIs(u, r, first, last)
    ensures RegionIs(t, r, first, last)
  {
    hide SameButDirty;
  }
}
