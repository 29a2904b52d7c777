/** Control sequences as bytes: what reading the text of a command amounts to. */
module Commands {
  import opened TermModel
  import opened CsiModel
  import opened CsiText
  import opened ScrollbackRuns
  import Utf8

  const ESC: Utf8.Byte := 0x1b
  const BRACKET: Utf8.Byte := 0x5b

  type Bytes = seq<Utf8.Byte>

  /** Between two sequences and between two characters. */
  predicate Ready(t: Term) { Safe(t) && t.esc.state == Ground && Utf8.AtBoundary(t.rdcp) }

  // ---- the text of a command --------------------------------------------------------

  /** Arguments as a sequence can leave them: at most sixteen, and a single one is never omitted. */
  predicate GoodArgs(args: seq<int>) {
    |args| <= ARG_SIZE && (forall i :: 0 <= i < |args| ==> -1 <= args[i] <= 0xffff) && (|args| == 1 ==> args[0] != -1)
  }

  /** The array of arguments, the rest of it omitted ones. */
  function Padded(args: seq<int>): (r: seq<int>)
    requires |args| <= ARG_SIZE
    ensures |r| == ARG_SIZE && forall i :: 0 <= i < ARG_SIZE ==> r[i] == if i < |args| then args[i] else -1
  {
    args + seq(ARG_SIZE - |args|, _ => -1)
  }

  lemma ArgsFit(args: seq<int>)
    requires GoodArgs(args)
    ensures ArgsOk(Padded(args), |args|)
  {
  }

  function Params(priv: int, args: seq<int>): (r: seq<nat>)
    requires GoodArgs(args)
  {
    ArgsFit(args);
    (if priv > 0 then [QUESTION] else if priv < 0 then [GREATER] else []) + ArgsText(Padded(args), |args|)
  }

  lemma {:induction false} ArgsInText(argv: seq<int>, n: nat)
    requires ArgsOk(argv, n)
    ensures forall i :: 0 <= i < |ArgsText(argv, n)| ==> ZERO <= ArgsText(argv, n)[i] <= SEMICOLON
    decreases n
  {
    hide Digits;
    if n > 0 { ArgsInText(argv, n - 1); }
  }

  /** `ESC [`, the private mark, the arguments separated by semicolons, the final character. */
  function CommandText(priv: int, args: seq<int>, cmd: Utf8.Byte): (r: Bytes)
    requires GoodArgs(args)
    ensures |r| > 0
  {
    ArgsFit(args);
    ArgsInText(Padded(args), |args|);
    var params: Bytes := Params(priv, args);
    [ESC, BRACKET] + params + [cmd]
  }

  /** The command as the terminal finds it when it is complete. */
  function Ordered(t: Term, priv: int, args: seq<int>, cmd: Utf8.Byte): Term
    requires |args| <= ARG_SIZE
  {
    t.(rdcp := cmd, esc := t.esc.(state := Ground, priv := priv, cmd := cmd, argc := |args|, argv := Padded(args)))
  }

  // ---- byte by byte -----------------------------------------------------------------

  lemma {:induction false} ReadOn(t: Term, a: Bytes, b: Bytes, ea: seq<Env>, eb: seq<Env>)
    requires Safe(t) && |ea| == |a| && |eb| == |b|
    ensures ReadAll(t, a + b, ea + eb) == ReadAll(ReadAll(t, a, ea), b, eb)
    decreases |a|
  {
    hide EscOk, Safe, ReadByte;
    if a == [] {
      assert a + b == b && ea + eb == eb;
    } else {
      assert (a + b)[1..] == a[1..] + b && (ea + eb)[1..] == ea[1..] + eb;
      ReadOn(ReadByte(t, a[0], ea[0]), a[1..], b, ea[1..], eb);
    }
  }

  lemma ReadOne(t: Term, b: Utf8.Byte, env: Env)
    requires Safe(t)
    ensures ReadAll(t, [b], [env]) == ReadByte(t, b, env)
  {
    hide EscOk, Safe, ReadByte;
    var u := ReadByte(t, b, env);
    assert [b][1..] == [] && [env][1..] == [];
    assert ReadAll(u, [], []) == u;
  }

  lemma WordSet(t: Term, w: nat)
    requires Safe(t) && Utf8.Packed(w)
    ensures Safe(t.(rdcp := w))
  {
    hide EscOk, Utf8.Packed;
  }

  /** An ASCII byte that finds the decoder between characters is that character. */
  lemma AsciiByte(t: Term, b: Utf8.Byte, env: Env)
    requires Safe(t) && Utf8.AtBoundary(t.rdcp) && b < 0x80
    ensures Utf8.AtBoundary(b) && Safe(t.(rdcp := b))
    ensures ReadByte(t, b, env) == ProcessChar(t.(rdcp := b), b, env)
  {
    hide EscOk, Safe, ProcessChar, PutC, Utf8.Consume;
    SafeWord(t);
    Utf8.LeadPacked(t.rdcp, b);
    WordSet(t, b);
  }

  lemma SafeWord(t: Term)
    requires Safe(t)
    ensures Utf8.Packed(t.rdcp) && EscOk(t.esc)
  {
    hide EscOk, Utf8.Packed;
  }

  /** `ESC [` starts a sequence without arguments. */
  lemma Opens(t: Term, e0: Env, e1: Env)
    requires Ready(t)
    ensures var u := t.(esc := StartCsi(t.esc), rdcp := BRACKET);
      Safe(u) && ReadAll(t, [ESC, BRACKET], [e0, e1]) == u
  {
    hide EscOk, Safe, ProcessChar, ReadByte, Utf8.AtBoundary;
    AsciiByte(t, ESC, e0);
    Escaped(t.(rdcp := ESC), e0);
    var t1 := t.(rdcp := ESC, esc := t.esc.(state := Escape));
    AsciiByte(t1, BRACKET, e1);
    Bracketed(t1.(rdcp := BRACKET), e1);
    TwoBytes(t, ESC, BRACKET, e0, e1);
  }

  lemma Escaped(t: Term, env: Env)
    requires Safe(t) && t.esc.state == Ground
    ensures ProcessChar(t, ESC, env) == t.(esc := t.esc.(state := Escape))
  {
    hide EscOk, Safe, PutC;
  }

  lemma Bracketed(t: Term, env: Env)
    requires Safe(t) && t.esc.state == Escape
    ensures ProcessChar(t, BRACKET, env) == t.(esc := StartCsi(t.esc))
  {
    hide EscOk, Safe, PutC, EscRun;
  }

  /** The characters that start a longer sequence after ESC. */
  predicate Starts(b: Utf8.Byte) { b in {0x5b, 0x5d, 0x50, 0x28, 0x29, 0x23, 0x25, 0x5e} }

  /** A one-character sequence: ESC and its character. */
  lemma EscapeRuns(t: Term, b: Utf8.Byte, e0: Env, e1: Env)
    requires Ready(t) && 0x20 <= b < 0x7f && !Starts(b)
    ensures Safe(t.(rdcp := b)) && Utf8.AtBoundary(b)
    ensures ReadAll(t, [ESC, b], [e0, e1]) == EscRun(t.(rdcp := b), b, e1.accel)
  {
    hide EscOk, Safe, ProcessChar, ReadByte, EscRun, Utf8.AtBoundary;
    AsciiByte(t, ESC, e0);
    Escaped(t.(rdcp := ESC), e0);
    var t1 := t.(rdcp := ESC, esc := t.esc.(state := Escape));
    AsciiByte(t1, b, e1);
    AsciiByte(t, b, e1);
    EscapedBy(t1.(rdcp := b), b, e1);
    assert t1.(rdcp := b, esc := t1.esc.(state := Ground)) == t.(rdcp := b);
    TwoBytes(t, ESC, b, e0, e1);
  }

  lemma EscapedBy(t: Term, b: Utf8.Byte, env: Env)
    requires Safe(t) && t.esc.state == Escape && 0x20 <= b < 0x7f && !Starts(b)
    ensures Safe(t.(esc := t.esc.(state := Ground)))
    ensures ProcessChar(t, b, env) == EscRun(t.(esc := t.esc.(state := Ground)), b, env.accel)
  {
    hide EscOk, PutC, EscRun;
    assert ToGround(t) == t.(esc := t.esc.(state := Ground));
  }

  lemma TwoBytes(t: Term, a: Utf8.Byte, b: Utf8.Byte, e0: Env, e1: Env)
    requires Safe(t)
    ensures ReadAll(t, [a, b], [e0, e1]) == ReadByte(ReadByte(t, a, e0), b, e1)
  {
    hide EscOk, Safe, ReadByte;
    ReadOn(t, [a], [b], [e0], [e1]);
    ReadOne(t, a, e0);
    ReadOne(ReadByte(t, a, e0), b, e1);
    assert [a] + [b] == [a, b] && [e0] + [e1] == [e0, e1];
  }

  /** A printable byte inside a sequence goes to the parameter parser. */
  lemma CsiByte(t: Term, b: Utf8.Byte, env: Env)
    requires Safe(t) && t.esc.state in {Csi, CsiIgnore} && Utf8.AtBoundary(t.rdcp) && 0x20 <= b < 0x7f
    ensures Utf8.AtBoundary(b) && Safe(t.(rdcp := b))
    ensures ReadByte(t, b, env) == ProcessCsi(t.(rdcp := b), b, env.accel)
  {
    hide EscOk, Safe, ReadByte, PutC, ProcessCsi, Utf8.AtBoundary;
    AsciiByte(t, b, env);
  }

  /** Parameter text is parsed character by character, and nothing else happens. */
  lemma {:induction false} ParamsRead(t: Term, text: Bytes, envs: seq<Env>)
    requires Safe(t) && t.esc.state in {Csi, CsiIgnore} && Utf8.AtBoundary(t.rdcp) && |envs| == |text|
    requires (forall i :: 0 <= i < |text| ==> 0x20 <= text[i] < 0x7f) && !Feed(t.esc, text).1
    ensures var w := if text == [] then t.rdcp else text[|text| - 1];
      Utf8.AtBoundary(w) && ReadAll(t, text, envs) == t.(esc := Feed(t.esc, text).0, rdcp := w)
    decreases |text|
  {
    hide EscOk, Safe, ReadByte, CsiNextChar, Utf8.AtBoundary;
    SafeWord(t);
    if text != [] {
      CsiByte(t, text[0], envs[0]);
      var (e1, done) := CsiNextChar(t.esc, text[0]);
      StaysCsi(t.esc, text[0]);
      var t1 := t.(rdcp := text[0], esc := e1);
      assert ReadByte(t, text[0], envs[0]) == t1;
      ParamsRead(t1, text[1..], envs[1..]);
    }
  }

  /** The parser keeps its string buffer. */
  lemma {:induction false} FeedKeeps(e: EscSeq, text: seq<nat>)
    requires EscOk(e) && e.state in {Csi, CsiIgnore}
    ensures var r := Feed(e, text).0; r.sbuf == e.sbuf && r.sbufpos == e.sbufpos
    decreases |text|
  {
    hide EscOk, CsiNextChar;
    if text != [] {
      NextKeeps(e, text[0]);
      StaysCsi(e, text[0]);
      if !CsiNextChar(e, text[0]).1 { FeedKeeps(CsiNextChar(e, text[0]).0, text[1..]); }
    }
  }

  lemma NextKeeps(e: EscSeq, c: nat)
    requires EscOk(e)
    ensures var r := CsiNextChar(e, c).0; r.sbuf == e.sbuf && r.sbufpos == e.sbufpos
  {
    hide EscOk;
  }

  // ---- the whole command ------------------------------------------------------------

  /** The parser has the mark and the arguments. */
  ghost predicate Collected(e: EscSeq, r: EscSeq, priv: int, args: seq<int>) {
    EscOk(r) && r.state == Csi && r.priv == priv && r.argc == |args| && r.sbuf == e.sbuf && r.sbufpos == e.sbufpos &&
    forall i :: 0 <= i < |args| ==> r.argv[i] == args[i]
  }

  lemma ParamsFed(e: EscSeq, priv: int, args: seq<int>)
    requires EscOk(e) && GoodArgs(args) && -1 <= priv <= 1
    ensures var (r, done) := Feed(StartCsi(e), Params(priv, args)); !done && Collected(e, r, priv, args)
  {
    hide EscOk, Feed, Params, ArgsText;
    ArgsFit(args);
    var x := e.(state := Csi, priv := priv, argc := |args|, argv := Padded(args), cmd := 0);
    Shapes(e, priv, args);
    PrintParse(x, e);
    TextIs(x, priv, args);
    StartOk(e);
    FeedKeeps(StartCsi(e), Params(priv, args));
    var r := Feed(StartCsi(e), Params(priv, args)).0;
    ArgvSize(r);
    forall i | 0 <= i < |args| ensures r.argv[i] == args[i] { assert r.argv[..|args|][i] == x.argv[..|args|][i]; }
  }

  lemma ArgvSize(e: EscSeq)
    requires EscOk(e)
    ensures |e.argv| == ARG_SIZE
  {
  }

  lemma EscSet(t: Term, e: EscSeq)
    requires Safe(t) && EscOk(e)
    ensures Safe(t.(esc := e))
  {
    hide EscOk;
  }

  lemma StartOk(e: EscSeq)
    requires EscOk(e)
    ensures EscOk(StartCsi(e))
  {
  }

  lemma TextIs(x: EscSeq, priv: int, args: seq<int>)
    requires GoodArgs(args) && x.priv == priv && x.argc == |args| && x.argv == Padded(args)
    ensures ArgsOk(x.argv, x.argc) && ParamText(x) == Params(priv, args)
  {
    ArgsFit(args);
  }

  lemma Shapes(e: EscSeq, priv: int, args: seq<int>)
    requires EscOk(e) && GoodArgs(args) && -1 <= priv <= 1
    ensures Shaped(e.(state := Csi, priv := priv, argc := |args|, argv := Padded(args), cmd := 0))
  {
  }

  /** The final character carries the command out. */
  lemma Finishes(t: Term, u: Term, priv: int, args: seq<int>, cmd: Utf8.Byte, env: Env)
    requires Safe(t) && Safe(u) && Utf8.AtBoundary(u.rdcp) && GoodArgs(args) && 0x40 <= cmd <= 0x7e
    requires u == t.(esc := u.esc, rdcp := u.rdcp) && Collected(t.esc, u.esc, priv, args)
    ensures Safe(Ordered(t, priv, args, cmd))
    ensures ReadByte(u, cmd, env) == CsiRun(Ordered(t, priv, args, cmd), env.accel)
  {
    hide Safe, EscOk, ReadByte, CsiRun, Utf8.AtBoundary, Terminated;
    CsiByte(u, cmd, env);
    var u1 := u.(rdcp := cmd);
    assert CsiNextChar(u1.esc, cmd) == (u1.esc.(cmd := cmd), true);
    var e := u1.esc.(cmd := cmd, state := Ground);
    FilledArgs(e, args);
    EscSet(u1, FillArgs(e));
    assert u1.(esc := FillArgs(e)) == Ordered(t, priv, args, cmd);
  }

  lemma FilledArgs(e: EscSeq, args: seq<int>)
    requires |args| <= ARG_SIZE && EscOk(e) && e.argc == |args| && forall i :: 0 <= i < |args| ==> e.argv[i] == args[i]
    ensures FillArgs(e) == e.(argv := Padded(args))
  {
    hide Terminated;
    assert FillArgs(e).argv == Padded(args);
  }

  /** From bytes to handlers: reading a command's text between two sequences carries out exactly that
      command, mark, arguments and all, on the state it finds. */
  lemma CommandRuns(t: Term, priv: int, args: seq<int>, cmd: Utf8.Byte, envs: seq<Env>)
    requires Ready(t) && GoodArgs(args) && -1 <= priv <= 1 && 0x40 <= cmd <= 0x7e
    requires |envs| == |CommandText(priv, args, cmd)|
    ensures Safe(Ordered(t, priv, args, cmd))
    ensures ReadAll(t, CommandText(priv, args, cmd), envs) ==
      CsiRun(Ordered(t, priv, args, cmd), envs[|envs| - 1].accel)
  {
    hide EscOk, Safe, Feed, Ordered, CsiRun, Collected, Params, Utf8.AtBoundary;
    ArgsFit(args);
    ArgsInText(Padded(args), |args|);
    ParamsPrint(priv, args);
    var params: Bytes := Params(priv, args);
    var n := |params|;
    assert envs == [envs[0], envs[1]] + envs[2..n + 2] + [envs[n + 2]];
    SafeWord(t);
    Opens(t, envs[0], envs[1]);
    var t1 := t.(esc := StartCsi(t.esc), rdcp := BRACKET);
    ParamsFed(t.esc, priv, args);
    Utf8.Accepted(BRACKET);
    ParamsRead(t1, params, envs[2..n + 2]);
    var u := ReadAll(t1, params, envs[2..n + 2]);
    Finishes(t, u, priv, args, cmd, envs[n + 2]);
    ReadOn(t, [ESC, BRACKET], params, [envs[0], envs[1]], envs[2..n + 2]);
    ReadOn(t, [ESC, BRACKET] + params, [cmd], [envs[0], envs[1]] + envs[2..n + 2], [envs[n + 2]]);
    ReadOne(u, cmd, envs[n + 2]);
  }

  /** A command marked with `>` only asks for replies. */
  lemma AsksOnly(t: Term, args: seq<int>, cmd: Utf8.Byte, envs: seq<Env>)
    requires Ready(t) && GoodArgs(args) && 0x40 <= cmd <= 0x7e && |envs| == |CommandText(-1, args, cmd)|
    ensures ReadAll(t, CommandText(-1, args, cmd), envs) == Ordered(t, -1, args, cmd)
  {
    hide EscOk, Safe, ReadAll, CommandText, Padded, Utf8.AtBoundary, CsiPriv, CsiNormal;
    CommandRuns(t, -1, args, cmd, envs);
  }

  lemma ParamsPrint(priv: int, args: seq<int>)
    requires GoodArgs(args)
    ensures forall i :: 0 <= i < |Params(priv, args)| ==> 0x20 <= Params(priv, args)[i] < 0x7f
  {
    hide ArgsText;
    ArgsFit(args);
    ArgsInText(Padded(args), |args|);
  }

  /** The text of a command with two arguments. */
  lemma TwoArgs(r: nat, c: nat, cmd: Utf8.Byte)
    requires r <= 0xffff && c <= 0xffff
    ensures CommandText(0, [r, c], cmd) == [ESC, BRACKET] + Digits(r) + [SEMICOLON] + Digits(c) + [cmd]
  {
    hide ArgsText, ArgsOk, Padded, Digits;
    ArgsFit([r, c]);
    PrintedTwo(Padded([r, c]), r, c);
    Joined([ESC, BRACKET], Digits(r), [SEMICOLON], Digits(c), [cmd]);
  }

  lemma Joined(a: seq<nat>, b: seq<nat>, c: seq<nat>, d: seq<nat>, e: seq<nat>)
    ensures a + ([] + (b + c + d)) + e == a + b + c + d + e
  {
    assert [] + (b + c + d) == b + c + d;
    assert a + (b + c + d) == a + b + c + d;
  }

  lemma PrintedTwo(argv: seq<int>, r: nat, c: nat)
    requires ArgsOk(argv, 2) && argv[0] == r && argv[1] == c
    ensures ArgsText(argv, 2) == Digits(r) + [SEMICOLON] + Digits(c)
  {
    hide Digits;
    PrintedOne(argv, r);
  }

  lemma PrintedOne(argv: seq<int>, n: nat)
    requires ArgsOk(argv, 1) && argv[0] == n
    ensures ArgsText(argv, 1) == Digits(n)
  {
    hide Digits;
    assert ArgsText(argv, 0) == [];
  }
}
