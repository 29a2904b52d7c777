/** The control-sequence printer and the parser are inverse: what the debug dump prints for a parser
    state, fed to a fresh parser, rebuilds that state (parameter syntax of section 5.4 of ECMA-48). */
module CsiText {
  import opened TermModel
  import opened CsiModel

  const SEMICOLON: nat := 0x3b
  const QUESTION: nat := 0x3f
  const GREATER: nat := 0x3e
  const ZERO: nat := 0x30

  // ---- the printer ------------------------------------------------------------------

  /** Decimal digits, as `%d` prints them. */
  function Digits(n: nat): (r: seq<nat>)
    ensures r != [] && forall i :: 0 <= i < |r| ==> ZERO <= r[i] <= ZERO + 9
  {
    if n < 10 then [ZERO + n] else Digits(n / 10) + [ZERO + n % 10]
  }

  function ArgText(v: int): seq<nat>
    requires v >= -1
  {
    if v == -1 then [] else Digits(v)
  }

  predicate ArgsOk(argv: seq<int>, argc: int) {
    0 <= argc <= ARG_SIZE <= |argv| && forall i :: 0 <= i < ARG_SIZE ==> -1 <= argv[i] <= 0xffff
  }

  /** The first `n` arguments, separated. */
  function ArgsText(argv: seq<int>, n: nat): seq<nat>
    requires ArgsOk(argv, n)
  {
    if n == 0 then []
    else ArgsText(argv, n - 1) + (if n > 1 then [SEMICOLON] else []) + ArgText(argv[n - 1])
  }

  /** The private mark and the arguments of a dump. */
  function ParamText(e: EscSeq): seq<nat>
    requires ArgsOk(e.argv, e.argc)
  {
    (if e.priv > 0 then [QUESTION] else if e.priv < 0 then [GREATER] else []) + ArgsText(e.argv, e.argc)
  }

  // ---- the parser over a text -------------------------------------------------------

  /** Characters fed one after the other, up to and including the final one. */
  function Feed(e: EscSeq, text: seq<nat>): (r: (EscSeq, bool))
    requires EscOk(e) && e.state in {Csi, CsiIgnore}
    ensures EscOk(r.0) && r.0.state in {Csi, CsiIgnore}
    decreases |text|
  {
    if text == [] then (e, false)
    else
      var (e1, done) := CsiNextChar(e, text[0]);
      if done then (e1, true) else Feed(e1, text[1..])
  }

  lemma {:induction false} FeedAdd(e: EscSeq, a: seq<nat>, b: seq<nat>)
    requires EscOk(e) && e.state in {Csi, CsiIgnore} && !Feed(e, a).1
    ensures Feed(e, a + b) == Feed(Feed(e, a).0, b)
    decreases |a|
  {
    hide EscOk, CsiNextChar;
    if a == [] {
      assert a + b == b;
    } else {
      assert (a + b)[1..] == a[1..] + b;
      StaysCsi(e, a[0]);
      FeedAdd(CsiNextChar(e, a[0]).0, a[1..], b);
    }
  }

  lemma StaysCsi(e: EscSeq, c: nat)
    requires EscOk(e) && e.state in {Csi, CsiIgnore}
    ensures CsiNextChar(e, c).0.state in {Csi, CsiIgnore}
  {
    hide EscOk;
  }

  lemma FeedOne(e: EscSeq, c: nat)
    requires EscOk(e) && e.state in {Csi, CsiIgnore}
    ensures Feed(e, [c]) == CsiNextChar(e, c)
  {
    hide EscOk, CsiNextChar;
    var (e1, done) := CsiNextChar(e, c);
    assert [c][1..] == [];
  }

  /** What every parser state a sequence can reach looks like: a single argument is never omitted. */
  ghost predicate Shaped(e: EscSeq) {
    EscOk(e) && e.state in {Csi, CsiIgnore} && -1 <= e.priv <= 1 && (e.argc == 1 ==> e.argv[0] != -1)
  }

  lemma {:induction false} StaysShaped(e: EscSeq, text: seq<nat>)
    requires Shaped(e)
    ensures Shaped(Feed(e, text).0)
    decreases |text|
  {
    if text != [] {
      var (e1, done) := CsiNextChar(e, text[0]);
      OneShaped(e, text[0]);
      hide EscOk, CsiNextChar;
      if !done { StaysShaped(e1, text[1..]); }
    }
  }

  lemma OneShaped(e: EscSeq, c: nat)
    requires Shaped(e)
    ensures Shaped(CsiNextChar(e, c).0)
  {
  }

  lemma AllShaped(e: EscSeq, text: seq<nat>)
    requires EscOk(e)
    ensures Shaped(Feed(StartCsi(e), text).0)
  {
    assert Shaped(StartCsi(e));
    StaysShaped(StartCsi(e), text);
  }

  // ---- the round trip ---------------------------------------------------------------

  /** The parser holds the first `n` arguments of `argv`; an omitted first one may still be due. */
  ghost predicate Holds(e: EscSeq, argv: seq<int>, n: nat, priv: int)
    requires ArgsOk(argv, n)
  {
    EscOk(e) && e.state == Csi && e.priv == priv && e.cmd == 0 &&
    if n == 1 && argv[0] == -1 then e.argc == 0 else e.argc == n && forall i :: 0 <= i < n ==> e.argv[i] == argv[i]
  }

  /** The separator opens the next argument, omitted so far. */
  lemma Separate(e: EscSeq, argv: seq<int>, n: nat, priv: int)
    requires ArgsOk(argv, n) && 1 <= n < ARG_SIZE && Holds(e, argv, n, priv)
    ensures var (r, done) := CsiNextChar(e, SEMICOLON);
      !done && EscOk(r) && r.state == Csi && r.priv == priv && r.cmd == 0 && r.argc == n + 1 && r.argv[n] == -1 &&
      forall i :: 0 <= i < n ==> r.argv[i] == argv[i]
  {
  }

  /** Only argument `k` differs, and it is `v`. */
  ghost predicate Fills(e: EscSeq, r: EscSeq, k: nat, v: int) {
    EscOk(r) && r.state == Csi && r.priv == e.priv && r.cmd == e.cmd && r.argc == k + 1 && k < ARG_SIZE &&
    r.argv[k] == v &&
    |e.argv| == ARG_SIZE && forall i :: 0 <= i < k ==> r.argv[i] == e.argv[i]
  }

  /** The digits of a value, fed to an argument that is still omitted, give that value. */
  lemma {:induction false} FeedDigits(e: EscSeq, k: nat, v: nat)
    requires EscOk(e) && e.state == Csi && k < ARG_SIZE && v <= 0xffff
    requires (e.argc == k + 1 && e.argv[k] == -1) || (k == 0 && e.argc == 0)
    ensures var (r, done) := Feed(e, Digits(v)); !done && Fills(e, r, k, v)
    decreases v
  {
    if v < 10 {
      FeedOne(e, ZERO + v);
      FirstDigit(e, k, v);
    } else {
      FeedDigits(e, k, v / 10);
      FeedAdd(e, Digits(v / 10), [ZERO + v % 10]);
      var r := Feed(e, Digits(v / 10)).0;
      FeedOne(r, ZERO + v % 10);
      NextDigit(e, r, k, v);
    }
  }

  lemma FirstDigit(e: EscSeq, k: nat, v: nat)
    requires EscOk(e) && e.state == Csi && k < ARG_SIZE && v < 10
    requires (e.argc == k + 1 && e.argv[k] == -1) || (k == 0 && e.argc == 0)
    ensures var (r, done) := CsiNextChar(e, ZERO + v); !done && Fills(e, r, k, v)
  {
  }

  lemma NextDigit(e: EscSeq, r: EscSeq, k: nat, v: nat)
    requires 10 <= v <= 0xffff && Fills(e, r, k, v / 10)
    ensures var (s, done) := CsiNextChar(r, ZERO + v % 10); !done && Fills(e, s, k, v)
  {
    assert v / 10 * 10 + v % 10 == v;
  }

  /** The printed arguments, fed to a parser without any, are those arguments. */
  lemma {:induction false} FeedArgs(e: EscSeq, argv: seq<int>, n: nat)
    requires ArgsOk(argv, n) && EscOk(e) && e.state == Csi && e.argc == 0 && e.cmd == 0
    ensures var (r, done) := Feed(e, ArgsText(argv, n)); !done && Holds(r, argv, n, e.priv)
    decreases n
  {
    hide EscOk, CsiNextChar, Digits, Feed;
    if n == 0 {
      NothingFed(e);
    } else if n == 1 {
      assert ArgsText(argv, 1) == ArgText(argv[0]);
      if argv[0] == -1 { NothingFed(e); } else { FeedDigits(e, 0, argv[0]); }
    } else {
      FeedArgs(e, argv, n - 1);
      NextArgument(e, argv, n);
    }
  }

  lemma NothingFed(e: EscSeq)
    requires EscOk(e) && e.state in {Csi, CsiIgnore}
    ensures Feed(e, []) == (e, false)
  {
  }

  lemma NextArgument(e: EscSeq, argv: seq<int>, n: nat)
    requires ArgsOk(argv, n) && n > 1 && EscOk(e) && e.state == Csi && e.argc == 0 && e.cmd == 0
    requires var (r, done) := Feed(e, ArgsText(argv, n - 1)); !done && Holds(r, argv, n - 1, e.priv)
    ensures var (r, done) := Feed(e, ArgsText(argv, n)); !done && Holds(r, argv, n, e.priv)
  {
    hide CsiNextChar, Digits, Feed;
    var before := ArgsText(argv, n - 1);
    var r := Feed(e, before).0;
    Separate(r, argv, n - 1, e.priv);
    FeedOne(r, SEMICOLON);
    FeedAdd(e, before, [SEMICOLON]);
    var s := CsiNextChar(r, SEMICOLON).0;
    assert ArgsText(argv, n) == (before + [SEMICOLON]) + ArgText(argv[n - 1]);
    FeedAdd(e, before + [SEMICOLON], ArgText(argv[n - 1]));
    if argv[n - 1] == -1 { NothingFed(s); } else { FeedDigits(s, n - 1, argv[n - 1]); }
  }

  /** Same mark and arguments. */
  ghost predicate SameParams(r: EscSeq, e: EscSeq)
    requires |r.argv| == |e.argv| == ARG_SIZE && 0 <= e.argc <= ARG_SIZE
  {
    r.state == Csi && r.priv == e.priv && r.argc == e.argc && r.argv[..e.argc] == e.argv[..e.argc]
  }

  lemma HeldIsSame(r: EscSeq, e: EscSeq)
    requires Shaped(e) && Holds(r, e.argv, e.argc, e.priv)
    ensures SameParams(r, e)
  {
  }

  /** Printing and parsing: mark and arguments come back exactly. */
  lemma PrintParse(e: EscSeq, e0: EscSeq)
    requires Shaped(e) && EscOk(e0)
    ensures var (r, done) := Feed(StartCsi(e0), ParamText(e)); !done && r.cmd == 0 && SameParams(r, e)
  {
    MarkFed(e, e0);
    var start := StartCsi(e0);
    var mark := if e.priv > 0 then [QUESTION] else if e.priv < 0 then [GREATER] else [];
    hide EscOk, Feed, CsiNextChar, ArgsText, StartCsi, Holds, SameParams;
    var s := Feed(start, mark).0;
    FeedArgs(s, e.argv, e.argc);
    FeedAdd(start, mark, ArgsText(e.argv, e.argc));
    HeldIsSame(Feed(start, ParamText(e)).0, e);
    CmdKept(Feed(start, ParamText(e)).0, e.argv, e.argc, e.priv);
  }

  lemma CmdKept(r: EscSeq, argv: seq<int>, n: nat, priv: int)
    requires ArgsOk(argv, n) && Holds(r, argv, n, priv)
    ensures r.cmd == 0
  {
  }

  /** And so does the whole sequence, its final character included. */
  lemma PrintParseFinal(e: EscSeq, e0: EscSeq)
    requires Shaped(e) && EscOk(e0) && 0x40 <= e.cmd <= 0x7e
    ensures var (r, done) := Feed(StartCsi(e0), ParamText(e) + [e.cmd]); done && r.cmd == e.cmd && SameParams(r, e)
  {
    PrintParse(e, e0);
    hide ParamText;
    FeedAdd(StartCsi(e0), ParamText(e), [e.cmd]);
    FeedOne(Feed(StartCsi(e0), ParamText(e)).0, e.cmd);
  }

  lemma MarkFed(e: EscSeq, e0: EscSeq)
    requires Shaped(e) && EscOk(e0)
    ensures var mark := if e.priv > 0 then [QUESTION] else if e.priv < 0 then [GREATER] else [];
      var (r, done) := Feed(StartCsi(e0), mark);
      !done && EscOk(r) && r.state == Csi && r.priv == e.priv && r.argc == 0 && r.cmd == 0
  {
    var s := StartCsi(e0);
    NothingFed(s);
    FeedOne(s, QUESTION);
    FeedOne(s, GREATER);
  }
}
