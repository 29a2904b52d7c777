/** The escape-sequence parser's own state: argument array and string buffer, updated in place. */
module EscParsers {
  import opened Cells
  import C = CsiModel
  import T = TermModel
  import Utf8

  method Zeros(n: nat) returns (a: array<int>)
    ensures fresh(a) && a.Length == n && a[..] == seq(n, _ => 0)
  {
    a := new int[n](_ => 0);
    assert forall i :: 0 <= i < n ==> a[..][i] == 0;
  }

  class EscParser {
    var state: T.ParseState
    var priv: int
    var cmd: int
    var argc: int
    var sbufpos: int
    const argv: array<int>
    const sbuf: array<int>

    /** The parser's state as a value. */
    ghost function E(): T.EscSeq
      reads this, argv, sbuf
    {
      T.EscSeq(state, priv, cmd, argv[..], argc, sbuf[..], sbufpos)
    }

    ghost predicate Valid()
      reads this, argv, sbuf
    {
      argv != sbuf && T.EscOk(E())
    }

    constructor ()
      ensures Valid() && fresh(argv) && fresh(sbuf)
      ensures E() == T.NewEsc()
    {
      var args := Zeros(T.ARG_SIZE);
      var text := Zeros(T.SBUF_SIZE);
      argv, sbuf := args, text;
      state, priv, cmd, argc, sbufpos := T.Ground, 0, 0, 0, 0;
      new;
      assert argv[..] == T.NewEsc().argv && sbuf[..] == T.NewEsc().sbuf;
    }

    method SetState(s: T.ParseState)
      requires Valid() && (s in {T.Osc, T.Dcs} ==> T.EscOk(E().(state := s)))
      modifies this`state
      ensures Valid() && E() == old(E()).(state := s)
    {
      state := s;
    }

    method StartCsi()
      requires Valid()
      modifies this`state, this`argc, this`priv, this`cmd
      ensures Valid() && E() == C.StartCsi(old(E()))
    {
      state, argc, priv, cmd := T.Csi, 0, 0, 0;
    }

    method StartString(s: T.ParseState)
      requires Valid()
      modifies this`state, this`sbufpos, this`priv, this`cmd, sbuf
      ensures Valid() && E() == C.StartString(old(E()), s)
    {
      ghost var was := sbuf[..];
      state, sbufpos, cmd, priv := s, 0, 0, 0;
      sbuf[0] := 0;
      assert sbuf[..] == was[0 := 0];
      assert E() == C.StartString(old(E()), s);
    }

    /** One parameter character; the answer says that it was the final one. */
    method NextChar(cp: nat) returns (done: bool)
      requires Valid()
      modifies this`state, this`priv, this`argc, this`cmd, argv
      ensures argv != sbuf && (E(), done) == C.CsiNextChar(old(E()), cp)
    {
      hide T.EscOk;
      done := false;
      if cp == '?' as int && argc == 0 { priv := 1; }
      else if cp == '>' as int && argc == 0 { priv := -1; }
      else if cp == ';' as int || cp == ':' as int { NextArg(); }
      else if '0' as int <= cp <= '9' as int { Digit(cp); }
      else if 0x40 <= cp <= 0x7e { cmd := cp; done := true; }
      else { state := T.CsiIgnore; }
    }

    method NextArg()
      requires Valid()
      modifies this`argc, argv
      ensures argv != sbuf && E() == C.CsiNextChar(old(E()), ';' as int).0 == C.CsiNextChar(old(E()), ':' as int).0
    {
      ghost var was := argv[..];
      if argc == 0 {
        argv[0] := -1;
        argc := 1;
        assert argv[..] == was[0 := -1];
      }
      ghost var was1 := argv[..];
      if argc < T.ARG_SIZE {
        argv[argc] := -1;
        assert argv[..] == was1[argc := -1];
      }
      argc := Min(T.ARG_SIZE, argc + 1);
    }

    method Digit(cp: nat)
      requires Valid() && '0' as int <= cp <= '9' as int
      modifies this`argc, argv
      ensures argv != sbuf && E() == C.CsiNextChar(old(E()), cp).0
    {
      ghost var was := argv[..];
      var idx := argc - 1;
      if idx == -1 {
        argc, idx := 1, 0;
        argv[0] := 0;
        assert argv[..] == was[0 := 0];
      }
      if idx < T.ARG_SIZE {
        ghost var was1 := argv[..];
        var val := argv[idx];
        if val == -1 { val := 0; }
        val := (val * 10 + (cp - '0' as int)) % 0x1_0000;
        argv[idx] := val;
        assert argv[..] == was1[idx := val];
      }
    }

    /** Arguments beyond the last one count as omitted. */
    method FillArgs()
      requires Valid()
      modifies argv
      ensures Valid() && E() == C.FillArgs(old(E()))
    {
      ghost var was := argv[..];
      var f := argc;
      while f < T.ARG_SIZE
        invariant argc <= f <= T.ARG_SIZE
        invariant forall i :: 0 <= i < T.ARG_SIZE ==> argv[i] == if argc <= i < f then -1 else was[i]
      {
        argv[f] := -1;
        f := f + 1;
      }
      assert argv[..] == C.FillArgs(old(E())).argv;
      assert E() == C.FillArgs(old(E()));
    }

    /** Appends an encoded character if it and its terminator fit, else marks the string as overlong. */
    method AppendChar(cp: nat)
      requires Valid() && state in {T.Osc, T.Dcs}
      modifies this`sbufpos, sbuf
      ensures Valid() && E() == C.AppendChar(old(E()), cp)
    {
      hide T.EscOk, Utf8.Encode;
      ghost var e := E();
      Sizes();
      var utb := Utf8.Encode(cp);
      if sbufpos + |utb| < T.SBUF_SIZE - 1 {
        ghost var was := sbuf[..];
        var k := 0;
        while k < |utb|
          invariant 0 <= k <= |utb| && sbuf.Length == T.SBUF_SIZE && sbufpos == e.sbufpos
          invariant forall i :: 0 <= i < sbuf.Length ==>
            sbuf[i] == if sbufpos <= i < sbufpos + k then utb[i - sbufpos] else was[i]
        {
          sbuf[sbufpos + k] := utb[k];
          k := k + 1;
        }
        sbufpos := sbufpos + |utb|;
        sbuf[sbufpos] := 0;
        assert sbuf[..] == was[..e.sbufpos] + utb + [0] + was[sbufpos + 1..];
      } else {
        sbufpos := T.SBUF_SIZE;
      }
      assert E() == C.AppendChar(e, cp);
    }

    lemma Sizes()
      requires Valid()
      ensures argv.Length == T.ARG_SIZE && sbuf.Length == T.SBUF_SIZE && 0 <= argc <= T.ARG_SIZE &&
        0 <= sbufpos <= T.SBUF_SIZE
    {
    }

    /** One character of an operating system command. */
    method OscText(cp: nat)
      requires Valid() && state == T.Osc
      modifies this`cmd, this`priv, this`sbufpos, sbuf
      ensures Valid() && E() == C.OscText(old(E()), cp)
    {
      if '0' as int <= cp <= '9' as int && priv >= 0 {
        cmd := Min(255, cmd * 10 + (cp - '0' as int));
        priv := Min(255, priv + 1);
      } else if cp == ';' as int && priv >= 0 {
        priv := -1;
        cmd := if cmd == 0 || cmd == 2 then 2 else 0;
      } else {
        if priv >= 0 { priv, cmd := -1, 0; }
        if cmd == 2 { AppendChar(cp); }
      }
    }
  }
}
