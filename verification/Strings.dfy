/** Strings addressed to the terminal. Titles and other operating system commands, device control strings
    and privacy messages are swallowed whole: none of their text reaches the screen. */
module Strings {
  import opened Cells
  import opened TermModel
  import opened CsiModel
  import opened ScrollbackRuns
  import opened Commands
  import Utf8

  const TITLE: Utf8.Byte := 0x5d
  const DEVICE: Utf8.Byte := 0x50
  const PRIVACY: Utf8.Byte := 0x5e
  const BELL: Utf8.Byte := 0x07
  const BACKSLASH: Utf8.Byte := 0x5c

  /** Nothing but the parser and the decoder has moved on. */
  predicate Quiet(t: Term, r: Term) { r == t.(esc := r.esc, rdcp := r.rdcp) }

  predicate InString(t: Term) { t.esc.state in {Osc, Dcs, IgnoreString} }

  /** The string is still being read. */
  predicate GoesOn(t: Term, r: Term) { Safe(r) && Quiet(t, r) && r.esc.state == t.esc.state }

  // ---- the text ---------------------------------------------------------------------

  lemma CharSwallowed(t: Term, cp: nat, env: Env)
    requires Safe(t) && InString(t) && cp >= 0x20
    ensures GoesOn(t, ProcessChar(t, cp, env)) && ProcessChar(t, cp, env).rdcp == t.rdcp
  {
    hide EscOk, Safe, PutC, AppendChar, ReleaseAlt;
  }

  lemma ByteSwallowed(t: Term, b: Utf8.Byte, env: Env)
    requires Safe(t) && InString(t)
    requires var w := Utf8.Consume(t.rdcp, b); !Utf8.Rejected(w) && (Utf8.ValidCp(w) ==> w >= 0x20)
    ensures GoesOn(t, ReadByte(t, b, env)) && ReadByte(t, b, env).rdcp == Utf8.Consume(t.rdcp, b)
  {
    hide EscOk, Safe, PutC, ProcessChar, Utf8.Consume, Utf8.Packed;
    SafeWord(t);
    Utf8.ConsumePacked(t.rdcp, b);
    var w := Utf8.Consume(t.rdcp, b);
    WordSet(t, w);
    if Utf8.ValidCp(w) { CharSwallowed(t.(rdcp := w), w, env); }
  }

  lemma {:induction false} BytesSwallowed(t: Term, bytes: Bytes, envs: seq<Env>)
    requires Safe(t) && InString(t) && |envs| == |bytes| && Utf8.Packed(t.rdcp)
    requires var rd := Utf8.Read(t.rdcp, bytes); !rd.bad && forall i :: 0 <= i < |rd.cps| ==> rd.cps[i] >= 0x20
    ensures GoesOn(t, ReadAll(t, bytes, envs)) && ReadAll(t, bytes, envs).rdcp == Utf8.Read(t.rdcp, bytes).word
    decreases |bytes|
  {
    hide EscOk, Safe, ReadByte, Utf8.Consume, Utf8.Packed;
    if bytes != [] {
      var w := Utf8.Consume(t.rdcp, bytes[0]);
      Utf8.ConsumePacked(t.rdcp, bytes[0]);
      var rest := Utf8.Read(w, bytes[1..]).cps;
      var cps := Utf8.Read(t.rdcp, bytes).cps;
      var one := if Utf8.ValidCp(w) then [w] else [];
      assert cps == one + rest;
      assert one != [] ==> cps[0] == w;
      forall i | 0 <= i < |rest| ensures rest[i] >= 0x20 { assert cps[|one| + i] == rest[i]; }
      ByteSwallowed(t, bytes[0], envs[0]);
      BytesSwallowed(ReadByte(t, bytes[0], envs[0]), bytes[1..], envs[1..]);
    }
  }

  // ---- its start and its end --------------------------------------------------------

  function StringState(kind: Utf8.Byte): ParseState {
    if kind == TITLE then Osc else if kind == DEVICE then Dcs else IgnoreString
  }

  lemma StringOpens(t: Term, kind: Utf8.Byte, e0: Env, e1: Env)
    requires Ready(t) && kind in {TITLE, DEVICE, PRIVACY}
    ensures var u := ReadAll(t, [ESC, kind], [e0, e1]);
      Safe(u) && Quiet(t, u) && u.esc.state == StringState(kind) && u.rdcp == kind && Utf8.AtBoundary(kind)
  {
    hide EscOk, Safe, ProcessChar, ReadByte, ReadAll, Utf8.AtBoundary;
    AsciiByte(t, ESC, e0);
    Escaped(t.(rdcp := ESC), e0);
    var t1 := t.(rdcp := ESC, esc := t.esc.(state := Escape));
    AsciiByte(t1, kind, e1);
    Opened(t1.(rdcp := kind), kind, e1);
    TwoBytes(t, ESC, kind, e0, e1);
  }

  lemma Opened(t: Term, kind: Utf8.Byte, env: Env)
    requires Safe(t) && t.esc.state == Escape && kind in {TITLE, DEVICE, PRIVACY}
    ensures var u := ProcessChar(t, kind, env);
      Quiet(t, u) && u.esc.state == StringState(kind) && u.rdcp == t.rdcp
  {
    hide EscOk, Safe, PutC, EscRun;
  }

  /** The string is over. A finished title may drop an alternate screen that is not shown. */
  predicate Over(t: Term, r: Term, kind: Utf8.Byte) {
    Ready(r) && Quiet(t.(alt := r.alt), r) && (r.alt == t.alt || (kind == TITLE && !t.onAlt && r.alt == NO_GRID))
  }

  lemma BellEnds(t: Term, env: Env)
    requires Safe(t) && t.esc.state == Osc && Utf8.AtBoundary(t.rdcp)
    ensures Over(t, ReadByte(t, BELL, env), TITLE)
  {
    hide EscOk, Safe, ReadByte, PutC, Utf8.AtBoundary;
    AsciiByte(t, BELL, env);
  }

  lemma EscapeInterrupts(t: Term, kind: Utf8.Byte, env: Env)
    requires Safe(t) && t.esc.state == StringState(kind) && Utf8.AtBoundary(t.rdcp)
    ensures var r := ReadByte(t, ESC, env);
      Safe(r) && r.esc.state == Escape && r.rdcp == ESC && Quiet(t.(alt := r.alt), r) &&
      (r.alt == t.alt || (kind == TITLE && !t.onAlt && r.alt == NO_GRID))
  {
    hide EscOk, Safe, ReadByte, PutC, Utf8.AtBoundary;
    AsciiByte(t, ESC, env);
  }

  lemma SlashEnds(t: Term, kind: Utf8.Byte, e0: Env, e1: Env)
    requires Safe(t) && t.esc.state == StringState(kind) && Utf8.AtBoundary(t.rdcp)
    ensures Over(t, ReadAll(t, [ESC, BACKSLASH], [e0, e1]), kind)
  {
    hide EscOk, Safe, ReadByte, ReadAll, ProcessChar, Utf8.AtBoundary;
    EscapeInterrupts(t, kind, e0);
    var t1 := ReadByte(t, ESC, e0);
    Utf8.Accepted(ESC);
    AsciiByte(t1, BACKSLASH, e1);
    EscapedBy(t1.(rdcp := BACKSLASH), BACKSLASH, e1);
    TwoBytes(t, ESC, BACKSLASH, e0, e1);
  }

  /** The end of a string: BEL for an operating system command, ESC \ for all of them. */
  function Ending(bell: bool): Bytes { if bell then [BELL] else [ESC, BACKSLASH] }

  lemma Ends(t: Term, kind: Utf8.Byte, bell: bool, envs: seq<Env>)
    requires Safe(t) && t.esc.state == StringState(kind) && Utf8.AtBoundary(t.rdcp) && |envs| == |Ending(bell)|
    requires bell ==> kind == TITLE
    ensures Over(t, ReadAll(t, Ending(bell), envs), kind)
  {
    hide EscOk, Safe, ReadByte, ReadAll, Utf8.AtBoundary, Over;
    if bell {
      BellEnds(t, envs[0]);
      ReadOne(t, BELL, envs[0]);
      assert envs == [envs[0]];
    } else {
      SlashEnds(t, kind, envs[0], envs[1]);
      assert envs == [envs[0], envs[1]];
    }
  }

  /** A whole string, from its bytes: whatever text it holds, the screens, cursors, modes and the history
      are as before, and the next byte is read as if it had not been there. */
  lemma StringRead(t: Term, kind: Utf8.Byte, text: seq<nat>, bell: bool, envs: seq<Env>)
    requires Ready(t) && kind in {TITLE, DEVICE, PRIVACY} && (bell ==> kind == TITLE)
    requires forall i :: 0 <= i < |text| ==> Utf8.ValidCp(text[i]) && text[i] >= 0x20
    requires |envs| == |Utf8.EncodeAll(text)| + |Ending(bell)| + 2
    ensures Over(t, ReadAll(t, [ESC, kind] + Utf8.EncodeAll(text) + Ending(bell), envs), kind)
  {
    hide EscOk, Safe, ReadAll, Utf8.AtBoundary, Utf8.EncodeAll, Utf8.ValidCp, Utf8.Packed, Ending;
    var body: Bytes := Utf8.EncodeAll(text);
    var n := |body| + 2;
    StringOpens(t, kind, envs[0], envs[1]);
    var u := ReadAll(t, [ESC, kind], envs[..2]);
    assert envs[..2] == [envs[0], envs[1]];
    SafeWord(u);
    Utf8.ReadEncoded(u.rdcp, text);
    BytesSwallowed(u, body, envs[2..n]);
    var v := ReadAll(u, body, envs[2..n]);
    Ends(v, kind, bell, envs[n..]);
    ReadOn(t, [ESC, kind], body, envs[..2], envs[2..n]);
    assert envs[..2] + envs[2..n] == envs[..n];
    ReadOn(t, [ESC, kind] + body, Ending(bell), envs[..n], envs[n..]);
    assert envs[..n] + envs[n..] == envs;
  }
}
