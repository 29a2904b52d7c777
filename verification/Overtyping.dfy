/** Typing with wrapping off: the cursor stops in the last column, where each character takes the
    place of the one before. */
module Overtyping {
  import opened Cells
  import opened TermModel
  import opened CsiModel
  import opened GridFacts
  import opened ScrollbackRuns
  import opened Typing
  import Utf8

  /** The cursor's cell, and the last one of its row. */
  function First(t: Term): int { Pos(t).y * G(t).width + Pos(t).x }
  function Last(t: Term): int { Pos(t).y * G(t).width + G(t).width - 1 }

  /** What cell `i` shows once `text` is typed: the text up to the last column, and there its last character. */
  ghost predicate OverCell(t: Term, c: Cell, text: seq<nat>, i: nat)
    requires Safe(t) && i < |G(t).cells|
  {
    var p, q := First(t), Last(t);
    if p <= i < Min(p + |text|, q) then SameLook(c, Glyph(t, text[i - p]))
    else if i == q && p + |text| > q then text != [] && SameLook(c, Glyph(t, text[|text| - 1]))
    else SameLook(c, G(t).cells[i])
  }

  /** `r` is `t` with `text` typed into one row. */
  ghost predicate Overtyped(t: Term, r: Term, text: seq<nat>) {
    Safe(t) && Safe(r) && SameSetting(t, r) && !Pos(r).lastCol && Pos(r).y == Pos(t).y &&
    Pos(r).x == Min(Pos(t).x + |text|, G(t).width - 1) &&
    forall i :: 0 <= i < |G(t).cells| ==> OverCell(t, G(r).cells[i], text, i)
  }

  // ---- one character ----------------------------------------------------------------

  /** One step on, or none in the last column; no cell changes its look. */
  ghost predicate Held(v: Term, r: Term) {
    Safe(r) && SameStep(v, r) && !Pos(r).lastCol && Pos(r).y == Pos(v).y &&
    Pos(r).x == Min(Pos(v).x + 1, G(v).width - 1) &&
    forall i :: 0 <= i < |G(v).cells| ==> SameLook(G(r).cells[i], G(v).cells[i])
  }

  lemma Holds(v: Term)
    requires Safe(v) && !v.modes.wrap && !Pos(v).lastCol && Pos(v).x == G(v).width - 1
    ensures Held(v, Wait(v))
  {
    hide EscOk, MarkWrap;
    OnScreen(v);
    forall i | 0 <= i < |G(v).cells| ensures SameLook(G(Wait(v)).cells[i], G(v).cells[i]) {
      MarkOne(v, Pos(v).y, false, i);
    }
  }

  lemma Moves(v: Term)
    requires Safe(v) && !v.modes.wrap && !Pos(v).lastCol
    ensures Held(v, Advance(v))
  {
    hide EscOk, Safe, MoveTo, Wait;
    OnScreen(v);
    if Pos(v).x != G(v).width - 1 {
      Steps(v);
      MoveSame(v, Pos(v).x + 1, Pos(v).y);
    } else {
      Holds(v);
    }
  }

  /** The character replaces the cursor's cell and the cursor moves on or stays. */
  lemma PutOver(r: Term, cp: nat, accel: bool, i: nat)
    requires Safe(r) && !r.modes.wrap && !r.modes.insert && !Pos(r).lastCol && Printable(cp) && i < |G(r).cells|
    ensures var q := PutChar(r, cp, accel);
      Safe(q) && SameStep(r, q) && !Pos(q).lastCol && Pos(q).y == Pos(r).y &&
      Pos(q).x == Min(Pos(r).x + 1, G(r).width - 1) &&
      SameLook(G(q).cells[i], if i == First(r) then Glyph(r, cp) else G(r).cells[i])
  {
    hide EscOk, Safe, StaleWrap, WriteHere, Advance, Translate;
    TranslateOk(r, cp);
    StaleArrives(r);
    var u := StaleWrap(r);
    var v := WriteHere(u, Translate(r, cp));
    Writes(u, Translate(r, cp), i);
    Moves(v);
  }

  lemma OverOne(t: Term, r: Term, text: seq<nat>, cp: nat, accel: bool)
    requires Overtyped(t, r, text) && Printable(cp) && !t.modes.wrap && !t.modes.insert
    ensures Overtyped(t, PutChar(r, cp, accel), text + [cp]) && PutChar(r, cp, accel).rdcp == r.rdcp
  {
    hide EscOk, Safe, PutChar, Translate, Row, Col, OverCell, Glyph;
    OnScreen(t);
    Place(r);
    PutOver(r, cp, accel, First(r));
    var q := PutChar(r, cp, accel);
    forall i | 0 <= i < |G(t).cells| ensures OverCell(t, G(q).cells[i], text + [cp], i) {
      PutOver(r, cp, accel, i);
      NextOver(t, r, q, text, cp, i);
    }
  }

  lemma NextOver(t: Term, r: Term, q: Term, text: seq<nat>, cp: nat, i: nat)
    requires Overtyped(t, r, text) && SameSize(G(q), G(t)) && i < |G(t).cells| && |G(q).cells| == |G(t).cells|
    requires SameLook(G(q).cells[i], if i == First(r) then Glyph(r, cp) else G(r).cells[i])
    ensures OverCell(t, G(q).cells[i], text + [cp], i)
  {
    hide EscOk, Safe, Glyph;
    OnScreen(t);
    SameGlyph(t, r, cp);
    assert OverCell(t, G(r).cells[i], text, i);
  }

  lemma SameGlyph(t: Term, r: Term, cp: nat)
    requires SameSetting(t, r)
    ensures Glyph(r, cp) == Glyph(t, cp)
  {
    hide StoredChar;
  }

  // ---- text -------------------------------------------------------------------------

  lemma OverByte(t: Term, r: Term, text: seq<nat>, b: Utf8.Byte, env: Env)
    requires Overtyped(t, r, text) && !t.modes.wrap && !t.modes.insert && t.esc.state == Ground
    requires Utf8.Packed(r.rdcp)
    requires var w := Utf8.Consume(r.rdcp, b); !Utf8.Rejected(w) && (Utf8.ValidCp(w) ==> Printable(w))
    ensures var w := Utf8.Consume(r.rdcp, b);
      var u := ReadByte(r, b, env);
      Overtyped(t, u, text + if Utf8.ValidCp(w) then [w] else []) && u.rdcp == w
  {
    hide EscOk, OverCell, ProcessChar, PutC, PutChar, Utf8.Packed, Utf8.Consume;
    var w := Utf8.Consume(r.rdcp, b);
    var r1 := r.(rdcp := w);
    Utf8.ConsumePacked(r.rdcp, b);
    OverWord(t, r, text, w);
    if Utf8.ValidCp(w) {
      GroundPuts(r1, w, env);
      OverOne(t, r1, text, w, env.accel);
    } else {
      assert text + [] == text;
    }
  }

  lemma OverWord(t: Term, r: Term, text: seq<nat>, w: nat)
    requires Overtyped(t, r, text) && Utf8.Packed(w)
    ensures Overtyped(t, r.(rdcp := w), text)
  {
    hide EscOk, OverCell, Utf8.Packed;
  }

  lemma {:induction false} OverBytes(t: Term, r: Term, text: seq<nat>, bytes: seq<Utf8.Byte>, envs: seq<Env>)
    requires Overtyped(t, r, text) && !t.modes.wrap && !t.modes.insert && t.esc.state == Ground
    requires |envs| == |bytes| && Utf8.Packed(r.rdcp)
    requires var rd := Utf8.Read(r.rdcp, bytes); !rd.bad && forall i :: 0 <= i < |rd.cps| ==> Printable(rd.cps[i])
    ensures Overtyped(t, ReadAll(r, bytes, envs), text + Utf8.Read(r.rdcp, bytes).cps)
    decreases |bytes|
  {
    hide EscOk, Safe, Overtyped, ReadByte, Utf8.Packed, Utf8.Consume;
    OverSafe(t, r, text);
    if bytes == [] {
      assert text + [] == text;
    } else {
      var w := Utf8.Consume(r.rdcp, bytes[0]);
      var one := if Utf8.ValidCp(w) then [w] else [];
      Utf8.ConsumePacked(r.rdcp, bytes[0]);
      var rest := Utf8.Read(w, bytes[1..]).cps;
      var cps := Utf8.Read(r.rdcp, bytes).cps;
      assert cps == one + rest;
      assert one != [] ==> cps[0] == w;
      forall i | 0 <= i < |rest| ensures Printable(rest[i]) { assert cps[|one| + i] == rest[i]; }
      OverByte(t, r, text, bytes[0], envs[0]);
      var u := ReadByte(r, bytes[0], envs[0]);
      OverBytes(t, u, text + one, bytes[1..], envs[1..]);
      assert text + one + rest == text + cps;
    }
  }

  lemma OverSafe(t: Term, r: Term, text: seq<nat>)
    requires Overtyped(t, r, text)
    ensures Safe(r)
  {
    hide EscOk, Safe, OverCell;
  }

  lemma OverNothing(t: Term)
    requires Safe(t) && !Pos(t).lastCol
    ensures Overtyped(t, t, [])
  {
    hide EscOk;
    OnScreen(t);
  }

  /** The counterpart of the law of plain text: with wrapping off the UTF-8 bytes of any printable text,
      however long, stay in the cursor's row. What fits is shown in reading order, the last column shows the
      last character if there were too many, and no other cell changes its look. */
  lemma TextHeld(t: Term, text: seq<nat>, envs: seq<Env>)
    requires Safe(t) && t.esc.state == Ground && Utf8.AtBoundary(t.rdcp) && !t.modes.wrap && !t.modes.insert
    requires !Pos(t).lastCol && |envs| == |Utf8.EncodeAll(text)|
    requires forall i :: 0 <= i < |text| ==> Utf8.ValidCp(text[i]) && Printable(text[i])
    ensures Overtyped(t, ReadAll(t, Utf8.EncodeAll(text), envs), text)
  {
    hide EscOk, Overtyped, ReadByte, Utf8.Packed, Utf8.AtBoundary, Utf8.Encode, Utf8.ValidCp, Utf8.Consume;
    assert Utf8.Packed(t.rdcp);
    OverNothing(t);
    Utf8.ReadEncoded(t.rdcp, text);
    OverBytes(t, t, [], Utf8.EncodeAll(text), envs);
    assert [] + text == text;
  }
}
