/** From bytes to cells: printable text fills consecutive cells in reading order, rows that go on
    are marked as wrapped, and resizing keeps the text in order. */
module Typing {
  import opened Cells
  import opened TermModel
  import opened CsiModel
  import opened GridFacts
  import opened ScrollbackRuns
  import Relayout
  import Utf8

  /** Where the next character goes; a pending wrap stands at the start of the next row. */
  function NextCell(t: Term): int {
    Pos(t).y * G(t).width + Pos(t).x + if Pos(t).lastCol then 1 else 0
  }

  /** The last row text reaches from here without scrolling. */
  function LastRow(t: Term): int {
    if Pos(t).y <= S(t).scBot then S(t).scBot else G(t).height - 1
  }

  function Limit(t: Term): int { (LastRow(t) + 1) * G(t).width }

  /** What a character looks like in this state. */
  function Glyph(t: Term, cp: nat): Cell { S(t).attr.(ch := StoredChar(Translate(t, cp))) }

  predicate Printable(cp: nat) { cp >= 0x20 && cp != 0x7f }

  /** What typing leaves alone. */
  predicate SameSetting(t: Term, r: Term) {
    SameSize(G(r), G(t)) && r.onAlt == t.onAlt && r.modes == t.modes && r.charset == t.charset &&
    r.terminusGfx == t.terminusGfx && r.colorMode == t.colorMode && S(r).attr == S(t).attr &&
    S(r).scBot == S(t).scBot && S(r).hidden == S(t).hidden && r.esc == t.esc
  }

  predicate SameStep(t: Term, r: Term) { SameSetting(t, r) && r.rdcp == t.rdcp }

  ghost predicate TypedCell(t: Term, r: Term, text: seq<nat>, i: nat)
    requires Safe(t) && SameSize(G(r), G(t)) && i < |G(t).cells|
  {
    hide EscOk;
    var p, c := NextCell(t), G(r).cells[i];
    if p <= i < p + |text| then
      SameLook(c, Glyph(t, text[i - p])) &&
      (Col(i, G(t).width) == G(t).width - 1 ==> (c.wrap <==> i + 1 < p + |text|))
    else SameLook(c, G(t).cells[i])
  }

  /** `r` is `t` with `text` typed: cell after cell, wrapped where it goes on. */
  ghost predicate Typed(t: Term, r: Term, text: seq<nat>) {
    Safe(t) && Safe(r) && SameSetting(t, r) &&
    NextCell(r) == NextCell(t) + |text| <= Limit(t) && Pos(t).y <= Pos(r).y <= LastRow(t) &&
    (text != [] && !Pos(r).lastCol ==> Pos(r).x > 0) &&
    forall i :: 0 <= i < |G(t).cells| ==> TypedCell(t, r, text, i)
  }

  // ---- one character ----------------------------------------------------------------

  lemma InvalidateSame(t: Term)
    requires Safe(t)
    ensures SameButDirty(G(t).cells, G(InvalidateCursor(t)).cells)
  {
    hide EscOk, Row, Col, InRect;
  }

  lemma MoveSame(t: Term, x: int, y: int)
    requires Safe(t) && 0 <= x < G(t).width && 0 <= y < G(t).height && !Pos(t).lastCol
    ensures SameButDirty(G(t).cells, G(MoveTo(t, x, y)).cells)
  {
    hide EscOk, InvalidateCursor;
    InvalidateSame(t);
    var t1 := InvalidateCursor(t);
    InvalidateSame(WithPos(t1, Pos(t1).(x := x, y := y)));
  }

  /** Only the last cell of a row changes its mark. */
  lemma MarkOne(t: Term, y: nat, mark: bool, i: nat)
    requires Safe(t) && y < G(t).height && i < |G(t).cells|
    ensures G(MarkWrap(t, y, mark)).cells[i] ==
      if i == y * G(t).width + G(t).width - 1 then G(t).cells[i].(wrap := mark) else G(t).cells[i]
  {
    hide EscOk;
    MulAdd(y, 1, G(t).width);
  }

  /** The cursor's row and column as an index. */
  lemma Place(t: Term)
    requires Safe(t)
    ensures 0 <= Pos(t).y * G(t).width + Pos(t).x < |G(t).cells|
    ensures (Pos(t).y + 1) * G(t).width == Pos(t).y * G(t).width + G(t).width
  {
    hide EscOk;
    OnScreen(t);
    LineFits(G(t), Pos(t).x, Pos(t).y);
    MulAdd(Pos(t).y, 1, G(t).width);
  }

  /** A stale mark and a pending wrap are dealt with: the cursor stands where the character goes. */
  ghost predicate Arrived(t: Term, u: Term) {
    Safe(t) && Safe(u) && SameStep(t, u) && !Pos(u).lastCol && NextCell(u) == NextCell(t) &&
    Pos(t).y <= Pos(u).y <= Max(Pos(t).y, LastRow(t)) &&
    forall i :: 0 <= i < |G(t).cells| ==> ArrivedCell(t, G(u).cells[i], i)
  }

  ghost predicate ArrivedCell(t: Term, c: Cell, i: nat)
    requires i < |G(t).cells|
  {
    var n := NextCell(t);
    SameLook(c, G(t).cells[i]) && (i < n ==> c.wrap == (G(t).cells[i].wrap || (Pos(t).lastCol && i == n - 1)))
  }

  lemma StaleArrives(t: Term)
    requires Safe(t)
    ensures var u := StaleWrap(t);
      Safe(u) && SameStep(t, u) && Pos(u) == Pos(t).(justMoved := false) && NextCell(u) == NextCell(t) &&
      LastRow(u) == LastRow(t)
    ensures forall i :: 0 <= i < |G(t).cells| ==>
      SameLook(G(StaleWrap(t)).cells[i], G(t).cells[i]) &&
      (i < NextCell(t) - (if Pos(t).lastCol then 1 else 0) ==> G(StaleWrap(t)).cells[i] == G(t).cells[i])
  {
    hide EscOk;
    OnScreen(t);
    if Pos(t).justMoved {
      var t1 := WithPos(t, Pos(t).(justMoved := false));
      forall i | 0 <= i < |G(t).cells| ensures G(t1).cells[i] == G(t).cells[i] &&
        G(MarkWrap(t1, Pos(t).y, false)).cells[i] ==
          if i == Pos(t).y * G(t).width + G(t).width - 1 then G(t1).cells[i].(wrap := false) else G(t1).cells[i]
      {
        MarkOne(t1, Pos(t).y, false, i);
      }
    }
  }

  /** There is a row below to go on in. */
  lemma RoomBelow(t: Term)
    requires Safe(t) && Pos(t).lastCol && NextCell(t) < Limit(t)
    ensures Pos(t).y < LastRow(t) && Pos(t).y != S(t).scBot && Pos(t).y != G(t).height - 1
  {
    hide EscOk;
    OnScreen(t);
    Place(t);
    if Pos(t).y >= LastRow(t) { MulMono(LastRow(t) + 1, Pos(t).y + 1, G(t).width); }
  }

  /** Taking the wrap marks the row the cursor is about to leave. */
  lemma WrapMarks(t: Term)
    requires Safe(t) && Pos(t).lastCol
    ensures var u := LcfStart(t);
      SameStep(t, u) && forall i :: 0 <= i < |G(t).cells| ==>
        var c := G(u).cells[i];
        SameLook(c, G(t).cells[i]) && c.wrap == (G(t).cells[i].wrap || i == NextCell(t) - 1)
  {
    hide EscOk, InvalidateCursor, MarkWrap;
    OnScreen(t);
    Place(t);
    var t1 := WithPos(t, Pos(t).(lastCol := false, justMoved := false));
    var t2 := MarkWrap(t1, Pos(t).y, true);
    assert G(t1) == G(t);
    forall i | 0 <= i < |G(t).cells| ensures
      G(t2).cells[i] == if i == NextCell(t) - 1 then G(t).cells[i].(wrap := true) else G(t).cells[i]
    {
      MarkOne(t1, Pos(t).y, true, i);
    }
    InvalidateSame(t2);
    assert LcfStart(t) == InvalidateCursor(t2);
  }

  lemma RowMoves(t: Term)
    requires Safe(t) && !Pos(t).lastCol && Pos(t).y != G(t).height - 1
    ensures var u := NextRow(t);
      SameStep(t, u) && Pos(u) == Pos(t).(y := Pos(t).y + 1) && SameButDirty(G(t).cells, G(u).cells)
  {
    hide EscOk, InvalidateCursor, SameButDirty;
    var t1 := WithPos(t, Pos(t).(y := Pos(t).y + 1));
    OnScreen(t);
    InvalidateSame(t1);
  }

  /** Inside the region the rest of a wrap is a move to the next row. */
  lemma WrapMoves(t: Term, accel: bool)
    requires Safe(t) && !Pos(t).lastCol && Pos(t).y != S(t).scBot && Pos(t).y != G(t).height - 1
    ensures var u := LcfRest(t, accel);
      SameStep(t, u) && Pos(u).x == 0 && Pos(u).y == Pos(t).y + 1 && !Pos(u).lastCol &&
      SameButDirty(G(t).cells, G(u).cells)
  {
    hide EscOk, NextRow, ScrollUp, SameButDirty;
    var t1 := WithPos(t, Pos(t).(x := 0));
    assert G(t1) == G(t);
    RowMoves(t1);
  }

  /** A pending wrap with room below only moves the cursor and marks the row it leaves. */
  lemma WrapArrives(t: Term, accel: bool)
    requires Safe(t) && Pos(t).lastCol && NextCell(t) < Limit(t)
    ensures var u := LcfDo(t, accel);
      Safe(u) && SameStep(t, u) && !Pos(u).lastCol && NextCell(u) == NextCell(t) && Pos(u).y == Pos(t).y + 1
    ensures forall i :: 0 <= i < |G(t).cells| ==>
      var c := G(LcfDo(t, accel)).cells[i];
      SameLook(c, G(t).cells[i]) && c.wrap == (G(t).cells[i].wrap || i == NextCell(t) - 1)
  {
    hide EscOk, Safe, LcfStart, LcfRest;
    OnScreen(t);
    RoomBelow(t);
    Place(t);
    WrapMarks(t);
    WrapMoves(LcfStart(t), accel);
  }

  lemma Arrives(t: Term, accel: bool)
    requires Safe(t) && NextCell(t) < Limit(t)
    ensures Arrived(t, LcfDo(StaleWrap(t), accel))
  {
    hide EscOk, StaleWrap, LcfRest, LcfStart;
    OnScreen(t);
    StaleArrives(t);
    var t1 := StaleWrap(t);
    if Pos(t).lastCol { RoomBelow(t); WrapArrives(t1, accel); }
  }

  /** The character replaces the cursor's cell. */
  lemma Writes(u: Term, ch: nat, i: nat)
    requires Safe(u) && !u.modes.insert && !Pos(u).lastCol && i < |G(u).cells|
    ensures var v := WriteHere(u, ch); var c := G(v).cells[i];
      if i == NextCell(u) then SameLook(c, S(u).attr.(ch := StoredChar(ch))) else c == G(u).cells[i]
  {
    hide EscOk, Row, Col;
    OnScreen(u);
    Place(u);
    InLine(i, G(u).width, Pos(u).y);
  }

  /** One step on: the cell just written keeps its look and is not marked as going on. */
  ghost predicate Advanced(v: Term, r: Term) {
    Safe(r) && SameStep(v, r) && NextCell(r) == NextCell(v) + 1 && Pos(r).y == Pos(v).y &&
    (!Pos(r).lastCol ==> Pos(r).x > 0) &&
    forall i :: 0 <= i < |G(v).cells| ==>
      var c := G(r).cells[i];
      SameLook(c, G(v).cells[i]) && (i < NextCell(v) ==> c.wrap == G(v).cells[i].wrap) &&
      (i == NextCell(v) && Pos(v).x == G(v).width - 1 ==> !c.wrap)
  }

  /** In the last column the cursor waits, its row not marked as going on. */
  lemma Waits(v: Term)
    requires Safe(v) && v.modes.wrap && !Pos(v).lastCol && Pos(v).x == G(v).width - 1
    ensures Advanced(v, Wait(v))
  {
    hide EscOk, MarkWrap;
    OnScreen(v);
    Place(v);
    var t1 := WithPos(v, Pos(v).(lastCol := true));
    assert G(t1) == G(v);
    forall i | 0 <= i < |G(v).cells| ensures
      G(MarkWrap(t1, Pos(v).y, false)).cells[i] ==
        if i == NextCell(v) then G(v).cells[i].(wrap := false) else G(v).cells[i]
    {
      MarkOne(t1, Pos(v).y, false, i);
    }
  }

  /** Elsewhere it takes one step to the right. */
  lemma Steps(v: Term)
    requires Safe(v) && !Pos(v).lastCol && Pos(v).x != G(v).width - 1
    ensures Pos(v).x + 1 < G(v).width && 0 <= Pos(v).x && 0 <= Pos(v).y < G(v).height
    ensures Advanced(v, MoveTo(v, Pos(v).x + 1, Pos(v).y))
  {
    hide EscOk, Safe, MoveTo;
    OnScreen(v);
    MoveSame(v, Pos(v).x + 1, Pos(v).y);
  }

  /** The cursor steps on, or waits. */
  lemma Advances(v: Term)
    requires Safe(v) && v.modes.wrap && !Pos(v).lastCol
    ensures Advanced(v, Advance(v))
  {
    hide EscOk, Safe, MoveTo, Wait, Advanced, Untouched;
    if Pos(v).x != G(v).width - 1 { Steps(v); } else { Waits(v); }
  }

  // ---- text -------------------------------------------------------------------------

  /** Typing does not change where text must stop. */
  lemma SameRoom(t: Term, r: Term, text: seq<nat>)
    requires Typed(t, r, text)
    ensures LastRow(r) == LastRow(t) && Limit(r) == Limit(t)
  {
    hide EscOk, Safe, TypedCell;
  }

  lemma TranslateOk(t: Term, cp: nat)
    requires Printable(cp)
    ensures Translate(t, cp) != 0x7f
  {
  }

  /** One cell through the three stages of writing a character. */
  lemma OneCell(t: Term, r: Term, u: Term, v: Term, q: Term, text: seq<nat>, cp: nat, i: nat)
    requires Typed(t, r, text) && Arrived(r, u) && SameStep(r, v) && SameStep(r, q) && i < |G(t).cells|
    requires var c := G(v).cells[i];
      if i == NextCell(u) then SameLook(c, S(u).attr.(ch := StoredChar(Translate(r, cp)))) else c == G(u).cells[i]
    requires var c := G(q).cells[i];
      SameLook(c, G(v).cells[i]) && (i < NextCell(u) ==> c.wrap == G(v).cells[i].wrap) &&
      (i == NextCell(u) && Pos(u).x == G(u).width - 1 ==> !c.wrap)
    ensures TypedCell(t, q, text + [cp], i)
  {
    hide EscOk, Safe, Row, Col;
    assert TypedCell(t, r, text, i);
    assert ArrivedCell(r, G(u).cells[i], i);
    if i == NextCell(u) {
      OnScreen(u);
      RowColOf(Pos(u).x, Pos(u).y, G(u).width);
    } else if i == NextCell(r) - 1 && text != [] && !Pos(r).lastCol {
      OnScreen(r);
      Place(r);
      RowColOf(Pos(r).x - 1, Pos(r).y, G(r).width);
    }
  }

  /** One more character, put through the whole of character output. */
  lemma TypeOne(t: Term, r: Term, text: seq<nat>, cp: nat, accel: bool)
    requires Typed(t, r, text) && NextCell(r) < Limit(t) && Printable(cp) && t.modes.wrap && !t.modes.insert
    ensures Typed(t, PutChar(r, cp, accel), text + [cp]) && PutChar(r, cp, accel).rdcp == r.rdcp
  {
    hide EscOk, Safe, StaleWrap, LcfDo, WriteHere, Advance, Translate;
    SameRoom(t, r, text);
    Arrives(r, accel);
    var u := LcfDo(StaleWrap(r), accel);
    var ch := Translate(r, cp);
    var v := WriteHere(u, ch);
    var q := Advance(v);
    TranslateOk(r, cp);
    Advances(v);
    forall i | 0 <= i < |G(t).cells| ensures TypedCell(t, q, text + [cp], i) {
      Writes(u, ch, i);
      OneCell(t, r, u, v, q, text, cp, i);
    }
  }

  /** Outside escape sequences a printable character is simply written. */
  lemma GroundPuts(r: Term, cp: nat, env: Env)
    requires Safe(r) && r.esc.state == Ground && Printable(cp)
    ensures ProcessChar(r, cp, env) == PutChar(r, cp, env.accel)
  {
    hide EscOk, Safe, PutChar;
  }

  lemma TypedNothing(t: Term)
    requires Safe(t)
    ensures Typed(t, t, [])
  {
    hide EscOk;
    OnScreen(t);
    Place(t);
    MulMono(Pos(t).y + 1, LastRow(t) + 1, G(t).width);
  }

  /** The decoder's word is no part of what was typed. */
  lemma WordApart(t: Term, r: Term, text: seq<nat>, w: nat)
    requires Typed(t, r, text) && Utf8.Packed(w)
    ensures Typed(t, r.(rdcp := w), text)
  {
    hide EscOk, Glyph, Utf8.Packed;
    var q := r.(rdcp := w);
    forall i | 0 <= i < |G(t).cells| ensures TypedCell(t, q, text, i) { assert TypedCell(t, r, text, i); }
  }

  lemma TypedSafe(t: Term, r: Term, text: seq<nat>)
    requires Typed(t, r, text)
    ensures Safe(t) && Safe(r) && Utf8.Packed(r.rdcp) && NextCell(r) == NextCell(t) + |text|
  {
    hide EscOk, TypedCell;
  }

  /** One byte: the character it completes, if any, gets typed. */
  lemma TypeByte(t: Term, r: Term, text: seq<nat>, b: Utf8.Byte, env: Env)
    requires Typed(t, r, text) && t.modes.wrap && !t.modes.insert && t.esc.state == Ground
    requires var w := Utf8.Consume(r.rdcp, b);
      !Utf8.Rejected(w) && (Utf8.ValidCp(w) ==> Printable(w) && NextCell(r) < Limit(t))
    ensures var w := Utf8.Consume(r.rdcp, b);
      var u := ReadByte(r, b, env);
      Typed(t, u, text + if Utf8.ValidCp(w) then [w] else []) && u.rdcp == w
  {
    hide EscOk, TypedCell, ProcessChar, PutC, PutChar, Utf8.Packed, Utf8.Consume;
    var w := Utf8.Consume(r.rdcp, b);
    var r1 := r.(rdcp := w);
    Utf8.ConsumePacked(r.rdcp, b);
    WordApart(t, r, text, w);
    if Utf8.ValidCp(w) {
      GroundPuts(r1, w, env);
      TypeOne(t, r1, text, w, env.accel);
    } else {
      assert text + [] == text;
    }
  }

  /** Byte after byte: what the decoder emits is what gets typed. */
  lemma {:induction false} TypeBytes(t: Term, r: Term, text: seq<nat>, bytes: seq<Utf8.Byte>, envs: seq<Env>)
    requires Typed(t, r, text) && t.modes.wrap && !t.modes.insert && t.esc.state == Ground && |envs| == |bytes|
    requires var rd := Utf8.Read(r.rdcp, bytes);
      !rd.bad && (forall i :: 0 <= i < |rd.cps| ==> Printable(rd.cps[i])) && NextCell(r) + |rd.cps| <= Limit(t)
    ensures Typed(t, ReadAll(r, bytes, envs), text + Utf8.Read(r.rdcp, bytes).cps)
    decreases |bytes|
  {
    hide EscOk, Safe, Typed, ReadByte, Utf8.Packed, Utf8.Consume;
    TypedSafe(t, r, text);
    if bytes == [] {
      assert text + [] == text;
    } else {
      var w := Utf8.Consume(r.rdcp, bytes[0]);
      var one := if Utf8.ValidCp(w) then [w] else [];
      Utf8.ConsumePacked(r.rdcp, bytes[0]);
      var rest := Utf8.Read(w, bytes[1..]).cps;
      var cps := Utf8.Read(r.rdcp, bytes).cps;
      assert cps == one + rest;
      assert one != [] ==> cps[0] == w;
      forall i | 0 <= i < |rest| ensures Printable(rest[i]) { assert cps[|one| + i] == rest[i]; }
      TypeByte(t, r, text, bytes[0], envs[0]);
      var u := ReadByte(r, bytes[0], envs[0]);
      TypedSafe(t, u, text + one);
      TypeBytes(t, u, text + one, bytes[1..], envs[1..]);
      assert text + one + rest == text + cps;
    }
  }

  /** The end-to-end law of plain text: its UTF-8 bytes, in any environment, put its characters
      into consecutive cells, with the wrap marks that say where the line goes on. */
  lemma TextShown(t: Term, text: seq<nat>, envs: seq<Env>)
    requires Safe(t) && t.esc.state == Ground && Utf8.AtBoundary(t.rdcp) && t.modes.wrap && !t.modes.insert
    requires forall i :: 0 <= i < |text| ==> Utf8.ValidCp(text[i]) && Printable(text[i])
    requires NextCell(t) + |text| <= Limit(t) && |envs| == |Utf8.EncodeAll(text)|
    ensures Typed(t, ReadAll(t, Utf8.EncodeAll(text), envs), text)
  {
    hide EscOk, Typed, ReadByte, Utf8.Packed, Utf8.AtBoundary, Utf8.Encode, Utf8.ValidCp, Utf8.Consume;
    assert Utf8.Packed(t.rdcp);
    TypedNothing(t);
    Utf8.ReadEncoded(t.rdcp, text);
    TypeBytes(t, t, [], Utf8.EncodeAll(text), envs);
    assert [] + text == text;
  }

  /** A byte that cannot go on shows the replacement character. */
  lemma MalformedShown(t: Term, b: Utf8.Byte, env: Env)
    requires Safe(t) && t.esc.state == Ground && t.modes.wrap && !t.modes.insert && NextCell(t) < Limit(t)
    requires Utf8.Rejected(Utf8.Consume(t.rdcp, b))
    ensures Typed(t, ReadByte(t, b, env), [Utf8.REPLACEMENT])
  {
    hide EscOk, TypedCell, PutChar, Utf8.Packed, Utf8.Consume;
    var w := Utf8.Consume(t.rdcp, b);
    Utf8.ConsumePacked(t.rdcp, b);
    TypedNothing(t);
    WordApart(t, t, [], w);
    assert !Utf8.ValidCp(w);
    TypeOne(t, t.(rdcp := w), [], Utf8.REPLACEMENT, env.accel);
    assert [] + [Utf8.REPLACEMENT] == [Utf8.REPLACEMENT];
  }

  /** The substitute character shows a question mark. */
  lemma SubstituteShown(t: Term, b: Utf8.Byte, env: Env)
    requires Safe(t) && t.esc.state == Ground && t.modes.wrap && !t.modes.insert && NextCell(t) < Limit(t)
    requires Utf8.AtBoundary(t.rdcp) && b == 0x1a
    ensures Typed(t, ReadByte(t, b, env), ['?' as int])
  {
    hide EscOk, TypedCell, PutChar, Utf8.Packed, Utf8.AtBoundary;
    Utf8.LeadPacked(t.rdcp, b);
    TypedNothing(t);
    WordApart(t, t, [], b);
    TypeOne(t, t.(rdcp := b), [], '?' as int, env.accel);
    assert [] + ['?' as int] == ['?' as int];
  }

  // ---- resizing ---------------------------------------------------------------------

  /** Cells that do not end a line flow on one after the other. */
  lemma {:induction false} FlowOpen(s: seq<Cell>, w: nat, nw: nat, a: nat)
    requires w > 0 && nw > 0 && a <= |s| && forall j :: 0 <= j < a ==> !Relayout.LineEnds(s, w, j)
    ensures Relayout.Flow(s, w, nw, a) == Relayout.Open(s[..a])
    decreases a
  {
    hide Relayout.LineEnds;
    if a > 0 {
      FlowOpen(s, w, nw, a - 1);
      assert s[..a] == s[..a - 1] + [s[a - 1]];
      Relayout.OpenOne(s[..a - 1], s[a - 1]);
    }
  }

  /** Text typed from the top left corner stays in reading order at every new size. */
  lemma TextRelaid(t: Term, r: Term, text: seq<nat>, nw: nat, nh: nat, i: nat)
    requires Typed(t, r, text) && NextCell(t) == 0 && nw > 0 && nh > 0 && Live(G(r)) && i < |text|
    requires i < |Relayout.Relaid(G(r), nw, nh).cells|
    ensures SameLook(Relayout.Relaid(G(r), nw, nh).cells[i], Glyph(t, text[i]))
  {
    hide EscOk, Safe, Glyph, TypedCell, Row, Col;
    var s, w := G(r).cells, G(r).width;
    TextFits(t, r, text);
    TextFlows(t, r, text, nw);
    Relayout.FlowPrefix(s, w, nw, |text|, |s|);
    Relayout.FlowWhole(G(r), nw);
    var flow := Relayout.Flow(s, w, nw, |s|);
    assert SameLook(flow[i], s[i]);
    hide Relayout.LineEnds, Relayout.Flow, Relayout.PaddedAll, Relayout.Joined, SameSetting;
    CellLooks(t, r, text, i);
  }

  lemma CellLooks(t: Term, r: Term, text: seq<nat>, i: nat)
    requires Typed(t, r, text) && NextCell(t) == 0 && i < |text| && i < |G(t).cells|
    ensures SameLook(G(r).cells[i], Glyph(t, text[i]))
  {
    hide EscOk, Safe, Glyph, Row, Col;
    assert TypedCell(t, r, text, i);
  }

  /** The typed cells are one line without a break. */
  lemma TextFlows(t: Term, r: Term, text: seq<nat>, nw: nat)
    requires Typed(t, r, text) && NextCell(t) == 0 && nw > 0 && Live(G(r)) && 0 < |text| <= |G(r).cells|
    ensures var f := Relayout.Flow(G(r).cells, G(r).width, nw, |text|);
      |f| >= |text| && forall i :: 0 <= i < |text| ==> SameLook(f[i], G(r).cells[i])
  {
    hide EscOk, Safe, Glyph, Row, Col, Relayout.Flow;
    var s, w, n := G(r).cells, G(r).width, |text|;
    forall j | 0 <= j < n - 1 ensures !Relayout.LineEnds(s, w, j) {
      assert TypedCell(t, r, text, j);
    }
    FlowOpen(s, w, nw, n - 1);
    Relayout.FlowStep(s, w, nw, n - 1);
    hide TypedCell, Relayout.LineEnds, Relayout.Slack;
  }

  lemma TextFits(t: Term, r: Term, text: seq<nat>)
    requires Typed(t, r, text)
    ensures NextCell(t) + |text| <= |G(t).cells|
  {
    hide EscOk, TypedCell;
    OnScreen(t);
    MulMono(LastRow(t) + 1, G(t).height, G(t).width);
  }
}
