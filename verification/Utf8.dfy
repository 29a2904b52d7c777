/** The UTF-8 decoder, an automaton packed into one 32-bit word (state in the top byte,
    partial code point below), and the encoder; RFC 3629. */
module Utf8 {

  type Byte = b: int | 0 <= b < 256

  const TOP := 0x100_0000
  const REJECT := 12
  const REPLACEMENT := 0xfffd

  predicate ValidCp(cp: nat) { cp < 0xd800 || 0xdfff < cp <= 0x10ffff }

  /** The first 256 table entries: a byte's character class. */
  function Class(b: Byte): (c: nat)
    ensures c < 12
  {
    if b < 0x80 then 0 else if b < 0x90 then 1 else if b < 0xa0 then 9 else if b < 0xc0 then 7
    else if b < 0xc2 then 8 else if b < 0xe0 then 2 else if b == 0xe0 then 10 else if b == 0xed then 4
    else if b < 0xf0 then 3 else if b == 0xf0 then 11 else if b < 0xf4 then 6 else if b == 0xf4 then 5 else 8
  }

  /** The rest of the table: twelve entries for each of the nine states. */
  function Next(state: nat, c: nat): nat {
    if state == 0 then
      if c == 0 then 0 else if c == 2 then 24 else if c == 3 then 36 else if c == 4 then 60 else if c == 5 then 96
      else if c == 6 then 84 else if c == 10 then 48 else if c == 11 then 72 else REJECT
    else if state == 24 && c in {1, 7, 9} then 0
    else if state == 36 && c in {1, 7, 9} then 24
    else if state == 48 && c == 7 then 24
    else if state == 60 && c in {1, 9} then 24
    else if state == 72 && c in {7, 9} then 36
    else if state == 84 && c in {1, 7, 9} then 36
    else if state == 96 && c == 1 then 36
    else REJECT
  }

  function State(cp: nat): nat { cp / TOP }

  /** The packed words the decoder can hold; the partial value never reaches the state byte. */
  predicate Packed(cp: nat) {
    State(cp) == REJECT || LowOk(State(cp), cp % TOP)
  }

  /** `(0xff >> class) & byte`. */
  function Lead(c: nat, b: Byte): nat
    requires c < 12
  {
    match c
    case 0 => b
    case 1 => b % 128
    case 2 => b % 64
    case 3 => b % 32
    case 4 => b % 16
    case 5 => b % 8
    case 6 => b % 4
    case 7 => b % 2
    case _ => 0
  }

  /** One byte through the automaton; a rejection is `REJECT` in the state byte. */
  function Consume(cp: nat, b: Byte): nat
    requires Packed(cp)
  {
    var state := if State(cp) == REJECT then 0 else State(cp);
    var c := Class(b);
    var v := if state != 0 then b % 64 + cp % TOP * 64 else Lead(c, b);
    var next := Next(state, c);
    if next == REJECT then REJECT * TOP
    else if next != 0 then v + next * TOP
    else if ValidCp(v) then v else REJECT * TOP
  }

  lemma Unpack(v: nat, state: nat)
    requires v < TOP
    ensures State(v + state * TOP) == state && (v + state * TOP) % TOP == v
  {
  }

  /** A lead byte: nothing is carried over from the word before it. */
  lemma LeadPacked(cp: nat, b: Byte)
    requires Packed(cp) && AtBoundary(cp)
    ensures Packed(Consume(cp, b))
    ensures Consume(cp, b) == var c := Class(b); var n := Next(0, c);
      if n == REJECT then REJECT * TOP else Lead(c, b) + n * TOP
  {
    Unpack(Lead(Class(b), b), Next(0, Class(b)));
    Unpack(0, REJECT);
  }

  /** A continuation byte: six more bits; a sequence that completes is always a valid code point. */
  lemma TailPacked(cp: nat, b: Byte)
    requires Packed(cp) && !AtBoundary(cp)
    ensures Packed(Consume(cp, b))
    ensures Consume(cp, b) == var n := Next(State(cp), Class(b));
      if n == REJECT then REJECT * TOP else b % 64 + cp % TOP * 64 + n * TOP
  {
    hide Lead;
    var low, n := cp % TOP, Next(State(cp), Class(b));
    Unpack(0, REJECT);
    if n != REJECT {
      TailBounds(State(cp), low, b);
      Unpack(b % 64 + low * 64, n);
    }
  }

  /** How far the partial value can grow in each state. */
  predicate LowOk(state: nat, low: nat) {
    match state
    case 0 => ValidCp(low)
    case 24 => 0x2 <= low <= 0x1f || 0x20 <= low < 0x360 || 0x380 <= low < 0x4400
    case 36 => 0x1 <= low <= 0xc || 0xe <= low < 0x110
    case 48 => low == 0
    case 60 => low == 0xd
    case 72 => low == 0
    case 84 => 1 <= low <= 3
    case 96 => low == 4
    case _ => false
  }

  lemma TailBounds(state: nat, low: nat, b: Byte)
    requires LowOk(state, low) && state != 0 && Next(state, Class(b)) != REJECT
    ensures LowOk(Next(state, Class(b)), b % 64 + low * 64) && b % 64 + low * 64 < TOP
    ensures 0x80 <= b < 0xc0 && b == 0x80 + b % 64
  {
  }

  predicate Rejected(cp: nat) { State(cp) == REJECT }

  lemma ConsumePacked(cp: nat, b: Byte)
    requires Packed(cp)
    ensures Packed(Consume(cp, b))
  {
    hide Packed, Consume;
    if AtBoundary(cp) { LeadPacked(cp, b); } else { TailPacked(cp, b); }
  }

  /** What a byte string makes the reader see: code points in order, the word left over, and
      whether any byte was rejected. */
  datatype Reading = Reading(cps: seq<nat>, word: nat, bad: bool)

  function Read(word: nat, bytes: seq<Byte>): (r: Reading)
    requires Packed(word)
    ensures Packed(r.word)
    decreases |bytes|
  {
    if bytes == [] then Reading([], word, false)
    else
      ConsumePacked(word, bytes[0]);
      var w := Consume(word, bytes[0]);
      var rest := Read(w, bytes[1..]);
      Reading((if ValidCp(w) then [w] else []) + rest.cps, rest.word, Rejected(w) || rest.bad)
  }

  function Encode(code: nat): (bytes: seq<Byte>)
    ensures 1 <= |bytes| <= 4
  {
    var cp := if ValidCp(code) then code else REPLACEMENT;
    if cp <= 0x7f then [cp]
    else if cp <= 0x7ff then [0xc0 + cp / 64, 0x80 + cp % 64]
    else if cp <= 0xffff then [0xe0 + cp / 4096, 0x80 + cp / 64 % 64, 0x80 + cp % 64]
    else [0xf0 + cp / 262144, 0x80 + cp / 4096 % 64, 0x80 + cp / 64 % 64, 0x80 + cp % 64]
  }

  function EncodeAll(cps: seq<nat>): seq<Byte> {
    if cps == [] then [] else Encode(cps[0]) + EncodeAll(cps[1..])
  }

  /** The decoder stands between two characters. */
  predicate AtBoundary(word: nat) { State(word) == 0 || State(word) == REJECT }

  // the scalar value spelled by two, three and four bytes
  function Bits2(a: int, b: int): int { (a - 0xc0) * 64 + (b - 0x80) }
  function Bits3(a: int, b: int, c: int): int { (a - 0xe0) * 4096 + (b - 0x80) * 64 + (c - 0x80) }
  function Bits4(a: int, b: int, c: int, d: int): int {
    (a - 0xf0) * 262144 + (b - 0x80) * 4096 + (c - 0x80) * 64 + (d - 0x80)
  }

  predicate Tail(b: int) { 0x80 <= b <= 0xbf }

  /** The second bytes that neither overlong forms nor surrogates start with. */
  predicate Second(b0: int, b1: int) {
    Tail(b1) && (b0 == 0xe0 ==> b1 >= 0xa0) && (b0 == 0xed ==> b1 <= 0x9f) &&
    (b0 == 0xf0 ==> b1 >= 0x90) && (b0 == 0xf4 ==> b1 <= 0x8f)
  }

  lemma Encode2(b0: Byte, b1: Byte)
    requires 0xc2 <= b0 <= 0xdf && Tail(b1)
    ensures 0x80 <= Bits2(b0, b1) <= 0x7ff && Encode(Bits2(b0, b1)) == [b0, b1]
  {
  }

  lemma Encode3(b0: Byte, b1: Byte, b2: Byte)
    requires 0xe0 <= b0 <= 0xef && Second(b0, b1) && Tail(b2)
    ensures 0x800 <= Bits3(b0, b1, b2) <= 0xffff && ValidCp(Bits3(b0, b1, b2))
    ensures Encode(Bits3(b0, b1, b2)) == [b0, b1, b2]
  {
    var hi := (b0 - 0xe0) as int * 64 + (b1 - 0x80);
    assert Bits3(b0, b1, b2) == hi * 64 + (b2 - 0x80);
    assert Bits3(b0, b1, b2) / 64 == hi;
  }

  lemma Encode4(b0: Byte, b1: Byte, b2: Byte, b3: Byte)
    requires 0xf0 <= b0 <= 0xf4 && Second(b0, b1) && Tail(b2) && Tail(b3)
    ensures 0x10000 <= Bits4(b0, b1, b2, b3) <= 0x10ffff
    ensures Encode(Bits4(b0, b1, b2, b3)) == [b0, b1, b2, b3]
  {
    var cp := Bits4(b0, b1, b2, b3);
    var q2: nat := (b0 - 0xf0) * 64 + (b1 - 0x80);
    var q1: nat := q2 * 64 + (b2 - 0x80);
    Digits(cp, q1, b3 - 0x80);
    Digits(q1, q2, b2 - 0x80);
    Digits(q2, b0 - 0xf0, b1 - 0x80);
    Quotients(cp);
  }

  lemma Digits(n: nat, q: nat, d: nat)
    requires n == q * 64 + d && d < 64
    ensures n / 64 == q && n % 64 == d
  {
  }

  lemma Quotients(n: nat)
    ensures n / 4096 == n / 64 / 64 && n / 262144 == n / 64 / 64 / 64
  {
  }

  /** What the automaton holds after each byte of a two-byte character. */
  lemma TwoBytes(word: nat, b0: Byte, b1: Byte)
    requires Packed(word) && AtBoundary(word) && 0xc2 <= b0 <= 0xdf && Tail(b1)
    ensures var w1 := Consume(word, b0);
      Packed(w1) && State(w1) == 24 && Consume(w1, b1) == Bits2(b0, b1)
  {
    LeadPacked(word, b0);
    Unpack(b0 - 0xc0, 24);
    TailPacked(Consume(word, b0), b1);
  }

  lemma FirstTwo(word: nat, b0: Byte, b1: Byte)
    requires Packed(word) && AtBoundary(word) && 0xe0 <= b0 <= 0xf4 && Second(b0, b1)
    ensures var w1 := Consume(word, b0);
      var low := if b0 < 0xf0 then (b0 as int - 0xe0) * 64 + (b1 - 0x80) else (b0 as int - 0xf0) * 64 + (b1 - 0x80);
      Packed(w1) && State(w1) in {36, 48, 60, 72, 84, 96} && Packed(Consume(w1, b1)) &&
      0 <= low < TOP && Consume(w1, b1) == low + (if b0 < 0xf0 then 24 else 36) * TOP
  {
    hide Packed, Consume, Lead, Class, Next, LowOk;
    LeadBits(b0, b1);
    LeadPacked(word, b0);
    Unpack(if b0 < 0xf0 then b0 - 0xe0 else b0 - 0xf0, Next(0, Class(b0)));
    TailPacked(Consume(word, b0), b1);
  }

  /** The table entries met by the first two bytes of a longer character. */
  lemma LeadBits(b0: Byte, b1: Byte)
    requires 0xe0 <= b0 <= 0xf4 && Second(b0, b1)
    ensures Lead(Class(b0), b0) == if b0 < 0xf0 then b0 - 0xe0 else b0 - 0xf0
    ensures Next(0, Class(b0)) in {36, 48, 60, 72, 84, 96}
    ensures Next(Next(0, Class(b0)), Class(b1)) == (if b0 < 0xf0 then 24 else 36) && b1 % 64 == b1 - 0x80
  {
  }

  lemma ThreeBytes(word: nat, b0: Byte, b1: Byte, b2: Byte)
    requires Packed(word) && AtBoundary(word) && 0xe0 <= b0 <= 0xef && Second(b0, b1) && Tail(b2)
    ensures var w1 := Consume(word, b0);
      Packed(w1) && State(w1) in {36, 48, 60} &&
      var w2 := Consume(w1, b1);
      Packed(w2) && State(w2) == 24 && Consume(w2, b2) == Bits3(b0, b1, b2)
  {
    hide Packed, Consume;
    FirstTwo(word, b0, b1);
    LeadKind(word, b0);
    var low := (b0 as int - 0xe0) * 64 + (b1 - 0x80);
    Unpack(low, 24);
    TailPacked(Consume(Consume(word, b0), b1), b2);
  }

  lemma FourBytes(word: nat, b0: Byte, b1: Byte, b2: Byte, b3: Byte)
    requires Packed(word) && AtBoundary(word) && 0xf0 <= b0 <= 0xf4 && Second(b0, b1) && Tail(b2) && Tail(b3)
    ensures var w1 := Consume(word, b0);
      Packed(w1) && State(w1) in {72, 84, 96} &&
      var w2 := Consume(w1, b1);
      Packed(w2) && State(w2) == 36 &&
      var w3 := Consume(w2, b2);
      Packed(w3) && State(w3) == 24 && Consume(w3, b3) == Bits4(b0, b1, b2, b3)
  {
    hide Packed, Consume;
    FirstTwo(word, b0, b1);
    LeadKind(word, b0);
    var low := (b0 as int - 0xf0) * 64 + (b1 - 0x80);
    Unpack(low, 36);
    var w2 := Consume(Consume(word, b0), b1);
    TailPacked(w2, b2);
    TailBounds(36, low, b2);
    Unpack(low * 64 + (b2 - 0x80), 24);
    TailPacked(Consume(w2, b2), b3);
  }

  /** The byte ranges of the table in section 4 of RFC 3629. */
  lemma EncodedShape(cp: nat)
    requires ValidCp(cp)
    ensures var e := Encode(cp);
      if cp <= 0x7f then e == [cp]
      else if cp <= 0x7ff then |e| == 2 && 0xc2 <= e[0] <= 0xdf && Tail(e[1]) && cp == Bits2(e[0], e[1])
      else if cp <= 0xffff then
        |e| == 3 && 0xe0 <= e[0] <= 0xef && Second(e[0], e[1]) && Tail(e[2]) && cp == Bits3(e[0], e[1], e[2])
      else
        |e| == 4 && 0xf0 <= e[0] <= 0xf4 && Second(e[0], e[1]) && Tail(e[2]) && Tail(e[3]) &&
        cp == Bits4(e[0], e[1], e[2], e[3])
  {
    hide Bits2, Bits3, Bits4, Second, Tail;
    if cp <= 0x7f {
    } else if cp <= 0x7ff {
      Shape2(cp);
    } else if cp <= 0xffff {
      Shape3(cp);
    } else {
      Shape4(cp);
    }
  }

  lemma Shape2(cp: nat)
    requires 0x80 <= cp <= 0x7ff
    ensures var b0, b1 := 0xc0 + cp / 64, 0x80 + cp % 64; 0xc2 <= b0 <= 0xdf && Tail(b1) && cp == Bits2(b0, b1)
  {
  }

  lemma Shape3(cp: nat)
    requires 0x800 <= cp <= 0xffff && ValidCp(cp)
    ensures var b0, b1, b2 := 0xe0 + cp / 4096, 0x80 + cp / 64 % 64, 0x80 + cp % 64;
      0xe0 <= b0 <= 0xef && Second(b0, b1) && Tail(b2) && cp == Bits3(b0, b1, b2)
  {
    Quotients(cp);
    var q1 := cp / 64;
    assert cp == q1 * 64 + cp % 64 && q1 == q1 / 64 * 64 + q1 % 64;
  }

  lemma Shape4(cp: nat)
    requires 0x10000 <= cp && ValidCp(cp)
    ensures var b0, b1, b2, b3 := 0xf0 + cp / 262144, 0x80 + cp / 4096 % 64, 0x80 + cp / 64 % 64, 0x80 + cp % 64;
      0xf0 <= b0 <= 0xf4 && Second(b0, b1) && Tail(b2) && Tail(b3) && cp == Bits4(b0, b1, b2, b3)
  {
    Quotients(cp);
    var q1 := cp / 64;
    var q2 := q1 / 64;
    assert cp == q1 * 64 + cp % 64 && q1 == q2 * 64 + q1 % 64 && q2 == q2 / 64 * 64 + q2 % 64;
  }

  lemma Accepted(cp: nat)
    requires ValidCp(cp)
    ensures Packed(cp) && AtBoundary(cp) && !Rejected(cp)
  {
  }

  lemma ReadStep(word: nat, b: Byte, tail: seq<Byte>)
    requires Packed(word)
    ensures Packed(Consume(word, b))
    ensures var w := Consume(word, b);
      var rest := Read(w, tail);
      Read(word, [b] + tail) == Reading((if ValidCp(w) then [w] else []) + rest.cps, rest.word, Rejected(w) || rest.bad)
  {
    hide Packed, Consume;
    ConsumePacked(word, b);
    assert ([b] + tail)[1..] == tail;
  }

  /** A word in the middle of a character shows the reader nothing. */
  lemma Silent(w: nat)
    requires State(w) in {24, 36, 48, 60, 72, 84, 96}
    ensures !ValidCp(w) && !Rejected(w) && !AtBoundary(w)
  {
  }

  /** One character's encoding, read from a boundary, yields that character at its last byte. */
  lemma ReadOne(word: nat, cp: nat, tail: seq<Byte>)
    requires Packed(word) && AtBoundary(word) && ValidCp(cp)
    ensures Packed(cp) && AtBoundary(cp)
    ensures var rest := Read(cp, tail);
      Read(word, Encode(cp) + tail) == Reading([cp] + rest.cps, rest.word, rest.bad)
  {
    hide Consume, Encode, Second, Read, LowOk, Packed, AtBoundary;
    EncodedShape(cp);
    Accepted(cp);
    var e := Encode(cp);
    if cp <= 0x7f {
      LeadPacked(word, cp);
      ReadStep(word, cp, tail);
    } else if cp <= 0x7ff {
      TwoBytes(word, e[0], e[1]);
      var w1 := Consume(word, e[0]);
      Silent(w1);
      assert e + tail == [e[0]] + ([e[1]] + tail);
      ReadStep(word, e[0], [e[1]] + tail);
      ReadStep(w1, e[1], tail);
    } else if cp <= 0xffff {
      ThreeBytes(word, e[0], e[1], e[2]);
      var w1 := Consume(word, e[0]);
      var w2 := Consume(w1, e[1]);
      Silent(w1); Silent(w2);
      assert e + tail == [e[0]] + ([e[1]] + ([e[2]] + tail));
      ReadStep(word, e[0], [e[1]] + ([e[2]] + tail));
      ReadStep(w1, e[1], [e[2]] + tail);
      ReadStep(w2, e[2], tail);
    } else {
      FourBytes(word, e[0], e[1], e[2], e[3]);
      var w1 := Consume(word, e[0]);
      var w2 := Consume(w1, e[1]);
      var w3 := Consume(w2, e[2]);
      Silent(w1); Silent(w2); Silent(w3);
      assert e + tail == [e[0]] + ([e[1]] + ([e[2]] + ([e[3]] + tail)));
      ReadStep(word, e[0], [e[1]] + ([e[2]] + ([e[3]] + tail)));
      ReadStep(w1, e[1], [e[2]] + ([e[3]] + tail));
      ReadStep(w2, e[2], [e[3]] + tail);
      ReadStep(w3, e[3], tail);
    }
  }

  /** Completeness: whatever was encoded is what is read, from any boundary state. */
  lemma {:induction false} ReadEncoded(word: nat, cps: seq<nat>)
    requires Packed(word) && AtBoundary(word)
    requires forall i :: 0 <= i < |cps| ==> ValidCp(cps[i])
    ensures var r := Read(word, EncodeAll(cps)); r.cps == cps && !r.bad && AtBoundary(r.word)
    decreases |cps|
  {
    hide Packed, Consume, Encode;
    if cps != [] {
      ReadOne(word, cps[0], EncodeAll(cps[1..]));
      ReadEncoded(cps[0], cps[1..]);
      assert cps == [cps[0]] + cps[1..];
    }
  }

  /** A lead byte that is not rejected commits the decoder to one length. */
  lemma LeadKind(word: nat, b: Byte)
    requires Packed(word) && AtBoundary(word) && (!Rejected(Consume(word, b)) || 0xc2 <= b <= 0xf4)
    ensures var w := Consume(word, b);
      if b < 0x80 then w == b
      else if b < 0xe0 then 0xc2 <= b && State(w) == 24
      else if b < 0xf0 then State(w) == if b == 0xe0 then 48 else if b == 0xed then 60 else 36
      else b <= 0xf4 && State(w) == if b == 0xf0 then 72 else if b == 0xf4 then 96 else 84
  {
    LeadPacked(word, b);
    Unpack(Lead(Class(b), b), Next(0, Class(b)));
    Unpack(0, REJECT);
  }

  /** A continuation byte that is not rejected is one, in the range its state asks for. */
  lemma TailKind(w: nat, b: Byte)
    requires Packed(w) && !AtBoundary(w) && !Rejected(Consume(w, b))
    ensures Tail(b)
    ensures State(w) == 48 ==> b >= 0xa0
    ensures State(w) == 60 ==> b <= 0x9f
    ensures State(w) == 72 ==> b >= 0x90
    ensures State(w) == 96 ==> b <= 0x8f
  {
    TailPacked(w, b);
    Unpack(0, REJECT);
  }

  /** Soundness: bytes read without a rejection, up to a boundary, are exactly the encoding of
      what was read; so nothing overlong, no surrogate and nothing above 10FFFF gets through. */
  lemma {:induction false} ReadSound(word: nat, bytes: seq<Byte>)
    requires Packed(word) && AtBoundary(word)
    requires !Read(word, bytes).bad && AtBoundary(Read(word, bytes).word)
    ensures EncodeAll(Read(word, bytes).cps) == bytes
    ensures forall i :: 0 <= i < |Read(word, bytes).cps| ==> ValidCp(Read(word, bytes).cps[i])
    decreases |bytes|
  {
    hide Packed, Consume, Encode, Read;
    if bytes == [] {
      ReadNothing(word);
    } else {
      var n := SoundFirst(word, bytes);
      var cp := Read(word, bytes).cps[0];
      var rest := bytes[n..];
      assert bytes == Encode(cp) + rest;
      ReadOne(word, cp, rest);
      ReadSound(cp, rest);
      var cps := Read(word, bytes).cps;
      assert cps == [cp] + Read(cp, rest).cps;
      assert cps[1..] == Read(cp, rest).cps;
    }
  }

  lemma ReadNothing(word: nat)
    requires Packed(word)
    ensures Read(word, []) == Reading([], word, false)
  {
  }

  /** The first character of a clean reading and the length of its encoding. */
  lemma SoundFirst(word: nat, bytes: seq<Byte>) returns (n: nat)
    requires Packed(word) && AtBoundary(word) && bytes != []
    requires !Read(word, bytes).bad && AtBoundary(Read(word, bytes).word)
    ensures n <= |bytes|
    ensures var cps := Read(word, bytes).cps;
      cps != [] && ValidCp(cps[0]) && Encode(cps[0]) == bytes[..n] && n > 0
  {
    hide Packed, Consume, Encode, Read, AtBoundary, LowOk;
    var b0 := bytes[0];
    var t1 := bytes[1..];
    assert bytes == [b0] + t1;
    ReadStep(word, b0, t1);
    LeadKind(word, b0);
    var w1 := Consume(word, b0);
    if b0 < 0x80 {
      EncodedShape(b0); Accepted(b0);
      return 1;
    }
    Silent(w1);
    var t2 := NeedMore(w1, t1);
    TailKind(w1, t1[0]);
    var w2 := Consume(w1, t1[0]);
    if b0 < 0xe0 {
      TwoBytes(word, b0, t1[0]);
      Encode2(b0, t1[0]);
      assert bytes[..2] == [b0, t1[0]];
      return 2;
    }
    if b0 < 0xf0 {
      SecondOk(word, b0, t1[0]);
      ThreeBytes(word, b0, t1[0], 0x80);
      Silent(w2);
      var t3 := NeedMore(w2, t2);
      TailKind(w2, t2[0]);
      ThreeBytes(word, b0, t1[0], t2[0]);
      Encode3(b0, t1[0], t2[0]);
      assert bytes[..3] == [b0, t1[0], t2[0]];
      return 3;
    }
    n := SoundFour(word, bytes);
  }

  lemma SecondOk(word: nat, b0: Byte, b1: Byte)
    requires Packed(word) && AtBoundary(word) && 0xe0 <= b0 && !Rejected(Consume(word, b0)) && Packed(Consume(word, b0))
    requires !AtBoundary(Consume(word, b0)) && !Rejected(Consume(Consume(word, b0), b1))
    ensures b0 <= 0xf4 && Second(b0, b1)
  {
    hide Packed, Consume, AtBoundary;
    LeadKind(word, b0);
    TailKind(Consume(word, b0), b1);
  }

  lemma SoundFour(word: nat, bytes: seq<Byte>) returns (n: nat)
    requires Packed(word) && AtBoundary(word) && bytes != [] && 0xf0 <= bytes[0]
    requires !Read(word, bytes).bad && AtBoundary(Read(word, bytes).word)
    ensures n <= |bytes|
    ensures var cps := Read(word, bytes).cps;
      cps != [] && ValidCp(cps[0]) && Encode(cps[0]) == bytes[..n] && n > 0
  {
    hide Packed, Consume, Encode, Read, AtBoundary, LowOk, Second;
    var b0 := bytes[0];
    var t1 := bytes[1..];
    assert bytes == [b0] + t1;
    ReadStep(word, b0, t1);
    LeadKind(word, b0);
    var w1 := Consume(word, b0);
    Silent(w1);
    var t2 := NeedMore(w1, t1);
    SecondOk(word, b0, t1[0]);
    FourBytes(word, b0, t1[0], 0x80, 0x80);
    var w2 := Consume(w1, t1[0]);
    Silent(w2);
    var t3 := NeedMore(w2, t2);
    TailKind(w2, t2[0]);
    FourBytes(word, b0, t1[0], t2[0], 0x80);
    var w3 := Consume(w2, t2[0]);
    Silent(w3);
    var t4 := NeedMore(w3, t3);
    TailKind(w3, t3[0]);
    FourBytes(word, b0, t1[0], t2[0], t3[0]);
    Encode4(b0, t1[0], t2[0], t3[0]);
    assert bytes[..4] == [b0, t1[0], t2[0], t3[0]];
    return 4;
  }

  /** In the middle of a character a reading that ends at a boundary has another byte to come. */
  lemma NeedMore(w: nat, bytes: seq<Byte>) returns (tail: seq<Byte>)
    requires Packed(w) && !AtBoundary(w) && !Read(w, bytes).bad && AtBoundary(Read(w, bytes).word)
    ensures bytes != [] && tail == bytes[1..] && Packed(Consume(w, bytes[0])) && !Rejected(Consume(w, bytes[0]))
    ensures var x := Consume(w, bytes[0]);
      var rest := Read(x, tail);
      Read(w, bytes) == Reading((if ValidCp(x) then [x] else []) + rest.cps, rest.word, rest.bad)
  {
    hide Packed, Consume, AtBoundary;
    if bytes == [] { ReadNothing(w); }
    tail := bytes[1..];
    assert bytes == [bytes[0]] + tail;
    ReadStep(w, bytes[0], tail);
  }
}
