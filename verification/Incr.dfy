/** Incremental selection transfer (section 2.7.2 of the ICCCM): a sender and a receiver that meet only
    through one window property and the notifications its changes raise. */
module Incr {

  const MAX_REQ := 4000
  // XGetWindowProperty is asked for a million 32-bit units
  const READ_LIMIT := 4_000_000

  type Byte = b: int | 0 <= b < 256

  /** The property the two sides share. */
  datatype Property = Absent | Marker(size: nat) | Text(bytes: seq<Byte>)

  datatype SendState = Idle | Incr1 | Incr2

  /** The sender's record of one transfer. */
  datatype Track = Track(state: SendState, data: seq<Byte>, offset: nat, chunk: int, maxElements: nat)

  datatype Phase = Waiting | Reading | Done | Failed

  /** The whole system: deletions the sender has not seen yet, new values the receiver has not. */
  datatype System = System(track: Track, prop: Property, deletions: nat, values: nat, phase: Phase, received: seq<Byte>)

  function Min(a: int, b: int): int { if a < b then a else b }

  // ---- the two sides ----------------------------------------------------------------

  function Starting(data: seq<Byte>, limit: nat): Track {
    Track(Incr1, data, 0, Min(limit, |data|), limit)
  }

  predicate TrackOk(t: Track) {
    t.offset <= |t.data| && t.maxElements > 0 &&
    (t.state.Incr1? ==> t.offset == 0 && t.chunk == Min(t.maxElements, |t.data|))
  }

  /** A write in append mode creates a property that is not there. */
  function AppendTo(p: Property, bytes: seq<Byte>): Property {
    if p.Text? then Text(p.bytes + bytes) else Text(bytes)
  }

  /** The first chunk replaces whatever the property held. */
  function Stage1(t: Track): (Track, Property)
    requires TrackOk(t) && t.state.Incr1?
  {
    (t.(state := Incr2, offset := t.chunk), Text(t.data[..t.chunk]))
  }

  /** Each later chunk, and at the end a write of nothing. */
  function Stage2(t: Track, p: Property): (Track, Property)
    requires TrackOk(t) && t.state.Incr2?
  {
    var chunk := Min(t.maxElements, |t.data| - t.offset);
    if chunk <= 0 then (t.(state := Idle, chunk := chunk), AppendTo(p, []))
    else (t.(chunk := chunk, offset := t.offset + chunk), AppendTo(p, t.data[t.offset..t.offset + chunk]))
  }

  function Continued(t: Track, p: Property): (Track, Property)
    requires TrackOk(t)
  {
    match t.state
    case Idle => (t, p)
    case Incr1 => Stage1(t)
    case Incr2 => Stage2(t, p)
  }

  /** What the receiver makes of the property: more text, the end, or something that is no text. */
  datatype Got = More(bytes: seq<Byte>) | End | NotText

  function Read(p: Property): Got {
    match p
    case Text(bytes) => if bytes == [] then End else More(bytes[..Min(|bytes|, READ_LIMIT)])
    case _ => NotText
  }

  /** A read deletes the property, unless it was too long to be read whole. */
  predicate ReadDeletes(p: Property) { p.Text? && |p.bytes| <= READ_LIMIT }

  // ---- the protocol -----------------------------------------------------------------

  datatype Step = TakeMarker | SeeDeletion | SeeValue

  predicate Enabled(s: System, step: Step) {
    match step
    case TakeMarker => s.phase.Waiting? && s.prop.Marker?
    case SeeDeletion => s.deletions > 0
    case SeeValue => s.phase.Reading? && s.values > 0
  }

  function Next(s: System, step: Step): System
    requires Enabled(s, step) && TrackOk(s.track)
  {
    match step
    case TakeMarker => s.(phase := Reading, prop := Absent, deletions := s.deletions + 1)
    case SeeDeletion =>
      // a deletion after the transfer finds no record and is ignored
      if s.track.state.Idle? then s.(deletions := s.deletions - 1)
      else
        var (t, p) := Continued(s.track, s.prop);
        s.(track := t, prop := p, deletions := s.deletions - 1, values := s.values + 1)
    case SeeValue =>
      var gone := ReadDeletes(s.prop);
      var s1 := s.(values := s.values - 1, prop := if gone then Absent else s.prop,
                   deletions := if gone then s.deletions + 1 else s.deletions);
      match Read(s.prop)
      case More(bytes) => s1.(received := s.received + bytes)
      case End => s1.(phase := Done)
      case NotText => s1.(phase := Failed, received := [])
  }

  /** A transfer in chunks of at most `limit` bytes has just been announced. */
  function Announced(data: seq<Byte>, limit: nat): System {
    System(Starting(data, limit), Marker(|data|), 0, 0, Waiting, [])
  }

  function InProperty(p: Property): seq<Byte> { if p.Text? then p.bytes else [] }

  /** One token goes round: marker, deletion seen, value seen, deletion seen, and so on. */
  ghost predicate Inv(s: System, data: seq<Byte>) {
    var t := s.track;
    TrackOk(t) && t.data == data && data != [] && 0 < t.maxElements <= READ_LIMIT &&
    (t.state.Incr1? ==>
      s.received == [] && s.values == 0 &&
      ((s.phase.Waiting? && s.prop.Marker? && s.deletions == 0) ||
       (s.phase.Reading? && s.prop.Absent? && s.deletions == 1))) &&
    (t.state.Incr2? ==>
      s.phase.Reading? && s.received + InProperty(s.prop) + data[t.offset..] == data &&
      ((s.prop.Absent? && s.deletions == 1 && s.values == 0) ||
       (s.prop.Text? && 0 < |s.prop.bytes| <= t.maxElements && s.deletions == 0 && s.values == 1))) &&
    (t.state.Idle? ==>
      s.received == data &&
      ((s.phase.Reading? && s.prop == Text([]) && s.deletions == 0 && s.values == 1) ||
       (s.phase.Done? && s.prop.Absent? && s.deletions <= 1 && s.values == 0)))
  }

  lemma Begins(data: seq<Byte>, limit: nat)
    requires data != [] && 0 < limit <= READ_LIMIT
    ensures Inv(Announced(data, limit), data)
  {
  }

  /** Every step keeps: received, then what is in the property, then what is not sent yet, is the data. */
  lemma StepKeeps(s: System, step: Step, data: seq<Byte>)
    requires Inv(s, data) && Enabled(s, step)
    ensures Inv(Next(s, step), data) && Next(s, step).track.maxElements == s.track.maxElements
  {
    match step
    case TakeMarker =>
    case SeeDeletion => DeletionKeeps(s, data);
    case SeeValue => ValueKeeps(s, data);
  }

  lemma DeletionKeeps(s: System, data: seq<Byte>)
    requires Inv(s, data) && Enabled(s, SeeDeletion)
    ensures Inv(Next(s, SeeDeletion), data) && Next(s, SeeDeletion).track.maxElements == s.track.maxElements
  {
    var t := s.track;
    match t.state
    case Idle =>
    case Incr1 => assert data == data[..t.chunk] + data[t.chunk..];
    case Incr2 =>
      assert s.prop == Absent && s.deletions == 1 && s.values == 0;
      ChunkMoves(s.received, data, t.offset, Min(t.maxElements, |data| - t.offset));
  }

  /** The next chunk leaves what is not sent yet for the property. */
  lemma ChunkMoves(received: seq<Byte>, data: seq<Byte>, offset: nat, n: nat)
    requires offset + n <= |data| && received + [] + data[offset..] == data
    ensures received + data[offset..offset + n] + data[offset + n..] == data
    ensures offset == |data| ==> received == data
  {
    assert data[offset..] == data[offset..offset + n] + data[offset + n..];
  }

  lemma ValueKeeps(s: System, data: seq<Byte>)
    requires Inv(s, data) && Enabled(s, SeeValue)
    ensures Inv(Next(s, SeeValue), data) && Next(s, SeeValue).track.maxElements == s.track.maxElements
  {
    if s.track.state.Incr2? { assert s.prop.bytes[..|s.prop.bytes|] == s.prop.bytes; }
  }

  /** How many steps are left. */
  function Left(s: System): int {
    var rest := |s.track.data| - s.track.offset;
    match s.track.state
    case Incr1 => 2 * rest + 6 + (if s.phase.Waiting? then 1 else 0)
    case Incr2 => 2 * rest + 4 + s.values
    case Idle => if s.phase.Reading? then 2 else s.deletions
  }

  /** Every step brings the end nearer. */
  lemma StepCounts(s: System, step: Step, data: seq<Byte>)
    requires Inv(s, data) && Enabled(s, step)
    ensures 0 <= Left(Next(s, step)) < Left(s)
  {
  }

  /** Only a finished transfer stops, and then the receiver holds exactly the data. */
  lemma StopsWhenDone(s: System, data: seq<Byte>)
    requires Inv(s, data) && forall step :: !Enabled(s, step)
    ensures s.phase.Done? && s.received == data && s.track.state.Idle? && s.prop.Absent?
  {
    assert !Enabled(s, TakeMarker) && !Enabled(s, SeeDeletion) && !Enabled(s, SeeValue);
  }

  ghost predicate Transfer(ss: seq<System>, steps: seq<Step>) {
    |ss| == |steps| + 1 &&
    forall i :: 0 <= i < |steps| ==>
      TrackOk(ss[i].track) && Enabled(ss[i], steps[i]) && ss[i + 1] == Next(ss[i], steps[i])
  }

  lemma {:induction false} TransferInv(ss: seq<System>, steps: seq<Step>, data: seq<Byte>, limit: nat, n: nat)
    requires Transfer(ss, steps) && data != [] && 0 < limit <= READ_LIMIT && ss[0] == Announced(data, limit) &&
      n <= |steps|
    ensures Inv(ss[n], data) && ss[n].track.maxElements == limit && Left(ss[n]) + n <= Left(ss[0])
    decreases n
  {
    if n == 0 {
      Begins(data, limit);
    } else {
      TransferInv(ss, steps, data, limit, n - 1);
      StepKeeps(ss[n - 1], steps[n - 1], data);
      StepCounts(ss[n - 1], steps[n - 1], data);
    }
  }

  /** Every transfer ends, after a bounded number of steps, and one that cannot go on has delivered
      exactly the data, each chunk no larger than a request may be. */
  lemma TransferDelivers(ss: seq<System>, steps: seq<Step>, data: seq<Byte>, limit: nat)
    requires Transfer(ss, steps) && data != [] && 0 < limit <= READ_LIMIT && ss[0] == Announced(data, limit)
    ensures |steps| <= 2 * |data| + 7
    ensures forall i :: 0 <= i < |ss| ==> ss[i].prop.Text? ==> |ss[i].prop.bytes| <= limit
    ensures (forall step :: !Enabled(ss[|steps|], step)) ==> ss[|steps|].phase.Done? && ss[|steps|].received == data
  {
    TransferInv(ss, steps, data, limit, |steps|);
    forall i | 0 <= i < |ss| && ss[i].prop.Text? ensures |ss[i].prop.bytes| <= limit {
      TransferInv(ss, steps, data, limit, i);
    }
    if forall step :: !Enabled(ss[|steps|], step) { StopsWhenDone(ss[|steps|], data); }
  }

  // ---- the code of the two sides ----------------------------------------------------

  class PropertyCell {
    var value: Property

    constructor () { value := Absent; }
  }

  /** The sender's record, advanced each time the property was deleted. */
  class IncrTrack {
    var state: SendState
    const data: seq<Byte>
    var offset: int
    var chunk: int
    const maxElements: int

    ghost function T(): Track
      requires offset >= 0 && maxElements >= 0
      reads this
    {
      Track(state, data, offset, chunk, maxElements)
    }

    ghost predicate Valid()
      reads this
    {
      offset >= 0 && maxElements >= 0 && TrackOk(T())
    }

    constructor (data: seq<Byte>)
      ensures Valid() && T() == Starting(data, MAX_REQ)
    {
      state, this.data, offset, maxElements := Incr1, data, 0, MAX_REQ;
      chunk := Min(MAX_REQ, |data|);
    }

    /** `continue_incr`; the answer says whether the transfer is complete. */
    method Continue(p: PropertyCell) returns (complete: bool)
      requires Valid() && state != Idle
      modifies this, p
      ensures Valid() && (T(), p.value) == Continued(old(T()), old(p.value)) && complete == (state == Idle)
    {
      complete := false;
      if state == Incr1 {
        p.value := Text(data[..chunk]);
        offset := offset + chunk;
        state := Incr2;
      } else {
        chunk := Min(maxElements, |data| - offset);
        if chunk <= 0 {
          p.value := AppendTo(p.value, []);
          state := Idle;
          complete := true;
        } else {
          p.value := AppendTo(p.value, data[offset..offset + chunk]);
          offset := offset + chunk;
        }
      }
    }
  }

  /** The receiver's buffer: grown for each chunk, always followed by a zero byte once filled. */
  class Receiver {
    var buffer: array<Byte>
    var offset: nat

    ghost predicate Valid()
      reads this, buffer
    {
      offset <= buffer.Length
    }

    ghost function Contents(): seq<Byte>
      reads this, buffer
      requires Valid()
    {
      buffer[..offset]
    }

    constructor (alloc: nat)
      ensures Valid() && Contents() == [] && fresh(buffer)
    {
      buffer, offset := new Byte[alloc](_ => 0), 0;
    }

    /** Reads the property and deletes it; the answer says whether more is to come. */
    method GetAppend(p: PropertyCell) returns (more: bool)
      requires Valid()
      modifies this, buffer, p
      ensures Valid() && (buffer == old(buffer) || fresh(buffer))
      ensures p.value == if ReadDeletes(old(p.value)) then Absent else old(p.value)
      ensures more == Read(old(p.value)).More?
      ensures more ==>
        Contents() == old(Contents()) + Read(old(p.value)).bytes && offset < buffer.Length && buffer[offset] == 0
      ensures Read(old(p.value)).End? ==> Contents() == old(Contents())
      ensures Read(old(p.value)).NotText? ==> Contents() == []
    {
      var got := Read(p.value);
      if ReadDeletes(p.value) { p.value := Absent; }
      match got
      case NotText =>
        buffer, offset, more := new Byte[0], 0, false;
      case End => more := false;
      case More(bytes) =>
        Reserve(offset + |bytes| + 1);
        Append(bytes);
        more := true;
    }

    method Reserve(size: nat)
      requires Valid()
      modifies this`buffer
      ensures Valid() && buffer.Length >= size && Contents() == old(Contents()) &&
        (buffer == old(buffer) || fresh(buffer))
    {
      if size > buffer.Length {
        var n := new Byte[size](_ => 0);
        var k := 0;
        while k < offset
          invariant 0 <= k <= offset && buffer == old(buffer) && n[..k] == buffer[..k] && fresh(n)
          invariant buffer[..] == old(buffer[..])
        {
          n[k] := buffer[k];
          k := k + 1;
        }
        buffer := n;
      }
    }

    method Append(bytes: seq<Byte>)
      requires Valid() && offset + |bytes| < buffer.Length
      modifies this`offset, buffer
      ensures Valid() && Contents() == old(Contents()) + bytes && offset < buffer.Length && buffer[offset] == 0
    {
      ghost var was := buffer[..offset];
      var k := 0;
      while k < |bytes|
        invariant 0 <= k <= |bytes| && offset == old(offset) && buffer[..offset + k] == was + bytes[..k]
      {
        buffer[offset + k] := bytes[k];
        k := k + 1;
      }
      offset := offset + |bytes|;
      buffer[offset] := 0;
    }
  }
}
