/** The terminal's output buffer: bytes for the child process, delivered in order, in bounded space. */
module OutBuffers {

  const WRITE_BUF_SIZE := 128
  const LIMIT := 0x20_0000
  const MAX_SIZE := 0x20_1000

  type Byte = b: int | 0 <= b < 256

  // ---- the buffer as a value --------------------------------------------------------

  /** What `write` says: bytes taken, try again later, or the other side is gone. */
  datatype Outcome = Wrote(n: nat) | Again | Broken

  datatype Pipe = Pipe(open: bool, alive: bool, size: nat, pending: seq<Byte>)

  ghost predicate PipeOk(p: Pipe) {
    |p.pending| <= p.size <= MAX_SIZE && (!p.open ==> p.size == 0)
  }

  /** A connection just made. */
  function NewPipe(): Pipe { Pipe(true, true, 0, []) }

  function Closed(p: Pipe): Pipe { p.(open := false, size := 0, pending := []) }

  /** The size a buffer grows to: small at first, then whole pages. */
  function Grown(needed: nat): nat {
    if needed <= WRITE_BUF_SIZE then WRITE_BUF_SIZE else (needed / 4096 + 1) * 4096
  }

  predicate Overflows(p: Pipe, len: nat) {
    |p.pending| + len > p.size && (p.size >= LIMIT || LIMIT - p.size < len)
  }

  /** Bytes to send: they join the pending ones, or break the connection when there are too many. */
  function Accept(p: Pipe, data: seq<Byte>): Pipe {
    var p1 :=
      if data == [] || !p.alive || !p.open then p
      else if Overflows(p, |data|) then Closed(p)
      else p.(pending := p.pending + data,
              size := if |p.pending| + |data| > p.size then Grown(|p.pending| + |data|) else p.size);
    if p1.alive then p1 else Closed(p1)
  }

  function Max(a: int, b: int): int { if a > b then a else b }

  function Shrunk(size: nat): nat { Max(WRITE_BUF_SIZE, if size > 4096 then 4096 else size / 2) }

  function Shrink(p: Pipe): Pipe {
    if p.size > WRITE_BUF_SIZE && |p.pending| <= Shrunk(p.size) then p.(size := Shrunk(p.size)) else p
  }

  /** What one write takes from the front. */
  function Taken(p: Pipe, ready: bool, o: Outcome): (t: seq<Byte>)
    ensures t <= p.pending
  {
    if p.pending != [] && ready && o.Wrote? && o.n <= |p.pending| then p.pending[..o.n] else []
  }

  function Deliver(p: Pipe, ready: bool, o: Outcome): Pipe {
    Shrink(
      if p.pending == [] || !ready || o.Again? then p
      else if o.Broken? || o.n == 0 || o.n > |p.pending| then Closed(p)
      else p.(pending := p.pending[o.n..]))
  }

  lemma GrownFits(needed: nat)
    requires needed <= LIMIT
    ensures needed <= Grown(needed) <= MAX_SIZE
  {
  }

  lemma AcceptOk(p: Pipe, data: seq<Byte>)
    requires PipeOk(p)
    ensures PipeOk(Accept(p, data))
  {
    if |p.pending| + |data| <= LIMIT { GrownFits(|p.pending| + |data|); }
  }

  lemma DeliverOk(p: Pipe, ready: bool, o: Outcome)
    requires PipeOk(p)
    ensures PipeOk(Deliver(p, ready, o))
  {
  }

  // ---- runs -------------------------------------------------------------------------

  datatype Event = Send(data: seq<Byte>) | Drain(ready: bool, outcome: Outcome)

  function Step(p: Pipe, e: Event): Pipe {
    match e
    case Send(data) => Accept(p, data)
    case Drain(ready, o) => Deliver(p, ready, o)
  }

  function Run(p: Pipe, es: seq<Event>): Pipe
    decreases |es|
  {
    if es == [] then p else Run(Step(p, es[0]), es[1..])
  }

  /** Everything given to the buffer, in order. */
  function Accepted(es: seq<Event>): seq<Byte>
    decreases |es|
  {
    if es == [] then [] else (if es[0].Send? then es[0].data else []) + Accepted(es[1..])
  }

  /** Everything the child process got, in order. */
  function Delivered(p: Pipe, es: seq<Event>): seq<Byte>
    decreases |es|
  {
    if es == [] then []
    else (if es[0].Drain? then Taken(p, es[0].ready, es[0].outcome) else []) + Delivered(Step(p, es[0]), es[1..])
  }

  /** In any run that does not close the connection, what was delivered and what is pending is what
      was accepted, in order; the buffer never grows beyond its bound. */
  lemma {:induction false} Fifo(p: Pipe, es: seq<Event>)
    requires PipeOk(p) && p.alive && p.open
    ensures PipeOk(Run(p, es))
    ensures Run(p, es).open ==> Delivered(p, es) + Run(p, es).pending == p.pending + Accepted(es)
    decreases |es|
  {
    if es != [] {
      var q := Step(p, es[0]);
      if es[0].Send? { AcceptOk(p, es[0].data); } else { DeliverOk(p, es[0].ready, es[0].outcome); }
      if q.open {
        Fifo(q, es[1..]);
        StepKeeps(p, es[0]);
        var took := if es[0].Drain? then Taken(p, es[0].ready, es[0].outcome) else [];
        var gave := if es[0].Send? then es[0].data else [];
        if Run(q, es[1..]).open {
          Rejoin(took, Delivered(q, es[1..]), Run(q, es[1..]).pending, q.pending, Accepted(es[1..]), p.pending, gave);
        }
      } else {
        ClosedOk(q, es[1..]);
      }
    }
  }

  lemma Rejoin(took: seq<Byte>, later: seq<Byte>, left: seq<Byte>, mid: seq<Byte>, rest: seq<Byte>, first: seq<Byte>,
               gave: seq<Byte>)
    requires later + left == mid + rest && took + mid == first + gave
    ensures (took + later) + left == first + (gave + rest)
  {
    assert (took + later) + left == took + (later + left);
    assert took + (mid + rest) == (took + mid) + rest;
    assert (first + gave) + rest == first + (gave + rest);
  }

  lemma StepKeeps(p: Pipe, e: Event)
    requires p.alive && p.open && Step(p, e).open
    ensures Step(p, e).alive
    ensures (if e.Drain? then Taken(p, e.ready, e.outcome) else []) + Step(p, e).pending ==
      p.pending + (if e.Send? then e.data else [])
  {
  }

  lemma {:induction false} ClosedOk(p: Pipe, es: seq<Event>)
    requires PipeOk(p) && !p.open
    ensures PipeOk(Run(p, es)) && !Run(p, es).open
    decreases |es|
  {
    if es != [] {
      if es[0].Send? { AcceptOk(p, es[0].data); } else { DeliverOk(p, es[0].ready, es[0].outcome); }
      ClosedOk(Step(p, es[0]), es[1..]);
    }
  }

  // ---- when the connection stays up -------------------------------------------------

  /** A send breaks the connection only when the bytes neither fit nor may be made room for. */
  lemma SendStaysOpen(p: Pipe, data: seq<Byte>)
    requires PipeOk(p) && p.alive && p.open
    ensures var q := Step(p, Send(data));
      (q.open <==> |p.pending| + |data| <= p.size || (p.size < LIMIT && |data| <= LIMIT - p.size)) &&
      q.alive && (q.open ==> q.pending == p.pending + data) && (!q.open ==> q.pending == [])
  {
    assert p.pending + [] == p.pending;
  }

  /** A write breaks the connection only when the other side is gone, takes nothing, or takes more than there is. */
  lemma DrainStaysOpen(p: Pipe, ready: bool, o: Outcome)
    requires PipeOk(p) && p.alive && p.open
    ensures var q := Step(p, Drain(ready, o));
      (q.open <==> p.pending == [] || !ready || o.Again? || (o.Wrote? && 0 < o.n <= |p.pending|)) && q.alive
  {
  }

  /** No write fails, and none takes nothing or more than is pending. */
  ghost predicate Healthy(p: Pipe, es: seq<Event>)
    decreases |es|
  {
    es != [] ==>
      (es[0].Drain? && es[0].ready && p.pending != [] ==>
         es[0].outcome.Again? || (es[0].outcome.Wrote? && 0 < es[0].outcome.n <= |p.pending|)) &&
      Healthy(Step(p, es[0]), es[1..])
  }

  /** The buffer is never much larger than what was given to it so far. */
  lemma StepSize(p: Pipe, e: Event, sofar: nat)
    requires PipeOk(p) && p.alive && p.open && p.size <= sofar + 4096 && |p.pending| <= sofar
    ensures var given := if e.Send? then |e.data| else 0;
      Step(p, e).size <= sofar + given + 4096 && |Step(p, e).pending| <= sofar + given
  {
    if e.Send? { GrownLittle(|p.pending| + |e.data|); }
  }

  lemma GrownLittle(needed: nat)
    ensures Grown(needed) <= needed + 4096
  {
  }

  lemma {:induction false} StaysOpen(p: Pipe, es: seq<Event>, sofar: nat)
    requires PipeOk(p) && p.alive && p.open && Healthy(p, es)
    requires p.size <= sofar + 4096 && |p.pending| <= sofar && sofar + |Accepted(es)| + 4096 <= LIMIT
    ensures Run(p, es).open
    decreases |es|
  {
    hide PipeOk, Step;
    if es != [] {
      StepSize(p, es[0], sofar);
      match es[0] {
        case Send(data) => SendStaysOpen(p, data); SendOk(p, data);
        case Drain(ready, o) => DrainStaysOpen(p, ready, o); DrainOk(p, ready, o);
      }
      StaysOpen(Step(p, es[0]), es[1..], sofar + if es[0].Send? then |es[0].data| else 0);
    }
  }

  lemma SendOk(p: Pipe, data: seq<Byte>)
    requires PipeOk(p)
    ensures PipeOk(Step(p, Send(data)))
  {
    AcceptOk(p, data);
  }

  lemma DrainOk(p: Pipe, ready: bool, o: Outcome)
    requires PipeOk(p)
    ensures PipeOk(Step(p, Drain(ready, o)))
  {
    DeliverOk(p, ready, o);
  }

  /** The queue as the terminal uses it: over every run of sends and healthy writes that stays a page
      below the limit, the connection is up at the end, and what was delivered and what is pending is
      exactly what was sent, in order. */
  lemma NothingLost(es: seq<Event>)
    requires Healthy(NewPipe(), es) && |Accepted(es)| + 4096 <= LIMIT
    ensures var p := NewPipe(); Run(p, es).open && Delivered(p, es) + Run(p, es).pending == Accepted(es)
  {
    hide Run, Delivered, Accepted, Healthy, Step;
    var p := NewPipe();
    StaysOpen(p, es, 0);
    Fifo(p, es);
    assert p.pending + Accepted(es) == Accepted(es);
  }

  // ---- the buffer itself ------------------------------------------------------------

  class OutBuffer {
    var isOpen: bool
    var alive: bool
    var buf: array<Byte>
    var used: nat

    ghost predicate Valid()
      reads this, buf
    {
      used <= buf.Length && PipeOk(P())
    }

    ghost function P(): Pipe
      reads this, buf
    {
      Pipe(isOpen, alive, buf.Length, if used <= buf.Length then buf[..used] else [])
    }

    constructor ()
      ensures Valid() && fresh(buf) && P() == NewPipe()
    {
      isOpen, alive, used := true, true, 0;
      buf := new Byte[0];
    }

    method CloseFd()
      modifies this
      ensures Valid() && fresh(buf) && P() == Closed(old(P()))
    {
      isOpen, used := false, 0;
      buf := new Byte[0];
    }

    /** A buffer of another size with the same bytes in it. */
    method Realloc(size: nat)
      requires used <= size && used <= buf.Length
      modifies this`buf
      ensures fresh(buf) && buf.Length == size && buf[..used] == old(buf[..used])
    {
      var n := new Byte[size](_ => 0);
      var k := 0;
      while k < used
        invariant 0 <= k <= used && buf == old(buf) && buf[..] == old(buf[..]) && fresh(n)
        invariant n[..k] == buf[..k]
      {
        n[k] := buf[k];
        k := k + 1;
      }
      buf := n;
    }

    method Append(data: seq<Byte>)
      requires used + |data| <= buf.Length
      modifies this`used, buf
      ensures used == old(used) + |data| && buf[..used] == old(buf[..used]) + data
    {
      ghost var was := buf[..used];
      var k := 0;
      while k < |data|
        invariant 0 <= k <= |data| && used == old(used)
        invariant forall i :: 0 <= i < used + k ==> buf[i] == if i < used then was[i] else data[i - used]
      {
        buf[used + k] := data[k];
        k := k + 1;
      }
      used := used + |data|;
    }

    /** Accepts bytes for the child process, growing the buffer when needed. */
    method WriteRaw(data: seq<Byte>)
      requires Valid()
      modifies this, buf
      ensures Valid() && P() == Accept(old(P()), data)
    {
      AcceptOk(P(), data);
      ghost var p := P();
      if data != [] && alive && isOpen {
        if used + |data| > buf.Length {
          if buf.Length >= LIMIT || LIMIT - buf.Length < |data| {
            CloseFd();
            return;
          }
          GrownFits(used + |data|);
          Realloc(Grown(used + |data|));
        }
        Append(data);
        assert P() == Accept(p, data);
      }
      if !alive { CloseFd(); }
    }

    /** Hands pending bytes to the child process, then gives unused space back. */
    method Write(ready: bool, o: Outcome) returns (took: seq<Byte>)
      requires Valid() && (o.Wrote? ==> o.n <= used)
      modifies this, buf
      ensures Valid() && P() == Deliver(old(P()), ready, o) && took == Taken(old(P()), ready, o)
    {
      ghost var p := P();
      DeliverOk(p, ready, o);
      took := [];
      if used != 0 && ready {
        match o
        case Again =>
        case Broken => CloseFd();
        case Wrote(n) =>
          if n == 0 { CloseFd(); } else {
            took := buf[..n];
            MoveDown(n);
          }
      }
      if buf.Length > WRITE_BUF_SIZE {
        var nsz := Shrunk(buf.Length);
        if used <= nsz { Realloc(nsz); }
      }
    }

    /** Drops the first `n` bytes. */
    method MoveDown(n: nat)
      requires n <= used <= buf.Length
      modifies this`used, buf
      ensures used == old(used) - n && buf[..used] == old(buf[..used])[n..]
    {
      ghost var was := buf[..used];
      var left := used - n;
      var k := 0;
      while k < left
        invariant 0 <= k <= left && used == old(used)
        invariant forall i :: 0 <= i < k ==> buf[i] == was[n + i]
        invariant forall i :: k <= i < used ==> buf[i] == was[i]
      {
        buf[k] := buf[n + k];
        k := k + 1;
      }
      used := left;
    }
  }
}
