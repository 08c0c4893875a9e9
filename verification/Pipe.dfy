/**
One direction of a forwarding session: bytes are read from a source socket into a queue and written
from it to a sink socket, with at most one read and one write in flight.

The forwarder has two of these, upstream (client to destination) and downstream (destination to
client).  The four completion handlers are the two below, once for each direction, and scheduling is
`Schedule` once for each direction.
*/
module Pipes {
  import opened Bytes

  const MAX_BUFFER_SIZE: nat := 32 * 1024
  const READ_SIZE: nat := 8 * 1024

  /** What a buffer is to its user: the bytes queued, the size of the memory reserved behind them and
      the size of the part of them on view.  Its operations need what the buffer asserts. */
  datatype Fifo = Fifo(data: seq<byte>, reserved: bool, room: nat, peeked: bool, view: nat) {
    ghost predicate Valid() {
      && (reserved <==> room > 0)
      && (peeked <==> view > 0)
      && view <= |data|
    }

    function Reserve(size: nat): Fifo
      requires !reserved
    {
      this.(reserved := true, room := size)
    }

    function Commit(bytes: seq<byte>): Fifo
      requires reserved && |bytes| <= room
    {
      this.(data := data + bytes, reserved := false, room := 0)
    }

    function Peek(): Fifo
      requires !peeked
    {
      this.(peeked := true, view := |data|)
    }

    function Drain(n: nat): Fifo
      requires peeked && n <= view <= |data|
    {
      this.(data := data[n..], peeked := false, view := 0)
    }
  }

  const EMPTY_FIFO := Fifo([], false, 0, false, 0)

  datatype Pipe = Pipe(
    q: Fifo,
    reading: bool,   // a read from the source is in flight
    writing: bool,   // a write to the sink is in flight
    readable: bool,  // the source has not failed or ended
    writable: bool,  // the sink has not failed or been shut down
    shut: bool,      // the sending side of the sink has been shut down
    cut: bool,       // the receiving side of the source has been shut down
    input: seq<byte>,   // everything read from the source so far
    output: seq<byte>)  // everything written to the sink so far

  const IDLE := Pipe(EMPTY_FIFO, false, false, true, true, false, false, [], [])

  // ---------------------------------------------------------------- the handlers

  // Start a read if there is room and a sink to write to.
  function TryRead(p: Pipe, room: nat): Pipe
    requires !p.reading ==> !p.q.reserved
  {
    if !p.reading && p.readable && p.writable && |p.q.data| < MAX_BUFFER_SIZE
    then p.(q := p.q.Reserve(room), reading := true) else p
  }

  // Start a write if there is anything to write.
  function TryWrite(p: Pipe): Pipe
    requires !p.writing ==> !p.q.peeked
  {
    if !p.writing && p.writable && |p.q.data| > 0
    then p.(q := p.q.Peek(), writing := true) else p
  }

  function Schedule(p: Pipe, room: nat): Pipe
    requires !p.reading ==> !p.q.reserved
    requires !p.writing ==> !p.q.peeked
  {
    TryWrite(TryRead(p, room))
  }

  // The order in which the two are tried does not matter.
  lemma {:induction false} ScheduleOrder(p: Pipe, room: nat)
    requires !p.reading ==> !p.q.reserved
    requires !p.writing ==> !p.q.peeked
    ensures TryRead(TryWrite(p), room) == Schedule(p, room)
  {
  }

  // A read has completed.
  function ReadDone(p: Pipe, failed: bool, data: seq<byte>): Pipe
    requires p.q.reserved && |data| <= p.q.room
  {
    var p1 := p.(reading := false, q := p.q.Commit(data), input := p.input + data);
    if failed then p1.(readable := false, shut := p1.shut || p1.q.data == []) else p1
  }

  // A write has completed.
  function WriteDone(p: Pipe, failed: bool, n: nat): Pipe
    requires p.q.peeked && n <= p.q.view <= |p.q.data|
  {
    var p1 := p.(writing := false, q := p.q.Drain(n), output := p.output + p.q.data[..n]);
    var p2 := if failed then p1.(writable := false, cut := true) else p1;
    if !p2.readable && p2.q.data == [] then p2.(writable := false, shut := true) else p2
  }

  datatype Completion = Read(failed: bool, data: seq<byte>) | Write(failed: bool, n: nat)

  // The environment may complete what is in flight, with any error and any size that fits.
  ghost predicate Legal(p: Pipe, c: Completion) {
    match c
    case Read(_, data) => p.reading && |data| <= p.q.room
    case Write(_, n) => p.writing && n <= p.q.view
  }

  // The flags and the buffer agree, so that nothing is reserved or peeked twice.
  ghost predicate Matched(p: Pipe) {
    p.q.Valid() && (p.reading <==> p.q.reserved) && (p.writing <==> p.q.peeked)
  }

  // ---------------------------------------------------------------- the invariant

  // The size that ReserveAtLeast(size) reserves depends on the blocks at hand.
  ghost predicate LegalRoom(cap: nat, size: nat, room: nat) {
    size <= room < size + cap
  }

  /** The most a buffer can come to hold. */
  ghost function Limit(cap: nat): int {
    MAX_BUFFER_SIZE + READ_SIZE + cap - 2
  }

  /** What holds between any two handlers.  `taken` is what the handshake took off the front of the
      input. */
  ghost predicate Inv(cap: nat, taken: seq<byte>, p: Pipe) {
    // No double use: a flag is set exactly while the buffer has that side handed out.
    && Matched(p)
    && (p.reading ==> p.readable)
    && (p.writing ==> p.writable)
    // Fidelity: nothing lost, duplicated or reordered.
    && p.input == taken + p.output + p.q.data
    // Half-close: the sink is shut down exactly when the source has ended and the queue is empty.
    && (p.shut <==> !p.readable && p.q.data == [])
    // Bounded memory.
    && |p.q.data| + p.q.room <= Limit(cap)
  }

  // Nothing that could be started is waiting.
  ghost predicate Settled(p: Pipe) {
    && (p.writable && p.q.data != [] ==> p.writing)
    && (p.readable && p.writable && |p.q.data| < MAX_BUFFER_SIZE ==> p.reading)
  }

  lemma {:induction false} ScheduleKeeps(cap: nat, taken: seq<byte>, p: Pipe, room: nat)
    requires Inv(cap, taken, p) && LegalRoom(cap, READ_SIZE, room)
    ensures Inv(cap, taken, Schedule(p, room)) && Settled(Schedule(p, room))
    ensures Schedule(p, room).shut == p.shut && Schedule(p, room).output == p.output
  {
  }

  lemma {:induction false} ReadKeeps(cap: nat, taken: seq<byte>, p: Pipe, failed: bool, data: seq<byte>)
    requires Inv(cap, taken, p) && Legal(p, Read(failed, data))
    ensures Inv(cap, taken, ReadDone(p, failed, data))
  {
    assert taken + p.output + (p.q.data + data) == (taken + p.output + p.q.data) + data;
  }

  lemma {:induction false} WriteKeeps(cap: nat, taken: seq<byte>, p: Pipe, failed: bool, n: nat)
    requires Inv(cap, taken, p) && Legal(p, Write(failed, n))
    ensures Inv(cap, taken, WriteDone(p, failed, n))
  {
    assert p.q.data == p.q.data[..n] + p.q.data[n..];
    assert taken + (p.output + p.q.data[..n]) + p.q.data[n..] == taken + p.output + p.q.data;
  }

  function Done(p: Pipe, c: Completion): (r: Pipe)
    requires Matched(p) && Legal(p, c)
    ensures Matched(r)
  {
    match c
    case Read(failed, data) => ReadDone(p, failed, data)
    case Write(failed, n) => WriteDone(p, failed, n)
  }

  lemma {:induction false} DoneKeeps(cap: nat, taken: seq<byte>, p: Pipe, c: Completion)
    requires Inv(cap, taken, p) && Legal(p, c)
    ensures Inv(cap, taken, Done(p, c))
  {
    match c
    case Read(failed, data) => ReadKeeps(cap, taken, p, failed, data);
    case Write(failed, n) => WriteKeeps(cap, taken, p, failed, n);
  }

  // ---------------------------------------------------------------- what the invariant means

  /** No stall: a direction has nothing in flight only if its sink is gone, or its source has ended
      and everything read has been written. */
  lemma {:induction false} NoStall(cap: nat, taken: seq<byte>, p: Pipe)
    requires Inv(cap, taken, p) && Settled(p) && !p.reading && !p.writing
    ensures !p.writable || (!p.readable && p.input == taken + p.output && p.shut)
  {
  }

  /** At the moment the sink is shut down everything read has been written and nothing is in
      flight. */
  lemma {:induction false} ShutMeansDone(cap: nat, taken: seq<byte>, p: Pipe)
    requires Inv(cap, taken, p) && p.shut
    ensures p.input == taken + p.output && !p.reading && !p.writing && p.q.data == []
  {
  }

  /** ... and from then on nothing ever starts again: no completion is possible, and scheduling does
      nothing. */
  lemma {:induction false} ShutIsFinal(cap: nat, taken: seq<byte>, p: Pipe, c: Completion, room: nat)
    requires Inv(cap, taken, p) && p.shut
    ensures !Legal(p, c) && Schedule(p, room) == p
  {
  }

  /** Once its sink is gone a direction writes nothing more; and once its last read has completed, or if
      it has none, it reads nothing more either. */
  lemma {:induction false} SinkGoneIsFinal(cap: nat, taken: seq<byte>, p: Pipe, c: Completion, room: nat)
    requires Inv(cap, taken, p) && !p.writable
    ensures Legal(p, c) ==> p.reading && c.Read? && !Done(p, c).writable && !Done(p, c).reading
    ensures Schedule(p, room) == p
  {
  }

  // ---------------------------------------------------------------- what the completions tell

  ghost predicate ReadFailed(cs: seq<Completion>) {
    exists c :: c in cs && c.Read? && c.failed
  }

  ghost predicate WriteFailed(cs: seq<Completion>) {
    exists c :: c in cs && c.Write? && c.failed
  }

  // What the reads among the completions have delivered.
  ghost function Delivered(cs: seq<Completion>): seq<byte> {
    if cs == [] then []
    else
      var c := cs[|cs| - 1];
      Delivered(cs[..|cs| - 1]) + if c.Read? then c.data else []
  }

  // How many bytes the writes among them have got rid of.
  ghost function Sent(cs: seq<Completion>): nat {
    if cs == [] then 0
    else
      var c := cs[|cs| - 1];
      Sent(cs[..|cs| - 1]) + if c.Write? then c.n else 0
  }

  /** A direction after the given completions, which was handed the given bytes to begin with. */
  ghost predicate Told(p: Pipe, first: seq<byte>, cs: seq<Completion>) {
    && p.input == first + Delivered(cs)
    && |p.output| == Sent(cs)
    // The source has ended exactly if a read has failed, however many bytes came with the failure.
    && (p.readable <==> !ReadFailed(cs))
    // The receiving side of the source is shut down exactly if a write has failed.
    && (p.cut <==> WriteFailed(cs))
    // The sink is gone exactly if a write has failed or has emptied the queue of a source that ended.
    && (p.writable <==> !WriteFailed(cs) && !(p.shut && cs != [] && cs[|cs| - 1].Write?))
  }

  lemma {:induction false} OneMore(cs: seq<Completion>, c: Completion)
    ensures ReadFailed(cs + [c]) <==> ReadFailed(cs) || (c.Read? && c.failed)
    ensures WriteFailed(cs + [c]) <==> WriteFailed(cs) || (c.Write? && c.failed)
    ensures Delivered(cs + [c]) == Delivered(cs) + if c.Read? then c.data else []
    ensures Sent(cs + [c]) == Sent(cs) + if c.Write? then c.n else 0
  {
    var more := cs + [c];
    assert more[..|more| - 1] == cs && more[|more| - 1] == c && c in more;
    assert forall d :: d in more <==> d in cs || d == c;
  }

  lemma {:induction false} ReadTold(
    cap: nat, taken: seq<byte>, p: Pipe, first: seq<byte>, cs: seq<Completion>, failed: bool, data: seq<byte>)
    requires Inv(cap, taken, p) && Legal(p, Read(failed, data)) && Told(p, first, cs)
    ensures Told(ReadDone(p, failed, data), first, cs + [Read(failed, data)])
  {
    OneMore(cs, Read(failed, data));
    hide ReadFailed, WriteFailed, Delivered, Sent;
    assert first + Delivered(cs) + data == first + (Delivered(cs) + data);
  }

  lemma {:induction false} WriteTold(
    cap: nat, taken: seq<byte>, p: Pipe, first: seq<byte>, cs: seq<Completion>, failed: bool, n: nat)
    requires Inv(cap, taken, p) && Legal(p, Write(failed, n)) && Told(p, first, cs)
    ensures Told(WriteDone(p, failed, n), first, cs + [Write(failed, n)])
  {
    OneMore(cs, Write(failed, n));
    hide ReadFailed, WriteFailed, Delivered, Sent;
  }

  lemma {:induction false} DoneTold(
    cap: nat, taken: seq<byte>, p: Pipe, first: seq<byte>, cs: seq<Completion>, c: Completion, room: nat)
    requires Inv(cap, taken, p) && Legal(p, c) && Told(p, first, cs)
    ensures Told(Schedule(Done(p, c), room), first, cs + [c])
  {
    match c
    case Read(failed, data) => ReadTold(cap, taken, p, first, cs, failed, data);
    case Write(failed, n) => WriteTold(cap, taken, p, first, cs, failed, n);
    hide ReadDone, WriteDone;
    ScheduleTold(Done(p, c), first, cs + [c], room);
  }

  lemma {:induction false} ScheduleTold(p: Pipe, first: seq<byte>, cs: seq<Completion>, room: nat)
    requires Matched(p) && Told(p, first, cs)
    ensures Told(Schedule(p, room), first, cs)
  {
  }

  /** Half-close, over what has completed: the sink is shut down exactly if a read has failed and every
      byte that was handed over or delivered has been written, or taken by the handshake. */
  lemma {:induction false} HalfCloseIff(cap: nat, taken: seq<byte>, p: Pipe, first: seq<byte>, cs: seq<Completion>)
    requires Inv(cap, taken, p) && Told(p, first, cs)
    ensures p.shut <==> ReadFailed(cs) && |first| + |Delivered(cs)| == |taken| + Sent(cs)
  {
    assert |p.input| == |taken| + |p.output| + |p.q.data|;
  }
}
