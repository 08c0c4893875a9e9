/**
Two buffers, on one free list or on one each, seen as the byte queues of module Pipes.  Each operation on one of them
is the queue operation of that name, and leaves the other as it was.
*/
module BufferPairs {
  import opened Bytes
  import opened Buffers
  import P = Pipes

  // What a buffer is as a queue.
  ghost function FifoOf(b: Buffer): P.Fifo
    reads b
  {
    P.Fifo(b.Contents(), b.reserved, if b.reserved then Total(b.spans) else 0,
           b.peeked, if b.peeked then Total(b.views) else 0)
  }

  // A read in flight keeps its memory: the reservation stands, and the memory holds what it held.
  twostate predicate ReadKept(b: Buffer)
    reads b
  {
    old(b.reserved) ==> b.reserved && b.spans == old(b.spans) && b.InFlight() == old(b.InFlight())
  }

  ghost predicate Pair(a: Buffer, b: Buffer)
    reads a, b, a.freelist, b.freelist, a.chain, b.chain, a.freelist.chain, b.freelist.chain
  {
    a.Valid() && b.Valid() && a != b && a.freelist.capacity == b.freelist.capacity
  }

  ghost function PairRepr(a: Buffer, b: Buffer): set<object>
    reads a`chain, b`chain, a.freelist`chain, b.freelist`chain
  {
    a.Repr() + b.Repr()
  }

  method NewPair(shared: Freelists.Freelist?, capacity: nat) returns (a: Buffer, b: Buffer)
    requires capacity > 0 && (shared != null ==> shared.Valid() && shared.capacity == capacity)
    ensures Pair(a, b) && fresh(a) && fresh(b) && a.freelist.capacity == capacity
    ensures if shared == null then fresh(a.freelist) && fresh(b.freelist) && a.freelist != b.freelist
            else a.freelist == b.freelist == shared
    ensures FifoOf(a) == P.EMPTY_FIFO && FifoOf(b) == P.EMPTY_FIFO && a.chain == [] && b.chain == []
    ensures shared == null ==> a.freelist.chain == [] && b.freelist.chain == []
    ensures shared != null ==> shared.chain == old(shared.chain)
  {
    hide Buffer.Valid;
    a := new Buffer(shared, capacity);
    b := new Buffer(shared, capacity);
  }

  method ReserveAtLeast(a: Buffer, b: Buffer, size: nat) returns (ret: seq<Span>, got: nat)
    requires Pair(a, b) && !a.reserved && size > 0
    modifies a.Repr()
    ensures Pair(a, b) && FifoOf(b) == old(FifoOf(b)) && unchanged(b)
    ensures P.LegalRoom(a.freelist.capacity, size, got) && FifoOf(a) == old(FifoOf(a)).Reserve(got)
    ensures a.spans == ret && old(PairRepr(a, b)) <= PairRepr(a, b) && fresh(PairRepr(a, b) - old(PairRepr(a, b)))
  {
    hide Buffer.Core, Buffer.Granted, Total, Buffer.Contents;
    BuffersAreApart(a, b);
    b.FreelistIsValid();
    ret, got := a.ReserveAtLeast(size);
    a.FreelistIsValid();
    KeptValid(b);
  }

  // The memory that was handed out is written, as a socket does.
  method Receive(a: Buffer, b: Buffer, buffers: seq<Span>, data: seq<byte>)
    requires Pair(a, b) && a.reserved && a.spans == buffers && |data| <= Total(buffers)
    modifies a.Repr()
    ensures Pair(a, b) && FifoOf(b) == old(FifoOf(b)) && unchanged(b)
    ensures FifoOf(a) == old(FifoOf(a)) && a.spans == buffers && data <= a.InFlight()
    ensures PairRepr(a, b) == old(PairRepr(a, b))
  {
    hide Buffer.Core, Buffer.Granted, Total, Buffer.Contents, Buffer.InFlight;
    BuffersAreApart(a, b);
    b.FreelistIsValid();
    assert a.freelist != b.freelist ==> forall x | x in b.freelist.chain :: x !in a.chain;
    a.Scatter(buffers, data);
    a.FreelistIsValid();
    if a.freelist != b.freelist {
      FreelistKept(b.freelist);
    }
    KeptValid(b);
  }

  method Commit(a: Buffer, b: Buffer, n: nat)
    requires Pair(a, b) && a.reserved && n <= Total(a.spans) && Total(a.spans) > 0
    modifies a.Repr()
    ensures Pair(a, b) && FifoOf(b) == old(FifoOf(b)) && unchanged(b)
    ensures n <= |old(a.InFlight())| && FifoOf(a) == old(FifoOf(a)).Commit(old(a.InFlight())[..n])
    ensures PairRepr(a, b) == old(PairRepr(a, b))
  {
    hide Buffer.Core, Buffer.Granted, Total, Buffer.Contents, Buffer.InFlight;
    BuffersAreApart(a, b);
    b.FreelistIsValid();
    a.ReservationHasSpace();
    a.Commit(n);
    a.FreelistIsValid();
    KeptValid(b);
  }

  method Peek(a: Buffer, b: Buffer) returns (ret: seq<Span>)
    requires Pair(a, b) && !a.peeked
    modifies a`peeked, a`views
    ensures Pair(a, b) && FifoOf(b) == old(FifoOf(b)) && unchanged(b)
    ensures FifoOf(a) == old(FifoOf(a)).Peek() && a.views == ret && ReadKept(a)
    ensures PairRepr(a, b) == old(PairRepr(a, b))
  {
    hide Buffer.Core, Buffer.Granted, Total, Buffer.Contents;
    b.FreelistIsValid();
    ret := a.Peek();
    a.ViewStaysFront();
    a.FreelistIsValid();
    KeptValid(b);
  }

  // What draining one buffer leaves alone of the other.
  method DrainBeside(a: Buffer, b: Buffer, n: nat)
    requires Pair(a, b) && a.peeked && n <= a.dataSize
    modifies a.Repr()
    ensures a.Valid() && !a.peeked && a.reserved == old(a.reserved) && a.spans == old(a.spans)
    ensures n <= |old(a.Contents())| && a.Contents() == old(a.Contents())[n..]
    ensures a.reserved ==> a.InFlight() == old(a.InFlight())
    ensures a.Repr() == old(a.Repr())
    ensures unchanged(b) && b.freelist.Valid() && forall x | x in b.chain :: unchanged(x)
    ensures a.freelist != b.freelist ==> unchanged(b.freelist)
  {
    BuffersAreApart(a, b);
    a.FreelistIsValid();
    b.FreelistIsValid();
    assert forall x | x in b.chain :: x !in a.chain;
    assert a.freelist != b.freelist ==> forall x | x in b.freelist.chain :: x !in a.chain;
    hide Buffer.Valid, Buffer.Contents, Buffer.InFlight, Buffer.Repr, MovedTo, Freelists.Freelist.Valid;
    DrainOne(a, n);
    if a.freelist == b.freelist {
      a.FreelistIsValid();
    } else {
      FreelistKept(b.freelist);
    }
  }

  twostate lemma {:induction false} FreelistKept(f: Freelists.Freelist)
    requires old(f.Valid()) && unchanged(f) && forall x | x in old(f.chain) :: unchanged(x)
    ensures f.Valid()
  {
    forall i | 0 <= i < |f.chain|
      ensures f.Holds(i)
    {
      assert old(f.Holds(i)) && f.chain[i] in old(f.chain) && Freelists.At(f.chain, i) in old(f.chain);
    }
  }

  method DrainOne(a: Buffer, n: nat)
    requires a.Valid() && a.peeked && n <= a.dataSize
    modifies a, a.chain, a.freelist`head, a.freelist`size, a.freelist`chain
    ensures a.Valid() && !a.peeked && a.reserved == old(a.reserved) && a.spans == old(a.spans)
    ensures n <= |old(a.Contents())| && a.Contents() == old(a.Contents())[n..]
    ensures a.reserved ==> a.InFlight() == old(a.InFlight())
    ensures a.Repr() == old(a.Repr())
  {
    hide Buffer.Valid, Buffer.Contents, Buffer.InFlight, MovedTo;
    a.Drain(n);
    MovedSameBlocks(old(a.chain), old(a.freelist.chain), a.chain, a.freelist.chain);
  }

  method Drain(a: Buffer, b: Buffer, n: nat)
    requires Pair(a, b) && a.peeked && n <= Total(a.views)
    modifies a.Repr()
    ensures Pair(a, b) && FifoOf(b) == old(FifoOf(b)) && unchanged(b)
    ensures n <= old(FifoOf(a)).view <= |old(FifoOf(a)).data| && FifoOf(a) == old(FifoOf(a)).Drain(n)
    ensures ReadKept(a)
    ensures PairRepr(a, b) == old(PairRepr(a, b))
  {
    a.ViewStaysFront();
    a.SizeIsLength();
    hide Buffer.Valid, Total, Buffer.Contents, Buffer.InFlight, Buffer.Repr;
    if a.freelist == b.freelist {
      SharedRepr(a, b);
    }
    DrainBeside(a, b, n);
    KeptValid(b);
    if a.freelist == b.freelist {
      SharedRepr(a, b);
    }
  }

  // With a shared free list the footprint is that of one buffer and the chain of the other.
  lemma {:induction false} SharedRepr(a: Buffer, b: Buffer)
    requires a.freelist == b.freelist
    ensures PairRepr(a, b) == a.Repr() + {b} + set x | x in b.chain
  {
  }
}
