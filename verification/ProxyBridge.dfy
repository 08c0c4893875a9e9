/**
The proxy session object: its flags, its two buffers and its handshake, and the handlers that the
sockets' completions call.  Every handler is proved to be a step of the transition system of module
Bridge.

The `ghost` fields record what the object does to its sockets: operations in flight, bytes moved and
shutdowns.  A handler for a read gets the number of bytes that were written into the reserved memory.
*/
module ProxyBridges {
  import opened Bytes
  import opened Buffers
  import opened BufferPairs
  import opened Socks5
  import opened Socks5Server
  import P = Pipes
  import B = Bridge

  lemma {:induction false} PairSwaps(a: Buffer, b: Buffer)
    requires Pair(a, b)
    ensures Pair(b, a)
  {
  }

  // The buffers do not contain the session or the handshake.
  lemma {:induction false} NotInRepr(a: Buffer, b: Buffer, bridge: ProxyBridge, socks5: Socks5State)
    ensures bridge !in PairRepr(a, b) && socks5 !in PairRepr(a, b)
  {
  }

  class ProxyBridge {
    const socks5: Socks5State
    const upstream: Buffer
    const downstream: Buffer
    var readingClient: bool
    var writingClient: bool
    var clientReadable: bool
    var clientWritable: bool
    var readingDest: bool
    var writingDest: bool
    var destReadable: bool
    var destWritable: bool
    ghost var handshakeRead: bool
    ghost var connecting: bool
    ghost var accepting: bool
    ghost var forwarding: bool
    ghost var header: seq<byte>
    ghost var fromClient: seq<byte>
    ghost var toDest: seq<byte>
    ghost var fromDest: seq<byte>
    ghost var toClient: seq<byte>
    ghost var destShut: bool
    ghost var clientShut: bool
    ghost var destCut: bool
    ghost var clientCut: bool

    ghost function Repr(): set<object>
      reads upstream`chain, downstream`chain, upstream.freelist`chain, downstream.freelist`chain
    {
      PairRepr(upstream, downstream)
    }

    ghost predicate Valid()
      reads upstream, downstream, upstream.freelist, downstream.freelist
      reads upstream.chain, downstream.chain, upstream.freelist.chain, downstream.freelist.chain
    {
      && Pair(upstream, downstream)
      && this !in Repr() && socks5 !in Repr()
    }

    ghost function UpPipe(): P.Pipe
      reads `readingClient, `writingDest, `clientReadable, `destWritable, upstream
      reads `destShut, `clientCut, `fromClient, `toDest
    {
      P.Pipe(FifoOf(upstream), readingClient, writingDest, clientReadable, destWritable,
             destShut, clientCut, fromClient, toDest)
    }

    ghost function DownPipe(): P.Pipe
      reads `readingDest, `writingClient, `destReadable, `clientWritable, downstream
      reads `clientShut, `destCut, `fromDest, `toClient
    {
      P.Pipe(FifoOf(downstream), readingDest, writingClient, destReadable, clientWritable,
             clientShut, destCut, fromDest, toClient)
    }

    ghost function View(): B.Session
      reads this, upstream, downstream, socks5
    {
      B.Session(socks5.M(), UpPipe(), DownPipe(), handshakeRead, connecting, accepting, forwarding, header)
    }

    constructor (env: Env, shared: Freelists.Freelist?, capacity: nat)
      requires capacity > 0 && (shared != null ==> shared.Valid() && shared.capacity == capacity)
      ensures Valid() && View() == B.FRESH && socks5.env == env && upstream.freelist.capacity == capacity
      ensures shared != null ==> upstream.freelist == downstream.freelist == shared
      ensures shared == null ==> upstream.freelist != downstream.freelist
    {
      hide Pair, FifoOf, Socks5State.M, PairRepr;
      var up, down := NewPair(shared, capacity);
      upstream, downstream := up, down;
      socks5 := new Socks5State(env);
      readingClient, writingClient, clientReadable, clientWritable := false, false, true, true;
      readingDest, writingDest, destReadable, destWritable := false, false, true, true;
      handshakeRead, connecting, accepting, forwarding, header := false, false, false, false, [];
      fromClient, toDest, fromDest, toClient := [], [], [], [];
      destShut, clientShut, destCut, clientCut := false, false, false, false;
      new;
      NotInRepr(up, down, this, socks5);
      assert UpPipe() == P.IDLE && DownPipe() == P.IDLE;
    }

    // ---------------------------------------------------------------- scheduling

    method TryReadClient() returns (ghost room: nat)
      requires Valid() && (!UpPipe().reading ==> !UpPipe().q.reserved)
      modifies `readingClient, Repr()
      ensures Valid() && UpPipe() == P.TryRead(old(UpPipe()), room) && DownPipe() == old(DownPipe())
      ensures P.LegalRoom(upstream.freelist.capacity, P.READ_SIZE, room)
      ensures forall o | o in Repr() :: o in old(Repr()) || fresh(o)
      ensures ReadKept(upstream) && ReadKept(downstream)
    {
      hide Buffer.Valid, Buffer.Contents;
      room := P.READ_SIZE;
      upstream.SizeIsLength();
      upstream.FreelistIsValid();
      if !readingClient && clientReadable && destWritable && upstream.dataSize < P.MAX_BUFFER_SIZE {
        var _, got := ReserveAtLeast(upstream, downstream, P.READ_SIZE);
        readingClient, room := true, got;
      }
    }

    method TryReadDest() returns (ghost room: nat)
      requires Valid() && (!DownPipe().reading ==> !DownPipe().q.reserved)
      modifies `readingDest, Repr()
      ensures Valid() && DownPipe() == P.TryRead(old(DownPipe()), room) && UpPipe() == old(UpPipe())
      ensures P.LegalRoom(upstream.freelist.capacity, P.READ_SIZE, room)
      ensures forall o | o in Repr() :: o in old(Repr()) || fresh(o)
      ensures ReadKept(upstream) && ReadKept(downstream)
    {
      hide Buffer.Valid, Buffer.Contents;
      room := P.READ_SIZE;
      downstream.SizeIsLength();
      downstream.FreelistIsValid();
      if !readingDest && destReadable && clientWritable && downstream.dataSize < P.MAX_BUFFER_SIZE {
        var _, got := ReserveAtLeast(downstream, upstream, P.READ_SIZE);
        readingDest, room := true, got;
      }
    }

    method TryWriteClient()
      requires Valid() && (!DownPipe().writing ==> !DownPipe().q.peeked)
      modifies `writingClient, Repr()
      ensures Valid() && DownPipe() == P.TryWrite(old(DownPipe())) && UpPipe() == old(UpPipe())
      ensures Repr() == old(Repr())
      ensures ReadKept(upstream) && ReadKept(downstream)
    {
      hide Buffer.Valid, Buffer.Contents;
      downstream.SizeIsLength();
      if !writingClient && clientWritable && downstream.dataSize > 0 {
        var _ := Peek(downstream, upstream);
        writingClient := true;
      }
    }

    method TryWriteDest()
      requires Valid() && (!UpPipe().writing ==> !UpPipe().q.peeked)
      modifies `writingDest, Repr()
      ensures Valid() && UpPipe() == P.TryWrite(old(UpPipe())) && DownPipe() == old(DownPipe())
      ensures Repr() == old(Repr())
      ensures ReadKept(upstream) && ReadKept(downstream)
    {
      hide Buffer.Valid, Buffer.Contents;
      upstream.SizeIsLength();
      if !writingDest && destWritable && upstream.dataSize > 0 {
        var _ := Peek(upstream, downstream);
        writingDest := true;
      }
    }

    /** Schedule every operation that can be started.  The four tries never trip an assertion of the
        buffers. */
    method ForwardTraffic() returns (ghost ch: B.Choice)
      requires Valid() && P.Matched(UpPipe()) && P.Matched(DownPipe())
      modifies `readingClient, `writingClient, `readingDest, `writingDest, Repr()
      ensures Valid() && View() == B.Forward(old(View()), ch) && B.LegalChoice(upstream.freelist.capacity, ch)
      ensures forall o | o in Repr() :: o in old(Repr()) || fresh(o)
      ensures ReadKept(upstream) && ReadKept(downstream)
    {
      hide Buffer.Valid, Buffer.Contents, Pair, FifoOf, UpPipe, DownPipe, Repr;
      CapacityIsPositive();
      ghost var up := TryReadClient();
      TryWriteClient();
      ghost var down := TryReadDest();
      TryWriteDest();
      P.ScheduleOrder(old(DownPipe()), down);
      ch := B.Choice(1, up, down);
    }

    lemma {:induction false} CapacityIsPositive()
      requires Valid()
      ensures upstream.freelist.capacity > 0
    {
      upstream.FreelistIsValid();
    }

    // ---------------------------------------------------------------- the parts of the handlers

    method CommitUp(n: nat)
      requires Valid() && FifoOf(upstream).Valid() && FifoOf(upstream).reserved && n <= FifoOf(upstream).room
      modifies Repr()
      ensures Valid() && Repr() == old(Repr()) && FifoOf(downstream) == old(FifoOf(downstream))
      ensures n <= |old(upstream.InFlight())|
      ensures FifoOf(upstream) == old(FifoOf(upstream)).Commit(old(upstream.InFlight())[..n])
      ensures ReadKept(downstream)
    {
      hide Buffer.Valid, Buffer.Contents, Buffer.InFlight, Total;
      Commit(upstream, downstream, n);
    }

    method CommitDown(n: nat)
      requires Valid() && FifoOf(downstream).Valid() && FifoOf(downstream).reserved && n <= FifoOf(downstream).room
      modifies Repr()
      ensures Valid() && Repr() == old(Repr()) && FifoOf(upstream) == old(FifoOf(upstream))
      ensures n <= |old(downstream.InFlight())|
      ensures FifoOf(downstream) == old(FifoOf(downstream)).Commit(old(downstream.InFlight())[..n])
      ensures ReadKept(upstream)
    {
      hide Buffer.Valid, Buffer.Contents, Buffer.InFlight, Total;
      Commit(downstream, upstream, n);
    }

    method DrainUp(n: nat)
      requires Valid() && FifoOf(upstream).Valid() && FifoOf(upstream).peeked && n <= FifoOf(upstream).view
      modifies Repr()
      ensures Valid() && Repr() == old(Repr()) && FifoOf(downstream) == old(FifoOf(downstream))
      ensures FifoOf(upstream) == old(FifoOf(upstream)).Drain(n)
      ensures ReadKept(upstream) && ReadKept(downstream)
    {
      hide Buffer.Valid, Buffer.Contents, Buffer.InFlight, Total;
      Drain(upstream, downstream, n);
    }

    method DrainDown(n: nat)
      requires Valid() && FifoOf(downstream).Valid() && FifoOf(downstream).peeked && n <= FifoOf(downstream).view
      modifies Repr()
      ensures Valid() && Repr() == old(Repr()) && FifoOf(upstream) == old(FifoOf(upstream))
      ensures FifoOf(downstream) == old(FifoOf(downstream)).Drain(n)
      ensures ReadKept(upstream) && ReadKept(downstream)
    {
      hide Buffer.Valid, Buffer.Contents, Buffer.InFlight, Total;
      Drain(downstream, upstream, n);
    }

    // Whether a buffer is empty is what its size says.
    lemma {:induction false} SizesAreLengths()
      requires Valid()
      ensures upstream.dataSize == |FifoOf(upstream).data| && downstream.dataSize == |FifoOf(downstream).data|
    {
      upstream.SizeIsLength();
      downstream.SizeIsLength();
    }

    method ClientReadDone(failed: bool, n: nat)
      requires Valid() && UpPipe().q.Valid() && UpPipe().q.reserved && n <= UpPipe().q.room
      modifies `readingClient, `clientReadable, `fromClient, `destShut, Repr()
      ensures Valid() && DownPipe() == old(DownPipe()) && Repr() == old(Repr())
      ensures n <= |old(upstream.InFlight())|
      ensures UpPipe() == P.ReadDone(old(UpPipe()), failed, old(upstream.InFlight())[..n])
      ensures ReadKept(downstream)
    {
      hide Buffer.InFlight, Pair, FifoOf, Repr;
      ghost var inFlight := upstream.InFlight();
      CommitUp(n);
      SizesAreLengths();
      EndClientRead(failed, inFlight[..n]);
    }

    method EndClientRead(failed: bool, ghost read: seq<byte>)
      modifies `readingClient, `clientReadable, `fromClient, `destShut
      ensures !readingClient && fromClient == old(fromClient) + read
      ensures clientReadable == (old(clientReadable) && !failed)
      ensures destShut == (old(destShut) || (failed && upstream.dataSize == 0))
    {
      readingClient := false;
      fromClient := fromClient + read;
      if failed {
        clientReadable := false;
        if upstream.dataSize == 0 {
          destShut := true;
        }
      }
    }

    method DestReadDone(failed: bool, n: nat)
      requires Valid() && DownPipe().q.Valid() && DownPipe().q.reserved && n <= DownPipe().q.room
      modifies `readingDest, `destReadable, `fromDest, `clientShut, Repr()
      ensures Valid() && UpPipe() == old(UpPipe()) && Repr() == old(Repr())
      ensures n <= |old(downstream.InFlight())|
      ensures DownPipe() == P.ReadDone(old(DownPipe()), failed, old(downstream.InFlight())[..n])
      ensures ReadKept(upstream)
    {
      hide Buffer.InFlight, Pair, FifoOf, Repr;
      ghost var inFlight := downstream.InFlight();
      CommitDown(n);
      SizesAreLengths();
      EndDestRead(failed, inFlight[..n]);
    }

    method EndDestRead(failed: bool, ghost read: seq<byte>)
      modifies `readingDest, `destReadable, `fromDest, `clientShut
      ensures !readingDest && fromDest == old(fromDest) + read
      ensures destReadable == (old(destReadable) && !failed)
      ensures clientShut == (old(clientShut) || (failed && downstream.dataSize == 0))
    {
      readingDest := false;
      fromDest := fromDest + read;
      if failed {
        destReadable := false;
        if downstream.dataSize == 0 {
          clientShut := true;
        }
      }
    }

    method DestWriteDone(failed: bool, n: nat)
      requires Valid() && UpPipe().q.Valid() && UpPipe().q.peeked && n <= UpPipe().q.view
      modifies `writingDest, `destWritable, `toDest, `destShut, `clientCut, Repr()
      ensures Valid() && DownPipe() == old(DownPipe()) && Repr() == old(Repr())
      ensures UpPipe() == P.WriteDone(old(UpPipe()), failed, n)
      ensures ReadKept(upstream) && ReadKept(downstream)
    {
      hide Buffer.InFlight, Pair, FifoOf, Repr;
      ghost var queued := FifoOf(upstream).data;
      DrainUp(n);
      SizesAreLengths();
      EndDestWrite(failed, queued[..n]);
    }

    method EndDestWrite(failed: bool, ghost written: seq<byte>)
      modifies `writingDest, `destWritable, `toDest, `destShut, `clientCut
      ensures var done := !clientReadable && upstream.dataSize == 0;
              && !writingDest && toDest == old(toDest) + written
              && destWritable == (old(destWritable) && !failed && !done) && destShut == (old(destShut) || done)
              && clientCut == (old(clientCut) || failed)
    {
      writingDest := false;
      toDest := toDest + written;
      if failed {
        destWritable := false;
        clientCut := true;
      }
      if !clientReadable && upstream.dataSize == 0 {
        destWritable := false;
        destShut := true;
      }
    }

    method ClientWriteDone(failed: bool, n: nat)
      requires Valid() && DownPipe().q.Valid() && DownPipe().q.peeked && n <= DownPipe().q.view
      modifies `writingClient, `clientWritable, `toClient, `clientShut, `destCut, Repr()
      ensures Valid() && UpPipe() == old(UpPipe()) && Repr() == old(Repr())
      ensures DownPipe() == P.WriteDone(old(DownPipe()), failed, n)
      ensures ReadKept(upstream) && ReadKept(downstream)
    {
      hide Buffer.InFlight, Pair, FifoOf, Repr;
      ghost var queued := FifoOf(downstream).data;
      DrainDown(n);
      SizesAreLengths();
      EndClientWrite(failed, queued[..n]);
    }

    method EndClientWrite(failed: bool, ghost written: seq<byte>)
      modifies `writingClient, `clientWritable, `toClient, `clientShut, `destCut
      ensures var done := !destReadable && downstream.dataSize == 0;
              && !writingClient && toClient == old(toClient) + written
              && clientWritable == (old(clientWritable) && !failed && !done) && clientShut == (old(clientShut) || done)
              && destCut == (old(destCut) || failed)
    {
      writingClient := false;
      toClient := toClient + written;
      if failed {
        clientWritable := false;
        destCut := true;
      }
      if !destReadable && downstream.dataSize == 0 {
        clientWritable := false;
        clientShut := true;
      }
    }

    // ---------------------------------------------------------------- the handlers

    ghost function Capacity(): nat {
      upstream.freelist.capacity
    }

    /** What holds between handlers. */
    ghost predicate Good()
      reads this, socks5, upstream, downstream, upstream.freelist, downstream.freelist
      reads upstream.chain, downstream.chain, upstream.freelist.chain, downstream.freelist.chain
    {
      Valid() && B.BridgeEnv(socks5.env) && B.Inv(socks5.env, Capacity(), View())
    }

    /** The client's socket writes what it received into the reserved memory: the session is as before,
        and what its handler will commit starts with the data. */
    method ReceiveFromClient(buffers: seq<Span>, data: seq<byte>)
      requires Good() && upstream.reserved && upstream.spans == buffers && |data| <= Total(buffers)
      modifies Repr()
      ensures Good() && View() == old(View()) && Repr() == old(Repr()) && data <= upstream.InFlight()
      ensures ReadKept(downstream)
    {
      hide Pair, FifoOf, Buffer.InFlight, B.Inv, B.BridgeEnv, Total, Buffer.Contents;
      assert Pair(upstream, downstream);
      Receive(upstream, downstream, buffers, data);
    }

    /** Likewise for the destination's socket. */
    method ReceiveFromDest(buffers: seq<Span>, data: seq<byte>)
      requires Good() && downstream.reserved && downstream.spans == buffers && |data| <= Total(buffers)
      modifies Repr()
      ensures Good() && View() == old(View()) && Repr() == old(Repr()) && data <= downstream.InFlight()
      ensures ReadKept(upstream)
    {
      hide Pair, FifoOf, Buffer.InFlight, B.Inv, B.BridgeEnv, Total, Buffer.Contents;
      assert Pair(downstream, upstream) by { PairSwaps(upstream, downstream); }
      Receive(downstream, upstream, buffers, data);
      PairSwaps(downstream, upstream);
    }

    /** n bytes have been read from the client into the reserved memory. */
    method ClientReadHandler(failed: bool, n: nat) returns (ghost ch: B.Choice)
      requires Good() && forwarding && readingClient && n <= UpPipe().q.room
      modifies this, Repr()
      ensures Good() && n <= |old(upstream.InFlight())|
      ensures var e := B.Up(P.Read(failed, old(upstream.InFlight())[..n]));
              B.Steps(socks5.env, Capacity(), old(View()), e, ch, View())
      ensures forall o | o in Repr() :: o in old(Repr()) || fresh(o)
      ensures ReadKept(downstream)
    {
      hide Pair, FifoOf, UpPipe, DownPipe, Repr, Buffer.InFlight, B.Inv, B.Steps, B.BridgeEnv, P.ReadDone, P.WriteDone;
      ghost var s, inFlight := View(), upstream.InFlight();
      UpIsMatched();
      ClientReadDone(failed, n);
      assert UpPipe() == P.Done(s.up, P.Read(failed, inFlight[..n]));
      ch := ForwardTraffic();
      B.ForwardSteps(socks5.env, Capacity(), s, B.Up(P.Read(failed, inFlight[..n])), ch);
    }

    lemma {:induction false} UpIsMatched()
      requires Good() && forwarding
      ensures P.Matched(UpPipe()) && P.Matched(DownPipe()) && View().up == UpPipe() && View().down == DownPipe()
      ensures UpPipe().reading == readingClient && UpPipe().writing == writingDest
      ensures DownPipe().reading == readingDest && DownPipe().writing == writingClient
    {
    }

    /** A write to the destination has completed with n bytes. */
    method DestWriteHandler(failed: bool, n: nat) returns (ghost ch: B.Choice)
      requires Good() && forwarding && writingDest && n <= UpPipe().q.view
      modifies this, Repr()
      ensures Good() && B.Steps(socks5.env, Capacity(), old(View()), B.Up(P.Write(failed, n)), ch, View())
      ensures forall o | o in Repr() :: o in old(Repr()) || fresh(o)
      ensures ReadKept(upstream) && ReadKept(downstream)
    {
      hide Pair, FifoOf, UpPipe, DownPipe, Repr, Buffer.InFlight, B.Inv, B.Steps, B.BridgeEnv, P.ReadDone, P.WriteDone;
      ghost var s := View();
      UpIsMatched();
      DestWriteDone(failed, n);
      assert UpPipe() == P.Done(s.up, P.Write(failed, n));
      ch := ForwardTraffic();
      B.ForwardSteps(socks5.env, Capacity(), s, B.Up(P.Write(failed, n)), ch);
    }

    /** n bytes have been read from the destination into the reserved memory. */
    method DestReadHandler(failed: bool, n: nat) returns (ghost ch: B.Choice)
      requires Good() && forwarding && readingDest && n <= DownPipe().q.room
      modifies this, Repr()
      ensures Good() && n <= |old(downstream.InFlight())|
      ensures var e := B.Down(P.Read(failed, old(downstream.InFlight())[..n]));
              B.Steps(socks5.env, Capacity(), old(View()), e, ch, View())
      ensures forall o | o in Repr() :: o in old(Repr()) || fresh(o)
      ensures ReadKept(upstream)
    {
      hide Pair, FifoOf, UpPipe, DownPipe, Repr, Buffer.InFlight, B.Inv, B.Steps, B.BridgeEnv, P.ReadDone, P.WriteDone;
      ghost var s, inFlight := View(), downstream.InFlight();
      UpIsMatched();
      DestReadDone(failed, n);
      assert DownPipe() == P.Done(s.down, P.Read(failed, inFlight[..n]));
      ch := ForwardTraffic();
      B.ForwardSteps(socks5.env, Capacity(), s, B.Down(P.Read(failed, inFlight[..n])), ch);
    }

    /** A write to the client has completed with n bytes. */
    method ClientWriteHandler(failed: bool, n: nat) returns (ghost ch: B.Choice)
      requires Good() && forwarding && writingClient && n <= DownPipe().q.view
      modifies this, Repr()
      ensures Good() && B.Steps(socks5.env, Capacity(), old(View()), B.Down(P.Write(failed, n)), ch, View())
      ensures forall o | o in Repr() :: o in old(Repr()) || fresh(o)
      ensures ReadKept(upstream) && ReadKept(downstream)
    {
      hide Pair, FifoOf, UpPipe, DownPipe, Repr, Buffer.InFlight, B.Inv, B.Steps, B.BridgeEnv, P.ReadDone, P.WriteDone;
      ghost var s := View();
      UpIsMatched();
      ClientWriteDone(failed, n);
      assert DownPipe() == P.Done(s.down, P.Write(failed, n));
      ch := ForwardTraffic();
      B.ForwardSteps(socks5.env, Capacity(), s, B.Down(P.Write(failed, n)), ch);
    }

    // ---------------------------------------------------------------- the handshake

    // Reserve memory for the handshake's next read and start it.
    method ReadForHandshake() returns (ghost ch: B.Choice)
      requires Valid() && !UpPipe().q.reserved
      modifies `handshakeRead, Repr()
      ensures Valid() && !old(View()).up.q.reserved && View() == B.Begin(old(View()), ch)
      ensures B.LegalChoice(Capacity(), ch)
      ensures forall o | o in Repr() :: o in old(Repr()) || fresh(o)
    {
      hide Buffer.Valid, Buffer.Contents;
      CapacityIsPositive();
      var _, got := ReserveAtLeast(upstream, downstream, 1);
      handshakeRead := true;
      ch := B.Choice(got, P.READ_SIZE, P.READ_SIZE);
    }

    /** The session starts by reading from the client. */
    method PerformSocks5Handshake() returns (ghost ch: B.Choice)
      requires Valid() && B.BridgeEnv(socks5.env) && View() == B.FRESH
      modifies `handshakeRead, Repr()
      ensures Good() && B.LegalChoice(Capacity(), ch) && View() == B.Begin(B.FRESH, ch)
      ensures forall o | o in Repr() :: o in old(Repr()) || fresh(o)
    {
      hide Pair, Repr;
      CapacityIsPositive();
      ch := ReadForHandshake();
      B.BeginsInvariant(socks5.env, Capacity(), ch);
    }

    // The loop over the upstream buffer; the other buffer is as it was.
    method RunUp()
      requires Valid() && Ready(socks5.M()) && !FifoOf(upstream).peeked && !FifoOf(upstream).reserved
      modifies socks5`state, socks5`required, socks5`calls, Repr()
      ensures Valid() && FifoOf(downstream) == old(FifoOf(downstream)) && Repr() == old(Repr())
      ensures var r := Run(socks5.env, old(socks5.M()), old(FifoOf(upstream)).data);
              socks5.M() == r.m && FifoOf(upstream) == old(FifoOf(upstream)).(data := r.rest)
    {
      hide Buffer.Valid, Buffer.Contents, Ready, Run;
      BuffersAreApart(upstream, downstream);
      downstream.FreelistIsValid();
      RunHandshake(socks5, upstream);
      upstream.FreelistIsValid();
      KeptValid(downstream);
    }

    // Put the bytes at hand through the handshake.
    method ProceedAll()
      requires Valid() && Ready(socks5.M()) && !UpPipe().q.peeked && !UpPipe().q.reserved
      modifies socks5`state, socks5`required, socks5`calls, `header, `connecting, `accepting, Repr()
      ensures Valid() && Ready(old(View()).m) && View() == B.Proceeded(socks5.env, old(View()))
      ensures Repr() == old(Repr()) && !UpPipe().q.reserved
    {
      hide Ready, Run, Pair, FifoOf, Repr;
      ghost var calls, buf := |socks5.calls|, FifoOf(upstream).data;
      RestIsSuffix(socks5.env, socks5.M(), buf);
      RunUp();
      RecordProceeded(calls, buf, FifoOf(upstream).data);
    }

    ghost method RecordProceeded(calls: nat, buf: seq<byte>, rest: seq<byte>)
      requires |rest| <= |buf|
      modifies `header, `connecting, `accepting
      ensures header == old(header) + buf[..|buf| - |rest|]
      ensures connecting == (old(connecting) || B.StartsConnect(socks5.calls, calls))
      ensures accepting == (old(accepting) || B.StartsAccept(socks5.env, socks5.calls, calls))
    {
      header := header + buf[..|buf| - |rest|];
      connecting := connecting || B.StartsConnect(socks5.calls, calls);
      accepting := accepting || B.StartsAccept(socks5.env, socks5.calls, calls);
    }

    // The read of the handshake has completed with n bytes.
    method HandshakeReadDone(n: nat)
      requires Valid() && UpPipe().q.Valid() && UpPipe().q.reserved && n <= UpPipe().q.room
      modifies `handshakeRead, `fromClient, Repr()
      ensures Valid() && Repr() == old(Repr()) && n <= |old(upstream.InFlight())|
      ensures var data := old(upstream.InFlight())[..n];
              var s := old(View());
              View() == s.(handshakeRead := false, up := s.up.(q := s.up.q.Commit(data), input := s.up.input + data))
    {
      hide Buffer.InFlight, Pair, FifoOf, Repr, Socks5State.M;
      ghost var inFlight, up, down := upstream.InFlight(), UpPipe(), DownPipe();
      CommitUp(n);
      handshakeRead, fromClient := false, fromClient + inFlight[..n];
      assert UpPipe() == up.(q := up.q.Commit(inFlight[..n]), input := up.input + inFlight[..n]);
      assert DownPipe() == down;
    }

    /** n bytes have been read from the client during the handshake. */
    method Socks5HandshakeHandler(failed: bool, n: nat) returns (ghost ch: B.Choice)
      requires Good() && !forwarding && handshakeRead && n <= UpPipe().q.room
      modifies this, socks5`state, socks5`required, socks5`calls, Repr()
      ensures Good() && n <= |old(upstream.InFlight())|
      ensures var e := B.HandshakeRead(failed, old(upstream.InFlight())[..n]);
              B.Steps(socks5.env, Capacity(), old(View()), e, ch, View())
      ensures forall o | o in Repr() :: o in old(Repr()) || fresh(o)
    {
      hide Pair, FifoOf, UpPipe, DownPipe, Repr, Buffer.InFlight, Accepted, Ready, B.Proceeded;
      ghost var s, inFlight := View(), upstream.InFlight();
      HandshakeIsReady();
      HandshakeReadDone(n);
      ch := B.Choice(1, P.READ_SIZE, P.READ_SIZE);
      if !failed {
        ProceedAll();
        DataSizes();
        if upstream.dataSize < socks5.required {
          ch := ReadForHandshake();
        }
      }
      B.NextKeeps(socks5.env, Capacity(), s, B.HandshakeRead(failed, inFlight[..n]), ch);
    }

    lemma {:induction false} DataSizes()
      requires Valid()
      ensures upstream.dataSize == |UpPipe().q.data| && UpPipe().q.reserved == upstream.reserved
    {
      upstream.SizeIsLength();
    }

    lemma {:induction false} HandshakeIsReady()
      requires Good() && !forwarding && handshakeRead
      ensures UpPipe().q.Valid() && UpPipe().q.reserved && !UpPipe().q.peeked && Ready(socks5.M())
      ensures Capacity() > 0
    {
    }

    // ---------------------------------------------------------------- the connection

    // The connection is up: complete the handshake and start forwarding.
    method Establish() returns (ghost ch: B.Choice)
      requires Valid() && (Complete(socks5.env, socks5.M()).1 ==> P.Matched(UpPipe()) && P.Matched(DownPipe()))
      modifies `forwarding, `readingClient, `writingClient, `readingDest, `writingDest
      modifies socks5`state, socks5`calls, Repr()
      ensures Valid()
      ensures Complete(socks5.env, old(View()).m).1 ==> P.Matched(old(View()).up) && P.Matched(old(View()).down)
      ensures View() == B.Established(socks5.env, old(View()), ch) && B.LegalChoice(Capacity(), ch)
      ensures forall o | o in Repr() :: o in old(Repr()) || fresh(o)
      ensures ReadKept(upstream) && ReadKept(downstream)
    {
      hide Pair, FifoOf, UpPipe, DownPipe, Repr, Complete, B.Forward;
      CapacityIsPositive();
      ch := B.Choice(1, P.READ_SIZE, P.READ_SIZE);
      var ok := socks5.ConnectionSucceed();
      if ok {
        forwarding := true;
        ch := ForwardTraffic();
      }
    }

    /** The connection to the destination has been made, or has failed. */
    method ConnectHandler(failed: bool) returns (ghost ch: B.Choice)
      requires Good() && connecting
      modifies this, socks5`state, socks5`calls, Repr()
      ensures Good() && B.Steps(socks5.env, Capacity(), old(View()), B.Connected(failed), ch, View())
      ensures forall o | o in Repr() :: o in old(Repr()) || fresh(o)
      ensures ReadKept(upstream) && ReadKept(downstream)
    {
      hide Pair, FifoOf, UpPipe, DownPipe, Repr, Accepted, Ready, B.Established, Complete;
      ghost var s := View();
      B.InvSteppable(socks5.env, Capacity(), s);
      CapacityIsPositive();
      ch := B.Choice(1, P.READ_SIZE, P.READ_SIZE);
      connecting := false;
      if !failed {
        ch := Establish();
      }
      B.NextKeeps(socks5.env, Capacity(), s, B.Connected(failed), ch);
    }

    /** An inbound connection has been accepted, or waiting for one has failed. */
    method AcceptHandler(failed: bool) returns (ghost ch: B.Choice)
      requires Good() && accepting
      modifies this, socks5`state, socks5`calls, Repr()
      ensures Good() && B.Steps(socks5.env, Capacity(), old(View()), B.Inbound(failed), ch, View())
      ensures forall o | o in Repr() :: o in old(Repr()) || fresh(o)
      ensures ReadKept(upstream) && ReadKept(downstream)
    {
      hide Pair, FifoOf, UpPipe, DownPipe, Repr, Accepted, Ready, B.Established, Complete;
      ghost var s := View();
      B.InvSteppable(socks5.env, Capacity(), s);
      CapacityIsPositive();
      ch := B.Choice(1, P.READ_SIZE, P.READ_SIZE);
      accepting := false;
      if !failed {
        ch := Establish();
      }
      B.NextKeeps(socks5.env, Capacity(), s, B.Inbound(failed), ch);
    }
  }
}
