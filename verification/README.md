# Verified model of the public endorsement service and its enclave proxy

This project models the parts of the repository that carry its guarantees and proves them in Dafny.

**The enclave proxy.** Bytes pass between a client in the enclave and a destination outside. They go
through a buffer made of linked blocks, which is filled in two phases (reserve, commit) and emptied
in two phases (peek, drain), with the two sides interleaved. `Freelist.dfy` and `Buffer.dfy` are the
linked blocks on the heap; `BlockQueue.dfy` is what a chain of blocks denotes. A SOCKS5 handshake
(sections 3 to 6 of RFC 1928) is parsed off that buffer: `Socks5.dfy` is the handshake as a function
of the bytes received, `Socks5State.dfy` the object that runs it on a linked buffer. `Pipe.dfy` is
one direction of forwarding, `Bridge.dfy` a whole session as a transition system whose operations
may complete in any order, with any error and any size, and `ProxyBridge.dfy` the object with its
eight flags and two buffers (`BufferPair.dfy`), each handler of which is proved to be one step of
that system. `SessionHistory.dfy` says what a session is from what has completed in it, over every
run. `Client.dfy` and `SessionPool.dfy` are the client half: the CONNECT of the preloaded library, the
BIND of the socket vendor, and the pool of connections it keeps; `PoolHistory.dfy` says what the pool
is from what has completed in it.

**Measurement-bound storage.** Any number of instances share a store, find out whether a key backup
exists, and generate it once under a lock. `Mbs.dfy` has the instances as program counters. Every
operation on a single object of the store is one step; reading and writing a backup takes four each,
so instances see each other half way. Each step may fail, with or without having had its effect;
instances may crash anywhere; and an operator may remove a lock that no attempt under way relies on.
`MbsStore.dfy` is about stores with any content, and about the first backup.
`Provider.dfy` is the reload of one instance as it is written, with exceptions and the retry, proved
to be a run of that machine whatever the others do in between.

**The endorsement service and the tooling.** `Encodings.dfy` is the encoding that is signed and the
escaping of identities; `Endorsements.dfy` the processing of concurrent requests as a state machine,
and `EndorsementService.dfy` the structured code of one request, proved to be a run of it;
`Jwks.dfy` the cache of an issuer's keys; `Tags.dfy` the content-addressed tags of container images,
and `TagContents.dfy` what they say about the content.
`Bytes.dfy`, `Options.dfy` and `Sequences.dfy` hold what all of them use.

Sockets, clocks, the network, the object store, cryptography and JSON are parameters: what they
answer is arbitrary, except where stated. In particular:

- The handshake's callbacks answer as any function of the calls made before.
- An operation on the object store has its effect before it reports, or not at all; creating the lock
  succeeds only if it is absent. Only the protocol writes the store.
- The operator removes only locks that no attempt under way relies on.
- Clocks do not go back.
- The image sorter returns every node with its dependencies before it, or fails.

## Where the code is not what one would expect

Each of these is the behaviour of the code, kept in the model, with the exact condition proved.

- `Reserve(0)` on a buffer without blocks, followed by `Commit(0)`, trips the assertion in `Commit`.
  `Buffers.Buffer.Reserve` states that this is the only case; `Commit` requires a block.
- `ConnectionSucceed` overwrites the failure of its own reply with success. `Socks5.SuccessUndelivered`
  shows it for every CONNECT of a client that leaves after the greeting, `Socks5.CompleteDeliversIff`
  says when.
- A failed handshake may keep the size it was waiting for, and whether it does can depend on how the
  input was cut into reads; nothing else does (`Socks5.Same`). `Socks5.StaleSizeDependsOnCut` is a
  shortest such input, `Socks5.SizeDependsOnCutIff` says which inputs they are, in terms of their
  bytes. The session may go on reading, but never forwards (`Bridge.FailedForever`).
- The final reply of the handshake for an address that is neither IPv4 nor IPv6 is three bytes long,
  and the client cannot parse it: `Client.ReplyArrivesIff`.
- A pool started with a backlog below two has a slot without a buffer: `SessionPool.OpenedSafeIff`.
- More than one key-backup put can begin: if the first write of a put fails without effect, and an
  operator then removes the lock, another begins. `Mbs.TwoPutsCanBegin` is such a run,
  `Mbs.AnotherPutIff` the condition, which an operator can look at, and `Mbs.AtMostOneEffective` what
  holds always.
- An instance that was about to take the lock when the store became complete still tries it:
  `Mbs.TriesLockIff`. No other does. Such a reload fails, complete store or not, if the lock is taken
  and it has had its retry: `Mbs.GetsToCheckIff`.
- A lock can be left behind by an attempt that never was under it, if creating it is reported to have
  failed although it had its effect: `Mbs.StrandsIff`. Like any other it stays, and freezes the store,
  until an operator removes it (`Mbs.AbandonedFreezes`).
- The second response to a BIND has the size the pool reads only for an IPv6 address:
  `SessionPool.SecondResponseFitsIff`.
- What is hashed for a tag is run together with nothing in between, so text at the end of a Dockerfile
  and the same text as a build argument give the same tag: `TagContents.RunTogether`. With pieces of the
  same lengths a tag does identify everything the image is built from: `TagContents.ContentAddressed`.
- A target image that is not configured is dropped from the build order without an error, unless
  something depends on it: `Tags.SubgraphOrdered`.

## Model

| member | source | states |
|---|---|---|
| `BlockQueue.SpaceAccounting` | container-tools/cc/aws/proxy/src/buffer.h:151-158 | the closed form of `space_size()` is the sum of the free memory of all blocks, for every chain in which only the head block has an offset |
| `BlockQueue.CommitStepAppends` | container-tools/cc/aws/proxy/src/buffer.h:98-105 | committing t bytes at the writing position appends exactly the first t bytes of the free memory there to the bytes queued |
| `BlockQueue.CommitStepKeepsShape` | container-tools/cc/aws/proxy/src/buffer.h:214-226 | a commit keeps the chain in shape: full blocks, then the end block, then empty ones; the end block moves to where was written |
| `BlockQueue.DrainHeadRemoves` | container-tools/cc/aws/proxy/src/buffer.h:107-113 | draining t bytes of the head block removes exactly the first t bytes queued |
| `BlockQueue.DrainHeadKeepsShape` | container-tools/cc/aws/proxy/src/buffer.h:243-269 | a head block that keeps data or space stays, and the writing position does not move |
| `BlockQueue.PruneStep` | container-tools/cc/aws/proxy/src/buffer.h:243-269 | pruning a used-up head block keeps the shape, and the writing position moves by one with the blocks, so it denotes the same memory |
| `BlockQueue.PruneRemoves` | container-tools/cc/aws/proxy/src/buffer.h:243-269 | pruning removes exactly the bytes of the pruned block from the bytes queued |
| `BlockQueue.AppendKeepsShape` | container-tools/cc/aws/proxy/src/buffer.h:305-320 | a new empty block changes neither the bytes queued nor the writing position |
| `BlockQueue.ResetKeepsShape` | container-tools/cc/aws/proxy/src/buffer.h:262-268 | rewinding the offset of an empty head block keeps the shape and queues nothing |
| `Freelists.Block.Commit` | container-tools/cc/aws/proxy/src/buffer.h:98-105 | commits as much as fits and returns the rest |
| `Freelists.Block.Drain` | container-tools/cc/aws/proxy/src/buffer.h:107-113 | drains as much as there is and returns the rest |
| `Freelists.Freelist.Acyclic` | container-tools/cc/aws/proxy/src/freelist.h:35-92 | the free chain is what following `next` from the head visits, ends in null and contains no block twice |
| `Freelists.Freelist.New` | container-tools/cc/aws/proxy/src/freelist.h:35-48 | takes the first free block and no other, or allocates one if none is free; the block is in its initial state and `size_` stays the length of the chain |
| `Freelists.Freelist.Delete` | container-tools/cc/aws/proxy/src/freelist.h:51-58 | the block given back becomes the first free one; no other block is lost or moved |
| `Freelists.Freelist.DeleteChain` | container-tools/cc/aws/proxy/src/freelist.h:61-76 | a whole chain given back stands, in order, before the blocks that were free |
| `Freelists.Freelist.Last` | container-tools/cc/aws/proxy/src/freelist.h:61-76 | the walk along a chain ends at its last block and counts all of them |
| `Freelists.Freelist.Clear` | container-tools/cc/aws/proxy/src/freelist.h:79-84 | empties the list, after which nothing owns any of its blocks |
| `Freelists.Freelist.FillN` | container-tools/cc/aws/proxy/src/freelist.h:87-92 | adds exactly n newly allocated blocks in front of those that were free |
| `Buffers.Buffer.constructor` | container-tools/cc/aws/proxy/src/buffer.h:133-146 | an empty buffer owns no block; it has a free list of its own unless it is given one |
| `Buffers.Buffer.Destroy` | container-tools/cc/aws/proxy/src/buffer.h:148 | every block of the buffer is given back to the free list, in order |
| `Buffers.Buffer.SpaceSize` | container-tools/cc/aws/proxy/src/buffer.h:151-158 | the value computed is the sum of the free memory of the blocks of the chain |
| `Buffers.Buffer.Reserve` | container-tools/cc/aws/proxy/src/buffer.h:166-181 | hands out spans of exactly the size asked for, queues nothing, ends; the buffer is still without a block exactly if it was and the size is zero, which is when the assertion of the following `Commit` fails; no block is added beyond those handed out |
| `Buffers.Buffer.ReserveAtLeast` | container-tools/cc/aws/proxy/src/buffer.h:188-203 | hands out at least the size asked for and less than a block more; queues nothing; no block is added beyond those handed out |
| `Buffers.Buffer.InFlightIsMemory` | container-tools/cc/aws/proxy/src/buffer.h:166-203 | each span handed out is free memory of a block of the chain, and `InFlight` is what that memory holds |
| `Buffers.Buffer.ReservationHasSpace` | container-tools/cc/aws/proxy/src/buffer.h:214-217 | what `Commit` asserts about space holds of every reservation, and there is a block if it is not empty |
| `Buffers.Buffer.Commit` | container-tools/cc/aws/proxy/src/buffer.h:214-226 | appends exactly the first n bytes of the memory that was handed out to the bytes queued, whatever was drained in between |
| `Buffers.Buffer.Peek` | container-tools/cc/aws/proxy/src/buffer.h:230-239 | the spans on view, concatenated, are all the bytes queued |
| `Buffers.Buffer.Drain` | container-tools/cc/aws/proxy/src/buffer.h:243-269 | removes exactly the first n bytes; what a pending reservation handed out is untouched, although blocks are pruned and the end moves; the pruned blocks, and only they, are on the free list; an emptied buffer without a reservation has all of its memory free again |
| `Buffers.Buffer.ViewStaysFront` | container-tools/cc/aws/proxy/src/buffer.h:230-239 | spans on view stay a prefix of the bytes queued across any reservation and commit |
| `Buffers.Buffer.Scatter` | container-tools/cc/aws/proxy/src/buffer.h:273-281 | bytes written through the spans of a reservation are the bytes in flight, and nothing queued changes |
| `Buffers.Buffer.CopyIn` | container-tools/cc/aws/proxy/src/buffer.h:273-281 | appends the data given to the bytes queued |
| `Buffers.Buffer.CopyOut` | container-tools/cc/aws/proxy/src/buffer.h:285-301 | returns and removes the front of the queue, up to the size asked for, and gives exactly the used-up blocks back |
| `Buffers.Buffer.AppendNewBlock` | container-tools/cc/aws/proxy/src/buffer.h:305-320 | one block taken from the free list or new is linked behind the tail; nothing queued changes |
| `Buffers.Buffer.StepperNext` | container-tools/cc/aws/proxy/src/buffer.h:347-358 | the stepper yields the next block of the chain, appending one exactly at its end |
| `Buffers.Buffer.SizeIsLength` | container-tools/cc/aws/proxy/src/buffer.h:98-128 | `data_size_` is the number of bytes queued |
| `Buffers.Buffer.Acyclic` | container-tools/cc/aws/proxy/src/buffer.h:148-158 | the chain of a buffer is acyclic, ends in null and shares no block with the free list |
| `Buffers.BuffersAreApart` | container-tools/cc/aws/proxy/src/buffer.h:148-158 | two buffers on one free list share no block |
| `Buffers.KeptValid` | container-tools/cc/aws/proxy/src/freelist.h:35-92 | what one buffer does with the free list leaves every other buffer on it intact |
| `BufferPairs.ReserveAtLeast` | container-tools/cc/aws/proxy/src/proxy_bridge.h:150-152 | on one of two buffers, which share a free list or have one each, it is the reservation of a byte queue, of a size within a block of that asked for, and the other buffer does not change |
| `BufferPairs.Receive` | container-tools/cc/aws/proxy/src/proxy_bridge.cc:92-133 | a socket that writes into the memory handed out changes neither queue, and what is in flight then starts with its data |
| `BufferPairs.Commit` | container-tools/cc/aws/proxy/src/proxy_bridge.h:150-152 | likewise, the commit of a byte queue |
| `BufferPairs.Peek` | container-tools/cc/aws/proxy/src/proxy_bridge.h:150-152 | likewise, the peek of a byte queue; memory in flight keeps its content |
| `BufferPairs.Drain` | container-tools/cc/aws/proxy/src/proxy_bridge.h:150-152 | likewise, the drain of a byte queue; a reservation outstanding keeps its spans, and the memory in flight its content |
| `Socks5.StepProgresses` | container-tools/cc/aws/proxy/src/socks5_state.cc:70-311 | a step that asks to be repeated lowers the rank of the state, so the loop ends |
| `Socks5.RunResumes` | container-tools/cc/aws/proxy/src/proxy_bridge.cc:67-85 | stopping for lack of bytes and going on with more is the same as having had them at once |
| `Socks5.FragmentationIndependent` | container-tools/cc/aws/proxy/src/proxy_bridge.cc:67-85 | however the input is cut into reads, the handshake ends in the same state, with the same calls in the same order and the same bytes unread |
| `Socks5.RunAccepts` | container-tools/cc/aws/proxy/src/socks5_state.cc:70-311 | in every state, the bytes taken are exactly the part of a greeting and request (sections 3 and 4 of RFC 1928) that leads there, and the calls made are those it calls for, with the address bytes that were sent; connect is called at most once and after the greeting reply |
| `Socks5.RestIsSuffix` | container-tools/cc/aws/proxy/src/socks5_state.cc:70-311 | the handshake takes bytes off the front only |
| `Socks5.ServesConnect` | container-tools/cc/aws/proxy/src/socks5_state.cc:128-240 | for every well-formed CONNECT, how the answers of the callbacks decide the state and the calls made, down to whether the last reply goes out; bytes behind the request are never touched |
| `Socks5.WaitsForConnectIff` | container-tools/cc/aws/proxy/src/socks5_state.cc:70-311 | the handshake comes to wait for an outgoing connection if and only if the input begins with a greeting that offers no authentication and a CONNECT to an Internet address, the greeting was answered and the connection started |
| `Socks5.ServesBind` | container-tools/cc/aws/proxy/src/socks5_state.cc:241-271 | for every well-formed BIND, the port asked for reaches the bind callback and the port bound is in the reply |
| `Socks5.CompleteDeliversIff` | container-tools/cc/aws/proxy/src/socks5_state.cc:313-332 | the answer is true, and the state success, exactly if a request was waiting; that the reply was then delivered holds if and only if it could be sent |
| `Socks5.CompleteReports` | container-tools/cc/aws/proxy/src/socks5_state.cc:35-66 | the last reply carries type, address and port of the near side of the connection for a CONNECT and of the far side for a BIND, or is the general failure if that cannot be told |
| `Socks5.SuccessUndelivered` | container-tools/cc/aws/proxy/src/socks5_state.cc:326-331 | for every greeting and every CONNECT to an Internet address, a client that leaves after the greeting while the connection is being made has its request completed with success and no reply delivered |
| `Socks5.ResponseDeliversIff` | container-tools/cc/aws/proxy/src/socks5_state.cc:284-297 | where the connection was there at once, success holds if and only if the reply was delivered |
| `Socks5.SizeDependsOnCutIff` | container-tools/cc/aws/proxy/src/socks5_state.cc:70-182 | for every input and environment: some cut into reads leaves another size than the input read at once if and only if the greeting header, the greeting (its methods or its reply) or the request header fails with at least as many bytes behind it as it has: 2, NMETHODS or 4 |
| `Socks5.RunResumesExactly` | container-tools/cc/aws/proxy/src/proxy_bridge.cc:67-85 | while nothing has failed, stopping for want of bytes and going on leaves no trace at all; once failed, the machine stays and further bytes pile up behind it |
| `Socks5.FailedKeepsOrDrops` | container-tools/cc/aws/proxy/src/socks5_state.cc:302-305 | reads that reach a failed handshake leave its size, or clear it, which takes as many bytes as it says |
| `Socks5.StaleSizeDependsOnCut` | container-tools/cc/aws/proxy/src/socks5_state.cc:79-100 | a shortest such input: after it a failed handshake waits for two bytes or for none, depending on how it was cut |
| `Socks5.PortBytes` | container-tools/cc/aws/proxy/src/socks5_state.cc:259-266 | the two bytes of a port denote it in network byte order |
| `Socks5Server.Socks5State.constructor` | container-tools/cc/aws/proxy/src/socks5_state.h:77-80 | a new handshake waits for the two bytes of a greeting |
| `Socks5Server.Socks5State.Proceed` | container-tools/cc/aws/proxy/src/socks5_state.cc:70-311 | on a linked buffer, one transition of the handshake: state, calls, bytes left and answer |
| `Socks5Server.Socks5State.ConnectionSucceed` | container-tools/cc/aws/proxy/src/socks5_state.cc:313-332 | the completion of the handshake: state, calls and answer; it is true exactly if a request was waiting, and the reply was then delivered exactly if it could be sent |
| `Socks5Server.Socks5State.MakeResp` | container-tools/cc/aws/proxy/src/socks5_state.cc:35-66 | the reply is built from the address the callback reports, or is the fixed error reply |
| `Socks5Server.Socks5State.AfterBind` | container-tools/cc/aws/proxy/src/socks5_state.cc:241-271 | the last two bytes of the address are the port that is bound; the reply is sent unless binding failed |
| `Socks5Server.RunHandshake` | container-tools/cc/aws/proxy/src/proxy_bridge.cc:74-75 | the loop over Proceed ends, in the state and with the bytes left that the handshake function gives |
| `Pipes.ScheduleKeeps` | container-tools/cc/aws/proxy/src/proxy_bridge.cc:92-133 | scheduling keeps the invariant of a direction and leaves nothing unstarted that could be started |
| `Pipes.ScheduleOrder` | container-tools/cc/aws/proxy/src/proxy_bridge.cc:92-133 | the order in which read and write are tried does not matter |
| `Pipes.ReadKeeps` | container-tools/cc/aws/proxy/src/proxy_bridge.cc:135-153 | a completed read, with any error and any size, keeps fidelity, the half-close condition and the bound |
| `Pipes.WriteKeeps` | container-tools/cc/aws/proxy/src/proxy_bridge.cc:196-214 | likewise for a completed write |
| `Pipes.NoStall` | container-tools/cc/aws/proxy/src/proxy_bridge.cc:92-214 | a direction has nothing in flight only if its sink is gone, or its source has ended and everything read has been written |
| `Pipes.ShutMeansDone` | container-tools/cc/aws/proxy/src/proxy_bridge.cc:135-214 | when the sink is shut down everything read has been written and nothing is in flight |
| `Pipes.ShutIsFinal` | container-tools/cc/aws/proxy/src/proxy_bridge.cc:135-214 | from then on nothing completes and nothing is started |
| `Pipes.SinkGoneIsFinal` | container-tools/cc/aws/proxy/src/proxy_bridge.cc:92-214 | once the sink of a direction is gone, nothing more is written, and at most the read in flight still completes |
| `Pipes.DoneTold` | container-tools/cc/aws/proxy/src/proxy_bridge.cc:135-214 | after any completions: everything the reads delivered, with or without a failure, is in the input, and as many bytes are in the output as the writes took; the source has ended if and only if a read has failed, its receiving side is shut down if and only if a write has failed, and the sink is gone if and only if a write has failed or has emptied the queue of a source that ended |
| `Pipes.HalfCloseIff` | container-tools/cc/aws/proxy/src/proxy_bridge.cc:135-214 | the sending side of the sink is shut down if and only if a read has failed and as many bytes were written as were delivered |
| `Bridge.HandshakeReadKeeps` | container-tools/cc/aws/proxy/src/proxy_bridge.cc:67-90 | a completed read of the handshake keeps the invariant: bytes read = bytes taken + bytes queued, and the bytes taken are what the handshake state says |
| `Bridge.EstablishedKeeps` | container-tools/cc/aws/proxy/src/proxy_bridge.cc:216-225 | the hand-over to forwarding keeps the invariant, with payload that came with the request still queued |
| `Bridge.NextKeeps` | container-tools/cc/aws/proxy/src/proxy_bridge.cc:67-315 | every handler keeps the invariant, whatever completes and however, and meets what the buffers assert |
| `Bridge.RunKeeps` | container-tools/cc/aws/proxy/src/proxy_bridge.cc:67-315 | every run keeps that invariant |
| `Bridge.StreamFidelity` | container-tools/cc/aws/proxy/src/proxy_bridge.cc:67-214 | in every state of every run, bytes read from the client = handshake header + bytes written to the destination + bytes queued, where the header is exactly the greeting and the request acted upon; bytes read from the destination = bytes written to the client + bytes queued |
| `Bridge.HeaderLength` | container-tools/cc/aws/proxy/src/socks5_state.cc:79-271 | that header is 2 + NMETHODS + 4 + 6 or 18 bytes |
| `Bridge.ForwardingSafety` | container-tools/cc/aws/proxy/src/proxy_bridge.cc:92-214 | in every forwarding state of every run, for both directions: the sink is shut down if and only if the source has ended and nothing is queued, and then all bytes were written and nothing is in flight; nothing stalls; the queue never exceeds the maximum + read size + block capacity - 2 |
| `Bridge.ShutForever` | container-tools/cc/aws/proxy/src/proxy_bridge.cc:135-214 | a direction that was shut down never changes again, in any run |
| `Bridge.FailedForever` | container-tools/cc/aws/proxy/src/proxy_bridge.cc:67-90 | a failed handshake never leads to forwarding, in any run, although the session may go on reading |
| `SessionHistory.NextTold` | container-tools/cc/aws/proxy/src/proxy_bridge.cc:67-225 | every completion of every operation keeps what the events of the run tell of the session |
| `SessionHistory.ForwardsIff` | container-tools/cc/aws/proxy/src/proxy_bridge.cc:216-225 | in every state of every run: the session forwards if and only if a connection was made or accepted and the handshake has not failed, and if and only if the handshake has succeeded; after a refused connection, or a client lost during the handshake, nothing is in flight and nothing is forwarded |
| `SessionHistory.RefusalKeeps` | container-tools/cc/aws/proxy/src/proxy_bridge.cc:216-220 | a refused connection, outgoing or inbound, changes neither the handshake, its calls, the buffers nor the streams, starts nothing and is the last event |
| `SessionHistory.EndsTold` | container-tools/cc/aws/proxy/src/proxy_bridge.cc:135-214 | in every state of every run, for both directions: the events decide which ends are open, and the sending side of a sink is shut down if and only if a read of its source has failed and everything read has been written or was the header |
| `SessionHistory.HandshakeNoStall` | container-tools/cc/aws/proxy/src/proxy_bridge.cc:67-90 | in every state before forwarding, a read from the client is in flight if and only if the handshake is short of bytes and the client was not lost; nothing is in flight only if the client was lost, the connection was refused or the handshake has failed |
| `SessionHistory.SinkGoneForever` | container-tools/cc/aws/proxy/src/proxy_bridge.cc:92-214 | in every run, a direction whose sink is gone writes nothing more, and never changes again once no read is in flight |
| `ProxyBridges.ProxyBridge.PerformSocks5Handshake` | container-tools/cc/aws/proxy/src/proxy_bridge.cc:57-65 | establishes the invariant: the session of the machine that has begun |
| `ProxyBridges.ProxyBridge.Socks5HandshakeHandler` | container-tools/cc/aws/proxy/src/proxy_bridge.cc:67-90 | on two linked buffers and the handshake object, one step of the session machine for exactly the bytes that the read left in the reserved memory; the invariant is kept |
| `ProxyBridges.ProxyBridge.ForwardTraffic` | container-tools/cc/aws/proxy/src/proxy_bridge.cc:92-133 | schedules both directions as the machine does, with reservations of a legal size; a read in flight keeps its reservation, its spans and what its memory holds |
| `ProxyBridges.ProxyBridge.ClientReadHandler` | container-tools/cc/aws/proxy/src/proxy_bridge.cc:135-153 | one step of the session machine for exactly the bytes that the read left in the reserved memory; the invariant is kept, and so is the memory of a read in flight in the other direction |
| `ProxyBridges.ProxyBridge.ClientWriteHandler` | container-tools/cc/aws/proxy/src/proxy_bridge.cc:155-174 | one step of the session machine; the invariant is kept, and so is the memory of every read in flight: its reservation, its spans and its content |
| `ProxyBridges.ProxyBridge.DestReadHandler` | container-tools/cc/aws/proxy/src/proxy_bridge.cc:176-194 | one step of the session machine for exactly the bytes that the read left in the reserved memory; the invariant is kept, and so is the memory of a read in flight in the other direction |
| `ProxyBridges.ProxyBridge.DestWriteHandler` | container-tools/cc/aws/proxy/src/proxy_bridge.cc:196-214 | one step of the session machine; the invariant is kept, and so is the memory of every read in flight: its reservation, its spans and its content |
| `ProxyBridges.ProxyBridge.ConnectHandler` | container-tools/cc/aws/proxy/src/proxy_bridge.cc:216-225 | one step of the session machine; the invariant is kept, and so is the memory of every read in flight: its reservation, its spans and its content |
| `ProxyBridges.ProxyBridge.AcceptHandler` | container-tools/cc/aws/proxy/src/proxy_bridge.cc:304-315 | one step of the session machine; the invariant is kept, and so is the memory of every read in flight: its reservation, its spans and its content |
| `ProxyBridges.ProxyBridge.constructor` | container-tools/cc/aws/proxy/src/proxy_bridge.h:49-66 | a new bridge, on a shared free list or without one, is the fresh session of the machine |
| `ProxyBridges.ProxyBridge.UpIsMatched` | container-tools/cc/aws/proxy/src/proxy_bridge.h:164-171 | the `reading_*` and `writing_*` flags agree with `reserved_` and `peeked_` of the two buffers |
| `ProxyBridges.ProxyBridge.ReceiveFromClient` | container-tools/cc/aws/proxy/src/proxy_bridge.cc:96-103 | the client's socket writing into the reserved memory keeps the session and the invariant, and the memory then starts with its data, which no handler but that of this read changes, so that this one commits it; the memory of the other direction is untouched |
| `ProxyBridges.ProxyBridge.ReceiveFromDest` | container-tools/cc/aws/proxy/src/proxy_bridge.cc:115-123 | likewise for the destination's socket |
| `Client.RecvAll` | container-tools/cc/aws/proxy/src/preload.cc:294-314 | receives exactly the bytes asked for, in order, through any interruptions; fewer only at an error or the end of the stream |
| `Client.FillAddrPort` | container-tools/cc/aws/proxy/src/protocol.cc:39-62 | writes address type, address and port in place, touches nothing else, and returns the length, which is zero for other families |
| `Client.Socks5ClientConnect` | container-tools/cc/aws/proxy/src/preload.cc:341-456 | sends greeting and CONNECT as one message; the bytes taken of the reply decide the result, whether or not the connection breaks; they are exactly what parsing the whole reply takes if it does not break or the result is zero |
| `Client.ReadReply` | container-tools/cc/aws/proxy/src/preload.cc:397-455 | the reply read in two rounds into the reused buffer is parsed as one; the bytes taken decide the result |
| `Client.ParseIff` | container-tools/cc/aws/proxy/src/preload.cc:387-455 | a reply is a success if and only if it is the expected five bytes and a whole address of its type with port; any other gives the reply code of the proxy, negated, or -1 |
| `Client.ParseStops` | container-tools/cc/aws/proxy/src/preload.cc:405-455 | what follows a success reply does not matter to the client |
| `Client.RequestArrives` | container-tools/cc/aws/proxy/src/preload.cc:341-386 | for every Internet address, the server fed the client's message in any pieces recovers exactly that address and port and leaves the payload behind it unread |
| `Client.ReplyArrivesIff` | container-tools/cc/aws/proxy/src/socks5_state.cc:35-66 | the client takes the server's reply as a success, to its last byte and whatever follows, if and only if the address reported is an Internet address |
| `Client.ErrorArrives` | container-tools/cc/aws/proxy/src/socks5_state.cc:35-66 | if the server cannot tell the address the client returns -1 |
| `Client.BindMessage` | container-tools/cc/aws/proxy/src/client_session_pool.cc:75-90 | the 13-byte request carries the port in its last two bytes |
| `Client.BindArrives` | container-tools/cc/aws/proxy/src/client_session_pool.cc:75-120 | the port asked for reaches the server's bind in any fragmentation; its first 12 bytes report success and carry the bound port, and filling that in gives the request for the bound port; the state is decided by whether the reply went out |
| `SessionPool.OpenedSafeIff` | container-tools/cc/aws/proxy/src/client_session_pool.cc:140-178 | after a start both slots have a buffer, and the pool is sound, if and only if the clamped backlog is at least two |
| `SessionPool.CompletedFacts` | container-tools/cc/aws/proxy/src/client_session_pool.cc:180-321 | the operation that completes on a slot is the only one outstanding there |
| `SessionPool.ConnectKeeps` | container-tools/cc/aws/proxy/src/client_session_pool.cc:196-220 | a completed connect keeps the invariant, in bounds of both vectors |
| `SessionPool.FirstKeeps` | container-tools/cc/aws/proxy/src/client_session_pool.cc:222-252 | a completed first response keeps the invariant; until the pool is full its last slot is still on the way to its first response |
| `SessionPool.MessageReports` | container-tools/cc/aws/proxy/src/client_session_pool.cc:264-273 | the message for the application carries the address and port of the second response |
| `SessionPool.SecondKeeps` | container-tools/cc/aws/proxy/src/client_session_pool.cc:254-280 | a completed second response keeps the invariant |
| `SessionPool.SendKeeps` | container-tools/cc/aws/proxy/src/client_session_pool.cc:282-321 | a completed wait for the application keeps the invariant; what is handed over has both responses behind it |
| `SessionPool.NextKeeps` | container-tools/cc/aws/proxy/src/client_session_pool.cc:180-339 | every completion, in any order and with any outcome, keeps the invariant and stays in bounds |
| `SessionPool.NextGrows` | container-tools/cc/aws/proxy/src/client_session_pool.cc:222-252 | the pool grows by at most one slot at a time, and only when the last slot gets a successful first response; nothing is handed over after the stop |
| `SessionPool.PoolSafety` | container-tools/cc/aws/proxy/src/client_session_pool.cc:153-321 | over all runs from a clamped backlog of at least two: at most that many slots, each with a buffer and exactly one outstanding operation until the stop; a descriptor is handed over only after both responses to a BIND for the right port were read in full with REP 0 since the last reconnect, with the address the second one reported |
| `PoolHistory.NextTold` | container-tools/cc/aws/proxy/src/client_session_pool.cc:196-327 | every completion keeps what the events of the run tell of the pool |
| `PoolHistory.PoolTold` | container-tools/cc/aws/proxy/src/client_session_pool.cc:153-327 | over all runs: the pool has stopped if and only if the application is gone; until then each connection waits for what its last completion calls for, starting over if and only if that was a failure or a hand-over; failures and hand-overs were counted once each; while there is room the last connection is on its way |
| `SessionPool.SecondResponseFitsIff` | container-tools/cc/aws/proxy/src/client_session_pool.cc:254-273 | the proxy's second response has the size the pool reads if and only if it reports an IPv6 address, which the application is then told; for IPv4 the read takes twelve bytes of payload as address |
| `SessionPool.ClientSessionPool.Start` | container-tools/cc/aws/proxy/src/client_session_pool.cc:47-178 | succeeds exactly if every exchange does, the proxy bound the port and the backlog is not negative; the pool is then the opened one, the request holds the bound port, and the invariant holds if and only if the clamped backlog is at least two |
| `SessionPool.ClientSessionPool.InitiateSocket` | container-tools/cc/aws/proxy/src/client_session_pool.cc:180-194 | a slot with nothing outstanding begins a new connection, and no other slot changes |
| `SessionPool.ClientSessionPool.HandleConnect` | container-tools/cc/aws/proxy/src/client_session_pool.cc:196-220 | one step of the pool machine from and to its invariant |
| `SessionPool.ClientSessionPool.Handle1stResp` | container-tools/cc/aws/proxy/src/client_session_pool.cc:222-252 | one step of the pool machine from and to its invariant |
| `SessionPool.ClientSessionPool.Handle2ndResp` | container-tools/cc/aws/proxy/src/client_session_pool.cc:254-280 | one step of the pool machine from and to its invariant |
| `SessionPool.ClientSessionPool.HandleSendFd` | container-tools/cc/aws/proxy/src/client_session_pool.cc:282-321 | one step of the pool machine from and to its invariant |
| `SessionPool.ClientSessionPool.HandleClientError` | container-tools/cc/aws/proxy/src/client_session_pool.cc:323-327 | one step of the pool machine from and to its invariant |
| `Mbs.GlimpseMore` | mbs/java/com/google/mbs/adapters/S3KeyBackupStorage.java:127-178 | reading without the lock, artifact by artifact, while another instance writes: an incomplete backup is never seen, and a complete one is the published one |
| `Mbs.RecheckSees` | mbs/java/com/google/mbs/KmsMeasurementBoundCertificateProvider.java:188-194 | under the lock the four reads are a snapshot: not found, partially written or complete exactly as many artifacts have been written |
| `Mbs.PutKeeps` | mbs/java/com/google/mbs/adapters/S3KeyBackupStorage.java:182-200 | each write of a put, failing or not, with or without effect, keeps the invariant: the store is a prefix of the one published backup |
| `Mbs.AcquireKeeps` | mbs/java/com/google/mbs/adapters/S3KeyBackupStorage.java:78-101 | taking the lock, with any outcome, keeps the invariant: nobody else is under it |
| `Mbs.ReleaseKeeps` | mbs/java/com/google/mbs/adapters/S3KeyBackupStorage.java:103-118 | removing the lock, with any outcome, keeps the invariant |
| `Mbs.RecheckKeeps` | mbs/java/com/google/mbs/KmsMeasurementBoundCertificateProvider.java:188-194 | the second look, under the lock, keeps the invariant: generating begins only in a pristine store |
| `Mbs.NextKeeps` | mbs/java/com/google/mbs/KmsMeasurementBoundCertificateProvider.java:145-285 | every step of every instance, every failure and crash, and every removal of a leftover lock keep the invariant |
| `Mbs.PutBeginsPristine` | mbs/java/com/google/mbs/KmsMeasurementBoundCertificateProvider.java:179-196 | in every reachable state, for any number of instances, a put is about to begin only in a pristine store, by the holder of the lock, with nobody else under it and every earlier put over without having written anything |
| `Mbs.AtMostOneEffective` | mbs/java/com/google/mbs/KmsMeasurementBoundCertificateProvider.java:265-285 | in every reachable state all puts that began, but at most one, ended without having written anything |
| `Mbs.TwoPutsCanBegin` | mbs/java/com/google/mbs/KmsMeasurementBoundCertificateProvider.java:188-195 | that a put begins at most once is false: a run in which the first write of one fails without effect, the operator removes the lock, and another begins |
| `Mbs.AnotherPutIff` | mbs/java/com/google/mbs/KmsMeasurementBoundCertificateProvider.java:188-195 | for any number of instances and of puts that have begun, another put can begin in some run from a reachable state if and only if the store is pristine there |
| `Mbs.NextGrows` | mbs/java/com/google/mbs/KmsMeasurementBoundCertificateProvider.java:179-196 | no artifact is ever overwritten or lost, and what is published stays |
| `Mbs.Agreement` | mbs/java/com/google/mbs/KmsMeasurementBoundCertificateProvider.java:121-127 | whatever any two instances serve, at the same or different times of a run, is the same backup: the published one, complete in the store, which passed the key check |
| `Mbs.ServedChanges` | mbs/java/com/google/mbs/KmsMeasurementBoundCertificateProvider.java:130-143 | what is served changes only by a successful check of the published backup, or a crash |
| `Mbs.Retention` | mbs/java/com/google/mbs/KmsMeasurementBoundCertificateProvider.java:130-143 | in every run without a crash of the instance, what it serves outlives every failed reload |
| `Mbs.CompleteStep` | mbs/java/com/google/mbs/KmsMeasurementBoundCertificateProvider.java:163-207 | in a complete store every successful operation of a reload, wherever it stands, brings it one step closer to serving the published backup, with any lock in place; the exception, a reload that missed an artifact earlier and has had its retry, ends and leaves what is served |
| `Mbs.TriesLockIff` | mbs/java/com/google/mbs/KmsMeasurementBoundCertificateProvider.java:179-187 | once the store is complete, an instance comes to try the lock in some run if and only if it is already about to |
| `Mbs.GetsToCheckIff` | mbs/java/com/google/mbs/KmsMeasurementBoundCertificateProvider.java:147-177 | a reload of a complete store, wherever it stands, can by its own operations get to the check of the backup if and only if it has not used its retry, or else neither missed an artifact earlier nor is about to take a lock that is taken |
| `Mbs.ReloadServes` | mbs/java/com/google/mbs/KmsMeasurementBoundCertificateProvider.java:163-177 | from every such place, if the backup passes its check, it serves it; a lock that it did not take stays as it is, and one that it took or takes is removed |
| `MbsStores.FirstReloadServes` | mbs/java/com/google/mbs/KmsMeasurementBoundCertificateProvider.java:163-196 | on a pristine store without a lock a reload that nothing goes wrong with generates a backup, writes all of it, removes the lock and serves it, whatever the other instances are doing |
| `MbsStores.ClassifyIff` | mbs/java/com/google/mbs/adapters/S3KeyBackupStorage.java:142-178 | for any four objects: not found if and only if nothing is there, partially written if and only if something but no certificate is, incomplete if and only if a certificate is there and something is missing, and a given backup if and only if the objects are its four parts |
| `MbsStores.LookConcludes` | mbs/java/com/google/mbs/KmsMeasurementBoundCertificateProvider.java:179-207 | for any store, also one the protocol cannot have left: nothing found leads to the lock or to generating, something without a certificate to the one retry, a certificate with something missing to the end of the attempt, and everything to loading |
| `MbsStores.StartsOverIff` | mbs/java/com/google/mbs/KmsMeasurementBoundCertificateProvider.java:145-161 | an attempt starts over if and only if it has not done so yet and the lock was reported as taken or a look found something without a certificate; every failure ends it |
| `MbsStores.FoundIsLeftAlone` | mbs/java/com/google/mbs/KmsMeasurementBoundCertificateProvider.java:198-207 | in every run of instances that start on a store in which anything at all is found, whatever it is, nobody takes the lock, generates or writes, and nobody comes to serve anything but a complete backup that is there and passes its check |
| `Mbs.StrandsIff` | mbs/java/com/google/mbs/KmsMeasurementBoundCertificateProvider.java:179-196 | a step leaves a lock behind with nobody under it if and only if it ends an attempt under the lock, by a failure, retry or crash other than a removal that had its effect, or creates the lock and reports a failure |
| `Mbs.LeavesLockIff` | mbs/java/com/google/mbs/KmsMeasurementBoundCertificateProvider.java:190-195 | an attempt that ends under the lock leaves it in place, with nobody under it, unless the removal has had its effect |
| `Mbs.AbandonedFreezes` | mbs/java/com/google/mbs/KmsMeasurementBoundCertificateProvider.java:190-195 | the point of the missing try/finally: from a lock left behind, in every run in which no operator removes it, it stays, no put begins and no object of the store changes; in a store that is not complete nobody comes to serve anything |
| `Provider.CertificateProvider.KeyBackupExists` | mbs/java/com/google/mbs/KmsMeasurementBoundCertificateProvider.java:199-207 | one look at the store, of which the four objects are known: it says yes if and only if all are there, no if and only if none is, throws the transient exception if and only if some are but no certificate, and the other if and only if a certificate is but not all; or an access failed |
| `Provider.CertificateProvider.GenerateMissingKeyBackup` | mbs/java/com/google/mbs/KmsMeasurementBoundCertificateProvider.java:179-196 | a return means that its last operation was the first look, or the removal of the lock, after which there is none; after an exception from an operation made under the lock, the lock is left behind with nobody under it if and only if that operation was not a removal that had its effect |
| `Provider.CertificateProvider.GenerateAndStoreKeyBackup` | mbs/java/com/google/mbs/KmsMeasurementBoundCertificateProvider.java:265-285 | generates and writes the four artifacts, or throws |
| `Provider.CertificateProvider.LoadExistingKeyBackup` | mbs/java/com/google/mbs/KmsMeasurementBoundCertificateProvider.java:174-177 | returns only with the published backup being served |
| `Provider.CertificateProvider.ReloadCertificateOnce` | mbs/java/com/google/mbs/KmsMeasurementBoundCertificateProvider.java:163-172 | returns only with the published backup being served, or throws what was thrown |
| `Provider.CertificateProvider.ReloadCertificate` | mbs/java/com/google/mbs/KmsMeasurementBoundCertificateProvider.java:130-161 | with one retry; the whole call is a run of the machine, whatever others do between its operations; if it returns the published backup is served, if it throws what is served is unchanged |
| `Provider.CertificateProvider.AcquireLock` | mbs/java/com/google/mbs/adapters/S3KeyBackupStorage.java:78-101 | the exception is the transient one exactly if the store reports the lock as taken, and a lock is then in place; a return means that this instance has it |
| `Provider.CertificateProvider.ReleaseLock` | mbs/java/com/google/mbs/adapters/S3KeyBackupStorage.java:103-118 | returns with no lock in place, or throws |
| `Provider.CertificateProvider.GetKeyBackup` | mbs/java/com/google/mbs/adapters/S3KeyBackupStorage.java:127-178 | what four reads in order, of the objects as they were each time, make of the store; or the access failure |
| `Provider.CertificateProvider.PutKeyBackup` | mbs/java/com/google/mbs/adapters/S3KeyBackupStorage.java:182-200 | writes the artifacts in order, the certificate last, or throws at the first failure |
| `Encodings.FieldDecodesIff` | java/com/google/pes/domain/PreAuthenticationEncoding.java:70-74 | bytes decode to a field and a rest if and only if they are its length framing followed by the rest |
| `Encodings.PaeDecodesIff` | java/com/google/pes/domain/PreAuthenticationEncoding.java:53-74 | bytes decode to four fields if and only if they are their encoding |
| `Encodings.PaeInjective` | java/com/google/pes/domain/PreAuthenticationEncoding.java:53-74 | equal encodings imply equal statement, verification material, signature and log id |
| `Encodings.PaeLayout` | java/com/google/pes/domain/PreAuthenticationEncoding.java:33-74 | byte by byte: PES, then for statement, material, signature and log id in this order a space, the decimal length, a space and the part |
| `Encodings.Calculate` | java/com/google/pes/domain/PreAuthenticationEncoding.java:53-67 | the parts collected in a list and joined are the encoding, and decode to the fields |
| `Encodings.ValueOfDecimal` | java/com/google/pes/domain/PreAuthenticationEncoding.java:71 | a length in decimal denotes itself |
| `Encodings.UnescapeInverts` | java/com/google/pes/domain/CallerIdentity.java:38-48 | escaping has a left inverse on every UTF-16 string |
| `Encodings.EscapedIsSafe` | java/com/google/pes/domain/CallerIdentity.java:50-57 | only letters, digits, hyphen, period and underscore come out, so no slash |
| `Encodings.EscapesIff` | java/com/google/pes/domain/CallerIdentity.java:38-57 | a code unit passes unescaped if and only if it is a letter, a digit, a hyphen or a period; any other becomes an underscore and its four hexadecimal digits in lower case |
| `Encodings.Escape` | java/com/google/pes/domain/CallerIdentity.java:38-48 | the loop computes an escaped string that unescapes to its input and has no slash |
| `Encodings.IdentitiesDistinct` | java/com/google/pes/domain/CallerIdentity.java:34-36 | policy keys are equal if and only if the publisher ids are, and client ids if and only if issuer and subject are |
| `Endorsements.EarliestCertificateExpiry` | java/com/google/pes/domain/PublicEndorsementService.java:128-133 | the expiry of some certificate and no later than that of any; none exactly if there are none |
| `Endorsements.StepFaithful` | java/com/google/pes/domain/PublicEndorsementService.java:77-126 | each step of a request leads only where its checks allow, with the snapshot it started with |
| `Endorsements.EndorsementSafety` | java/com/google/pes/domain/PublicEndorsementService.java:77-126 | over all runs of concurrent requests and reloads: every post follows successful statement, policy and signature checks; every endorsement returned was posted and has one signature per certificate of one snapshot, over the encoding of its own fields, and expires no later than any of those certificates |
| `Endorsements.EndorsedIff` | java/com/google/pes/domain/PublicEndorsementService.java:77-126 | in any run, whatever other requests and reloads do: a request has its endorsement if and only if, for the certificates active when it was taken up, the format is known, there are any, the statement is valid no longer than each, the policy under its escaped publisher id is that publisher's and names caller and material, the signature is valid, the log took the post and every certificate signed; it is refused if and only if one of these failed; it is posted once or not at all, and the receipt is that of its post |
| `Endorsements.ActiveIsLatest` | java/com/google/pes/domain/PublicEndorsementService.java:82-89 | in any run the certificates a request is checked against and signed with are those of the latest reload before it is taken up, and every request that came in is processed |
| `Endorsements.NextKeeps` | java/com/google/pes/domain/EndorsementVerifier.java:66-127 | every step of every request, and every reload, keeps that invariant |
| `Endorsements.SignedBytesIdentify` | java/com/google/pes/domain/PublicEndorsementService.java:105-107 | endorsements over the same signed bytes agree in statement, material, signature and log id |
| `EndorsementService.RequestHandler.CreateEndorsement` | java/com/google/pes/domain/PublicEndorsementService.java:77-126 | the structured code: the whole call is a run of the machine, whatever others do between its operations; it returns, with what the machine returns, if and only if the request is endorsed as above, and throws if and only if one of those things failed |
| `EndorsementService.RequestHandler.TakeSnapshot` | java/com/google/pes/domain/PublicEndorsementService.java:78-89 | one snapshot of the active certificates, with the earliest expiry found by the loop over them |
| `EndorsementService.RequestHandler.ParseAndVerify` | java/com/google/pes/domain/EndorsementVerifier.java:66-127 | the checks in sequence pass exactly if the statement is acceptable for the limit |
| `EndorsementService.RequestHandler.VerifyPublisher` | java/com/google/pes/domain/PublisherVerifier.java:45-81 | passes exactly if the policy under the escaped id covers caller, publisher and verification material |
| `EndorsementService.RequestHandler.Sign` | java/com/google/pes/domain/PublicEndorsementService.java:105-126 | the loop over the snapshot returns one signature per certificate over the encoding that was calculated |
| `Jwks.OidcJwksKeyFetcher.Get` | java/com/google/pes/adapters/oidc/OidcJwksKeyFetcher.java:86-91 | the loading cache asks the endpoint if and only if it is empty or its last answer is past its max-age, holds what was answered last, and keeps the spacing of fetches |
| `Jwks.OidcJwksKeyFetcher.GetKey` | java/com/google/pes/adapters/oidc/OidcJwksKeyFetcher.java:100-119 | which questions are asked, and the outcome, which is a lookup in the last answer, follow from the last answer before the call and the answers to this one |
| `Jwks.LoadedKeeps` | java/com/google/pes/adapters/oidc/OidcJwksKeyFetcher.java:198-215 | loading keeps the spacing of fetches, and what is held is the last answer with its expiry, storing time plus max-age in seconds |
| `Jwks.NextKeeps` | java/com/google/pes/adapters/oidc/OidcJwksKeyFetcher.java:100-124 | every call under a non-decreasing clock keeps the spacing of fetches and what is held |
| `Jwks.NextDecides` | java/com/google/pes/adapters/oidc/OidcJwksKeyFetcher.java:100-124 | a call asks the endpoint if and only if its last answer is past its max-age, and once more if and only if the key is missing and what is at hand was fetched more than a minute before |
| `Jwks.KeysAreFresh` | java/com/google/pes/adapters/oidc/OidcJwksKeyFetcher.java:100-124 | over all runs: a key returned without a question is in the last answer, which is within its max-age; from the end of its max-age on, every call asks; and a call for a missing key asks again if and only if the answer is more than a minute old |
| `Jwks.MissesBounded` | java/com/google/pes/adapters/oidc/OidcJwksKeyFetcher.java:107-124 | over all runs: two consecutive fetches within a minute mean that the earlier had expired, and fetches triggered by missing keys in any window number at most one more than its minutes |
| `Tags.DependencySubgraph` | container-tools/.devkit/scripts/docker/build.py:280-287 | the worklist ends, having visited exactly what is reachable from the targets |
| `Tags.SubgraphOrdered` | container-tools/.devkit/scripts/docker/build.py:289-293 | the sorted subgraph lists every dependency before its dependents and holds exactly what the targets depend on, except targets that nobody configured |
| `Tags.SortedIff` | container-tools/.devkit/scripts/docker/build.py:445-446 | sorting the arguments forgets their order and nothing else |
| `Tags.TagIgnoresOrder` | container-tools/.devkit/scripts/docker/build.py:398-407 | a tag is the same in every order in which images can be processed, hence for every target list |
| `Tags.TagExistsIff` | container-tools/.devkit/scripts/docker/build.py:409-437 | an image has a tag if and only if it and everything it depends on is configured and has a Dockerfile |
| `Tags.TagIgnoresListing` | container-tools/.devkit/scripts/docker/build.py:439-456 | a tag does not depend on the order in which a configuration lists dependencies or the extra arguments are added |
| `TagContents.TagHashes` | container-tools/.devkit/scripts/docker/build.py:409-458 | a tag is made of the image name and the hash of the Dockerfile followed by the build arguments in order, each the name of a dependency's argument, an equals sign and the dependency's tag, or an extra argument |
| `TagContents.SameTagIff` | container-tools/.devkit/scripts/docker/build.py:255-267 | under a hash and layout without collisions, two configurations give an image the same tag if and only if the pieces run together are the same, and, if the pieces have the same lengths, if and only if Dockerfile and build arguments are |
| `TagContents.RunTogether` | container-tools/.devkit/scripts/docker/build.py:255-267 | the lengths matter: text at the end of a Dockerfile and the same text as a build argument give the same tag, under any hash |
| `TagContents.ContentAddressed` | container-tools/.devkit/scripts/docker/build.py:409-458 | if the pieces have the same lengths: the same tag if and only if the configurations agree, up to the order of listing, on Dockerfiles, dependencies and extra arguments of everything the image is built from |
| `Tags.DockerBuilder.CalculateTagForImage` | container-tools/.devkit/scripts/docker/build.py:409-458 | the memoised recursion ends with the tag of plain recursion, and the memo stays right and only grows |
| `Tags.DockerBuilder.CalculateArgs` | container-tools/.devkit/scripts/docker/build.py:439-441 | one argument for each dependency, and the tags of all of them are memoised |
| `Tags.DockerBuilder.CalculateTags` | container-tools/.devkit/scripts/docker/build.py:398-407 | the tags of all images of an order; none if and only if one of them cannot be built |
| `Tags.DockerBuilder.BuildArgs` | container-tools/.devkit/scripts/docker/build.py:504-509 | once an image has its tag, the tag of every dependency is there and right |

## Left out

- Real sockets, vsock, epoll, the preload hooks, descriptor passing and the acceptor pool: only the
  message bytes and the completion of operations are modelled.
- The bridge constructed with both sockets already open: it is the session from forwarding on.
- `Freelist` under concurrency (compare-and-swap retries, memory order): its sequential behaviour is
  what the buffers rely on.
- `NumBuffersToReserve`: a capacity hint for a vector.
- Block memory is a sequence held by the block, of fixed length; a recycled block keeps what its
  memory held, a new one holds zeros, and no contract depends on either.
- Handshake callbacks that are not set, other than connect.
- The addresses of the reply are read but not used by the client, as in the source.
- SessionPool.ClientSessionPool.Start: the exchanges with the application are answers given in
  advance; message types are part of whether an exchange succeeded.
- The handlers of the session pool on several threads: each is one atomic step.
- The store behind measurement-bound storage other than its objects and lock; key generation,
  attestation, encryption and the comparison of key and certificate, which are one predicate.
- A write to the object store that takes effect after the client has given up on it.
- UTF-8 encoding of the log id: the encoding is injective in the bytes.
- Predicate types, claims and JSON of a statement: what it says is a function of its bytes.
- Metrics, logging, names of endorsements, gRPC handlers, server start-up.
- The key fetcher called from several threads at once, and the parsing of keys and of `max-age`.
- SHA-256 and the layout of a tag, which are parameters; where it matters they are without collisions.
- Pulling, building and pushing of images, and the other scripts.
