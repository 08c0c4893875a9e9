/**
The client side of the SOCKS5 handshake: the CONNECT that the preloaded library performs on a fresh
connection to the proxy, and the bytes of the BIND that the socket vendor sends.

`Socks5ClientConnect` fills and reuses one buffer and reads its reply in two rounds.  It is proved
to be `Parse` of the reply, and `Parse` is then composed with the server of module `Socks5`.
*/
module Client {
  import opened Bytes
  import opened Options
  import opened Sequences
  import S = Socks5

  // ---------------------------------------------------------------- the connection

  // How one call of recv turns out: interrupted, failed, or some bytes (none at the end of stream).
  datatype Arrival = Interrupted | Broken | Arrived(n: nat)

  // A connected stream.  `incoming` is all that the peer will ever send and has not been received;
  // `arrivals` is how it reaches the coming calls of recv, after which everything is there at once.
  class Socket {
    var incoming: seq<byte>
    var arrivals: seq<Arrival>
    var broken: bool
    var sent: seq<byte>
    var accepts: nat

    // The number received, or what is below zero for an error.
    method Recv(buf: array<byte>, at: nat, len: nat) returns (r: int, interrupted: bool)
      requires at + len <= buf.Length && len > 0
      modifies this`incoming, this`arrivals, this`broken, buf
      ensures |arrivals| <= |old(arrivals)|
      ensures r < 0 ==> incoming == old(incoming) && buf[..] == old(buf[..])
      ensures r < 0 && interrupted ==> |arrivals| < |old(arrivals)| && broken == old(broken)
      ensures r < 0 && !interrupted ==> broken
      ensures r >= 0 ==> broken == old(broken) && r <= len && r <= |old(incoming)|
      ensures r == 0 ==> old(incoming) == []
      ensures r >= 0 ==> incoming == old(incoming)[r..]
      ensures r >= 0 ==> buf[..] == Overwrite(old(buf[..]), at, old(incoming)[..r])
    {
      var arrival := if arrivals == [] then Arrived(len) else arrivals[0];
      arrivals := if arrivals == [] then [] else arrivals[1..];
      interrupted := arrival.Interrupted?;
      if !arrival.Arrived? {
        broken := broken || arrival.Broken?;
        return -1, interrupted;
      }
      r := Min(Min(len, |incoming|), if arrival.n == 0 then 1 else arrival.n);
      Copy(buf, at, incoming[..r]);
      incoming := incoming[r..];
    }

    // The kernel may take only part of the data.
    method Send(data: seq<byte>) returns (n: nat)
      modifies this`sent
      ensures n <= |data| && sent == old(sent) + data[..n]
      ensures n == |data| <==> |data| <= accepts
    {
      n := Min(|data|, accepts);
      sent := sent + data[..n];
    }
  }

  /** Receives len bytes, resuming after interruptions.  Fewer only at an error or the end of stream. */
  method RecvAll(sock: Socket, buf: array<byte>, at: nat, len: nat) returns (received: nat)
    requires at + len <= buf.Length
    modifies sock`incoming, sock`arrivals, sock`broken, buf
    ensures received <= len && received <= |old(sock.incoming)|
    ensures sock.incoming == old(sock.incoming)[received..]
    ensures buf[..] == Overwrite(old(buf[..]), at, old(sock.incoming)[..received])
    ensures received < len ==> sock.broken || sock.incoming == []
    ensures old(sock.broken) ==> sock.broken
  {
    hide Overwrite;
    OverwriteNothing(buf[..], at);
    assert sock.incoming[..0] == [];
    received := 0;
    while received < len
      invariant received <= len && received <= |old(sock.incoming)|
      invariant sock.incoming == old(sock.incoming)[received..]
      invariant buf[..] == Overwrite(old(buf[..]), at, old(sock.incoming)[..received])
      invariant old(sock.broken) ==> sock.broken
      decreases |sock.arrivals|, len - received
    {
      ghost var before := buf[..];
      var r, interrupted := sock.Recv(buf, at + received, len - received);
      if r < 0 {
        if interrupted {
          continue;
        }
        return;
      } else if r == 0 {
        OverwriteNothing(before, at + received);
        return;
      }
      SliceFurther(old(sock.incoming), received, r);
      OverwriteTwice(old(buf[..]), at, old(sock.incoming)[..received], old(sock.incoming)[received..][..r]);
      received := received + r;
    }
  }

  // ---------------------------------------------------------------- CONNECT

  /** ATYP, address and port in place; the length written. */
  method FillAddrPort(buf: array<byte>, at: nat, addr: S.Sockaddr) returns (n: nat)
    requires at + |S.FillAddrPort(addr)| <= buf.Length
    modifies buf
    ensures n == |S.FillAddrPort(addr)| && (n == 0 <==> addr.OtherFamily?)
    ensures buf[..] == Overwrite(old(buf[..]), at, S.FillAddrPort(addr))
  {
    if addr.OtherFamily? {
      OverwriteNothing(buf[..], at);
      return 0;
    }
    var atyp: seq<byte> := [if addr.V4? then 1 else 4];
    S.AddressBytes(addr);
    hide S.FillAddrPort, Overwrite;
    Copy(buf, at, atyp);
    Copy(buf, at + 1, addr.addr);
    Copy(buf, at + 1 + |addr.addr|, addr.port);
    OverwriteTwice(old(buf[..]), at, atyp, addr.addr);
    OverwriteTwice(old(buf[..]), at, atyp + addr.addr, addr.port);
    S.Regroup([], atyp, addr.addr, addr.port);
    n := 3 + |addr.addr|;
  }

  // Greeting and request in one message.
  ghost function ConnectMessage(addr: S.Sockaddr): seq<byte> {
    [5, 1, 0] + S.ConnectRequest(addr)
  }

  const EXPECTED_REPLY: seq<byte> := [5, 0, 5, 0, 0]

  // How many bytes of the reply follow the seventh, by address type and the byte after it.
  function Outstanding(atyp: byte, extra: byte): nat {
    if atyp == 1 then 5 else if atyp == 3 then extra as nat + 2 else if atyp == 4 then 17 else 7
  }

  datatype Parsed = Parsed(code: int, used: nat)

  /** What the client makes of everything the peer sends: its result, and how much it takes. */
  function Parse(reply: seq<byte>): (p: Parsed)
    ensures p.used <= |reply| && -255 <= p.code <= 0
  {
    if |reply| < 7 then Parsed(-1, |reply|)
    else if reply[..5] != EXPECTED_REPLY then Parsed(if reply[3] != 0 then -(reply[3] as int) else -1, 7)
    else
      var end := 7 + Outstanding(reply[5], reply[6]);
      if |reply| < end then Parsed(-1, |reply|) else Parsed(0, end)
  }

  // The address and port of a reply, as the client reads them: four bytes for type 1, a name with its
  // length in front for type 3, sixteen for type 4, each with two for the port.  Of a type it does not
  // know it takes nine bytes.
  ghost predicate IsBoundAddress(a: seq<byte>) {
    |a| >= 2 &&
    |a| == if a[0] == 1 then 1 + 4 + 2 else if a[0] == 3 then 1 + 1 + a[1] as int + 2
           else if a[0] == 4 then 1 + 16 + 2 else 9
  }

  /** Exactly which replies are a success, and what is made of the others: the reply code of the proxy,
      negated, if there is one. */
  lemma {:induction false} ParseIff(reply: seq<byte>)
    ensures Parse(reply).code == 0 <==>
              [5, 0, 5, 0, 0] <= reply && exists n :: 5 <= n <= |reply| && IsBoundAddress(reply[5..n])
    ensures Parse(reply).code == 0 ==> Parse(reply).used >= 5 && IsBoundAddress(reply[5..Parse(reply).used])
    ensures Parse(reply).code != 0 && |reply| >= 7 && !([5, 0, 5, 0, 0] <= reply) ==>
              Parse(reply).used == 7 && Parse(reply).code == if reply[3] == 0 then -1 else -(reply[3] as int)
    ensures Parse(reply).code != 0 && (|reply| < 7 || [5, 0, 5, 0, 0] <= reply) ==>
              Parse(reply).used == |reply| && Parse(reply).code == -1
  {
    if |reply| >= 7 && reply[..5] == EXPECTED_REPLY {
      var end := 7 + Outstanding(reply[5], reply[6]);
      if end <= |reply| {
        assert IsBoundAddress(reply[5..end]);
      }
      forall n | 5 <= n <= |reply| && IsBoundAddress(reply[5..n]) ensures n == end {
        assert reply[5..n][0] == reply[5] && reply[5..n][1] == reply[6];
      }
    }
  }

  // What has been received since.
  ghost function Taken(before: seq<byte>, after: seq<byte>): seq<byte>
    requires |after| <= |before|
  {
    before[..|before| - |after|]
  }

  // The bytes the client has taken decide its result.  They are what it parses of the whole reply,
  // unless the connection broke.
  ghost predicate IsResult(reply: seq<byte>, rest: seq<byte>, broken: bool, code: int) {
    && |rest| <= |reply| && rest == reply[|reply| - |rest|..]
    && code == Parse(Taken(reply, rest)).code
    && (code == 0 || !broken ==> code == Parse(reply).code && rest == reply[Parse(reply).used..])
  }

  lemma {:induction false} ResultAfter(reply: seq<byte>, n: nat, broken: bool, code: int)
    requires n <= |reply| && code == Parse(reply[..n]).code
    requires code == 0 || !broken ==> code == Parse(reply).code && n == Parse(reply).used
    ensures IsResult(reply, reply[n..], broken, code)
  {
    assert Taken(reply, reply[n..]) == reply[..n];
  }

  // The first round: what was received of seven bytes.
  lemma {:induction false} FirstRound(reply: seq<byte>, n: nat, broken: bool)
    requires n <= |reply| && n <= 7 && (n < 7 ==> broken || reply[n..] == [])
    ensures n < 7 ==> IsResult(reply, reply[n..], broken, -1)
    ensures n == 7 && reply[..5] != EXPECTED_REPLY ==>
              IsResult(reply, reply[n..], broken, if reply[3] != 0 then -(reply[3] as int) else -1)
  {
    assert n == 7 ==> reply[..n][..5] == reply[..5] && reply[..n][3] == reply[3];
    if n < 7 {
      ResultAfter(reply, n, broken, -1);
    } else if reply[..5] != EXPECTED_REPLY {
      ResultAfter(reply, n, broken, if reply[3] != 0 then -(reply[3] as int) else -1);
    }
  }

  // The second round: what was received of the bytes outstanding.
  lemma {:induction false} SecondRound(reply: seq<byte>, n: nat, broken: bool)
    requires |reply| >= 7 && reply[..5] == EXPECTED_REPLY && 7 + n <= |reply|
    requires n <= Outstanding(reply[5], reply[6])
    requires n < Outstanding(reply[5], reply[6]) ==> broken || reply[7 + n..] == []
    ensures IsResult(reply, reply[7 + n..], broken, if n == Outstanding(reply[5], reply[6]) then 0 else -1)
  {
    var taken := reply[..7 + n];
    assert taken[..5] == reply[..5] && taken[5] == reply[5] && taken[6] == reply[6];
    ResultAfter(reply, 7 + n, broken, if n == Outstanding(reply[5], reply[6]) then 0 else -1);
  }

  // The two rounds of the reply, in the buffer that held the request.
  method ReadReply(sock: Socket, buf: array<byte>) returns (code: int)
    requires buf.Length == 64
    modifies sock`incoming, sock`arrivals, sock`broken, buf
    ensures IsResult(old(sock.incoming), sock.incoming, sock.broken, code)
  {
    hide Parse, IsResult;
    ghost var reply := sock.incoming;
    var received := RecvAll(sock, buf, 0, 7);
    FirstRound(reply, received, sock.broken);
    if received != 7 {
      return -1;
    }
    var head := buf[..7];
    assert head == reply[..7] && head[..5] == reply[..5];
    hide Overwrite;
    if head[..5] != EXPECTED_REPLY {
      return if head[3] != 0 then -(head[3] as int) else -1;
    }
    var toReceive := Outstanding(head[5], head[6]);
    var addrBuf := buf;
    if toReceive + 1 > 64 {
      addrBuf := new byte[toReceive + 1];
    }
    addrBuf[0] := head[6];
    received := RecvAll(sock, addrBuf, 1, toReceive);
    SliceFurther(reply, 7, received);
    SecondRound(reply, received, sock.broken);
    return if received != toReceive then -1 else 0;
  }

  // The whole message, in a buffer of its own.
  method FillMessage(addr: S.Sockaddr) returns (buf: array<byte>, n: nat)
    ensures fresh(buf) && buf.Length == 64 && n <= 64 && (n == 0 <==> addr.OtherFamily?)
    ensures n > 0 ==> buf[..n] == ConnectMessage(addr)
  {
    buf := new byte[64];
    Copy(buf, 0, [5, 1, 0, 5, 1, 0]);
    ghost var before := buf[..];
    assert before[..6] == [5, 1, 0, 5, 1, 0];
    var copied := FillAddrPort(buf, 6, addr);
    n := if copied == 0 then 0 else 6 + copied;
    if copied != 0 {
      ghost var wire := S.FillAddrPort(addr);
      hide S.FillAddrPort;
      MessageParts(before, wire);
    }
  }

  lemma {:induction false} MessageParts(before: seq<byte>, wire: seq<byte>)
    requires 6 + |wire| <= |before| && before[..6] == [5, 1, 0, 5, 1, 0]
    ensures Overwrite(before, 6, wire)[..6 + |wire|] == [5, 1, 0] + ([5, 1, 0] + wire)
  {
    assert Overwrite(before, 6, wire)[..6 + |wire|] == before[..6] + wire;
    assert [5, 1, 0, 5, 1, 0] == [5, 1, 0] + [5, 1, 0];
  }

  /** Zero means that the whole message was sent and a success reply was taken, to its last byte. */
  method Socks5ClientConnect(sock: Socket, addr: S.Sockaddr) returns (code: int)
    modifies sock
    ensures if addr.OtherFamily? then code == -1 && sock.sent == old(sock.sent) && sock.incoming == old(sock.incoming)
            else if |ConnectMessage(addr)| > old(sock.accepts) then code == -1 && sock.incoming == old(sock.incoming)
            else
              && sock.sent == old(sock.sent) + ConnectMessage(addr)
              && IsResult(old(sock.incoming), sock.incoming, sock.broken, code)
  {
    hide Parse, IsResult;
    var buf, n := FillMessage(addr);
    if n == 0 {
      return -1;
    }
    hide ConnectMessage;
    var sent := sock.Send(buf[..n]);
    if sent != n {
      return -1;
    }
    code := ReadReply(sock, buf);
  }

  // ---------------------------------------------------------------- CONNECT, end to end

  /** A success is read to its last byte and no further: nothing behind it matters. */
  lemma {:induction false} ParseStops(reply: seq<byte>, more: seq<byte>)
    requires Parse(reply).code == 0
    ensures Parse(reply[..Parse(reply).used] + more) == Parse(reply)
  {
    var all := reply[..Parse(reply).used] + more;
    assert all[..5] == reply[..5] && all[5] == reply[5] && all[6] == reply[6];
  }

  // Everything the server sends during the handshake, in order.
  ghost function Replies(calls: seq<S.Call>): seq<byte> {
    if calls == [] then [] else (if calls[0].Respond? then calls[0].data else []) + Replies(calls[1..])
  }

  lemma {:induction false} RepliesCons(c: S.Call, calls: seq<S.Call>)
    ensures Replies([c] + calls) == (if c.Respond? then c.data else []) + Replies(calls)
    ensures Replies([]) == []
  {
    assert ([c] + calls)[1..] == calls;
  }

  // The machine after any sequence of reads that together bring the input.
  lemma {:induction false} Fed(env: S.Env, input: seq<byte>, chunks: seq<seq<byte>>)
    requires S.Flatten(chunks) == input
    ensures S.Same(S.Feed(env, S.Stopped(S.INIT, []), chunks), S.Run(env, S.INIT, input))
  {
    assert S.Run(env, S.INIT, []) == S.Stopped(S.INIT, []);
    hide S.Run;
    S.FragmentationIndependent(env, S.INIT, [], chunks);
    assert [] + input == input;
  }

  // A server whose greeting reply goes out and whose connection to dest takes its time.
  ghost predicate Willing(env: S.Env, dest: S.Sockaddr) {
    && env.respond([], S.GREETING_REPLY) == S.OK
    && env.connect.Some?
    && env.connect.value([S.Respond(S.GREETING_REPLY)], dest) == S.InProgress
  }

  // The server, once the connection to dest has been started.
  ghost function Asked(dest: S.Sockaddr): S.Machine {
    S.Machine(S.WaitConnect, 0, [S.Respond(S.GREETING_REPLY), S.Connect(dest)])
  }

  /** The server recovers the address and port that the client asked for, however the message is cut
      into reads, and leaves what the client sends after it alone. */
  lemma {:induction false} RequestArrives(env: S.Env, dest: S.Sockaddr, payload: seq<byte>, chunks: seq<seq<byte>>)
    requires !dest.OtherFamily? && Willing(env, dest)
    requires S.Flatten(chunks) == ConnectMessage(dest) + payload
    ensures S.Feed(env, S.Stopped(S.INIT, []), chunks) == S.Stopped(Asked(dest), payload)
  {
    hide S.Feed, S.Run, S.ConnectRequest;
    Fed(env, ConnectMessage(dest) + payload, chunks);
    S.ServesConnect(env, [5, 1, 0], dest, payload);
  }

  /** The reply that completes the handshake is taken as a success, to its last byte and whatever
      payload follows, exactly if the address it reports is an Internet address. */
  lemma {:induction false} ReplyArrivesIff(env: S.Env, dest: S.Sockaddr, bound: S.Sockaddr)
    requires env.destAddress(Asked(dest).calls, false) == Some(bound)
    ensures var all := Replies(S.Complete(env, Asked(dest)).0.calls);
            !bound.OtherFamily? <==> forall payload: seq<byte> :: Parse(all + payload) == Parsed(0, |all|)
  {
    var last := [5, 0, 0] + S.FillAddrPort(bound);
    var all := S.GREETING_REPLY + last;
    RepliesOf(dest, last);
    forall payload: seq<byte> | !bound.OtherFamily? ensures Parse(all + payload) == Parsed(0, |all|) {
      assert (all + payload)[..5] == EXPECTED_REPLY;
    }
    assert bound.OtherFamily? ==> Parse(all + []).code == -1;
  }

  lemma {:induction false} RepliesOf(dest: S.Sockaddr, last: seq<byte>)
    ensures Replies(Asked(dest).calls + [S.DestAddress(false), S.Respond(last)]) == S.GREETING_REPLY + last
  {
    var r, d := S.Respond(last), S.DestAddress(false);
    RepliesCons(r, []);
    RepliesCons(d, [r]);
    RepliesCons(S.Connect(dest), [d] + [r]);
    RepliesCons(S.Respond(S.GREETING_REPLY), [S.Connect(dest)] + ([d] + [r]));
    assert Asked(dest).calls + [d, r] == [S.Respond(S.GREETING_REPLY)] + ([S.Connect(dest)] + ([d] + [r]));
    assert [r] == [r] + [];
  }

  /** If the server cannot tell the address of its connection, the client gets its error code. */
  lemma {:induction false} ErrorArrives(env: S.Env, dest: S.Sockaddr, payload: seq<byte>)
    requires env.destAddress(Asked(dest).calls, false) == None
    ensures Parse(Replies(S.Complete(env, Asked(dest)).0.calls) + payload).code == -1
  {
    RepliesOf(dest, S.ERROR_REPLY);
  }

  // ---------------------------------------------------------------- BIND

  // Greeting, request header and address 0.0.0.0; the port is to be filled in.
  const BIND_TEMPLATE: seq<byte> := [5, 1, 0, 5, 2, 0, 1, 0, 0, 0, 0]

  // Greeting and BIND in one message.
  function BindMessage(port: S.Port): (r: seq<byte>)
    ensures |r| == 13 && S.PortOf(r[11..]) == port
  {
    var r := BIND_TEMPLATE + S.PortBytes(port);
    assert r[11..] == S.PortBytes(port);
    r
  }

  /** The port asked for reaches the server's bind; the first twelve bytes it answers with report
      success and carry the port that was bound, which is then what every further connection asks. */
  lemma {:induction false} BindArrives(env: S.Env, port: S.Port, chunks: seq<seq<byte>>, payload: seq<byte>)
    requires env.respond([], S.GREETING_REPLY) == S.OK
    requires env.bind([S.Respond(S.GREETING_REPLY)], port).0 != S.Fail
    requires S.Flatten(chunks) == BindMessage(port) + payload
    ensures var s := S.Feed(env, S.Stopped(S.INIT, []), chunks);
            var bound := env.bind([S.Respond(S.GREETING_REPLY)], port).1;
            var resp := Replies(s.m.calls);
            && s.rest == payload && S.Bind(port) in s.m.calls
            && |resp| == 12 && resp[3] == 0 && resp[10..] == S.PortBytes(bound)
            && BindMessage(port)[..11] + resp[10..] == BindMessage(bound)
            && s.m.state == if env.respond([S.Respond(S.GREETING_REPLY), S.Bind(port)], S.BindReply(bound)) == S.Fail
                            then S.Failed else S.WaitAccept
  {
    hide S.Feed, S.Run, S.PortOf, S.PortBytes, S.BindReply, S.BindRequest, BindMessage, Replies;
    var any := S.V4([0, 0, 0, 0], S.PortBytes(port));
    Fed(env, BindMessage(port) + payload, chunks);
    BindMessageParts(port);
    S.ServesBind(env, [5, 1, 0], any, payload);
    var bound := env.bind([S.Respond(S.GREETING_REPLY)], port).1;
    var first, r := S.Respond(S.GREETING_REPLY), S.Respond(S.BindReply(bound));
    assert [first, S.Bind(port)] + [r] == [first, S.Bind(port), r];
    BindReplies(port, bound);
    BindBytes(port, bound);
  }

  lemma {:induction false} BindMessageParts(port: S.Port)
    ensures BindMessage(port) == [5, 1, 0] + S.BindRequest(S.V4([0, 0, 0, 0], S.PortBytes(port)))
  {
    hide S.PortBytes;
    var any := S.V4([0, 0, 0, 0], S.PortBytes(port));
    S.AddressBytes(any);
    hide S.FillAddrPort;
    assert BIND_TEMPLATE == [5, 1, 0] + [5, 2, 0] + [1] + [0, 0, 0, 0];
    Associate([5, 1, 0] + [5, 2, 0] + [1], [0, 0, 0, 0], S.PortBytes(port));
    Associate([5, 1, 0] + [5, 2, 0], [1], [0, 0, 0, 0] + S.PortBytes(port));
    Associate([5, 1, 0], [5, 2, 0], [1] + ([0, 0, 0, 0] + S.PortBytes(port)));
  }

  lemma {:induction false} BindBytes(port: S.Port, bound: S.Port)
    ensures var resp := S.GREETING_REPLY + S.BindReply(bound);
            && |resp| == 12 && resp[3] == 0 && resp[10..] == S.PortBytes(bound)
            && BindMessage(port)[..11] + resp[10..] == BindMessage(bound)
  {
    hide S.PortBytes;
    Cut(BIND_TEMPLATE, S.PortBytes(port));
    assert S.GREETING_REPLY + S.BindReply(bound) == [5, 0, 5, 0, 0, 1, 0, 0, 0, 0] + S.PortBytes(bound);
    Cut([5, 0, 5, 0, 0, 1, 0, 0, 0, 0], S.PortBytes(bound));
  }

  lemma {:induction false} BindReplies(port: S.Port, bound: S.Port)
    ensures Replies([S.Respond(S.GREETING_REPLY), S.Bind(port), S.Respond(S.BindReply(bound))])
         == S.GREETING_REPLY + S.BindReply(bound)
  {
    hide S.BindReply;
    var first, r := S.Respond(S.GREETING_REPLY), S.Respond(S.BindReply(bound));
    RepliesCons(r, []);
    RepliesCons(S.Bind(port), [r]);
    RepliesCons(first, [S.Bind(port)] + [r]);
    assert [first] + ([S.Bind(port)] + [r]) == [first, S.Bind(port), r];
    assert [r] == [r] + [];
  }
}
