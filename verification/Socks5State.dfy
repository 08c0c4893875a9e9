/**
The handshake object: it reads from a buffer and calls back, one transition at a time.  Every
method is proved against the transition functions of module Socks5.
*/
module Socks5Server {
  import opened Bytes
  import opened Options
  import opened Buffers
  import opened Socks5

  class Socks5State {
    const env: Env
    var state: State
    var required: nat
    // The callbacks made so far.
    var calls: seq<Call>

    ghost function M(): Machine
      reads this
    {
      Machine(state, required, calls)
    }

    constructor (env: Env)
      ensures this.env == env && M() == INIT
    {
      this.env := env;
      state, required, calls := GreetingHeader, 2, [];
    }

    method SendResponse(data: seq<byte>) returns (status: Status)
      modifies `calls
      ensures calls == old(calls) + [Respond(data)] && status == env.respond(old(calls), data)
    {
      status := env.respond(calls, data);
      calls := calls + [Respond(data)];
    }

    // Take exactly n bytes, which the caller knows to be there.
    method Take(buffer: Buffer, n: nat) returns (d: seq<byte>)
      requires buffer.Valid() && !buffer.peeked && n <= |buffer.Contents()|
      modifies buffer.Repr()
      ensures buffer.Valid() && !buffer.peeked && buffer.Repr() == old(buffer.Repr())
      ensures d == old(buffer.Contents())[..n] && buffer.Contents() == old(buffer.Contents())[n..]
      ensures buffer.reserved == old(buffer.reserved)
    {
      d := buffer.CopyOut(n);
    }

    // Take an address of n bytes and the port behind it.
    method TakeAddress(buffer: Buffer, n: nat) returns (addr: seq<byte>, port: seq<byte>)
      requires buffer.Valid() && !buffer.peeked && n + 2 <= |buffer.Contents()|
      modifies buffer.Repr()
      ensures buffer.Valid() && !buffer.peeked && buffer.Repr() == old(buffer.Repr())
      ensures var d := old(buffer.Contents())[..n + 2]; addr == d[..n] && port == d[n..]
      ensures buffer.Contents() == old(buffer.Contents())[n + 2..]
      ensures buffer.reserved == old(buffer.reserved)
    {
      hide Buffer.Valid, Buffer.Contents, Buffer.Repr;
      ghost var c := buffer.Contents();
      addr := Take(buffer, n);
      port := Take(buffer, 2);
      assert c[..n] == c[..n + 2][..n] && c[n..][..2] == c[..n + 2][n..] && c[n..][2..] == c[n + 2..];
    }

    method AfterGreetingHeader(greeting: seq<byte>)
      requires |greeting| == 2
      modifies `state, `required
      ensures M() == OnGreetingHeader(old(M()), greeting)
    {
      if greeting[0] != 5 || greeting[1] == 0 {
        state := Failed;
        return;
      }
      required := greeting[1] as nat;
      state := GreetingMethods;
    }

    method AfterGreetingMethods(methods: seq<byte>)
      modifies `state, `required, `calls
      ensures M() == OnGreetingMethods(env, old(M()), methods)
    {
      if 0 !in methods {
        state := Failed;
        return;
      }
      var ret := SendResponse(GREETING_REPLY);
      if ret != OK {
        state := Failed;
        return;
      }
      state := RequestHeader;
      required := 4;
    }

    method AfterRequestHeader(header: seq<byte>)
      requires |header| == 4
      modifies `state, `required
      ensures M() == OnRequestHeader(old(M()), header)
    {
      if header[0] != 5 || header[2] != 0 {
        state := Failed;
      } else if header[1] == 1 {
        if header[3] == 1 {
          state, required := RequestAddrV4, 6;
        } else if header[3] == 4 {
          state, required := RequestAddrV6, 18;
        } else {
          state := Failed;
        }
      } else if header[1] == 2 {
        if header[3] == 1 {
          state, required := RequestBind, 6;
        } else if header[3] == 4 {
          state, required := RequestBind, 18;
        } else {
          state := Failed;
        }
      } else {
        state := Failed;
      }
    }

    method AfterAddress(dest: Sockaddr) returns (ok: bool)
      modifies `state, `required, `calls
      ensures (M(), ok) == OnAddress(env, old(M()), dest)
    {
      required := 0;
      match env.connect
      case None =>
        state := WaitConnect;
        ok := true;
      case Some(connect) =>
        var ret := connect(calls, dest);
        calls := calls + [Connect(dest)];
        match ret
        case OK =>
          state, ok := Response, true;
        case InProgress =>
          state, ok := WaitConnect, false;
        case Fail =>
          state, ok := Failed, false;
    }

    method AfterBind(portBytes: seq<byte>, ghost d: seq<byte>)
      requires |d| >= 2 && portBytes == d[|d| - 2..]
      modifies `state, `required, `calls
      ensures M() == OnBind(env, old(M()), d)
    {
      hide PortOf, BindReply;
      var port := PortOf(portBytes);
      required := 0;
      var (ret, bound) := env.bind(calls, port);
      calls := calls + [Bind(port)];
      if ret == Fail {
        state := Failed;
        return;
      }
      ret := SendResponse(BindReply(bound));
      if ret == Fail {
        state := Failed;
        return;
      }
      state := WaitAccept;
    }

    // CreateResp, with its call for the address to report.
    method MakeResp(isBind: bool) returns (resp: seq<byte>)
      modifies `calls
      ensures resp == CreateResp(env, old(calls), isBind) && calls == old(calls) + [DestAddress(isBind)]
    {
      var dest := env.destAddress(calls, isBind);
      calls := calls + [DestAddress(isBind)];
      match dest
      case Some(a) => resp := [5, 0, 0] + FillAddrPort(a);
      case None => resp := ERROR_REPLY;
    }

    method AfterConnected()
      modifies `state, `required, `calls
      ensures M() == OnResponse(env, old(M()))
    {
      var resp := MakeResp(false);
      var ret := SendResponse(resp);
      if ret != OK {
        state := Failed;
        return;
      }
      state := Success;
      required := 1;
    }

    /** One state transition; the answer is false if none was made or it failed. */
    method Proceed(buffer: Buffer) returns (ok: bool)
      requires Ready(M()) && buffer.Valid() && !buffer.peeked
      modifies `state, `required, `calls, buffer.Repr()
      ensures buffer.Valid() && !buffer.peeked && buffer.Repr() == old(buffer.Repr())
      ensures buffer.reserved == old(buffer.reserved)
      ensures Outcome(M(), buffer.Contents(), ok) == Step(env, old(M()), old(buffer.Contents()))
      ensures Ready(M())
    {
      hide OnGreetingHeader, OnGreetingMethods, OnRequestHeader, OnAddress, OnBind, OnResponse, Ready;
      StepProgresses(env, M(), buffer.Contents());
      buffer.SizeIsLength();
      if buffer.dataSize < required {
        return false;
      }
      ok := ProceedEnough(buffer);
    }

    // The same, when enough bytes are there.
    method ProceedEnough(buffer: Buffer) returns (ok: bool)
      requires Ready(M()) && buffer.Valid() && !buffer.peeked && required <= |buffer.Contents()|
      modifies `state, `required, `calls, buffer.Repr()
      ensures buffer.Valid() && !buffer.peeked && buffer.Repr() == old(buffer.Repr())
      ensures buffer.reserved == old(buffer.reserved)
      ensures Outcome(M(), buffer.Contents(), ok) == Step(env, old(M()), old(buffer.Contents()))
    {
      hide OnGreetingHeader, OnGreetingMethods, OnRequestHeader, OnAddress, OnBind, OnResponse;
      hide Buffer.Valid, Buffer.Contents;
      match state {
        case GreetingHeader => ok := ProceedHeader(buffer);
        case GreetingMethods => ok := ProceedHeader(buffer);
        case RequestHeader => ok := ProceedHeader(buffer);
        case RequestAddrV4 => ok := ProceedAddress(buffer);
        case RequestAddrV6 => ok := ProceedAddress(buffer);
        case RequestBind => ok := ProceedBind(buffer);
        case Response =>
          AfterConnected();
          ok := state != Failed;
        case WaitConnect => return false;
        case WaitAccept => return false;
        case Success => return false;
        case Failed =>
          required := 0;
          return false;
      }
    }

    // The greeting and the first part of the request.
    method ProceedHeader(buffer: Buffer) returns (ok: bool)
      requires Ready(M()) && buffer.Valid() && !buffer.peeked && required <= |buffer.Contents()|
      requires state == GreetingHeader || state == GreetingMethods || state == RequestHeader
      modifies `state, `required, `calls, buffer.Repr()
      ensures buffer.Valid() && !buffer.peeked && buffer.Repr() == old(buffer.Repr())
      ensures buffer.reserved == old(buffer.reserved)
      ensures Outcome(M(), buffer.Contents(), ok) == Step(env, old(M()), old(buffer.Contents()))
    {
      hide OnGreetingHeader, OnGreetingMethods, OnRequestHeader, OnAddress, OnBind, OnResponse;
      hide Buffer.Valid, Buffer.Contents;
      var data := Take(buffer, required);
      if state == GreetingHeader {
        AfterGreetingHeader(data);
      } else if state == GreetingMethods {
        AfterGreetingMethods(data);
      } else {
        AfterRequestHeader(data);
      }
      ok := state != Failed;
    }

    // The address of the request.
    method ProceedAddress(buffer: Buffer) returns (ok: bool)
      requires Ready(M()) && buffer.Valid() && !buffer.peeked && required <= |buffer.Contents()|
      requires state == RequestAddrV4 || state == RequestAddrV6
      modifies `state, `required, `calls, buffer.Repr()
      ensures buffer.Valid() && !buffer.peeked && buffer.Repr() == old(buffer.Repr())
      ensures buffer.reserved == old(buffer.reserved)
      ensures Outcome(M(), buffer.Contents(), ok) == Step(env, old(M()), old(buffer.Contents()))
    {
      hide OnGreetingHeader, OnGreetingMethods, OnRequestHeader, OnAddress, OnBind, OnResponse;
      hide Buffer.Valid, Buffer.Contents;
      var addr, port := TakeAddress(buffer, required - 2);
      if state == RequestAddrV4 {
        ok := AfterAddress(V4(addr, port));
      } else {
        ok := AfterAddress(V6(addr, port));
      }
    }

    // The address to bind, of which only the port matters.
    method ProceedBind(buffer: Buffer) returns (ok: bool)
      requires Ready(M()) && buffer.Valid() && !buffer.peeked && required <= |buffer.Contents()|
      requires state == RequestBind
      modifies `state, `required, `calls, buffer.Repr()
      ensures buffer.Valid() && !buffer.peeked && buffer.Repr() == old(buffer.Repr())
      ensures buffer.reserved == old(buffer.reserved)
      ensures Outcome(M(), buffer.Contents(), ok) == Step(env, old(M()), old(buffer.Contents()))
    {
      hide OnBind, Buffer.Valid, Buffer.Contents;
      ghost var d := buffer.Contents()[..required];
      var _, port := TakeAddress(buffer, required - 2);
      AfterBind(port, d);
      ok := false;
    }

    /** The application's connection is up: send the last reply. */
    method ConnectionSucceed() returns (ok: bool)
      modifies `state, `calls
      ensures (M(), ok) == Complete(env, old(M()))
      ensures ok <==> Waits(old(M()))
      ensures ok ==> (Delivered(env, calls) <==> Answerable(env, old(M())))
    {
      CompleteDeliversIff(env, M());
      hide Delivered, Answerable;
      var resp;
      if state == WaitConnect {
        resp := MakeResp(false);
      } else if state == WaitAccept {
        resp := MakeResp(true);
      } else {
        state := Failed;
        return false;
      }
      var ret := SendResponse(resp);
      assert calls == old(calls) + [DestAddress(old(state) == WaitAccept), Respond(resp)];
      if ret != OK {
        state := Failed;
      }
      state := Success;
      ok := state == Success;
    }
  }

  /** The loop of the handshake handler. */
  method RunHandshake(socks5: Socks5State, buffer: Buffer)
    requires Ready(socks5.M()) && buffer.Valid() && !buffer.peeked && socks5 !in buffer.Repr()
    modifies socks5`state, socks5`required, socks5`calls, buffer.Repr()
    ensures buffer.Valid() && !buffer.peeked && buffer.Repr() == old(buffer.Repr())
    ensures buffer.reserved == old(buffer.reserved)
    ensures Stopped(socks5.M(), buffer.Contents()) == Run(socks5.env, old(socks5.M()), old(buffer.Contents()))
    ensures Ready(socks5.M())
  {
    hide Step, Ready, Buffer.Valid, Buffer.Contents;
    var go := true;
    while socks5.state != Success && go
      invariant Ready(socks5.M()) && buffer.Valid() && !buffer.peeked && buffer.Repr() == old(buffer.Repr())
      invariant buffer.reserved == old(buffer.reserved)
      invariant (if go then Run(socks5.env, socks5.M(), buffer.Contents()) else Stopped(socks5.M(), buffer.Contents()))
             == Run(socks5.env, old(socks5.M()), old(buffer.Contents()))
      decreases Rank(socks5.state), go
    {
      StepProgresses(socks5.env, socks5.M(), buffer.Contents());
      go := socks5.Proceed(buffer);
    }
  }
}
