/**
The server side of the SOCKS5 handshake (sections 3 to 6 of RFC 1928) as a function of the bytes
received: one transition (`Step`), the loop that repeats it (`Run`), and the reply that completes
the handshake (`Complete`).

The callbacks are a parameter.  Each answers from the calls made before it, so an environment is
any deterministic history-dependent behaviour.  The calls made are recorded, in order, in `calls`.
*/
module Socks5 {
  import opened Bytes
  import opened Options
  import opened Sequences

  datatype State =
    | GreetingHeader
    | GreetingMethods
    | RequestHeader
    | RequestAddrV4
    | RequestAddrV6
    | RequestBind
    | WaitConnect
    | WaitAccept
    | Response
    | Success
    | Failed

  datatype Status = OK | InProgress | Fail

  // A socket address: address and port in network byte order, or a family that is not Internet.
  datatype RawSockaddr =
    | V4(addr: seq<byte>, port: seq<byte>)
    | V6(addr: seq<byte>, port: seq<byte>)
    | OtherFamily

  type Sockaddr = a: RawSockaddr |
      && (a.V4? ==> |a.addr| == 4 && |a.port| == 2)
      && (a.V6? ==> |a.addr| == 16 && |a.port| == 2)
    witness OtherFamily

  type Port = n: nat | n < 65536

  // A callback made, with its arguments.
  datatype Call =
    | Respond(data: seq<byte>)
    | Connect(dest: Sockaddr)
    | Bind(port: nat)
    | DestAddress(remote: bool)

  datatype Env = Env(
    respond: (seq<Call>, seq<byte>) -> Status,
    connect: Option<(seq<Call>, Sockaddr) -> Status>,
    bind: (seq<Call>, nat) -> (Status, Port),
    destAddress: (seq<Call>, bool) -> Option<Sockaddr>)

  datatype Machine = Machine(state: State, required: nat, calls: seq<Call>)

  const INIT := Machine(GreetingHeader, 2, [])

  const GREETING_REPLY: seq<byte> := [5, 0]

  const ERROR_REPLY: seq<byte> := [5, 1, 0, 1, 0, 0, 0, 0, 0, 0]

  // The size each state waits for.  A failed machine keeps whatever it had.
  ghost predicate Ready(m: Machine) {
    match m.state
    case GreetingHeader => m.required == 2
    case GreetingMethods => 0 < m.required < 256
    case RequestHeader => m.required == 4
    case RequestAddrV4 => m.required == 6
    case RequestAddrV6 => m.required == 18
    case RequestBind => m.required == 6 || m.required == 18
    case WaitConnect => m.required == 0
    case WaitAccept => m.required == 0
    case Response => m.required == 0
    case Success => m.required <= 1
    case Failed => true
  }

  predicate Insufficient(m: Machine, size: nat) {
    size < m.required
  }

  // ---------------------------------------------------------------- wire formats

  // ATYP, address and port; nothing for other families.
  function FillAddrPort(a: Sockaddr): seq<byte> {
    match a
    case V4(addr, port) => [1] + addr + port
    case V6(addr, port) => [4] + addr + port
    case OtherFamily => []
  }

  function PortOf(bytes: seq<byte>): nat
    requires |bytes| == 2
  {
    bytes[0] as nat * 256 + bytes[1] as nat
  }

  function PortBytes(port: Port): (r: seq<byte>)
    ensures |r| == 2 && PortOf(r) == port && r[0] as nat * 256 + r[1] as nat == port
  {
    [(port / 256) as byte, (port % 256) as byte]
  }

  // The first reply to BIND: IPv4 form, zero address, the port bound.
  function BindReply(port: Port): seq<byte> {
    [5, 0, 0, 1, 0, 0, 0, 0] + PortBytes(port)
  }

  // The last reply of the handshake.
  function CreateResp(env: Env, calls: seq<Call>, isBind: bool): seq<byte> {
    match env.destAddress(calls, isBind)
    case Some(a) => [5, 0, 0] + FillAddrPort(a)
    case None => ERROR_REPLY
  }

  // How far the handshake still is from its end.
  function Rank(s: State): nat {
    match s
    case GreetingHeader => 6
    case GreetingMethods => 5
    case RequestHeader => 4
    case RequestAddrV4 => 3
    case RequestAddrV6 => 3
    case RequestBind => 3
    case Response => 2
    case WaitConnect => 1
    case WaitAccept => 1
    case Success => 0
    case Failed => 0
  }

  // The states in which the loop stops for a reason other than missing bytes.
  predicate AtRest(s: State) {
    s == WaitConnect || s == WaitAccept || s == Success || s == Failed
  }

  // ---------------------------------------------------------------- transitions

  function OnGreetingHeader(m: Machine, d: seq<byte>): (r: Machine)
    requires |d| == 2
    ensures Ready(r) && (r.state == Failed || r.state == GreetingMethods)
  {
    if d[0] != 5 || d[1] == 0 then m.(state := Failed)
    else m.(state := GreetingMethods, required := d[1] as nat)
  }

  function OnGreetingMethods(env: Env, m: Machine, d: seq<byte>): (r: Machine)
    ensures Ready(r) && (r.state == Failed || r.state == RequestHeader)
  {
    if 0 !in d then m.(state := Failed)
    else
      var m1 := m.(calls := m.calls + [Respond(GREETING_REPLY)]);
      if env.respond(m.calls, GREETING_REPLY) != OK then m1.(state := Failed)
      else m1.(state := RequestHeader, required := 4)
  }

  function OnRequestHeader(m: Machine, d: seq<byte>): (r: Machine)
    requires |d| == 4
    ensures Ready(r) && Rank(r.state) <= 3 && (r.state != Failed ==> r.calls == m.calls)
  {
    if d[0] != 5 || d[2] != 0 then m.(state := Failed)
    else if d[1] == 1 then
      if d[3] == 1 then m.(state := RequestAddrV4, required := 6)
      else if d[3] == 4 then m.(state := RequestAddrV6, required := 18)
      else m.(state := Failed)
    else if d[1] == 2 then
      if d[3] == 1 then m.(state := RequestBind, required := 6)
      else if d[3] == 4 then m.(state := RequestBind, required := 18)
      else m.(state := Failed)
    else m.(state := Failed)
  }

  // The transition and whether Proceed answers true.
  function OnAddress(env: Env, m: Machine, dest: Sockaddr): (r: (Machine, bool))
    ensures Ready(r.0) && Rank(r.0.state) <= 2 && (!r.1 ==> AtRest(r.0.state))
  {
    var m1 := m.(required := 0);
    match env.connect
    case None => (m1.(state := WaitConnect), true)
    case Some(connect) =>
      var m2 := m1.(calls := m.calls + [Connect(dest)]);
      match connect(m.calls, dest)
      case OK => (m2.(state := Response), true)
      case InProgress => (m2.(state := WaitConnect), false)
      case Fail => (m2.(state := Failed), false)
  }

  function OnBind(env: Env, m: Machine, d: seq<byte>): (r: Machine)
    requires |d| >= 2
    ensures Ready(r) && (r.state == Failed || r.state == WaitAccept)
  {
    var port := PortOf(d[|d| - 2..]);
    var (status, bound) := env.bind(m.calls, port);
    var m1 := m.(required := 0, calls := m.calls + [Bind(port)]);
    if status == Fail then m1.(state := Failed)
    else
      var m2 := m1.(calls := m1.calls + [Respond(BindReply(bound))]);
      if env.respond(m1.calls, BindReply(bound)) == Fail then m2.(state := Failed)
      else m2.(state := WaitAccept)
  }

  function OnResponse(env: Env, m: Machine): (r: Machine)
    ensures Ready(r) && (r.state == Failed || r.state == Success)
  {
    var calls := m.calls + [DestAddress(false)];
    var resp := CreateResp(env, m.calls, false);
    var m1 := m.(calls := calls + [Respond(resp)]);
    if env.respond(calls, resp) != OK then m1.(state := Failed)
    else m1.(state := Success, required := 1)
  }

  // One call of Proceed: the new machine, what is left of the buffer, and the answer.
  datatype Outcome = Outcome(m: Machine, rest: seq<byte>, ok: bool)

  function Step(env: Env, m: Machine, buf: seq<byte>): Outcome
    requires Ready(m)
  {
    if Insufficient(m, |buf|) then Outcome(m, buf, false)
    else
      var d, rest := buf[..m.required], buf[m.required..];
      match m.state
      case GreetingHeader =>
        var m1 := OnGreetingHeader(m, d);
        Outcome(m1, rest, m1.state != Failed)
      case GreetingMethods =>
        var m1 := OnGreetingMethods(env, m, d);
        Outcome(m1, rest, m1.state != Failed)
      case RequestHeader =>
        var m1 := OnRequestHeader(m, d);
        Outcome(m1, rest, m1.state != Failed)
      case RequestAddrV4 =>
        var (m1, ok) := OnAddress(env, m, V4(d[..4], d[4..]));
        Outcome(m1, rest, ok)
      case RequestAddrV6 =>
        var (m1, ok) := OnAddress(env, m, V6(d[..16], d[16..]));
        Outcome(m1, rest, ok)
      case RequestBind => Outcome(OnBind(env, m, d), rest, false)
      case WaitConnect => Outcome(m, buf, false)
      case WaitAccept => Outcome(m, buf, false)
      case Response =>
        var m1 := OnResponse(env, m);
        Outcome(m1, buf, m1.state != Failed)
      case Success => Outcome(m, buf, false)
      case Failed => Outcome(m.(required := 0), buf, false)
  }

  lemma {:induction false} StepProgresses(env: Env, m: Machine, buf: seq<byte>)
    requires Ready(m)
    ensures Ready(Step(env, m, buf).m)
    ensures Rank(Step(env, m, buf).m.state) <= Rank(m.state)
    ensures Step(env, m, buf).ok ==> Rank(Step(env, m, buf).m.state) < Rank(m.state)
  {
    hide OnGreetingHeader, OnGreetingMethods, OnRequestHeader, OnAddress, OnBind, OnResponse;
  }

  // The machine and what is left of the buffer when the loop stops.
  datatype Stopped = Stopped(m: Machine, rest: seq<byte>)

  /** The handshake loop: Proceed until it answers false or the handshake has succeeded. */
  function Run(env: Env, m: Machine, buf: seq<byte>): Stopped
    requires Ready(m)
    decreases Rank(m.state)
  {
    if m.state == Success then Stopped(m, buf)
    else
      var o := Step(env, m, buf);
      StepProgresses(env, m, buf);
      if o.ok then Run(env, o.m, o.rest) else Stopped(o.m, o.rest)
  }

  // ---------------------------------------------------------------- fragmentation

  // Equal up to the stale size that a failed machine may carry.
  ghost predicate Same(a: Stopped, b: Stopped) {
    && a.rest == b.rest
    && a.m.state == b.m.state
    && a.m.calls == b.m.calls
    && (a.m.state != Failed ==> a.m.required == b.m.required)
  }

  // A step that has its bytes does not look at the bytes behind them.
  lemma {:induction false} StepIgnoresMore(env: Env, m: Machine, buf: seq<byte>, more: seq<byte>)
    requires Ready(m) && !Insufficient(m, |buf|)
    ensures var o := Step(env, m, buf);
            Step(env, m, buf + more) == Outcome(o.m, o.rest + more, o.ok)
  {
    assert (buf + more)[..m.required] == buf[..m.required];
    assert (buf + more)[m.required..] == buf[m.required..] + more;
  }

  lemma {:induction false} RunReady(env: Env, m: Machine, buf: seq<byte>)
    requires Ready(m)
    ensures Ready(Run(env, m, buf).m)
    decreases Rank(m.state)
  {
    StepProgresses(env, m, buf);
    if m.state != Success && Step(env, m, buf).ok {
      RunReady(env, Step(env, m, buf).m, Step(env, m, buf).rest);
    }
  }

  lemma {:induction false} StoppedAtRest(env: Env, m: Machine, buf: seq<byte>)
    requires Ready(m) && m.state != Success && !Insufficient(m, |buf|) && !Step(env, m, buf).ok
    ensures AtRest(Step(env, m, buf).m.state)
  {
    hide OnGreetingHeader, OnGreetingMethods, OnRequestHeader, OnAddress, OnBind, OnResponse;
  }

  // More bytes do not wake a machine at rest.
  lemma {:induction false} RestStays(env: Env, m: Machine, buf: seq<byte>)
    requires Ready(m) && AtRest(m.state)
    ensures Same(Run(env, m, buf), Stopped(m, buf))
  {
  }

  /** Stopping for want of bytes and going on when they come is the same as never having stopped. */
  lemma {:induction false} RunResumes(env: Env, m: Machine, buf: seq<byte>, more: seq<byte>)
    requires Ready(m)
    ensures Ready(Run(env, m, buf).m)
    ensures var s := Run(env, m, buf); Same(Run(env, s.m, s.rest + more), Run(env, m, buf + more))
    decreases Rank(m.state)
  {
    hide Step, Ready;
    RunReady(env, m, buf);
    StepProgresses(env, m, buf);
    if m.state == Success {
    } else if Insufficient(m, |buf|) {
      StepWaits(env, m, buf);
    } else {
      var o := Step(env, m, buf);
      StepIgnoresMore(env, m, buf, more);
      if o.ok {
        RunResumes(env, o.m, o.rest, more);
      } else {
        StoppedAtRest(env, m, buf);
        RestStays(env, o.m, o.rest + more);
      }
    }
  }

  lemma {:induction false} StepWaits(env: Env, m: Machine, buf: seq<byte>)
    requires Ready(m) && Insufficient(m, |buf|)
    ensures Step(env, m, buf) == Outcome(m, buf, false)
  {
  }

  // The handshake driven by reads that arrive as the given chunks.
  ghost function Feed(env: Env, s: Stopped, chunks: seq<seq<byte>>): Stopped
    requires Ready(s.m)
    decreases |chunks|
  {
    if chunks == [] then s
    else
      RunReady(env, s.m, s.rest + chunks[0]);
      Feed(env, Run(env, s.m, s.rest + chunks[0]), chunks[1..])
  }

  ghost function Flatten(chunks: seq<seq<byte>>): seq<byte> {
    if chunks == [] then [] else chunks[0] + Flatten(chunks[1..])
  }

  /** Fragmentation independence: however the input is cut into reads, the handshake ends in the
      same state, has made the same calls in the same order, and leaves the same bytes unread. */
  lemma {:induction false} FragmentationIndependent(env: Env, m: Machine, buf: seq<byte>, chunks: seq<seq<byte>>)
    requires Ready(m)
    ensures Ready(Run(env, m, buf).m)
    ensures Same(Feed(env, Run(env, m, buf), chunks), Run(env, m, buf + Flatten(chunks)))
    decreases |chunks|
  {
    RunReady(env, m, buf);
    if chunks == [] {
      assert buf + [] == buf;
    } else {
      var s, c, rest := Run(env, m, buf), chunks[0], chunks[1..];
      RunReady(env, s.m, s.rest + c);
      FragmentationIndependent(env, s.m, s.rest + c, rest);
      RunResumes(env, m, buf, c + Flatten(rest));
      assert s.rest + c + Flatten(rest) == s.rest + (c + Flatten(rest));
      assert buf + Flatten(chunks) == buf + (c + Flatten(rest));
    }
  }

  // ---------------------------------------------------------------- what is accepted

  // A greeting of section 3 of RFC 1928 that offers "no authentication required".
  ghost predicate IsGreeting(g: seq<byte>) {
    |g| >= 3 && g[0] == 5 && |g| == 2 + g[1] as int && 0 in g[2..]
  }

  // A CONNECT request of section 4 of RFC 1928.
  ghost function ConnectRequest(dest: Sockaddr): seq<byte> {
    [5, 1, 0] + FillAddrPort(dest)
  }

  // A BIND request of section 4 of RFC 1928.
  ghost function BindRequest(addr: Sockaddr): seq<byte> {
    [5, 2, 0] + FillAddrPort(addr)
  }

  // The bytes are a greeting and then a request, split at n.
  ghost predicate Handshake(got: seq<byte>, n: nat, request: seq<byte>) {
    n <= |got| && IsGreeting(got[..n]) && got[n..] == request
  }

  /** What the bytes taken so far are, and which calls they have led to, in each state. */
  ghost predicate Accepted(env: Env, m: Machine, got: seq<byte>) {
    match m.state
    case GreetingHeader => got == [] && m.calls == []
    case GreetingMethods =>
      |got| == 2 && got[0] == 5 && got[1] as int == m.required && m.calls == []
    case RequestHeader => IsGreeting(got) && m.calls == [Respond(GREETING_REPLY)]
    case RequestAddrV4 => Request(got, [5, 1, 0, 1]) && m.calls == [Respond(GREETING_REPLY)]
    case RequestAddrV6 => Request(got, [5, 1, 0, 4]) && m.calls == [Respond(GREETING_REPLY)]
    case RequestBind =>
      && Request(got, if m.required == 6 then [5, 2, 0, 1] else [5, 2, 0, 4])
      && m.calls == [Respond(GREETING_REPLY)]
    case WaitConnect => Connecting(env, m.calls, got) && |m.calls| <= 2
    case Response => Connecting(env, m.calls, got) && |m.calls| == 2
    case WaitAccept => Binding(m.calls, got) && |m.calls| == 3
    case Success => Connecting(env, m.calls, got) && |m.calls| == 4
    case Failed =>
      || m.calls == [] || m.calls == [Respond(GREETING_REPLY)]
      || Connecting(env, m.calls, got) || Binding(m.calls, got)
  }

  ghost predicate Request(got: seq<byte>, header: seq<byte>) {
    |got| >= 4 && Handshake(got, |got| - 4, header)
  }

  /** The bytes are a greeting and a CONNECT request.  The first call was the reply to the greeting;
      the second, if there is a connect callback, was to connect to the very address requested; and
      whatever calls came later, none was to connect or to bind. */
  ghost predicate Connecting(env: Env, calls: seq<Call>, got: seq<byte>) {
    && calls != [] && calls[0] == Respond(GREETING_REPLY)
    && (env.connect.None? ==> |calls| == 1)
    && (env.connect.Some? ==> |calls| > 1 && calls[1].Connect?)
    && (forall i | 2 <= i < |calls| :: !calls[i].Connect? && !calls[i].Bind?)
    && exists n: nat, dest: Sockaddr :: ConnectTo(calls, got, n, dest)
  }

  ghost predicate ConnectTo(calls: seq<Call>, got: seq<byte>, n: nat, dest: Sockaddr) {
    && !dest.OtherFamily?
    && Handshake(got, n, ConnectRequest(dest))
    && (|calls| > 1 ==> calls[1] == Connect(dest))
  }

  /** The bytes are a greeting and a BIND request; the second call was to bind its port; if there
      was a third, it was the first reply, and there was no other. */
  ghost predicate Binding(calls: seq<Call>, got: seq<byte>) {
    && 2 <= |calls| <= 3 && calls[0] == Respond(GREETING_REPLY) && calls[1].Bind?
    && (|calls| == 3 ==> exists bound: Port :: calls[2] == Respond(BindReply(bound)))
    && exists n: nat, addr: Sockaddr :: BindAt(calls, got, n, addr)
  }

  ghost predicate BindAt(calls: seq<Call>, got: seq<byte>, n: nat, addr: Sockaddr) {
    && !addr.OtherFamily?
    && Handshake(got, n, BindRequest(addr))
    && |calls| > 1 && calls[1] == Bind(PortOf(addr.port))
  }

  // Every step takes bytes off the front only, and keeps the bytes taken acceptable.
  lemma {:induction false} StepAccepts(env: Env, m: Machine, got: seq<byte>, buf: seq<byte>)
    requires Ready(m) && Accepted(env, m, got)
    ensures var o := Step(env, m, buf);
            exists d :: buf == d + o.rest && Accepted(env, o.m, got + d)
  {
    hide Step, Accepted, Ready;
    var o := Step(env, m, buf);
    if Insufficient(m, |buf|) || AtRest(m.state) {
      StepIdle(env, m, got, buf);
      assert buf == [] + o.rest && got + [] == got;
    } else {
      StepAcceptsBytes(env, m, got, buf);
      assert buf == buf[..m.required] + o.rest;
    }
  }

  lemma {:induction false} StepIdle(env: Env, m: Machine, got: seq<byte>, buf: seq<byte>)
    requires Ready(m) && Accepted(env, m, got) && (Insufficient(m, |buf|) || AtRest(m.state))
    ensures Step(env, m, buf).rest == buf && Accepted(env, Step(env, m, buf).m, got)
  {
    StepRests(env, m, buf);
    hide Step, Connecting, Binding, IsGreeting, Request;
  }

  lemma {:induction false} StepRests(env: Env, m: Machine, buf: seq<byte>)
    requires Ready(m) && (Insufficient(m, |buf|) || AtRest(m.state))
    ensures var o := Step(env, m, buf);
            o.rest == buf && (o.m == m || (m.state == Failed && o.m == m.(required := 0)))
  {
    hide OnGreetingHeader, OnGreetingMethods, OnRequestHeader, OnAddress, OnBind, OnResponse;
  }

  lemma {:induction false} StepAcceptsBytes(env: Env, m: Machine, got: seq<byte>, buf: seq<byte>)
    requires Ready(m) && Accepted(env, m, got) && !Insufficient(m, |buf|) && !AtRest(m.state)
    ensures Accepted(env, Step(env, m, buf).m, got + buf[..m.required])
    ensures Step(env, m, buf).rest == buf[m.required..]
  {
    hide Accepted, OnGreetingHeader, OnGreetingMethods, OnRequestHeader, OnAddress, OnBind, OnResponse;
    var d := buf[..m.required];
    match m.state
    case GreetingHeader => AcceptsGreeting(env, m, got, d);
    case GreetingMethods => AcceptsMethods(env, m, got, d);
    case RequestHeader => AcceptsHeader(env, m, got, d);
    case RequestAddrV4 => AcceptsConnect(env, m, got, d, V4(d[..4], d[4..]));
    case RequestAddrV6 => AcceptsConnect(env, m, got, d, V6(d[..16], d[16..]));
    case RequestBind => AcceptsBind(env, m, got, d);
    case Response => AcceptsResponse(env, m, got);
  }

  lemma {:induction false} AcceptsGreeting(env: Env, m: Machine, got: seq<byte>, d: seq<byte>)
    requires m.state == GreetingHeader && Ready(m) && Accepted(env, m, got) && |d| == m.required
    ensures Accepted(env, OnGreetingHeader(m, d), got + d)
  {
    assert got + d == d;
  }

  lemma {:induction false} AcceptsMethods(env: Env, m: Machine, got: seq<byte>, d: seq<byte>)
    requires m.state == GreetingMethods && Ready(m) && Accepted(env, m, got) && |d| == m.required
    ensures Accepted(env, OnGreetingMethods(env, m, d), got + d)
  {
    assert (got + d)[2..] == d && (got + d)[0] == got[0] && (got + d)[1] == got[1];
    assert m.calls + [Respond(GREETING_REPLY)] == [Respond(GREETING_REPLY)];
  }

  lemma {:induction false} AcceptsHeader(env: Env, m: Machine, got: seq<byte>, d: seq<byte>)
    requires m.state == RequestHeader && Ready(m) && Accepted(env, m, got) && |d| == m.required
    ensures Accepted(env, OnRequestHeader(m, d), got + d)
  {
    hide IsGreeting, Connecting, Binding;
    assert (got + d)[..|got + d| - 4] == got && (got + d)[|got + d| - 4..] == d;
    assert d == [d[0], d[1], d[2], d[3]];
  }

  lemma {:induction false} SplitRequest(got: seq<byte>, header: seq<byte>, d: seq<byte>)
    requires |header| == 4 && Request(got, header)
    ensures |got| - 4 <= |got + d| && Handshake(got + d, |got| - 4, header + d)
  {
    assert (got + d)[..|got| - 4] == got[..|got| - 4];
    assert (got + d)[|got| - 4..] == got[|got| - 4..] + d;
  }

  lemma {:induction false} AcceptsConnect(env: Env, m: Machine, got: seq<byte>, d: seq<byte>, dest: Sockaddr)
    requires m.state == RequestAddrV4 || m.state == RequestAddrV6
    requires Ready(m) && Accepted(env, m, got) && |d| == m.required
    requires dest == if m.state == RequestAddrV4 then V4(d[..4], d[4..]) else V6(d[..16], d[16..])
    ensures Accepted(env, OnAddress(env, m, dest).0, got + d)
  {
    hide FillAddrPort, IsGreeting, Handshake;
    SplitRequest(got, RequestHeaderOf(1, dest), d);
    RequestBytes(1, dest, []);
    assert d == dest.addr + dest.port;
    assert ConnectTo(OnAddress(env, m, dest).0.calls, got + d, |got| - 4, dest);
  }

  lemma {:induction false} AcceptsBind(env: Env, m: Machine, got: seq<byte>, d: seq<byte>)
    requires m.state == RequestBind && Ready(m) && Accepted(env, m, got) && |d| == m.required
    ensures Accepted(env, OnBind(env, m, d), got + d)
  {
    hide FillAddrPort, IsGreeting, Handshake, PortOf, BindReply;
    var addr: Sockaddr := if m.required == 6 then V4(d[..4], d[4..]) else V6(d[..16], d[16..]);
    SplitRequest(got, RequestHeaderOf(2, addr), d);
    RequestBytes(2, addr, []);
    assert d == addr.addr + addr.port && d[|d| - 2..] == addr.port;
    var bound := env.bind(m.calls, PortOf(addr.port)).1;
    assert |OnBind(env, m, d).calls| == 3 ==> OnBind(env, m, d).calls[2] == Respond(BindReply(bound));
    assert BindAt(OnBind(env, m, d).calls, got + d, |got| - 4, addr);
  }

  lemma {:induction false} AcceptsResponse(env: Env, m: Machine, got: seq<byte>)
    requires m.state == Response && Ready(m) && Accepted(env, m, got)
    ensures Accepted(env, OnResponse(env, m), got + [])
  {
    hide CreateResp, Handshake, ConnectRequest, Binding;
    assert got + [] == got;
    var n: nat, dest: Sockaddr :| ConnectTo(m.calls, got, n, dest);
    assert ConnectTo(OnResponse(env, m).calls, got, n, dest);
  }

  /** Exactness: whatever bytes arrive, the handshake has taken a prefix of them and left the rest
      untouched, and the prefix and the calls made agree with the state reached. */
  lemma {:induction false} RunAccepts(env: Env, m: Machine, got: seq<byte>, buf: seq<byte>)
    requires Ready(m) && Accepted(env, m, got)
    ensures var s := Run(env, m, buf);
            exists d :: buf == d + s.rest && Accepted(env, s.m, got + d)
    decreases Rank(m.state)
  {
    hide Step, Accepted, Ready;
    if m.state == Success {
      assert buf == [] + buf && got + [] == got;
    } else {
      var o := Step(env, m, buf);
      StepProgresses(env, m, buf);
      StepAccepts(env, m, got, buf);
      var d :| buf == d + o.rest && Accepted(env, o.m, got + d);
      if o.ok {
        RunAccepts(env, o.m, got + d, o.rest);
        var s := Run(env, m, buf);
        var e :| o.rest == e + s.rest && Accepted(env, s.m, (got + d) + e);
        assert buf == (d + e) + s.rest && got + (d + e) == (got + d) + e;
      }
    }
  }

  ghost predicate IsSuffix(rest: seq<byte>, buf: seq<byte>) {
    |rest| <= |buf| && buf == buf[..|buf| - |rest|] + rest
  }

  /** What is left unread is what came last. */
  lemma {:induction false} RestIsSuffix(env: Env, m: Machine, buf: seq<byte>)
    requires Ready(m)
    ensures IsSuffix(Run(env, m, buf).rest, buf)
    decreases Rank(m.state)
  {
    hide Step, Ready, IsSuffix;
    StepProgresses(env, m, buf);
    StepSuffix(env, m, buf);
    SuffixOfItself(buf);
    var o := Step(env, m, buf);
    if m.state != Success && o.ok {
      RestIsSuffix(env, o.m, o.rest);
      SuffixOfSuffix(buf, o.rest, Run(env, o.m, o.rest).rest);
    }
  }

  lemma {:induction false} StepSuffix(env: Env, m: Machine, buf: seq<byte>)
    requires Ready(m)
    ensures IsSuffix(Step(env, m, buf).rest, buf)
  {
    StepTakes(env, m, buf);
    hide IsSuffix, Step, Ready;
    SuffixOfItself(buf);
    if m.required <= |buf| {
      TailIsSuffix(buf, m.required);
    }
  }

  lemma {:induction false} StepTakes(env: Env, m: Machine, buf: seq<byte>)
    requires Ready(m)
    ensures var rest := Step(env, m, buf).rest; rest == buf || (m.required <= |buf| && rest == buf[m.required..])
  {
    hide OnGreetingHeader, OnGreetingMethods, OnRequestHeader, OnAddress, OnBind, OnResponse;
  }

  lemma {:induction false} TailIsSuffix(a: seq<byte>, n: nat)
    requires n <= |a|
    ensures IsSuffix(a[n..], a)
  {
  }

  lemma {:induction false} SuffixOfItself(a: seq<byte>)
    ensures IsSuffix(a, a)
  {
  }

  lemma {:induction false} SuffixOfSuffix(a: seq<byte>, b: seq<byte>, c: seq<byte>)
    requires IsSuffix(b, a) && IsSuffix(c, b)
    ensures IsSuffix(c, a)
  {
    assert a == (a[..|a| - |b|] + b[..|b| - |c|]) + c;
  }

  // ---------------------------------------------------------------- what is served

  const GREETED := Machine(RequestHeader, 4, [Respond(GREETING_REPLY)])

  lemma {:induction false} RunUnfolds(env: Env, m: Machine, buf: seq<byte>)
    requires Ready(m) && m.state != Success
    ensures Ready(Step(env, m, buf).m)
    ensures var o := Step(env, m, buf);
            Run(env, m, buf) == if o.ok then Run(env, o.m, o.rest) else Stopped(o.m, o.rest)
  {
    hide Step, Ready;
    StepProgresses(env, m, buf);
  }

  lemma {:induction false} RunGreetingHeader(env: Env, g: seq<byte>, more: seq<byte>)
    requires IsGreeting(g)
    ensures Run(env, INIT, g + more) == Run(env, Machine(GreetingMethods, g[1] as nat, []), g[2..] + more)
  {
    hide Run;
    assert g + more == g[..2] + (g[2..] + more);
    Cut(g[..2], g[2..] + more);
    RunUnfolds(env, INIT, g + more);
  }

  lemma {:induction false} RunGreeting(env: Env, g: seq<byte>, more: seq<byte>)
    requires IsGreeting(g)
    ensures env.respond([], GREETING_REPLY) == OK ==> Run(env, INIT, g + more) == Run(env, GREETED, more)
    ensures env.respond([], GREETING_REPLY) != OK ==> Run(env, INIT, g + more).m.state == Failed
  {
    hide Run;
    RunGreetingHeader(env, g, more);
    var m := Machine(GreetingMethods, g[1] as nat, []);
    Cut(g[2..], more);
    RunUnfolds(env, m, g[2..] + more);
    assert [] + [Respond(GREETING_REPLY)] == [Respond(GREETING_REPLY)];
  }

  // The machine that has read the request header for `dest`.
  ghost function Addressing(dest: Sockaddr): Machine
    requires !dest.OtherFamily?
  {
    if dest.V4? then Machine(RequestAddrV4, 6, [Respond(GREETING_REPLY)])
    else Machine(RequestAddrV6, 18, [Respond(GREETING_REPLY)])
  }

  lemma {:induction false} RunConnectRequest(env: Env, dest: Sockaddr, more: seq<byte>)
    requires !dest.OtherFamily?
    ensures var (m, ok) := OnAddress(env, Addressing(dest), dest);
            && Ready(m)
            && Run(env, GREETED, ConnectRequest(dest) + more) == if ok then Run(env, m, more) else Stopped(m, more)
  {
    hide Run, OnAddress, Step, FillAddrPort;
    var header, body := RequestHeaderOf(1, dest), dest.addr + dest.port;
    RequestBytes(1, dest, more);
    StepRequestHeader(env, 1, dest, body + more);
    RunUnfolds(env, GREETED, header + (body + more));
    StepAddress(env, dest, more);
    RunUnfolds(env, Addressing(dest), body + more);
  }

  ghost function RequestHeaderOf(cmd: byte, a: Sockaddr): seq<byte> {
    [5, cmd, 0, if a.V4? then 1 else 4]
  }

  lemma {:induction false} RequestBytes(cmd: byte, a: Sockaddr, more: seq<byte>)
    requires !a.OtherFamily?
    ensures [5, cmd, 0] + FillAddrPort(a) == RequestHeaderOf(cmd, a) + (a.addr + a.port)
    ensures [5, cmd, 0] + FillAddrPort(a) + more == RequestHeaderOf(cmd, a) + (a.addr + a.port + more)
  {
    var atyp: byte := if a.V4? then 1 else 4;
    AddressBytes(a);
    hide FillAddrPort;
    Regroup([5, cmd, 0], [atyp], a.addr + a.port, more);
    assert [5, cmd, 0] + [atyp] == RequestHeaderOf(cmd, a);
  }

  lemma {:induction false} AddressBytes(a: Sockaddr)
    requires !a.OtherFamily?
    ensures FillAddrPort(a) == [if a.V4? then 1 else 4] + (a.addr + a.port)
  {
    Regroup([], [if a.V4? then 1 else 4], a.addr, a.port);
  }

  lemma {:induction false} Regroup(h: seq<byte>, t: seq<byte>, body: seq<byte>, more: seq<byte>)
    ensures h + (t + body) == h + t + body
    ensures h + (t + body) + more == h + t + (body + more)
    ensures t + body + more == t + (body + more)
  {
  }

  lemma {:induction false} StepRequestHeader(env: Env, cmd: byte, a: Sockaddr, rest: seq<byte>)
    requires !a.OtherFamily? && (cmd == 1 || cmd == 2)
    ensures Step(env, GREETED, RequestHeaderOf(cmd, a) + rest)
         == Outcome(if cmd == 1 then Addressing(a) else Binder(a), rest, true)
  {
    Cut(RequestHeaderOf(cmd, a), rest);
  }

  lemma {:induction false} StepAddress(env: Env, dest: Sockaddr, more: seq<byte>)
    requires !dest.OtherFamily?
    ensures var (m, ok) := OnAddress(env, Addressing(dest), dest);
            Step(env, Addressing(dest), dest.addr + dest.port + more) == Outcome(m, more, ok)
  {
    hide OnAddress;
    Cut(dest.addr + dest.port, more);
    Cut(dest.addr, dest.port);
  }

  // The connection was there at once: the reply completes the handshake or fails it.
  lemma {:induction false} RunResponse(env: Env, m: Machine, more: seq<byte>)
    requires m.state == Response && m.required == 0
    ensures Run(env, m, more) == Stopped(OnResponse(env, m), more)
  {
    hide OnResponse;
  }

  lemma {:induction false} RunWaits(env: Env, calls: seq<Call>, more: seq<byte>)
    ensures var m := Machine(WaitConnect, 0, calls); Run(env, m, more) == Stopped(m, more)
  {
  }

  /** A well-formed CONNECT, whatever follows it: how the answers of the callbacks decide the state
      reached.  Bytes behind the request are never touched. */
  lemma {:induction false} ServesConnect(env: Env, g: seq<byte>, dest: Sockaddr, more: seq<byte>)
    requires IsGreeting(g) && !dest.OtherFamily?
    ensures var s := Run(env, INIT, g + ConnectRequest(dest) + more);
            if env.respond([], GREETING_REPLY) != OK then s.m.state == Failed
            else if env.connect.None? then s == Stopped(Machine(WaitConnect, 0, [Respond(GREETING_REPLY)]), more)
            else
              var calls := [Respond(GREETING_REPLY), Connect(dest)];
              match env.connect.value([Respond(GREETING_REPLY)], dest)
              case InProgress => s == Stopped(Machine(WaitConnect, 0, calls), more)
              case Fail => s == Stopped(Machine(Failed, 0, calls), more)
              case OK =>
                var asked := calls + [DestAddress(false)];
                var resp := CreateResp(env, calls, false);
                && s.rest == more && s.m.calls == asked + [Respond(resp)]
                && s.m.state == if env.respond(asked, resp) == OK then Success else Failed
  {
    hide ConnectRequest, IsGreeting, CreateResp, Run;
    RunWaits(env, [Respond(GREETING_REPLY)], more);
    RunResponse(env, Machine(Response, 0, [Respond(GREETING_REPLY), Connect(dest)]), more);
    assert [Respond(GREETING_REPLY)] + [Connect(dest)] == [Respond(GREETING_REPLY), Connect(dest)];
    assert g + ConnectRequest(dest) + more == g + (ConnectRequest(dest) + more);
    RunGreeting(env, g, ConnectRequest(dest) + more);
    RunConnectRequest(env, dest, more);
  }

  // The bytes start with a well-formed CONNECT for `dest`, which ends at n + |request|.
  ghost predicate Asks(input: seq<byte>, n: nat, request: seq<byte>) {
    n + |request| <= |input| && IsGreeting(input[..n]) && input[n..n + |request|] == request
  }

  lemma {:induction false} WaitingInput(env: Env, input: seq<byte>) returns (n: nat, dest: Sockaddr)
    requires Run(env, INIT, input).m.state == WaitConnect
    ensures !dest.OtherFamily? && Asks(input, n, ConnectRequest(dest))
    ensures env.respond([], GREETING_REPLY) == OK
    ensures env.connect.Some? ==> env.connect.value([Respond(GREETING_REPLY)], dest) == InProgress
  {
    hide Run, ConnectRequest, IsGreeting, Handshake, Asks;
    var s := Run(env, INIT, input);
    RunAccepts(env, INIT, [], input);
    var d :| input == d + s.rest && Accepted(env, s.m, [] + d);
    assert [] + d == d;
    n, dest :| ConnectTo(s.m.calls, d, n, dest);
    HandshakeAsks(d, n, ConnectRequest(dest), s.rest);
    ServesConnect(env, d[..n], dest, s.rest);
  }

  lemma {:induction false} HandshakeAsks(got: seq<byte>, n: nat, request: seq<byte>, rest: seq<byte>)
    requires Handshake(got, n, request)
    ensures n <= |got| && Asks(got + rest, n, request) && IsGreeting(got[..n])
    ensures got + rest == got[..n] + request + rest
  {
    hide IsGreeting;
    Split(got, n);
    assert (got + rest)[..n] == got[..n] && (got + rest)[n..n + |request|] == request;
  }

  /** The handshake comes to wait for an outgoing connection exactly on those inputs that begin with
      a greeting offering "no authentication" and a CONNECT to an Internet address, provided the
      greeting was answered and the connection was started. */
  lemma {:induction false} WaitsForConnectIff(env: Env, input: seq<byte>)
    ensures Run(env, INIT, input).m.state == WaitConnect
       <==> exists n: nat, dest: Sockaddr ::
              && !dest.OtherFamily? && Asks(input, n, ConnectRequest(dest))
              && env.respond([], GREETING_REPLY) == OK
              && (env.connect.Some? ==> env.connect.value([Respond(GREETING_REPLY)], dest) == InProgress)
  {
    hide Run, ConnectRequest, IsGreeting;
    var s := Run(env, INIT, input);
    if s.m.state == WaitConnect {
      var n, dest := WaitingInput(env, input);
    }
    forall n: nat, dest: Sockaddr |
        && !dest.OtherFamily? && Asks(input, n, ConnectRequest(dest))
        && env.respond([], GREETING_REPLY) == OK
        && (env.connect.Some? ==> env.connect.value([Respond(GREETING_REPLY)], dest) == InProgress)
      ensures s.m.state == WaitConnect
    {
      var more := input[n + |ConnectRequest(dest)|..];
      assert input == input[..n] + ConnectRequest(dest) + more;
      ServesConnect(env, input[..n], dest, more);
    }
  }

  // ---------------------------------------------------------------- the size a failed machine keeps

  // While nothing has failed, having stopped for want of bytes leaves no trace at all; and a failure
  // leaves whatever comes behind it.
  lemma {:induction false} RunResumesExactly(env: Env, m: Machine, buf: seq<byte>, more: seq<byte>)
    requires Ready(m) && m.state != Failed
    ensures Ready(Run(env, m, buf).m)
    ensures var s := Run(env, m, buf);
            Run(env, m, buf + more) ==
            if s.m.state == Failed then Stopped(s.m, s.rest + more) else Run(env, s.m, s.rest + more)
    decreases Rank(m.state)
  {
    hide Step, Ready;
    RunReady(env, m, buf);
    StepProgresses(env, m, buf);
    if m.state == Success {
    } else if Insufficient(m, |buf|) {
      StepWaits(env, m, buf);
    } else {
      var o := Step(env, m, buf);
      StepIgnoresMore(env, m, buf, more);
      StepStays(env, m, buf);
      if o.ok {
        RunResumesExactly(env, o.m, o.rest, more);
      } else {
        StoppedAtRest(env, m, buf);
        RestStays(env, o.m, o.rest + more);
      }
    }
  }

  // Proceed does not answer true in a failed machine.
  lemma {:induction false} StepStays(env: Env, m: Machine, buf: seq<byte>)
    requires Ready(m)
    ensures Step(env, m, buf).ok ==> Step(env, m, buf).m.state != Failed
  {
    hide OnGreetingHeader, OnGreetingMethods, OnRequestHeader, OnBind, OnResponse;
  }

  // The bytes taken are all that a failure needs.
  lemma {:induction false} FailsOnTaken(env: Env, m: Machine, d: seq<byte>, rest: seq<byte>)
    requires Ready(m) && m.state != Failed
    requires Run(env, m, d + rest).m.state == Failed && Run(env, m, d + rest).rest == rest
    ensures Run(env, m, d) == Stopped(Run(env, m, d + rest).m, [])
    decreases Rank(m.state)
  {
    hide Step, Ready;
    StepProgresses(env, m, d + rest);
    var o := Step(env, m, d + rest);
    StepStays(env, m, d + rest);
    FailTakes(env, m, d, rest);
    StepIgnoresMore(env, m, d, rest);
    var p := Step(env, m, d);
    assert o == Outcome(p.m, p.rest + rest, p.ok);
    StepProgresses(env, m, d);
    if o.ok {
      FailsOnTaken(env, o.m, p.rest, rest);
    } else {
      assert |p.rest| == 0;
    }
  }

  lemma {:induction false} FailTakes(env: Env, m: Machine, d: seq<byte>, rest: seq<byte>)
    requires Ready(m) && m.state != Failed
    requires Run(env, m, d + rest).m.state == Failed && Run(env, m, d + rest).rest == rest
    ensures m.state != Success && !Insufficient(m, |d|)
  {
    hide OnGreetingHeader, OnGreetingMethods, OnRequestHeader, OnAddress, OnBind, OnResponse;
    var o := Step(env, m, d + rest);
    StepProgresses(env, m, d + rest);
    if o.ok {
      RestIsSuffix(env, o.m, o.rest);
    }
  }

  // Reads that reach a failed machine leave its size or, once they amount to it, clear it.
  lemma {:induction false} FailedKeepsOrDrops(env: Env, s: Stopped, chunks: seq<seq<byte>>)
    requires s.m.state == Failed
    ensures var r := Feed(env, s, chunks).m.required;
            r == s.m.required || (r == 0 && s.m.required <= |s.rest| + |Flatten(chunks)|)
    decreases |chunks|
  {
    if chunks != [] {
      var next := Run(env, s.m, s.rest + chunks[0]);
      FailedKeepsOrDrops(env, next, chunks[1..]);
    }
  }

  lemma {:induction false} FeedKeepsOrDrops(env: Env, m: Machine, buf: seq<byte>, chunks: seq<seq<byte>>)
    requires Ready(m) && m.state != Failed
    ensures Ready(Run(env, m, buf).m)
    ensures var s, r := Run(env, m, buf + Flatten(chunks)), Feed(env, Run(env, m, buf), chunks).m.required;
            r == s.m.required || (r == 0 && s.m.state == Failed && s.m.required <= |s.rest|)
    decreases |chunks|
  {
    hide Run, Ready;
    RunReady(env, m, buf);
    var s := Run(env, m, buf);
    RunResumesExactly(env, m, buf, Flatten(chunks));
    if s.m.state == Failed {
      FailedKeepsOrDrops(env, s, chunks);
    } else if chunks == [] {
      assert buf + [] == buf;
    } else {
      var c, rest := chunks[0], chunks[1..];
      FeedKeepsOrDrops(env, s.m, s.rest + c, rest);
      assert s.rest + c + Flatten(rest) == s.rest + Flatten(chunks);
    }
  }

  // The machine has failed with a size that the bytes behind the failure amount to.
  ghost predicate Stale(s: Stopped) {
    s.m.state == Failed && 0 < s.m.required <= |s.rest|
  }

  // Some cut of the input into reads leaves another size than the input read at once.
  ghost predicate CutMatters(env: Env, input: seq<byte>) {
    exists chunks: seq<seq<byte>> ::
      && Flatten(chunks) == input
      && Feed(env, Stopped(INIT, []), chunks).m.required != Run(env, INIT, input).m.required
  }

  /** The size is the one part of the machine that can depend on how the input was cut, and it does
      exactly for the inputs that are refused with enough bytes behind the refusal. */
  lemma {:induction false} SizeDependsOnCutIff(env: Env, input: seq<byte>)
    ensures CutMatters(env, input) <==> Stale(Run(env, INIT, input))
    ensures CutMatters(env, input) <==> RefusedEarly(env, input)
  {
    hide Run, Feed, RefusedEarly;
    StaleIff(env, input);
    if CutMatters(env, input) {
      var chunks :| && Flatten(chunks) == input
                    && Feed(env, Stopped(INIT, []), chunks).m.required != Run(env, INIT, input).m.required;
      RunIsShort(env, INIT, []);
      FeedKeepsOrDrops(env, INIT, [], chunks);
      assert [] + input == input;
    }
    if Stale(Run(env, INIT, input)) {
      CutThatDrops(env, input);
    }
  }

  lemma {:induction false} RunIsShort(env: Env, m: Machine, buf: seq<byte>)
    requires Ready(m) && Insufficient(m, |buf|)
    ensures Run(env, m, buf) == Stopped(m, buf)
  {
    StepWaits(env, m, buf);
  }

  lemma {:induction false} CutThatDrops(env: Env, input: seq<byte>)
    requires Stale(Run(env, INIT, input))
    ensures CutMatters(env, input)
  {
    hide Run;
    var s := Run(env, INIT, input);
    RestIsSuffix(env, INIT, input);
    var d := input[..|input| - |s.rest|];
    FailsOnTaken(env, INIT, d, s.rest);
    FailedDrops(env, s);
    FeedTwo(env, INIT, d, s.rest);
    FlattenTwo(d, s.rest);
    assert [] + s.rest == s.rest;
    assert Flatten([d, s.rest]) == input;
  }

  lemma {:induction false} FailedDrops(env: Env, s: Stopped)
    requires Stale(s)
    ensures Run(env, s.m, s.rest).m.required == 0
  {
  }

  lemma {:induction false} FeedTwo(env: Env, m: Machine, a: seq<byte>, b: seq<byte>)
    requires Ready(m)
    ensures Ready(Run(env, m, a).m)
    ensures var s := Run(env, m, a); Feed(env, Stopped(m, []), [a, b]) == Run(env, s.m, s.rest + b)
  {
    hide Run, Ready;
    RunReady(env, m, a);
    var s := Run(env, m, a);
    assert [] + a == a && [a, b][1..] == [b] && [b][1..] == [];
    assert Feed(env, s, [b]) == Run(env, s.m, s.rest + b);
  }

  lemma {:induction false} FlattenTwo(a: seq<byte>, b: seq<byte>)
    ensures Flatten([a, b]) == a + b
  {
    assert [a, b][1..] == [b] && [b][1..] == [];
    assert Flatten([b]) == b + [];
  }

  // A shortest such input: a wrong version with two bytes behind it, read at once and in two reads.
  lemma {:induction false} StaleSizeDependsOnCut(env: Env)
    ensures Run(env, INIT, [4, 1, 9, 9]) == Stopped(Machine(Failed, 2, []), [9, 9])
    ensures Feed(env, Stopped(INIT, []), [[4, 1], [9, 9]]) == Stopped(Machine(Failed, 0, []), [9, 9])
  {
    var cut: seq<seq<byte>> := [[4, 1], [9, 9]];
    var first := Stopped(Machine(Failed, 2, []), []);
    assert [] + cut[0] == [4, 1] && Run(env, INIT, [4, 1]) == first;
    assert cut[1..] == [[9, 9]] && first.rest + cut[1] == [9, 9];
    assert Run(env, first.m, [9, 9]) == Stopped(Machine(Failed, 0, []), [9, 9]);
    assert cut[1..][1..] == [];
  }

  // ---------------------------------------------------------------- the same, over the bytes

  predicate BadGreetingHeader(h: seq<byte>)
    requires |h| == 2
  {
    h[0] != 5 || h[1] == 0
  }

  // Neither CONNECT nor BIND, or neither IPv4 nor IPv6, or a fixed byte is wrong.
  predicate BadRequestHeader(h: seq<byte>)
    requires |h| == 4
  {
    h[0] != 5 || h[2] != 0 || (h[1] != 1 && h[1] != 2) || (h[3] != 1 && h[3] != 4)
  }

  /** The greeting header, the greeting or the request header is refused, and behind it come at
      least as many bytes as the refused part has: 2, NMETHODS or 4. */
  ghost predicate RefusedEarly(env: Env, input: seq<byte>) {
    |input| >= 2 &&
    if BadGreetingHeader(input[..2]) then |input| >= 4
    else
      var n := 2 + input[1] as nat;
      |input| >= n &&
      if 0 !in input[2..n] || env.respond([], GREETING_REPLY) != OK then |input| >= n + input[1] as nat
      else |input| >= n + 8 && BadRequestHeader(input[n..n + 4])
  }

  lemma {:induction false} StaleIff(env: Env, input: seq<byte>)
    ensures Stale(Run(env, INIT, input)) <==> RefusedEarly(env, input)
  {
    hide Run;
    if |input| < 2 {
      RunIsShort(env, INIT, input);
    } else {
      RunUnfolds(env, INIT, input);
      if !BadGreetingHeader(input[..2]) {
        StaleMethodsIff(env, input);
      }
    }
  }

  lemma {:induction false} StaleMethodsIff(env: Env, input: seq<byte>)
    requires |input| >= 2 && !BadGreetingHeader(input[..2])
    ensures Stale(Run(env, Machine(GreetingMethods, input[1] as nat, []), input[2..])) <==> RefusedEarly(env, input)
  {
    hide Run, BadRequestHeader;
    var n := 2 + input[1] as nat;
    var m := Machine(GreetingMethods, input[1] as nat, []);
    if |input| < n {
      RunIsShort(env, m, input[2..]);
    } else {
      RunUnfolds(env, m, input[2..]);
      assert input[2..][..n - 2] == input[2..n] && input[2..][n - 2..] == input[n..];
      if 0 in input[2..n] && env.respond([], GREETING_REPLY) == OK {
        assert [] + [Respond(GREETING_REPLY)] == [Respond(GREETING_REPLY)];
        StaleHeaderIff(env, input[n..]);
        assert |input| >= n + 4 ==> input[n..][..4] == input[n..n + 4];
      }
    }
  }

  lemma {:induction false} StaleHeaderIff(env: Env, buf: seq<byte>)
    ensures Stale(Run(env, GREETED, buf)) <==> |buf| >= 8 && BadRequestHeader(buf[..4])
  {
    hide Run;
    if |buf| < 4 {
      RunIsShort(env, GREETED, buf);
    } else {
      RunUnfolds(env, GREETED, buf);
      var m := OnRequestHeader(GREETED, buf[..4]);
      if m.state != Failed {
        LaterFailureClears(env, m, buf[4..]);
      }
    }
  }

  // Behind the request header every failure comes with size zero.
  lemma {:induction false} LaterFailureClears(env: Env, m: Machine, buf: seq<byte>)
    requires Ready(m) && Rank(m.state) <= 3 && m.state != Failed
    ensures Run(env, m, buf).m.state == Failed ==> Run(env, m, buf).m.required == 0
    decreases Rank(m.state)
  {
    if m.state != Success {
      var o := Step(env, m, buf);
      StepProgresses(env, m, buf);
      LaterStepClears(env, m, buf);
      if o.ok {
        LaterFailureClears(env, o.m, o.rest);
      }
    }
  }

  lemma {:induction false} LaterStepClears(env: Env, m: Machine, buf: seq<byte>)
    requires Ready(m) && Rank(m.state) <= 3 && m.state != Failed
    ensures var o := Step(env, m, buf); o.m.state == Failed ==> o.m.required == 0 && !o.ok
  {
    hide OnGreetingHeader, OnGreetingMethods, OnRequestHeader, CreateResp, PortOf, BindReply;
  }

  // ---------------------------------------------------------------- BIND

  ghost function Binder(addr: Sockaddr): Machine
    requires !addr.OtherFamily?
  {
    Machine(RequestBind, if addr.V4? then 6 else 18, [Respond(GREETING_REPLY)])
  }

  /** A well-formed BIND, whatever follows it: the port asked for reaches the bind callback, and the
      port it bound is in the reply. */
  lemma {:induction false} ServesBind(env: Env, g: seq<byte>, addr: Sockaddr, more: seq<byte>)
    requires IsGreeting(g) && !addr.OtherFamily? && env.respond([], GREETING_REPLY) == OK
    ensures var s := Run(env, INIT, g + BindRequest(addr) + more);
            var port := PortOf(addr.port);
            var (status, bound) := env.bind([Respond(GREETING_REPLY)], port);
            var calls := [Respond(GREETING_REPLY), Bind(port)];
            s.rest == more && s.m.required == 0 &&
            if status == Fail then s.m.state == Failed && s.m.calls == calls
            else
              && s.m.calls == calls + [Respond(BindReply(bound))]
              && s.m.state == if env.respond(calls, BindReply(bound)) == Fail then Failed else WaitAccept
  {
    hide Run, BindRequest, IsGreeting, PortOf, BindReply;
    assert g + BindRequest(addr) + more == g + (BindRequest(addr) + more);
    RunGreeting(env, g, BindRequest(addr) + more);
    RunBindRequest(env, addr, more);
    assert (addr.addr + addr.port)[|addr.addr|..] == addr.port;
    assert [Respond(GREETING_REPLY)] + [Bind(PortOf(addr.port))] == [Respond(GREETING_REPLY), Bind(PortOf(addr.port))];
  }

  lemma {:induction false} RunBindRequest(env: Env, addr: Sockaddr, more: seq<byte>)
    requires !addr.OtherFamily?
    ensures Run(env, GREETED, BindRequest(addr) + more) ==
            Stopped(OnBind(env, Binder(addr), addr.addr + addr.port), more)
  {
    hide Run, OnBind, Step, FillAddrPort;
    var header, body := RequestHeaderOf(2, addr), addr.addr + addr.port;
    RequestBytes(2, addr, more);
    StepRequestHeader(env, 2, addr, body + more);
    RunUnfolds(env, GREETED, header + (body + more));
    StepBind(env, addr, more);
    RunUnfolds(env, Binder(addr), body + more);
  }

  lemma {:induction false} StepBind(env: Env, addr: Sockaddr, more: seq<byte>)
    requires !addr.OtherFamily?
    ensures Step(env, Binder(addr), addr.addr + addr.port + more)
         == Outcome(OnBind(env, Binder(addr), addr.addr + addr.port), more, false)
  {
    hide OnBind;
    Cut(addr.addr + addr.port, more);
  }

  // ---------------------------------------------------------------- completion

  /** ConnectionSucceed: the last reply.  A reply that fails is overwritten with success. */
  function Complete(env: Env, m: Machine): (Machine, bool) {
    if m.state == WaitConnect || m.state == WaitAccept then
      var isBind := m.state == WaitAccept;
      var resp := CreateResp(env, m.calls, isBind);
      (m.(state := Success, calls := m.calls + [DestAddress(isBind), Respond(resp)]), true)
    else (m.(state := Failed), false)
  }

  // The last call was a reply, and it went out.
  ghost predicate Delivered(env: Env, calls: seq<Call>) {
    var k := |calls| - 1;
    calls != [] && calls[k].Respond? && env.respond(calls[..k], calls[k].data) == OK
  }

  ghost predicate Waits(m: Machine) {
    m.state == WaitConnect || m.state == WaitAccept
  }

  // Whether the client can be sent the last reply.
  ghost predicate Answerable(env: Env, m: Machine) {
    var isBind := m.state == WaitAccept;
    env.respond(m.calls + [DestAddress(isBind)], CreateResp(env, m.calls, isBind)) == OK
  }

  /** The answer is true, and the state success, exactly if a request was waiting.  That the reply
      has then been delivered is true exactly if it could be sent. */
  lemma {:induction false} CompleteDeliversIff(env: Env, m: Machine)
    ensures var (r, ok) := Complete(env, m);
            && (ok <==> Waits(m)) && (ok <==> r.state == Success)
            && ((ok ==> Delivered(env, r.calls)) <==> (Waits(m) ==> Answerable(env, m)))
  {
    if Waits(m) {
      var isBind := m.state == WaitAccept;
      LastOfTwo(m.calls, DestAddress(isBind), Respond(CreateResp(env, m.calls, isBind)));
    }
  }

  lemma {:induction false} LastOfTwo(calls: seq<Call>, a: Call, b: Call)
    ensures (calls + [a, b])[..|calls| + 1] == calls + [a] && (calls + [a, b])[|calls| + 1] == b
  {
  }

  /** The other way to complete a handshake, where the connection was there at once, does look at
      whether its reply went out. */
  lemma {:induction false} ResponseDeliversIff(env: Env, m: Machine)
    ensures OnResponse(env, m).state == Success <==> Delivered(env, OnResponse(env, m).calls)
  {
    var calls, resp := m.calls + [DestAddress(false)], CreateResp(env, m.calls, false);
    hide CreateResp;
    assert (calls + [Respond(resp)])[..|calls|] == calls;
  }

  /** What the last reply says: for a CONNECT the near address of the connection, for a BIND that of the
      far side, each with type, address and port, and the general failure if it cannot be told. */
  lemma {:induction false} CompleteReports(env: Env, m: Machine)
    requires Waits(m)
    ensures var remote := m.state == WaitAccept;
            var calls := Complete(env, m).0.calls;
            && |calls| == |m.calls| + 2 && calls[..|m.calls|] == m.calls
            && calls[|m.calls|] == DestAddress(remote)
            && calls[|m.calls| + 1] == Respond(
                 match env.destAddress(m.calls, remote)
                 case None => [5, 1, 0, 1, 0, 0, 0, 0, 0, 0]
                 case Some(V4(addr, port)) => [5, 0, 0, 1] + addr + port
                 case Some(V6(addr, port)) => [5, 0, 0, 4] + addr + port
                 case Some(OtherFamily) => [5, 0, 0])
  {
    var remote := m.state == WaitAccept;
    LastOfTwo(m.calls, DestAddress(remote), Respond(CreateResp(env, m.calls, remote)));
    match env.destAddress(m.calls, remote)
    case None =>
    case Some(a) =>
      if !a.OtherFamily? {
        RequestBytes(0, a, []);
        assert [5, 0, 0] + FillAddrPort(a) == [5, 0, 0, if a.V4? then 1 else 4] + a.addr + a.port;
      }
  }

  // The connection takes its time, and the client, which was sent the greeting, is gone by then.
  ghost function ClientLeaves(env: Env): Env {
    env.(
      respond := (calls, data) => if calls == [] then OK else Fail,
      connect := Some((calls, dest) => InProgress))
  }

  /** Success without a delivered reply does happen, from any greeting and any CONNECT. */
  lemma {:induction false} SuccessUndelivered(env: Env, g: seq<byte>, dest: Sockaddr, more: seq<byte>)
    requires IsGreeting(g) && !dest.OtherFamily?
    ensures var gone := ClientLeaves(env);
            var m := Run(gone, INIT, g + ConnectRequest(dest) + more).m;
            var (r, ok) := Complete(gone, m);
            Waits(m) && ok && r.state == Success && !Delivered(gone, r.calls)
  {
    hide Run, ConnectRequest, IsGreeting, CreateResp, Complete, Delivered;
    var gone := ClientLeaves(env);
    ServesConnect(gone, g, dest, more);
    CompleteDeliversIff(gone, Run(gone, INIT, g + ConnectRequest(dest) + more).m);
  }
}
