/**
A proxy session as a transition system: the handshake, the wait for a connection, and then
forwarding in both directions.

Each handler is one atomic step, as the strand makes it.  The environment may complete any operation
in flight, with or without an error and with any number of bytes that fits, in any order: nothing
else is assumed about the sockets.
*/
module Bridge {
  import opened Bytes
  import opened Socks5
  import P = Pipes

  datatype Session = Session(
    m: Machine,
    up: P.Pipe,
    down: P.Pipe,
    handshakeRead: bool,  // the handshake's read from the client is in flight
    connecting: bool,     // a connection to the destination is being made
    accepting: bool,      // an inbound connection is being waited for
    forwarding: bool,
    header: seq<byte>)    // the bytes the handshake has taken

  const FRESH := Session(INIT, P.IDLE, P.IDLE, false, false, false, false, [])

  // The sizes that ReserveAtLeast happens to reserve; they depend on the blocks at hand.
  datatype Choice = Choice(handshake: nat, up: nat, down: nat)

  ghost predicate LegalChoice(cap: nat, ch: Choice) {
    && P.LegalRoom(cap, 1, ch.handshake)
    && P.LegalRoom(cap, P.READ_SIZE, ch.up)
    && P.LegalRoom(cap, P.READ_SIZE, ch.down)
  }

  // A completed operation.
  datatype Event =
    | HandshakeRead(failed: bool, data: seq<byte>)
    | Connected(failed: bool)
    | Inbound(failed: bool)
    | Up(c: P.Completion)
    | Down(c: P.Completion)

  ghost predicate Legal(s: Session, e: Event) {
    match e
    case HandshakeRead(_, data) => s.handshakeRead && |data| <= s.up.q.room
    case Connected(_) => s.connecting
    case Inbound(_) => s.accepting
    case Up(c) => s.forwarding && P.Legal(s.up, c)
    case Down(c) => s.forwarding && P.Legal(s.down, c)
  }

  /** The callbacks the bridge installs: connecting is always asynchronous. */
  ghost predicate BridgeEnv(env: Env) {
    env.connect.Some? && forall calls, dest :: env.connect.value(calls, dest) == InProgress
  }

  // ---------------------------------------------------------------- the handlers

  function Forward(s: Session, ch: Choice): Session
    requires P.Matched(s.up) && P.Matched(s.down)
  {
    s.(up := P.Schedule(s.up, ch.up), down := P.Schedule(s.down, ch.down))
  }

  // The first read of the session.
  function Begin(s: Session, ch: Choice): Session
    requires !s.up.q.reserved
  {
    s.(up := s.up.(q := s.up.q.Reserve(ch.handshake)), handshakeRead := true)
  }

  // Whether the calls from index i on started a connection.
  predicate StartsConnect(calls: seq<Call>, i: nat) {
    exists k :: i <= k < |calls| && calls[k].Connect?
  }

  // Whether they started to wait for an inbound connection.
  predicate StartsAccept(env: Env, calls: seq<Call>, i: nat) {
    exists k :: i <= k < |calls| && calls[k].Bind? && env.bind(calls[..k], calls[k].port).0 != Fail
  }

  // The bytes at hand are put through the handshake.
  function Proceeded(env: Env, s: Session): Session
    requires Ready(s.m)
  {
    var buf := s.up.q.data;
    var r := Run(env, s.m, buf);
    RestIsSuffix(env, s.m, buf);
    s.(m := r.m,
       up := s.up.(q := s.up.q.(data := r.rest)),
       header := s.header + buf[..|buf| - |r.rest|],
       connecting := s.connecting || StartsConnect(r.m.calls, |s.m.calls|),
       accepting := s.accepting || StartsAccept(env, r.m.calls, |s.m.calls|))
  }

  function OnHandshakeRead(env: Env, s: Session, failed: bool, data: seq<byte>, ch: Choice): Session
    requires Ready(s.m) && s.up.q.reserved && |data| <= s.up.q.room
  {
    var s1 := s.(handshakeRead := false, up := s.up.(q := s.up.q.Commit(data), input := s.up.input + data));
    if failed then s1
    else
      var s2 := Proceeded(env, s1);
      if Insufficient(s2.m, |s2.up.q.data|) then Begin(s2, ch) else s2
  }

  // The connection is up: the last reply, and forwarding if a request was waiting for it.
  function Established(env: Env, s: Session, ch: Choice): Session
    requires Complete(env, s.m).1 ==> P.Matched(s.up) && P.Matched(s.down)
  {
    var (m, ok) := Complete(env, s.m);
    if ok then Forward(s.(m := m, forwarding := true), ch) else s.(m := m)
  }

  // What the buffers assert when the handlers use them.
  ghost predicate Steppable(env: Env, s: Session) {
    && (s.handshakeRead ==> Ready(s.m) && s.up.q.reserved)
    && ((s.connecting || s.accepting) && Complete(env, s.m).1 ==> P.Matched(s.up) && P.Matched(s.down))
    && (s.forwarding ==> P.Matched(s.up) && P.Matched(s.down))
  }

  function Next(env: Env, s: Session, e: Event, ch: Choice): Session
    requires Legal(s, e) && Steppable(env, s)
  {
    match e
    case HandshakeRead(failed, data) => OnHandshakeRead(env, s, failed, data, ch)
    case Connected(failed) =>
      var s1 := s.(connecting := false);
      if failed then s1 else Established(env, s1, ch)
    case Inbound(failed) =>
      var s1 := s.(accepting := false);
      if failed then s1 else Established(env, s1, ch)
    case Up(c) =>
      Forward(s.(up := P.Done(s.up, c)), ch)
    case Down(c) =>
      Forward(s.(down := P.Done(s.down, c)), ch)
  }

  /** t is what one handler makes of s. */
  ghost predicate Steps(env: Env, cap: nat, s: Session, e: Event, ch: Choice, t: Session) {
    Legal(s, e) && LegalChoice(cap, ch) && Steppable(env, s) && t == Next(env, s, e, ch)
  }

  // ---------------------------------------------------------------- the invariant

  // The largest size any handshake state waits for.
  const MAX_REQUIRED := 255

  /** Before forwarding: the only read in flight is the handshake's, the bytes taken so far are what
      the state of the handshake says, and nothing has been passed on. */
  ghost predicate Handshaking(env: Env, cap: nat, s: Session) {
    && Ready(s.m) && s.m.required <= MAX_REQUIRED && s.m.state != Success && s.m.state != Response
    && Accepted(env, s.m, s.header)
    && s.down == P.IDLE
    && s.up == P.IDLE.(q := s.up.q, input := s.up.input)
    && s.up.q.Valid() && !s.up.q.peeked
    && (s.handshakeRead <==> s.up.q.reserved)
    && s.up.input == s.header + s.up.q.data
    && |s.up.q.data| + s.up.q.room <= MAX_REQUIRED + cap
    && (s.handshakeRead ==> !Waiting(s.m.state) && !s.accepting)
    && (s.connecting ==> s.m.state == WaitConnect)
    && (s.accepting ==> (s.m.state == WaitAccept || s.m.state == Failed) && s.m.required == 0)
  }

  predicate Waiting(st: State) {
    st == WaitConnect || st == WaitAccept
  }

  /** The bytes are a greeting and a request, and the request is the one that was acted upon. */
  ghost predicate Served(calls: seq<Call>, header: seq<byte>) {
    || (exists n: nat, dest: Sockaddr :: ConnectTo(calls, header, n, dest) && |calls| > 1)
    || (exists n: nat, addr: Sockaddr :: BindAt(calls, header, n, addr))
  }

  ghost predicate Forwards(cap: nat, s: Session) {
    && s.m.state == Success && Served(s.m.calls, s.header)
    && !s.handshakeRead && !s.connecting && !s.accepting
    && P.Inv(cap, s.header, s.up) && P.Settled(s.up)
    && P.Inv(cap, [], s.down) && P.Settled(s.down)
  }

  ghost predicate Inv(env: Env, cap: nat, s: Session) {
    cap > 0 && if s.forwarding then Forwards(cap, s) else Handshaking(env, cap, s)
  }

  // ---------------------------------------------------------------- the handshake phase

  // The loop with the bridge's callbacks never completes the handshake by itself, never waits for
  // more than MAX_REQUIRED bytes, only adds calls, and starts a connection or a wait for one
  // exactly when it comes to the matching state.
  ghost predicate Orderly(m: Machine, r: Machine) {
    && r.state != Success && r.state != Response && r.required <= MAX_REQUIRED
    && m.calls <= r.calls
    && (forall k | |m.calls| <= k < |r.calls| ::
          && (r.calls[k].Connect? ==> r.state == WaitConnect)
          && (r.calls[k].Bind? ==> (r.state == WaitAccept || r.state == Failed) && r.required == 0))
  }

  // One step: as above, and a step that asks to be repeated starts neither.
  ghost predicate OrderlyStep(m: Machine, r: Machine, ok: bool) {
    && Orderly(m, r)
    && (ok ==> forall k | |m.calls| <= k < |r.calls| :: !r.calls[k].Connect? && !r.calls[k].Bind?)
  }

  lemma {:induction false} OrderlyReply(env: Env, m: Machine, d: seq<byte>)
    requires m.required <= MAX_REQUIRED
    ensures OrderlyStep(m, OnGreetingMethods(env, m, d), true)
  {
  }

  lemma {:induction false} OrderlyAddress(env: Env, m: Machine, dest: Sockaddr)
    requires BridgeEnv(env) && m.state != Response
    ensures OrderlyStep(m, OnAddress(env, m, dest).0, OnAddress(env, m, dest).1)
  {
  }

  lemma {:induction false} OrderlyBind(env: Env, m: Machine, d: seq<byte>)
    requires |d| >= 2
    ensures OrderlyStep(m, OnBind(env, m, d), false)
  {
    hide PortOf, BindReply;
  }

  lemma {:induction false} OrderlySilent(m: Machine, r: Machine, ok: bool)
    requires r.calls == m.calls && r.state != Success && r.state != Response && r.required <= MAX_REQUIRED
    ensures OrderlyStep(m, r, ok)
  {
  }

  lemma {:induction false} OrderlyRequest(m: Machine, d: seq<byte>)
    requires |d| == 4 && m.required <= MAX_REQUIRED
    ensures OnRequestHeader(m, d).calls == m.calls && OnRequestHeader(m, d).required <= MAX_REQUIRED
    ensures OnRequestHeader(m, d).state != Success && OnRequestHeader(m, d).state != Response
  {
  }

  lemma {:induction false} OrderlyGreeting(m: Machine, d: seq<byte>)
    requires |d| == 2 && m.required <= MAX_REQUIRED
    ensures OnGreetingHeader(m, d).calls == m.calls && OnGreetingHeader(m, d).required <= MAX_REQUIRED
  {
  }

  lemma {:induction false} StepOrderly(env: Env, m: Machine, buf: seq<byte>)
    requires BridgeEnv(env) && Ready(m) && m.required <= MAX_REQUIRED && m.state != Success && m.state != Response
    ensures OrderlyStep(m, Step(env, m, buf).m, Step(env, m, buf).ok)
  {
    hide OrderlyStep, BridgeEnv, OnGreetingHeader, OnGreetingMethods, OnRequestHeader, OnAddress, OnBind, OnResponse;
    var o := Step(env, m, buf);
    if Insufficient(m, |buf|) || AtRest(m.state) {
      OrderlySilent(m, o.m, o.ok);
    } else {
      var d := buf[..m.required];
      match m.state
      case GreetingHeader =>
        OrderlyGreeting(m, d);
        OrderlySilent(m, o.m, o.ok);
      case GreetingMethods =>
        OrderlyReply(env, m, d);
        OrderlyWeaker(m, o.m, o.ok);
      case RequestHeader =>
        OrderlyRequest(m, d);
        OrderlySilent(m, o.m, o.ok);
      case RequestAddrV4 => OrderlyAddress(env, m, V4(d[..4], d[4..]));
      case RequestAddrV6 => OrderlyAddress(env, m, V6(d[..16], d[16..]));
      case RequestBind => OrderlyBind(env, m, d);
    }
  }

  lemma {:induction false} OrderlyWeaker(m: Machine, r: Machine, ok: bool)
    requires OrderlyStep(m, r, true)
    ensures OrderlyStep(m, r, ok)
  {
  }

  lemma {:induction false} RunOrderly(env: Env, m: Machine, buf: seq<byte>)
    requires BridgeEnv(env) && Ready(m) && m.required <= MAX_REQUIRED && m.state != Success && m.state != Response
    ensures Orderly(m, Run(env, m, buf).m)
    decreases Rank(m.state)
  {
    hide Step, Ready;
    StepProgresses(env, m, buf);
    StepOrderly(env, m, buf);
    var o := Step(env, m, buf);
    if o.ok {
      RunOrderly(env, o.m, o.rest);
    }
  }

  // The header grows by exactly what the handshake takes.
  lemma {:induction false} HeaderGrows(env: Env, m: Machine, header: seq<byte>, buf: seq<byte>)
    requires Ready(m) && Accepted(env, m, header)
    ensures var rest := Run(env, m, buf).rest;
            |rest| <= |buf| && Accepted(env, Run(env, m, buf).m, header + buf[..|buf| - |rest|])
  {
    hide Run, Accepted, Ready;
    RunAccepts(env, m, header, buf);
    var r := Run(env, m, buf);
    var d :| buf == d + r.rest && Accepted(env, r.m, header + d);
    assert buf[..|buf| - |r.rest|] == d;
  }

  lemma {:induction false} ProceededKeeps(env: Env, cap: nat, s: Session)
    requires BridgeEnv(env) && cap > 0 && Handshaking(env, cap, s)
    requires !s.handshakeRead && !Waiting(s.m.state) && !s.accepting
    ensures Handshaking(env, cap, Proceeded(env, s))
  {
    hide Run, Accepted, Ready, Served;
    var buf := s.up.q.data;
    var r := Run(env, s.m, buf);
    RunReady(env, s.m, buf);
    RunOrderly(env, s.m, buf);
    HeaderGrows(env, s.m, s.header, buf);
    RestIsSuffix(env, s.m, buf);
    var taken := buf[..|buf| - |r.rest|];
    assert s.header + buf == (s.header + taken) + r.rest;
  }

  lemma {:induction false} HandshakeReadKeeps(env: Env, cap: nat, s: Session, failed: bool, data: seq<byte>, ch: Choice)
    requires BridgeEnv(env) && cap > 0 && Handshaking(env, cap, s) && s.handshakeRead && |data| <= s.up.q.room
    requires LegalChoice(cap, ch)
    ensures Handshaking(env, cap, OnHandshakeRead(env, s, failed, data, ch))
    ensures !OnHandshakeRead(env, s, failed, data, ch).forwarding || s.forwarding
  {
    hide Accepted, Run, StartsConnect, StartsAccept;
    var s1 := s.(handshakeRead := false, up := s.up.(q := s.up.q.Commit(data), input := s.up.input + data));
    assert s.header + s.up.q.data + data == s.header + (s.up.q.data + data);
    assert Handshaking(env, cap, s1);
    if !failed {
      ProceededKeeps(env, cap, s1);
    }
  }

  // ---------------------------------------------------------------- the hand-over

  lemma {:induction false} ServedByConnect(env: Env, s: Session)
    requires BridgeEnv(env) && Accepted(env, s.m, s.header) && Waiting(s.m.state)
    ensures Served(Complete(env, s.m).0.calls, s.header)
  {
    hide CreateResp, Handshake;
    var calls := Complete(env, s.m).0.calls;
    if s.m.state == WaitConnect {
      var n: nat, dest: Sockaddr :| ConnectTo(s.m.calls, s.header, n, dest);
      assert ConnectTo(calls, s.header, n, dest);
    } else {
      var n: nat, addr: Sockaddr :| BindAt(s.m.calls, s.header, n, addr);
      assert BindAt(calls, s.header, n, addr);
    }
  }

  lemma {:induction false} EstablishedKeeps(env: Env, cap: nat, s: Session, ch: Choice)
    requires BridgeEnv(env) && cap > 0 && LegalChoice(cap, ch)
    requires Handshaking(env, cap, s) && !s.forwarding && !s.connecting && !s.accepting
    requires Waiting(s.m.state) || s.m.state == Failed
    ensures Inv(env, cap, Established(env, s, ch))
  {
    hide Accepted, Served, CreateResp;
    if Waiting(s.m.state) {
      ServedByConnect(env, s);
      assert s.up.input == s.header + [] + s.up.q.data;
      P.ScheduleKeeps(cap, s.header, s.up, ch.up);
      P.ScheduleKeeps(cap, [], s.down, ch.down);
    }
  }

  // ---------------------------------------------------------------- every step

  lemma {:induction false} ForwardKeeps(env: Env, cap: nat, s: Session, ch: Choice)
    requires cap > 0 && LegalChoice(cap, ch) && s.forwarding
    requires s.m.state == Success && Served(s.m.calls, s.header)
    requires !s.handshakeRead && !s.connecting && !s.accepting
    requires P.Inv(cap, s.header, s.up) && P.Inv(cap, [], s.down)
    ensures Inv(env, cap, Forward(s, ch))
  {
    hide Served;
    P.ScheduleKeeps(cap, s.header, s.up, ch.up);
    P.ScheduleKeeps(cap, [], s.down, ch.down);
  }

  // A session in the invariant meets every assertion that the next handler's buffers make.
  lemma {:induction false} InvSteppable(env: Env, cap: nat, s: Session)
    requires Inv(env, cap, s)
    ensures Steppable(env, s)
  {
  }

  /** Every handler keeps the invariant, whatever completes and however. */
  lemma {:induction false} NextKeeps(env: Env, cap: nat, s: Session, e: Event, ch: Choice)
    requires BridgeEnv(env) && Inv(env, cap, s) && Legal(s, e) && LegalChoice(cap, ch)
    ensures Steppable(env, s) && Inv(env, cap, Next(env, s, e, ch))
  {
    hide Accepted, Served, Ready, P.Inv;
    InvSteppable(env, cap, s);
    match e
    case HandshakeRead(failed, data) => HandshakeReadKeeps(env, cap, s, failed, data, ch);
    case Connected(failed) =>
      if !failed {
        EstablishedKeeps(env, cap, s.(connecting := false), ch);
      }
    case Inbound(failed) =>
      if !failed {
        EstablishedKeeps(env, cap, s.(accepting := false), ch);
      }
    case Up(c) =>
      P.DoneKeeps(cap, s.header, s.up, c);
      ForwardKeeps(env, cap, s.(up := P.Done(s.up, c)), ch);
    case Down(c) =>
      P.DoneKeeps(cap, [], s.down, c);
      ForwardKeeps(env, cap, s.(down := P.Done(s.down, c)), ch);
  }

  /** What a completed operation of forwarding makes of a session is a step. */
  lemma {:induction false} ForwardSteps(env: Env, cap: nat, s: Session, e: Event, ch: Choice)
    requires BridgeEnv(env) && Inv(env, cap, s) && s.forwarding && LegalChoice(cap, ch)
    requires e.Up? || e.Down?
    requires P.Matched(s.up) && P.Matched(s.down) && P.Legal(if e.Up? then s.up else s.down, e.c)
    ensures var t := Forward(if e.Up? then s.(up := P.Done(s.up, e.c)) else s.(down := P.Done(s.down, e.c)), ch);
            Steps(env, cap, s, e, ch, t) && Inv(env, cap, t)
  {
    NextKeeps(env, cap, s, e, ch);
    hide Inv, Forward, BridgeEnv;
  }

  // ---------------------------------------------------------------- whole runs

  type Trace = seq<(Event, Choice)>

  // Every event of the trace completes something that is in flight when it happens.
  ghost predicate LegalRun(env: Env, cap: nat, s: Session, tr: Trace)
    requires BridgeEnv(env) && Inv(env, cap, s)
    decreases |tr|
  {
    tr == [] ||
    (Legal(s, tr[0].0) && LegalChoice(cap, tr[0].1) &&
     (NextKeeps(env, cap, s, tr[0].0, tr[0].1);
      LegalRun(env, cap, Next(env, s, tr[0].0, tr[0].1), tr[1..])))
  }

  ghost function After(env: Env, cap: nat, s: Session, tr: Trace): Session
    requires BridgeEnv(env) && Inv(env, cap, s) && LegalRun(env, cap, s, tr)
    decreases |tr|
  {
    if tr == [] then s
    else
      NextKeeps(env, cap, s, tr[0].0, tr[0].1);
      After(env, cap, Next(env, s, tr[0].0, tr[0].1), tr[1..])
  }

  /** Every run keeps the invariant. */
  lemma {:induction false} RunKeeps(env: Env, cap: nat, s: Session, tr: Trace)
    requires BridgeEnv(env) && Inv(env, cap, s) && LegalRun(env, cap, s, tr)
    ensures Inv(env, cap, After(env, cap, s, tr))
    decreases |tr|
  {
    if tr != [] {
      NextKeeps(env, cap, s, tr[0].0, tr[0].1);
      hide Inv, Next, Legal;
      RunKeeps(env, cap, Next(env, s, tr[0].0, tr[0].1), tr[1..]);
    }
  }

  // A session that has just started its handshake.
  lemma {:induction false} BeginsInvariant(env: Env, cap: nat, ch: Choice)
    requires cap > 0 && LegalChoice(cap, ch)
    ensures Inv(env, cap, Begin(FRESH, ch))
  {
  }

  // What the invariant says of the bytes.
  ghost predicate Faithful(s: Session) {
    && s.up.input == s.header + s.up.output + s.up.q.data
    && s.down.input == s.down.output + s.down.q.data
    && (s.forwarding ==> Served(s.m.calls, s.header))
    && (!s.forwarding ==> s.up.output == [] && s.down.output == [] && s.down.input == [])
  }

  lemma {:induction false} InvFaithful(env: Env, cap: nat, s: Session)
    requires Inv(env, cap, s)
    ensures Faithful(s)
  {
    hide Served, Accepted, Ready;
    if !s.forwarding {
      assert s.header + [] + s.up.q.data == s.header + s.up.q.data;
    } else {
      assert [] + s.down.output + s.down.q.data == s.down.output + s.down.q.data;
    }
  }

  /** End-to-end fidelity.  In every state that any run can reach, the bytes read from the client are
      the handshake header, then what has been written to the destination, then what is still queued;
      the header is exactly a greeting and the request that was acted upon, so bytes that came behind
      it in the same read are passed on too.  Symmetrically for the other direction.  Before
      forwarding, nothing has been passed on. */
  lemma {:induction false} StreamFidelity(env: Env, cap: nat, ch: Choice, tr: Trace)
    requires BridgeEnv(env) && cap > 0 && LegalChoice(cap, ch)
    ensures Inv(env, cap, Begin(FRESH, ch))
    ensures LegalRun(env, cap, Begin(FRESH, ch), tr) ==> Faithful(After(env, cap, Begin(FRESH, ch), tr))
  {
    BeginsInvariant(env, cap, ch);
    hide Inv, Faithful, Begin;
    if LegalRun(env, cap, Begin(FRESH, ch), tr) {
      RunKeeps(env, cap, Begin(FRESH, ch), tr);
      InvFaithful(env, cap, After(env, cap, Begin(FRESH, ch), tr));
    }
  }

  /** The header of a served session is 2 + NMETHODS bytes of greeting, 4 of request header and 6 or
      18 of address and port. */
  lemma {:induction false} HeaderLength(calls: seq<Call>, header: seq<byte>)
    requires Served(calls, header)
    ensures |header| >= 2
    ensures |header| == 2 + header[1] as int + 4 + 6 || |header| == 2 + header[1] as int + 4 + 18
    ensures header[0] == 5
  {
    if n: nat, dest: Sockaddr :| ConnectTo(calls, header, n, dest) && |calls| > 1 {
      RequestLength(header, n, 1, dest);
    } else {
      var n: nat, addr: Sockaddr :| BindAt(calls, header, n, addr);
      RequestLength(header, n, 2, addr);
    }
  }

  lemma {:induction false} RequestLength(header: seq<byte>, n: nat, cmd: byte, a: Sockaddr)
    requires !a.OtherFamily? && Handshake(header, n, [5, cmd, 0] + FillAddrPort(a))
    ensures |header| >= 2 && header[0] == 5
    ensures |header| == 2 + header[1] as int + 4 + |a.addr| + 2
  {
    assert header[..n][0] == header[0] && header[..n][1] == header[1];
    assert |header| == n + |header[n..]|;
  }

  /** Half-close, no stall and bounded memory, in every forwarding state that any run can reach. */
  lemma {:induction false} ForwardingSafety(env: Env, cap: nat, ch: Choice, tr: Trace)
    requires BridgeEnv(env) && cap > 0 && LegalChoice(cap, ch)
    ensures Inv(env, cap, Begin(FRESH, ch))
    ensures LegalRun(env, cap, Begin(FRESH, ch), tr) && After(env, cap, Begin(FRESH, ch), tr).forwarding ==>
              var s := After(env, cap, Begin(FRESH, ch), tr);
              && SafePipe(cap, s.header, s.up)
              && SafePipe(cap, [], s.down)
  {
    hide Served, Accepted, Ready;
    BeginsInvariant(env, cap, ch);
    if LegalRun(env, cap, Begin(FRESH, ch), tr) && After(env, cap, Begin(FRESH, ch), tr).forwarding {
      RunKeeps(env, cap, Begin(FRESH, ch), tr);
      var s := After(env, cap, Begin(FRESH, ch), tr);
      PipeSafety(cap, s.header, s.up);
      PipeSafety(cap, [], s.down);
    }
  }

  ghost predicate SafePipe(cap: nat, taken: seq<byte>, p: P.Pipe) {
    // The sink is shut down exactly when the source has ended and nothing is queued ...
    && (p.shut <==> !p.readable && p.q.data == [])
    // ... and then everything has been written and nothing is in flight.
    && (p.shut ==> p.input == taken + p.output && !p.reading && !p.writing)
    // Nothing in flight means that there is nothing left to do.
    && (!p.reading && !p.writing ==> !p.writable || p.shut)
    // While both ends are open, bytes that are queued are being written, and the source is being read
    // until 32 KiB are queued.
    && (p.writable && p.q.data != [] ==> p.writing)
    && (p.readable && p.writable && |p.q.data| < 32_768 ==> p.reading)
    // What comes on top of them is at most one read of 8 KiB, rounded up to whole blocks.
    && |p.q.data| <= 32_768 + 8_192 + cap - 2
  }

  lemma {:induction false} PipeSafety(cap: nat, taken: seq<byte>, p: P.Pipe)
    requires P.Inv(cap, taken, p) && P.Settled(p)
    ensures SafePipe(cap, taken, p)
  {
    if p.shut {
      P.ShutMeansDone(cap, taken, p);
    }
    if !p.reading && !p.writing {
      P.NoStall(cap, taken, p);
    }
  }

  /** A direction that has been shut down never changes again, in any run. */
  lemma {:induction false} ShutForever(env: Env, cap: nat, s: Session, tr: Trace)
    requires BridgeEnv(env) && Inv(env, cap, s) && s.forwarding && LegalRun(env, cap, s, tr)
    ensures var r := After(env, cap, s, tr);
            && r.forwarding && r.header == s.header && r.m == s.m
            && (s.up.shut ==> r.up == s.up)
            && (s.down.shut ==> r.down == s.down)
    decreases |tr|
  {
    hide Served, Accepted, Ready, P.Inv;
    if tr != [] {
      var (e, ch) := tr[0];
      NextKeeps(env, cap, s, e, ch);
      var t := Next(env, s, e, ch);
      if s.up.shut {
        ShutUnchanged(cap, s.header, s.up, ch.up);
      }
      if s.down.shut {
        ShutUnchanged(cap, [], s.down, ch.down);
      }
      ShutForever(env, cap, t, tr[1..]);
    }
  }

  lemma {:induction false} ShutUnchanged(cap: nat, taken: seq<byte>, p: P.Pipe, room: nat)
    requires P.Inv(cap, taken, p) && p.shut
    ensures forall c :: !P.Legal(p, c)
    ensures P.Schedule(p, room) == p
  {
    forall c
      ensures !P.Legal(p, c)
    {
      P.ShutIsFinal(cap, taken, p, c, room);
    }
    P.ShutIsFinal(cap, taken, p, P.Write(false, 0), room);
  }

  /** A handshake that has failed never leads to forwarding, in any run, although the session may go
      on reading and may still be waiting for an inbound connection. */
  lemma {:induction false} FailedForever(env: Env, cap: nat, s: Session, tr: Trace)
    requires BridgeEnv(env) && Inv(env, cap, s) && !s.forwarding && s.m.state == Failed && LegalRun(env, cap, s, tr)
    ensures var r := After(env, cap, s, tr);
            && !r.forwarding && r.m.state == Failed && r.m.calls == s.m.calls
            && r.up.output == [] && r.down.output == []
    decreases |tr|
  {
    hide Accepted;
    if tr != [] {
      var (e, ch) := tr[0];
      NextKeeps(env, cap, s, e, ch);
      FailedStays(env, cap, s, e, ch);
      FailedForever(env, cap, Next(env, s, e, ch), tr[1..]);
    }
  }

  lemma {:induction false} FailedStays(env: Env, cap: nat, s: Session, e: Event, ch: Choice)
    requires BridgeEnv(env) && Inv(env, cap, s) && !s.forwarding && s.m.state == Failed && Legal(s, e)
    requires Steppable(env, s)
    ensures var t := Next(env, s, e, ch); !t.forwarding && t.m.state == Failed && t.m.calls == s.m.calls
  {
    hide Accepted;
    match e
    case HandshakeRead(failed, data) => RestStays(env, s.m, s.up.q.data + data);
    case _ =>
  }
}
