/**
What a session is, told from what has completed: over every run, the events of the run decide whether
a read of the handshake is in flight, whether a connection is awaited, whether the session forwards,
and which ends of which direction are open.
*/
module SessionHistory {
  import opened Bytes
  import opened Socks5
  import opened Bridge
  import P = Pipes

  // ---------------------------------------------------------------- the events of a run

  ghost function Events(tr: Trace): seq<Event> {
    if tr == [] then [] else [tr[0].0] + Events(tr[1..])
  }

  // What the reads of the handshake have delivered.
  ghost function Handshaken(evs: seq<Event>): seq<byte> {
    if evs == [] then []
    else
      var e := evs[|evs| - 1];
      Handshaken(evs[..|evs| - 1]) + if e.HandshakeRead? then e.data else []
  }

  // The completions of each direction.
  ghost function Ups(evs: seq<Event>): seq<P.Completion> {
    if evs == [] then []
    else
      var e := evs[|evs| - 1];
      Ups(evs[..|evs| - 1]) + if e.Up? then [e.c] else []
  }

  ghost function Downs(evs: seq<Event>): seq<P.Completion> {
    if evs == [] then []
    else
      var e := evs[|evs| - 1];
      Downs(evs[..|evs| - 1]) + if e.Down? then [e.c] else []
  }

  // The client was lost during the handshake.
  ghost predicate Lost(evs: seq<Event>) {
    exists e :: e in evs && e.HandshakeRead? && e.failed
  }

  // There is a connection: one that was made or one that was accepted.
  ghost predicate Opened(evs: seq<Event>) {
    Connected(false) in evs || Inbound(false) in evs
  }

  // Making or accepting a connection has failed.
  ghost predicate Refused(evs: seq<Event>) {
    Connected(true) in evs || Inbound(true) in evs
  }

  lemma {:induction false} OneMore(evs: seq<Event>, e: Event)
    ensures Handshaken(evs + [e]) == if e.HandshakeRead? then Handshaken(evs) + e.data else Handshaken(evs)
    ensures Ups(evs + [e]) == if e.Up? then Ups(evs) + [e.c] else Ups(evs)
    ensures Downs(evs + [e]) == if e.Down? then Downs(evs) + [e.c] else Downs(evs)
    ensures Lost(evs + [e]) <==> Lost(evs) || (e.HandshakeRead? && e.failed)
    ensures Opened(evs + [e]) <==> Opened(evs) || e == Connected(false) || e == Inbound(false)
    ensures Refused(evs + [e]) <==> Refused(evs) || e == Connected(true) || e == Inbound(true)
  {
    var more := evs + [e];
    assert more[..|more| - 1] == evs && more[|more| - 1] == e && e in more;
    assert forall d :: d in more <==> d in evs || d == e;
  }

  // ---------------------------------------------------------------- the streams

  ghost predicate StreamsTold(s: Session, evs: seq<Event>) {
    && P.Told(s.up, Handshaken(evs), Ups(evs))
    && P.Told(s.down, [], Downs(evs))
    && (!s.forwarding ==> Ups(evs) == [] && Downs(evs) == [])
  }

  lemma {:induction false} StreamsHandshake(env: Env, cap: nat, s: Session, e: Event, ch: Choice, evs: seq<Event>)
    requires Inv(env, cap, s) && Legal(s, e) && e.HandshakeRead? && Steppable(env, s) && StreamsTold(s, evs)
    ensures StreamsTold(Next(env, s, e, ch), evs + [e])
  {
    OneMore(evs, e);
    hide Run, Accepted, Ready, Lost, Opened, Refused, Ups, Downs, Handshaken, StartsConnect, StartsAccept, P.Told;
    var t := Next(env, s, e, ch);
    assert t.up == s.up.(q := t.up.q, input := s.up.input + e.data);
    PipeHandshake(s.up, t.up, Handshaken(evs), e.data);
  }

  // More bytes from the handshake.
  lemma {:induction false} PipeHandshake(p: P.Pipe, q: P.Pipe, first: seq<byte>, data: seq<byte>)
    requires P.Told(p, first, []) && q == p.(q := q.q, input := p.input + data)
    ensures P.Told(q, first + data, [])
  {
    assert P.Delivered([]) == [];
    assert first + [] + data == first + data + [];
  }

  lemma {:induction false} StreamsConnection(env: Env, cap: nat, s: Session, e: Event, ch: Choice, evs: seq<Event>)
    requires Inv(env, cap, s) && Legal(s, e) && (e.Connected? || e.Inbound?) && Steppable(env, s)
    requires StreamsTold(s, evs)
    ensures StreamsTold(Next(env, s, e, ch), evs + [e])
  {
    OneMore(evs, e);
    hide Accepted, Ready, Lost, Opened, Refused, Ups, Downs, Handshaken, Complete, P.Told, P.Schedule;
    if !e.failed && Complete(env, s.m).1 {
      P.ScheduleTold(s.up, Handshaken(evs), Ups(evs), ch.up);
      P.ScheduleTold(s.down, [], Downs(evs), ch.down);
    }
  }

  lemma {:induction false} StreamsForward(env: Env, cap: nat, s: Session, e: Event, ch: Choice, evs: seq<Event>)
    requires Inv(env, cap, s) && Legal(s, e) && (e.Up? || e.Down?) && Steppable(env, s) && StreamsTold(s, evs)
    ensures StreamsTold(Next(env, s, e, ch), evs + [e])
  {
    OneMore(evs, e);
    hide Served, Lost, Opened, Refused, Ups, Downs, Handshaken, P.Told, P.Schedule, P.Done, P.Inv;
    if e.Up? {
      P.DoneTold(cap, s.header, s.up, Handshaken(evs), Ups(evs), e.c, ch.up);
      P.ScheduleTold(s.down, [], Downs(evs), ch.down);
    } else {
      P.DoneTold(cap, [], s.down, [], Downs(evs), e.c, ch.down);
      P.ScheduleTold(s.up, Handshaken(evs), Ups(evs), ch.up);
    }
  }

  // ---------------------------------------------------------------- the handshake

  // The loop stops for want of bytes or at rest.
  lemma {:induction false} RunStops(env: Env, m: Machine, buf: seq<byte>)
    requires Ready(m)
    ensures var r := Run(env, m, buf); Insufficient(r.m, |r.rest|) || AtRest(r.m.state)
    decreases Rank(m.state)
  {
    hide Step, Ready;
    StepProgresses(env, m, buf);
    if m.state == Success {
    } else if Insufficient(m, |buf|) {
      StepWaits(env, m, buf);
    } else if Step(env, m, buf).ok {
      RunStops(env, Step(env, m, buf).m, Step(env, m, buf).rest);
    } else {
      StoppedAtRest(env, m, buf);
    }
  }

  // To come to wait for a connection is to have started it.
  ghost predicate Started(env: Env, m: Machine, r: Machine) {
    && m.calls <= r.calls
    && (r.state == WaitConnect ==> StartsConnect(r.calls, |m.calls|))
    && (r.state == WaitAccept ==> StartsAccept(env, r.calls, |m.calls|))
  }

  lemma {:induction false} AddressStarts(env: Env, m: Machine, dest: Sockaddr)
    requires BridgeEnv(env)
    ensures Started(env, m, OnAddress(env, m, dest).0) && !OnAddress(env, m, dest).1
  {
    var r := OnAddress(env, m, dest).0;
    assert r.calls[|m.calls|].Connect?;
  }

  lemma {:induction false} BindStarts(env: Env, m: Machine, d: seq<byte>)
    requires |d| >= 2
    ensures Started(env, m, OnBind(env, m, d))
  {
    hide PortOf, BindReply;
    var r, k := OnBind(env, m, d), |m.calls|;
    assert r.calls[k].Bind? && r.calls[..k] == m.calls;
  }

  lemma {:induction false} StepStarts(env: Env, m: Machine, buf: seq<byte>)
    requires BridgeEnv(env) && Ready(m) && !Waiting(m.state) && m.state != Success && m.state != Response
    ensures var o := Step(env, m, buf);
            Started(env, m, o.m) && (o.ok ==> !Waiting(o.m.state) && o.m.state != Success && o.m.state != Response)
  {
    hide Started, BridgeEnv, OnAddress, OnBind, OnResponse;
    if !Insufficient(m, |buf|) {
      var d := buf[..m.required];
      if m.state == RequestAddrV4 {
        AddressStarts(env, m, V4(d[..4], d[4..]));
      } else if m.state == RequestAddrV6 {
        AddressStarts(env, m, V6(d[..16], d[16..]));
      } else if m.state == RequestBind {
        BindStarts(env, m, d);
      } else {
        StaysUnstarted(env, m, Step(env, m, buf).m);
      }
    } else {
      StaysUnstarted(env, m, m);
    }
  }

  lemma {:induction false} StaysUnstarted(env: Env, m: Machine, r: Machine)
    requires m.calls <= r.calls && !Waiting(r.state)
    ensures Started(env, m, r)
  {
  }

  lemma {:induction false} RunStarts(env: Env, m: Machine, buf: seq<byte>)
    requires BridgeEnv(env) && Ready(m) && !Waiting(m.state) && m.state != Success && m.state != Response
    ensures Started(env, m, Run(env, m, buf).m)
    decreases Rank(m.state)
  {
    StepProgresses(env, m, buf);
    StepStarts(env, m, buf);
    hide Step, Ready, BridgeEnv;
    var o := Step(env, m, buf);
    if o.ok {
      RunStarts(env, o.m, o.rest);
    }
  }

  /** Before forwarding, the events tell what is in flight. */
  ghost predicate HandshakeTold(s: Session, evs: seq<Event>) {
    !s.forwarding ==>
      // The client is being read exactly while the handshake is short of bytes and the client there.
      && (s.handshakeRead <==> Insufficient(s.m, |s.up.q.data|) && !Lost(evs))
      && (!Lost(evs) && !AtRest(s.m.state) ==> Insufficient(s.m, |s.up.q.data|))
      // A connection is awaited from when it is asked for to when it has failed.
      && (s.m.state == WaitConnect ==> (s.connecting <==> !Refused(evs)))
      && (s.m.state == WaitAccept ==> (s.accepting <==> !Refused(evs)))
  }

  // Nothing is in flight, and forwarding has not begun.
  ghost predicate Over(s: Session) {
    !s.forwarding && !s.handshakeRead && !s.connecting && !s.accepting
  }

  /** The events tell whether the session forwards, and that a connection that failed was the end. */
  ghost predicate OutcomeTold(s: Session, evs: seq<Event>) {
    && (s.forwarding <==> Opened(evs) && s.m.state != Failed)
    && (Refused(evs) ==> Over(s))
    && (Lost(evs) ==> Over(s))
  }

  lemma {:induction false} HandshakeReadTold(
    env: Env, cap: nat, s: Session, e: Event, ch: Choice, evs: seq<Event>)
    requires BridgeEnv(env) && Inv(env, cap, s) && Legal(s, e) && e.HandshakeRead? && Steppable(env, s)
    requires HandshakeTold(s, evs) && OutcomeTold(s, evs)
    ensures HandshakeTold(Next(env, s, e, ch), evs + [e]) && OutcomeTold(Next(env, s, e, ch), evs + [e])
  {
    OneMore(evs, e);
    var buf := s.up.q.data + e.data;
    if s.m.state == Failed {
      RestStays(env, s.m, buf);
    }
    RunStarts(env, s.m, buf);
    RunStops(env, s.m, buf);
    hide Run, Accepted, Ready, Lost, Opened, Refused, StartsConnect, StartsAccept, BridgeEnv;
  }

  lemma {:induction false} ConnectionTold(env: Env, cap: nat, s: Session, e: Event, ch: Choice, evs: seq<Event>)
    requires Inv(env, cap, s) && Legal(s, e) && (e.Connected? || e.Inbound?) && Steppable(env, s)
    requires HandshakeTold(s, evs) && OutcomeTold(s, evs)
    ensures HandshakeTold(Next(env, s, e, ch), evs + [e]) && OutcomeTold(Next(env, s, e, ch), evs + [e])
  {
    OneMore(evs, e);
    hide Accepted, Ready, Lost, Opened, Refused, CreateResp, P.Schedule;
  }

  lemma {:induction false} ForwardTold(env: Env, cap: nat, s: Session, e: Event, ch: Choice, evs: seq<Event>)
    requires Inv(env, cap, s) && Legal(s, e) && (e.Up? || e.Down?) && Steppable(env, s)
    requires HandshakeTold(s, evs) && OutcomeTold(s, evs)
    ensures HandshakeTold(Next(env, s, e, ch), evs + [e]) && OutcomeTold(Next(env, s, e, ch), evs + [e])
  {
    OneMore(evs, e);
    hide Served, Lost, Opened, Refused, P.Schedule, P.Done, P.Inv;
  }

  // ---------------------------------------------------------------- every run

  ghost predicate Told(s: Session, evs: seq<Event>) {
    StreamsTold(s, evs) && HandshakeTold(s, evs) && OutcomeTold(s, evs)
  }

  lemma {:induction false} NextTold(env: Env, cap: nat, s: Session, e: Event, ch: Choice, evs: seq<Event>)
    requires BridgeEnv(env) && Inv(env, cap, s) && Legal(s, e) && LegalChoice(cap, ch) && Told(s, evs)
    ensures Steppable(env, s) && Told(Next(env, s, e, ch), evs + [e])
  {
    hide Next, Inv, Legal, StreamsTold, HandshakeTold, OutcomeTold, BridgeEnv;
    InvSteppable(env, cap, s);
    if e.HandshakeRead? {
      StreamsHandshake(env, cap, s, e, ch, evs);
      HandshakeReadTold(env, cap, s, e, ch, evs);
    } else if e.Up? || e.Down? {
      StreamsForward(env, cap, s, e, ch, evs);
      ForwardTold(env, cap, s, e, ch, evs);
    } else {
      StreamsConnection(env, cap, s, e, ch, evs);
      ConnectionTold(env, cap, s, e, ch, evs);
    }
  }

  lemma {:induction false} RunTold(env: Env, cap: nat, s: Session, tr: Trace, evs: seq<Event>)
    requires BridgeEnv(env) && Inv(env, cap, s) && LegalRun(env, cap, s, tr) && Told(s, evs)
    ensures Told(After(env, cap, s, tr), evs + Events(tr))
    decreases |tr|
  {
    hide Next, Inv, Legal, Told, BridgeEnv;
    if tr == [] {
      assert evs + [] == evs;
    } else {
      var (e, ch) := tr[0];
      NextKeeps(env, cap, s, e, ch);
      NextTold(env, cap, s, e, ch, evs);
      RunTold(env, cap, Next(env, s, e, ch), tr[1..], evs + [e]);
      assert evs + [e] + Events(tr[1..]) == evs + Events(tr);
    }
  }

  // A run from the start of a session, and the session it ends with.
  ghost predicate Reaches(env: Env, cap: nat, ch: Choice, tr: Trace, s: Session) {
    && BridgeEnv(env) && cap > 0 && LegalChoice(cap, ch) && Inv(env, cap, Begin(FRESH, ch))
    && LegalRun(env, cap, Begin(FRESH, ch), tr) && s == After(env, cap, Begin(FRESH, ch), tr)
  }

  lemma {:induction false} ReachesTold(env: Env, cap: nat, ch: Choice, tr: Trace, s: Session)
    requires Reaches(env, cap, ch, tr, s)
    ensures Inv(env, cap, s) && Told(s, Events(tr))
  {
    hide Told, Inv, Begin, BridgeEnv;
    RunKeeps(env, cap, Begin(FRESH, ch), tr);
    BeginTold(ch);
    RunTold(env, cap, Begin(FRESH, ch), tr, []);
    assert [] + Events(tr) == Events(tr);
  }

  lemma {:induction false} BeginTold(ch: Choice)
    ensures Told(Begin(FRESH, ch), [])
  {
    assert P.Delivered([]) == [] && P.Sent([]) == 0;
  }

  /** A session forwards exactly if a connection was made or accepted and the handshake has not failed:
      a connection that was refused is not one. */
  lemma {:induction false} ForwardsIff(env: Env, cap: nat, ch: Choice, tr: Trace, s: Session)
    requires Reaches(env, cap, ch, tr, s)
    ensures s.forwarding <==> Opened(Events(tr)) && s.m.state != Failed
    ensures s.forwarding <==> s.m.state == Success
    ensures Refused(Events(tr)) || Lost(Events(tr)) ==> Over(s)
  {
    ReachesTold(env, cap, ch, tr, s);
    hide StreamsTold, HandshakeTold, Reaches, Accepted, Ready, P.Inv;
  }

  /** What a refused connection does: nothing, and nothing can happen after it. */
  lemma {:induction false} RefusalKeeps(env: Env, cap: nat, s: Session, e: Event, ch: Choice)
    requires Inv(env, cap, s) && Legal(s, e) && (e == Connected(true) || e == Inbound(true))
    ensures Steppable(env, s)
    ensures var t := Next(env, s, e, ch);
            && t.m == s.m && t.up == s.up && t.down == s.down && t.header == s.header && !t.forwarding
            && forall later :: !Legal(t, later)
  {
    InvSteppable(env, cap, s);
    hide Accepted, Ready;
  }

  /** Both directions, in every state: each end is open exactly if nothing has failed that closes it,
      and the sending side of a sink is shut down exactly if a read of its source has failed and
      everything read has been written or was the header. */
  lemma {:induction false} EndsTold(env: Env, cap: nat, ch: Choice, tr: Trace, s: Session)
    requires Reaches(env, cap, ch, tr, s)
    ensures var evs := Events(tr);
            && P.Told(s.up, Handshaken(evs), Ups(evs))
            && P.Told(s.down, [], Downs(evs))
            && (s.up.shut <==> P.ReadFailed(Ups(evs)) && s.up.input == s.header + s.up.output)
            && (s.down.shut <==> P.ReadFailed(Downs(evs)) && s.down.input == s.down.output)
  {
    ReachesTold(env, cap, ch, tr, s);
    hide HandshakeTold, OutcomeTold, Reaches, Accepted, Ready, Served;
    var evs := Events(tr);
    if s.forwarding {
      ShutIff(cap, s.header, s.up);
      ShutIff(cap, [], s.down);
      assert [] + s.down.output == s.down.output;
    }
  }

  lemma {:induction false} ShutIff(cap: nat, taken: seq<byte>, p: P.Pipe)
    requires P.Inv(cap, taken, p)
    ensures p.shut <==> !p.readable && p.input == taken + p.output
  {
    if p.input == taken + p.output {
      assert |p.input| == |taken + p.output| + |p.q.data|;
    } else {
      assert p.q.data == [] ==> taken + p.output + p.q.data == taken + p.output;
    }
  }

  /** The handshake is never stuck: while the session does not forward, something is in flight unless
      the client was lost, the connection was refused or the handshake has failed. */
  lemma {:induction false} HandshakeNoStall(env: Env, cap: nat, ch: Choice, tr: Trace, s: Session)
    requires Reaches(env, cap, ch, tr, s)
    ensures !s.forwarding ==> (s.handshakeRead <==> Insufficient(s.m, |s.up.q.data|) && !Lost(Events(tr)))
    ensures Over(s) ==> Lost(Events(tr)) || Refused(Events(tr)) || s.m.state == Failed
  {
    ReachesTold(env, cap, ch, tr, s);
    hide StreamsTold, Reaches, Accepted, P.Inv, Lost, Refused, Opened;
  }

  /** Once the sink of a direction is gone and no read of it is in flight, the direction never changes
      again, in any run; and nothing is written to it from then on. */
  lemma {:induction false} SinkGoneForever(env: Env, cap: nat, s: Session, tr: Trace)
    requires BridgeEnv(env) && Inv(env, cap, s) && s.forwarding && LegalRun(env, cap, s, tr)
    ensures var r := After(env, cap, s, tr);
            && (!s.up.writable ==> !r.up.writable && r.up.output == s.up.output && (!s.up.reading ==> r.up == s.up))
            && (!s.down.writable ==>
                  !r.down.writable && r.down.output == s.down.output && (!s.down.reading ==> r.down == s.down))
    decreases |tr|
  {
    hide Served, Accepted, Ready, P.Inv;
    if tr != [] {
      var (e, ch) := tr[0];
      NextKeeps(env, cap, s, e, ch);
      var t := Next(env, s, e, ch);
      SinkGoneStep(cap, s.header, s.up, if e.Up? then e.c else P.Write(false, 0), ch.up);
      SinkGoneStep(cap, [], s.down, if e.Down? then e.c else P.Write(false, 0), ch.down);
      assert t.forwarding;
      hide Inv, Next;
      SinkGoneForever(env, cap, t, tr[1..]);
    }
  }

  lemma {:induction false} SinkGoneStep(cap: nat, taken: seq<byte>, p: P.Pipe, c: P.Completion, room: nat)
    requires P.Inv(cap, taken, p)
    ensures !p.writable ==> P.Schedule(p, room) == p
    ensures !p.writable && P.Legal(p, c) ==>
              var q := P.Schedule(P.Done(p, c), room);
              p.reading && !q.writable && !q.reading && q.output == p.output
  {
    if !p.writable {
      P.SinkGoneIsFinal(cap, taken, p, c, room);
    }
  }
}
