/**
What the pool of connections is, told from what has completed: over every run, the last completion of
a connection decides what it waits for, and the completions together decide how many connections have
failed, how many were handed over, and whether the pool has stopped.
*/
module PoolHistory {
  import opened Bytes
  import opened SessionPool
  import S = Socks5

  // ---------------------------------------------------------------- the events of a run

  // The event is of no use: an error, a refusal by the proxy, or a response that is not whole.
  ghost predicate Fails(e: Event) {
    match e
    case Connected(_, failed, writeFailed) => failed || writeFailed
    case FirstResponse(_, data, failed) => failed || |data| < 12 || data[3] != 0
    case SecondResponse(_, _, data, failed, _) => failed || |data| < 22 || data[1] != 0
    case Writable(_, failed, _) => failed
    case ClientError => false
  }

  // The application is gone: its connection has an error, or it does not take a descriptor.
  ghost predicate Ends(e: Event) {
    e.ClientError? || (e.Writable? && !e.failed && e.sent <= 0)
  }

  // The application has taken a descriptor.
  ghost predicate Hands(e: Event) {
    e.Writable? && !e.failed && e.sent > 0
  }

  ghost predicate Ended(es: seq<Event>) {
    exists e :: e in es && Ends(e)
  }

  // How many events of a kind there were until the end.
  ghost function Count(kind: Event -> bool, es: seq<Event>): nat {
    if es == [] then 0
    else
      var before := es[..|es| - 1];
      Count(kind, before) + if !Ended(before) && kind(es[|es| - 1]) then 1 else 0
  }

  ghost predicate Concerns(e: Event, i: nat) {
    !e.ClientError? && e.i == i
  }

  // What follows a completion: the next operation in order, or a new connection.
  ghost function Follows(e: Event): Op {
    if Fails(e) then Connect
    else
      match e
      case Connected(_, _, _) => First
      case FirstResponse(_, _, _) => Second(true)
      case SecondResponse(_, _, _, _, _) => Send
      case _ => Connect
  }

  // What connection i waits for: that is decided by its last completion.
  ghost function Awaited(es: seq<Event>, i: nat): Op {
    if es == [] then if i == 0 then Second(false) else Connect
    else
      var e := es[|es| - 1];
      if !Concerns(e, i) then Awaited(es[..|es| - 1], i) else Follows(e)
  }

  // The pool that has seen these events.
  ghost predicate Told(p: Pool, es: seq<Event>) {
    && (p.stopped <==> Ended(es))
    && p.errors == Count(e => Fails(e), es)
    && |p.handed| == Count(e => Hands(e), es)
    && (!p.stopped ==> forall i | 0 <= i < |p.slots| :: p.slots[i].pending == multiset{Awaited(es, i)})
    // A connection that is not there yet has seen nothing.
    && (!p.stopped ==> forall i: nat | i >= |p.slots| :: Awaited(es, i) == Connect)
  }

  lemma {:induction false} OneMore(es: seq<Event>, e: Event, kind: Event -> bool)
    ensures Ended(es + [e]) <==> Ended(es) || Ends(e)
    ensures Count(kind, es + [e]) == Count(kind, es) + if !Ended(es) && kind(e) then 1 else 0
  {
    var more := es + [e];
    assert more[..|more| - 1] == es && more[|more| - 1] == e && e in more;
    assert forall d :: d in more <==> d in es || d == e;
  }

  lemma {:induction false} AwaitedMore(es: seq<Event>, e: Event, i: nat)
    ensures Awaited(es + [e], i) == if Concerns(e, i) then Follows(e) else Awaited(es, i)
  {
    var more := es + [e];
    assert more[..|more| - 1] == es && more[|more| - 1] == e;
  }

  // ---------------------------------------------------------------- every step

  // What a step of a running pool does, by its event.
  ghost predicate Does(p: Pool, e: Event, q: Pool) {
    && (q.stopped <==> Ends(e))
    && q.errors == p.errors + (if Fails(e) then 1 else 0)
    && |q.handed| == |p.handed| + (if Hands(e) then 1 else 0)
    && |p.slots| <= |q.slots|
    && (forall i | 0 <= i < |p.slots| && !Concerns(e, i) :: q.slots[i].pending == p.slots[i].pending)
    && (forall i | |p.slots| <= i < |q.slots| :: q.slots[i].pending == multiset{Connect})
    && (!q.stopped && !e.ClientError? ==> e.i < |p.slots| && q.slots[e.i].pending == multiset{Follows(e)})
  }

  lemma {:induction false} NextDoes(p: Pool, e: Event)
    requires Inv(p) && Legal(p, e) && !p.stopped
    ensures e.ClientError? || InBounds(p, e.i)
    ensures Does(p, e, Next(p, e))
  {
    NextKeeps(p, e);
    hide Inv, Next, Does;
    match e
    case Connected(_, _, _) => ConnectDoes(p, e);
    case FirstResponse(_, _, _) => FirstDoes(p, e);
    case SecondResponse(_, _, _, _, _) => SecondDoes(p, e);
    case Writable(_, _, _) => SendDoes(p, e);
    case ClientError => ErrorDoes(p);
  }

  lemma {:induction false} ErrorDoes(p: Pool)
    requires !p.stopped
    ensures Does(p, ClientError, Next(p, ClientError))
  {
  }

  lemma {:induction false} ConnectDoes(p: Pool, e: Event)
    requires Inv(p) && Legal(p, e) && !p.stopped && e.Connected?
    ensures InBounds(p, e.i) && Does(p, e, Next(p, e))
  {
    hide Inv, Next, Restarted, Completed, Does;
    FailureDoes(p, e);
    ConnectIsRequested(p, e);
    if Fails(e) {
      StartsOver(p, e, Next(p, e));
    } else {
      GoesOn(p, e, Next(p, e));
    }
  }

  lemma {:induction false} FirstDoes(p: Pool, e: Event)
    requires Inv(p) && Legal(p, e) && !p.stopped && e.FirstResponse?
    ensures InBounds(p, e.i) && Does(p, e, Next(p, e))
  {
    hide Inv, Next, Restarted, Completed, Waiting, Does;
    FailureDoes(p, e);
    FirstIsTaken(p, e);
    if Fails(e) {
      StartsOver(p, e, Next(p, e));
    } else {
      WaitingDoes(p, e.i, e.data);
      GoesOn(p, e, Next(p, e));
    }
  }

  lemma {:induction false} StartsOver(p: Pool, e: Event, q: Pool)
    requires !e.ClientError? && e.i < |p.slots| == |q.slots| && Fails(e) && !p.stopped
    requires q.errors == p.errors + 1 && q.handed == p.handed && q.stopped == p.stopped
    requires q.slots[e.i].pending == multiset{Connect}
    requires forall i | 0 <= i < |p.slots| && i != e.i :: q.slots[i] == p.slots[i]
    ensures Does(p, e, q)
  {
  }

  lemma {:induction false} GoesOn(p: Pool, e: Event, q: Pool)
    requires !e.ClientError? && e.i < |p.slots| <= |q.slots| && !Fails(e) && !Ends(e)
    requires q.errors == p.errors && |q.handed| == |p.handed| + (if Hands(e) then 1 else 0)
    requires !p.stopped && !q.stopped && q.slots[e.i].pending == multiset{Follows(e)}
    requires forall i | 0 <= i < |p.slots| && i != e.i :: q.slots[i] == p.slots[i]
    requires forall i | |p.slots| <= i < |q.slots| :: q.slots[i] == REOPENED
    ensures Does(p, e, q)
  {
  }

  lemma {:induction false} WaitingDoes(p: Pool, i: nat, data: seq<byte>)
    requires InBounds(p, i) && |data| == FIRST_RESPONSE_SIZE
    ensures var q := Waiting(p, i, data);
            && q.stopped == p.stopped && q.errors == p.errors && q.handed == p.handed && |p.slots| <= |q.slots|
            && q.slots[i].pending == multiset{Second(true)}
            && (forall j | 0 <= j < |p.slots| && j != i :: q.slots[j] == p.slots[j])
            && (forall j | |p.slots| <= j < |q.slots| :: q.slots[j] == REOPENED)
  {
    hide Filled;
  }

  lemma {:induction false} SecondDoes(p: Pool, e: Event)
    requires Inv(p) && Legal(p, e) && !p.stopped && e.SecondResponse?
    ensures InBounds(p, e.i) && Does(p, e, Next(p, e))
  {
    hide Inv, Next, Restarted, Completed, Message, Filled, Does;
    FailureDoes(p, e);
    SecondIsAnnounced(p, e);
    if Fails(e) {
      StartsOver(p, e, Next(p, e));
    } else {
      GoesOn(p, e, Next(p, e));
    }
  }

  lemma {:induction false} SendDoes(p: Pool, e: Event)
    requires Inv(p) && Legal(p, e) && !p.stopped && e.Writable?
    ensures InBounds(p, e.i) && Does(p, e, Next(p, e))
  {
    hide Inv, Next, Restarted, Completed, Does;
    FailureDoes(p, e);
    SendIsHandedOver(p, e);
    if Fails(e) {
      StartsOver(p, e, Next(p, e));
    } else if Ends(e) {
      Quits(p, e, Next(p, e));
    } else {
      GoesOn(p, e, Next(p, e));
    }
  }

  lemma {:induction false} Quits(p: Pool, e: Event, q: Pool)
    requires e.Writable? && e.i < |p.slots| == |q.slots| && Ends(e) && q.stopped
    requires q.errors == p.errors && q.handed == p.handed
    requires forall i | 0 <= i < |p.slots| && i != e.i :: q.slots[i] == p.slots[i]
    ensures Does(p, e, q)
  {
  }

  ghost function OpOf(e: Event): Op
    requires !e.ClientError?
  {
    match e
    case Connected(_, _, _) => Connect
    case FirstResponse(_, _, _) => First
    case SecondResponse(_, whole, _, _, _) => Second(whole)
    case Writable(_, _, _) => Send
  }

  ghost function DataOf(e: Event): seq<byte> {
    if e.FirstResponse? || e.SecondResponse? then e.data else []
  }

  // A connection that starts over.
  lemma {:induction false} FailureDoes(p: Pool, e: Event)
    requires Inv(p) && Legal(p, e) && !e.ClientError?
    ensures InBounds(p, e.i) && |DataOf(e)| <= MICRO_BUFFER_SIZE
    ensures var q := Restarted(Completed(p, e.i, OpOf(e), DataOf(e)), e.i);
            && |q.slots| == |p.slots| && q.errors == p.errors + 1 && q.handed == p.handed && q.stopped == p.stopped
            && q.slots[e.i].pending == multiset{Connect}
            && forall i | 0 <= i < |p.slots| && i != e.i :: q.slots[i] == p.slots[i]
  {
    CompletedFacts(p, e.i, OpOf(e), DataOf(e));
    hide Inv, Completed;
    assert multiset{} + multiset{Connect} == multiset{Connect};
  }

  lemma {:induction false} NextTold(p: Pool, e: Event, es: seq<Event>)
    requires Inv(p) && Legal(p, e) && Told(p, es)
    ensures e.ClientError? || InBounds(p, e.i)
    ensures Told(Next(p, e), es + [e])
  {
    NextKeeps(p, e);
    OneMore(es, e, e => Fails(e));
    OneMore(es, e, e => Hands(e));
    if p.stopped {
      StoppedDoes(p, e);
      hide Inv, Next, Ended, Count;
    } else {
      NextDoes(p, e);
      hide Inv, Next, Ended, Count, Legal;
      SlotsTold(p, e, Next(p, e), es);
    }
  }

  lemma {:induction false} StoppedDoes(p: Pool, e: Event)
    requires Inv(p) && Legal(p, e) && p.stopped && (e.ClientError? || InBounds(p, e.i))
    ensures var q := Next(p, e); q.stopped && q.errors == p.errors && q.handed == p.handed
  {
  }

  lemma {:induction false} SlotsTold(p: Pool, e: Event, q: Pool, es: seq<Event>)
    requires Does(p, e, q) && !p.stopped && Told(p, es)
    ensures !q.stopped ==> forall i | 0 <= i < |q.slots| :: q.slots[i].pending == multiset{Awaited(es + [e], i)}
    ensures !q.stopped ==> forall i: nat | i >= |q.slots| :: Awaited(es + [e], i) == Connect
  {
    if !q.stopped {
      forall i | 0 <= i < |q.slots| ensures q.slots[i].pending == multiset{Awaited(es + [e], i)} {
        AwaitedMore(es, e, i);
      }
      forall i: nat | i >= |q.slots| ensures Awaited(es + [e], i) == Connect {
        AwaitedMore(es, e, i);
      }
    }
  }

  // ---------------------------------------------------------------- every run

  lemma {:induction false} RunTold(p: Pool, es: seq<Event>, before: seq<Event>)
    requires Inv(p) && LegalRun(p, es) && Told(p, before)
    ensures Told(After(p, es), before + es)
    decreases |es|
  {
    hide Inv, Next, Told, Legal;
    if es == [] {
      assert before + [] == before;
    } else {
      NextKeeps(p, es[0]);
      NextTold(p, es[0], before);
      RunTold(Next(p, es[0]), es[1..], before + [es[0]]);
      assert before + [es[0]] + es[1..] == before + es;
    }
  }

  /** In every run of a started pool: it has stopped exactly if the application is gone; until then every
      connection waits for what its last completion calls for, in the order connect, first response,
      second response, hand-over, and starts over exactly after a failure or a hand-over; and every
      failure was counted, and every descriptor that was taken was handed over, once. */
  lemma {:induction false} PoolTold(port: S.Port, reply: seq<byte>, backlog: nat, es: seq<Event>)
    requires |reply| == FIRST_RESPONSE_SIZE && reply[3] == 0 && Clamped(backlog) >= 2
    requires Inv(Opened(port, reply, backlog)) && LegalRun(Opened(port, reply, backlog), es)
    ensures Told(After(Opened(port, reply, backlog), es), es)
    // The pool fills up: as long as there is room, its last connection is still on the way.
    ensures var q := After(Opened(port, reply, backlog), es);
            !Ended(es) && |q.slots| < Clamped(backlog) ==>
              Awaited(es, |q.slots| - 1) == Connect || Awaited(es, |q.slots| - 1) == First
  {
    hide Opened, Inv, Told, Awaited;
    var p := Opened(port, reply, backlog);
    OpenedTold(port, reply, backlog);
    RunTold(p, es, []);
    RunGrows(p, es);
    assert [] + es == es;
    LastOnItsWay(After(p, es), es);
  }

  lemma {:induction false} LastOnItsWay(q: Pool, es: seq<Event>)
    requires Inv(q) && Told(q, es)
    ensures |q.slots| >= 2
    ensures !Ended(es) && |q.slots| < q.size ==>
              Awaited(es, |q.slots| - 1) == Connect || Awaited(es, |q.slots| - 1) == First
  {
    HydratingOf(q);
    hide Inv, Ended, Count, Awaited;
    if !q.stopped && |q.slots| < q.size {
      SameOne(Awaited(es, |q.slots| - 1), Connect);
      SameOne(Awaited(es, |q.slots| - 1), First);
    }
  }

  lemma {:induction false} HydratingOf(q: Pool)
    requires Inv(q)
    ensures |q.slots| >= 2 && Hydrating(q)
  {
  }

  lemma {:induction false} SameOne(a: Op, b: Op)
    ensures multiset{a} == multiset{b} ==> a == b
  {
    assert a in multiset{a};
  }

  lemma {:induction false} OpenedTold(port: S.Port, reply: seq<byte>, backlog: nat)
    requires |reply| == FIRST_RESPONSE_SIZE
    ensures Told(Opened(port, reply, backlog), []) && Opened(port, reply, backlog).size == Clamped(backlog)
  {
  }
}
