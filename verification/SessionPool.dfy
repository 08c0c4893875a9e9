/**
The pool of connections that the socket vendor keeps open to the proxy, each waiting in a BIND for
an inbound connection that is then handed to the application.

`ClientSessionPool` is the object whose handlers update the pool; each is proved to be one step of
the state machine over `Pool` values, and what the pool promises is proved of all its runs.
*/
module SessionPool {
  import opened Bytes
  import opened Options
  import S = Socks5
  import C = Client

  const MAX_CONNECTIONS: nat := 128
  const MICRO_BUFFER_SIZE: nat := 24
  const FIRST_RESPONSE_SIZE: nat := 12
  const SECOND_RESPONSE_SIZE: nat := 22

  // An asynchronous operation.  The very first read of a second response need not be whole.
  datatype Op = Connect | First | Second(whole: bool) | Send

  // A connection: the operations outstanding on it, and what went out and came in since it was opened.
  datatype Slot = Slot(pending: multiset<Op>, asked: seq<byte>, seen: seq<byte>)

  // A descriptor passed to the application, with the history of its connection.
  datatype Handover = Handover(asked: seq<byte>, seen: seq<byte>, message: seq<byte>)

  datatype Pool = Pool(
    slots: seq<Slot>,
    buffers: seq<seq<byte>>,
    size: nat,
    stopped: bool,
    errors: nat,
    handed: seq<Handover>,
    opening: seq<byte>,
    request: seq<byte>)

  datatype Event =
    | Connected(i: nat, failed: bool, writeFailed: bool)
    | FirstResponse(i: nat, data: seq<byte>, failed: bool)
    | SecondResponse(i: nat, whole: bool, data: seq<byte>, failed: bool, padding: seq<byte>)
    | Writable(i: nat, failed: bool, sent: int)
    | ClientError

  // ---------------------------------------------------------------- the steps

  const REOPENED := Slot(multiset{Connect}, [], [])

  predicate InBounds(p: Pool, i: nat) {
    i < |p.slots| && i < |p.buffers| && |p.buffers[i]| == MICRO_BUFFER_SIZE
  }

  // The buffer of slot i after data has arrived.
  function Filled(buf: seq<byte>, data: seq<byte>): (r: seq<byte>)
    requires |data| <= |buf|
    ensures |r| == |buf|
  {
    data + buf[|data|..]
  }

  // The operation is over and brought data.
  function Completed(p: Pool, i: nat, op: Op, data: seq<byte>): Pool
    requires InBounds(p, i) && |data| <= MICRO_BUFFER_SIZE
  {
    var s := p.slots[i];
    p.(slots := p.slots[i := s.(pending := s.pending - multiset{op}, seen := s.seen + data)],
       buffers := p.buffers[i := Filled(p.buffers[i], data)])
  }

  function Started(s: Slot, op: Op): Slot {
    s.(pending := s.pending + multiset{op})
  }

  // The connection is closed and a new one begun.
  function Initiated(p: Pool, i: nat): Pool
    requires i < |p.slots|
  {
    p.(slots := p.slots[i := Started(p.slots[i].(asked := [], seen := []), Connect)])
  }

  function Restarted(p: Pool, i: nat): Pool
    requires i < |p.slots|
  {
    Initiated(p.(errors := p.errors + 1), i)
  }

  function OnConnect(p: Pool, i: nat, failed: bool, writeFailed: bool): Pool
    requires InBounds(p, i)
  {
    var p1 := Completed(p, i, Connect, []);
    if p.stopped then p1
    else if failed || writeFailed then Restarted(p1, i)
    else p1.(slots := p1.slots[i := Started(p1.slots[i].(asked := p.request), First)])
  }

  // The last slot brings up the next one, until the pool is full.
  function Grown(p: Pool, i: nat): Pool {
    if i + 1 == |p.slots| && |p.slots| < p.size then p.(slots := p.slots + [REOPENED]) else p
  }

  function OnFirst(p: Pool, i: nat, data: seq<byte>, failed: bool): Pool
    requires InBounds(p, i) && |data| <= FIRST_RESPONSE_SIZE
  {
    var p1 := Completed(p, i, First, data);
    if p.stopped then p1
    else if failed || p1.buffers[i][3] != 0 then Restarted(p1, i)
    else Grown(p1.(slots := p1.slots[i := Started(p1.slots[i], Second(true))]), i)
  }

  // What the application is told: the message type, then address and port as in the response.
  function Message(response: seq<byte>, padding: seq<byte>): (r: seq<byte>)
    requires |response| >= SECOND_RESPONSE_SIZE && |padding| == 2
    ensures |r| == MICRO_BUFFER_SIZE
  {
    [4, 0, 0, 0] + response[4..20] + response[20..22] + padding
  }

  function OnSecond(p: Pool, i: nat, whole: bool, data: seq<byte>, failed: bool, padding: seq<byte>): Pool
    requires InBounds(p, i) && |data| <= SECOND_RESPONSE_SIZE && |padding| == 2
  {
    var p1 := Completed(p, i, Second(whole), data);
    if p.stopped then p1
    else if failed || |data| < SECOND_RESPONSE_SIZE || p1.buffers[i][1] != 0 then Restarted(p1, i)
    else p1.(slots := p1.slots[i := Started(p1.slots[i], Send)],
             buffers := p1.buffers[i := Message(p1.buffers[i], padding)])
  }

  function OnSend(p: Pool, i: nat, failed: bool, sent: int): Pool
    requires InBounds(p, i)
  {
    var p1 := Completed(p, i, Send, []);
    if p.stopped then p1
    else if failed then Restarted(p1, i)
    else if sent <= 0 then p1.(stopped := true)
    else Initiated(p1.(handed := p.handed + [Handover(p.slots[i].asked, p.slots[i].seen, p.buffers[i])]), i)
  }

  // The operation that the event completes is outstanding, and it brings what such an operation can.
  predicate Legal(p: Pool, e: Event) {
    match e
    case ClientError => true
    case Connected(i, _, _) => i < |p.slots| && Connect in p.slots[i].pending
    case Writable(i, _, _) => i < |p.slots| && Send in p.slots[i].pending
    case FirstResponse(i, data, failed) =>
      && i < |p.slots| && First in p.slots[i].pending && |data| <= FIRST_RESPONSE_SIZE
      && (!failed ==> |data| == FIRST_RESPONSE_SIZE)
    case SecondResponse(i, whole, data, failed, padding) =>
      && i < |p.slots| && Second(whole) in p.slots[i].pending && |padding| == 2
      && |data| <= SECOND_RESPONSE_SIZE && (!failed && whole ==> |data| == SECOND_RESPONSE_SIZE)
  }

  function Next(p: Pool, e: Event): Pool
    requires Legal(p, e) && (e.ClientError? || InBounds(p, e.i))
  {
    match e
    case Connected(i, failed, writeFailed) => OnConnect(p, i, failed, writeFailed)
    case FirstResponse(i, data, failed) => OnFirst(p, i, data, failed)
    case SecondResponse(i, whole, data, failed, padding) => OnSecond(p, i, whole, data, failed, padding)
    case Writable(i, failed, sent) => OnSend(p, i, failed, sent)
    case ClientError => p.(stopped := true)
  }

  // ---------------------------------------------------------------- the invariant

  ghost predicate Asked(p: Pool, asked: seq<byte>) {
    asked == p.request || asked == p.opening
  }

  // Both responses of a BIND, read in full and successful.
  ghost predicate BothSucceeded(seen: seq<byte>) {
    |seen| == FIRST_RESPONSE_SIZE + SECOND_RESPONSE_SIZE && seen[3] == 0 && seen[FIRST_RESPONSE_SIZE + 1] == 0
  }

  // The message announces a connection, with the address and port of the second response.
  ghost predicate Reports(message: seq<byte>, seen: seq<byte>) {
    && |message| == MICRO_BUFFER_SIZE && |seen| == FIRST_RESPONSE_SIZE + SECOND_RESPONSE_SIZE
    && message[..4] == [4, 0, 0, 0] && message[4..22] == seen[FIRST_RESPONSE_SIZE + 4..]
  }

  // The one operation outstanding on a slot, and what has happened on its connection by then.
  ghost predicate Healthy(p: Pool, i: nat)
    requires i < |p.slots|
  {
    var s := p.slots[i];
    || (s.pending == multiset{Connect} && s.asked == [] && s.seen == [])
    || (s.pending == multiset{First} && s.asked == p.request && s.seen == [])
    || ((s.pending == multiset{Second(true)} || s.pending == multiset{Second(false)}) && Asked(p, s.asked) &&
          |s.seen| == FIRST_RESPONSE_SIZE && s.seen[3] == 0)
    || (s.pending == multiset{Send} && Asked(p, s.asked) && BothSucceeded(s.seen) &&
          InBounds(p, i) && Reports(p.buffers[i], s.seen))
    || (p.stopped && s.pending == multiset{})
  }

  ghost predicate Delivered(p: Pool, h: Handover) {
    Asked(p, h.asked) && BothSucceeded(h.seen) && Reports(h.message, h.seen)
  }

  ghost predicate Inv(p: Pool) {
    && 2 <= |p.slots| <= p.size == |p.buffers| <= MAX_CONNECTIONS
    && (forall i | 0 <= i < |p.buffers| :: |p.buffers[i]| == MICRO_BUFFER_SIZE)
    && (forall i | 0 <= i < |p.slots| :: Healthy(p, i))
    && (forall k | 0 <= k < |p.handed| :: Delivered(p, p.handed[k]))
    && Hydrating(p)
  }

  // Until the pool is full its last slot is still on the way to its first response.
  ghost predicate Hydrating(p: Pool)
    requires |p.slots| >= 2
  {
    !p.stopped && |p.slots| < p.size ==>
      p.slots[|p.slots| - 1].pending == multiset{Connect} || p.slots[|p.slots| - 1].pending == multiset{First}
  }

  // A step that touches slot i and its buffer, and may add a slot.
  lemma {:induction false} StepKeeps(p: Pool, q: Pool, i: nat)
    requires Inv(p) && i < |p.slots|
    requires |p.slots| <= |q.slots| <= |p.slots| + 1 && |q.slots| <= q.size
    requires q.size == p.size && |q.buffers| == |p.buffers| && q.request == p.request && q.opening == p.opening
    requires p.stopped ==> q.stopped
    requires forall j | 0 <= j < |p.slots| && j != i :: q.slots[j] == p.slots[j]
    requires forall j | 0 <= j < |p.buffers| && j != i :: q.buffers[j] == p.buffers[j]
    requires |q.buffers[i]| == MICRO_BUFFER_SIZE
    requires Healthy(q, i) && (|q.slots| > |p.slots| ==> q.slots[|p.slots|] == REOPENED)
    requires q.handed == p.handed || exists h :: q.handed == p.handed + [h] && Delivered(p, h)
    requires Hydrating(q)
    ensures Inv(q)
  {
    forall j | 0 <= j < |q.slots| ensures Healthy(q, j) {
      if j < |p.slots| { assert Healthy(p, j); }
    }
    forall k | 0 <= k < |q.handed| ensures Delivered(q, q.handed[k]) {
      if k < |p.handed| { assert Delivered(p, p.handed[k]); }
    }
  }

  // The operation that completes is the only one outstanding.
  lemma {:induction false} CompletedFacts(p: Pool, i: nat, op: Op, data: seq<byte>)
    requires Inv(p) && i < |p.slots| && op in p.slots[i].pending && |data| <= MICRO_BUFFER_SIZE
    ensures InBounds(p, i) && p.slots[i].pending == multiset{op}
    ensures Completed(p, i, op, data)
         == p.(slots := p.slots[i := Slot(multiset{}, p.slots[i].asked, p.slots[i].seen + data)],
               buffers := p.buffers[i := Filled(p.buffers[i], data)])
  {
    assert Healthy(p, i);
    assert multiset{op} - multiset{op} == multiset{};
  }

  // A completion that is ignored after the stop, or that makes the connection start over.
  lemma {:induction false} QuitKeeps(p: Pool, i: nat, op: Op, data: seq<byte>)
    requires Inv(p) && i < |p.slots| && op in p.slots[i].pending && |data| <= MICRO_BUFFER_SIZE
    ensures InBounds(p, i)
    ensures p.stopped ==> Inv(Completed(p, i, op, data))
    ensures !p.stopped ==> Inv(Restarted(Completed(p, i, op, data), i))
  {
    CompletedFacts(p, i, op, data);
    var q := Completed(p, i, op, data);
    hide Completed;
    StepKeeps(p, if p.stopped then q else Restarted(q, i), i);
  }

  lemma {:induction false} FilledWithNothing(p: Pool, i: nat)
    requires i < |p.buffers|
    ensures p.buffers[i := Filled(p.buffers[i], [])] == p.buffers
  {
    assert Filled(p.buffers[i], []) == p.buffers[i];
  }

  // A connection that was made: the request is out and the slot waits for its first response.
  ghost function Requested(p: Pool, i: nat): Pool
    requires i < |p.slots|
  {
    p.(slots := p.slots[i := Slot(multiset{First}, p.request, [])])
  }

  lemma {:induction false} ConnectIsRequested(p: Pool, e: Event)
    requires Inv(p) && Legal(p, e) && e.Connected? && !p.stopped
    ensures InBounds(p, e.i)
    ensures Next(p, e) ==
            if e.failed || e.writeFailed then Restarted(Completed(p, e.i, Connect, []), e.i) else Requested(p, e.i)
  {
    CompletedFacts(p, e.i, Connect, []);
    FilledWithNothing(p, e.i);
    assert Healthy(p, e.i);
    hide Completed, Inv, Filled, Healthy;
    if !e.failed && !e.writeFailed {
      assert multiset{} + multiset{First} == multiset{First} && p.slots[e.i].seen + [] == [];
      assert Next(p, e).slots == Requested(p, e.i).slots;
    }
  }

  lemma {:induction false} RequestedKeeps(p: Pool, i: nat)
    requires Inv(p) && i < |p.slots| && !p.stopped && Connect in p.slots[i].pending
    ensures Inv(Requested(p, i))
  {
    assert Healthy(p, i);
    StepKeeps(p, Requested(p, i), i);
  }

  lemma {:induction false} ConnectKeeps(p: Pool, e: Event)
    requires Inv(p) && Legal(p, e) && e.Connected?
    ensures InBounds(p, e.i) && Inv(Next(p, e))
  {
    QuitKeeps(p, e.i, Connect, []);
    if !p.stopped {
      ConnectIsRequested(p, e);
      hide Inv, Next;
      RequestedKeeps(p, e.i);
    }
  }

  // A first response that is taken: the slot waits for the second, and the pool may grow.
  ghost function Waiting(p: Pool, i: nat, data: seq<byte>): Pool
    requires InBounds(p, i) && |data| == FIRST_RESPONSE_SIZE
  {
    Grown(p.(slots := p.slots[i := Slot(multiset{Second(true)}, p.request, data)],
             buffers := p.buffers[i := Filled(p.buffers[i], data)]), i)
  }

  lemma {:induction false} FirstIsTaken(p: Pool, e: Event)
    requires Inv(p) && Legal(p, e) && e.FirstResponse? && !p.stopped
    ensures InBounds(p, e.i)
    ensures if !e.failed && e.data[3] == 0 then Next(p, e) == Waiting(p, e.i, e.data)
            else Next(p, e) == Restarted(Completed(p, e.i, First, e.data), e.i)
  {
    CompletedFacts(p, e.i, First, e.data);
    assert Healthy(p, e.i);
    assert [] + e.data == e.data;
    hide Completed;
    if !e.failed && e.data[3] == 0 {
      assert multiset{} + multiset{Second(true)} == multiset{Second(true)};
      assert Next(p, e).slots == Waiting(p, e.i, e.data).slots;
    }
  }

  lemma {:induction false} WaitingKeeps(p: Pool, i: nat, data: seq<byte>)
    requires Inv(p) && i < |p.slots| && !p.stopped && First in p.slots[i].pending
    requires |data| == FIRST_RESPONSE_SIZE && data[3] == 0
    ensures InBounds(p, i) && Inv(Waiting(p, i, data))
  {
    assert Healthy(p, i);
    StepKeeps(p, Waiting(p, i, data), i);
  }

  lemma {:induction false} FirstKeeps(p: Pool, e: Event)
    requires Inv(p) && Legal(p, e) && e.FirstResponse?
    ensures InBounds(p, e.i) && Inv(Next(p, e))
  {
    QuitKeeps(p, e.i, First, e.data);
    if !p.stopped {
      FirstIsTaken(p, e);
      hide Inv, Next;
      if !e.failed && e.data[3] == 0 {
        WaitingKeeps(p, e.i, e.data);
      }
    }
  }

  lemma {:induction false} MessageReports(buf: seq<byte>, seen: seq<byte>, data: seq<byte>, padding: seq<byte>)
    requires |buf| == MICRO_BUFFER_SIZE && |seen| == FIRST_RESPONSE_SIZE
    requires |data| == SECOND_RESPONSE_SIZE && |padding| == 2
    ensures Reports(Message(Filled(buf, data), padding), seen + data)
    ensures seen[3] == 0 && Filled(buf, data)[1] == 0 ==> BothSucceeded(seen + data)
  {
    assert Filled(buf, data)[4..20] + Filled(buf, data)[20..22] == data[4..];
    assert (seen + data)[FIRST_RESPONSE_SIZE + 4..] == data[4..];
  }

  // A second response that is taken: the message is in the buffer, ready to be sent.
  ghost function Announced(p: Pool, i: nat, data: seq<byte>, padding: seq<byte>): Pool
    requires InBounds(p, i) && |data| == SECOND_RESPONSE_SIZE && |padding| == 2
  {
    p.(slots := p.slots[i := Slot(multiset{Send}, p.slots[i].asked, p.slots[i].seen + data)],
       buffers := p.buffers[i := Message(Filled(p.buffers[i], data), padding)])
  }

  lemma {:induction false} SecondIsAnnounced(p: Pool, e: Event)
    requires Inv(p) && Legal(p, e) && e.SecondResponse? && !p.stopped
    ensures InBounds(p, e.i)
    ensures if !e.failed && |e.data| == SECOND_RESPONSE_SIZE && e.data[1] == 0
            then Next(p, e) == Announced(p, e.i, e.data, e.padding)
            else Next(p, e) == Restarted(Completed(p, e.i, Second(e.whole), e.data), e.i)
  {
    CompletedFacts(p, e.i, Second(e.whole), e.data);
    var q := Completed(p, e.i, Second(e.whole), e.data);
    hide Message, Completed;
    if !e.failed && |e.data| == SECOND_RESPONSE_SIZE && e.data[1] == 0 {
      assert multiset{} + multiset{Send} == multiset{Send};
      assert Next(p, e).slots == Announced(p, e.i, e.data, e.padding).slots;
      assert Next(p, e).buffers == Announced(p, e.i, e.data, e.padding).buffers;
    }
  }

  lemma {:induction false} AnnouncedKeeps(p: Pool, i: nat, whole: bool, data: seq<byte>, padding: seq<byte>)
    requires Inv(p) && i < |p.slots| && !p.stopped && Second(whole) in p.slots[i].pending
    requires |data| == SECOND_RESPONSE_SIZE && data[1] == 0 && |padding| == 2
    ensures InBounds(p, i) && Inv(Announced(p, i, data, padding))
  {
    assert Healthy(p, i);
    MessageReports(p.buffers[i], p.slots[i].seen, data, padding);
    hide Message, Reports, BothSucceeded;
    StepKeeps(p, Announced(p, i, data, padding), i);
  }

  lemma {:induction false} SecondKeeps(p: Pool, e: Event)
    requires Inv(p) && Legal(p, e) && e.SecondResponse?
    ensures InBounds(p, e.i) && Inv(Next(p, e))
  {
    QuitKeeps(p, e.i, Second(e.whole), e.data);
    if !p.stopped {
      SecondIsAnnounced(p, e);
      hide Inv, Next;
      if !e.failed && |e.data| == SECOND_RESPONSE_SIZE && e.data[1] == 0 {
        AnnouncedKeeps(p, e.i, e.whole, e.data, e.padding);
      }
    }
  }

  // The application has the descriptor: the slot begins anew.
  ghost function HandedOver(p: Pool, i: nat): Pool
    requires InBounds(p, i)
  {
    p.(slots := p.slots[i := REOPENED],
       handed := p.handed + [Handover(p.slots[i].asked, p.slots[i].seen, p.buffers[i])])
  }

  // The application is gone.
  ghost function Abandoned(p: Pool, i: nat): Pool
    requires InBounds(p, i)
  {
    p.(slots := p.slots[i := p.slots[i].(pending := multiset{})], stopped := true)
  }

  lemma {:induction false} SendIsHandedOver(p: Pool, e: Event)
    requires Inv(p) && Legal(p, e) && e.Writable? && !p.stopped
    ensures InBounds(p, e.i)
    ensures Next(p, e) == if e.failed then Restarted(Completed(p, e.i, Send, []), e.i)
                          else if e.sent <= 0 then Abandoned(p, e.i) else HandedOver(p, e.i)
  {
    CompletedFacts(p, e.i, Send, []);
    FilledWithNothing(p, e.i);
    hide Completed, Inv, Filled, Healthy;
    assert p.slots[e.i].seen + [] == p.slots[e.i].seen;
    if !e.failed && e.sent > 0 {
      assert multiset{} + multiset{Connect} == multiset{Connect};
      assert Next(p, e).slots == HandedOver(p, e.i).slots;
    } else if !e.failed {
      assert Next(p, e).slots == Abandoned(p, e.i).slots;
    }
  }

  lemma {:induction false} HandedOverKeeps(p: Pool, i: nat)
    requires Inv(p) && i < |p.slots| && !p.stopped && Send in p.slots[i].pending
    ensures InBounds(p, i) && Inv(HandedOver(p, i)) && Inv(Abandoned(p, i))
  {
    assert Healthy(p, i);
    assert Delivered(p, Handover(p.slots[i].asked, p.slots[i].seen, p.buffers[i]));
    hide Reports, BothSucceeded, Delivered;
    StepKeeps(p, HandedOver(p, i), i);
    StepKeeps(p, Abandoned(p, i), i);
  }

  lemma {:induction false} SendKeeps(p: Pool, e: Event)
    requires Inv(p) && Legal(p, e) && e.Writable?
    ensures InBounds(p, e.i) && Inv(Next(p, e))
  {
    QuitKeeps(p, e.i, Send, []);
    if !p.stopped {
      SendIsHandedOver(p, e);
      hide Inv, Next;
      HandedOverKeeps(p, e.i);
    }
  }

  // Every completion, in any order and with any outcome, keeps the invariant.
  lemma {:induction false} NextKeeps(p: Pool, e: Event)
    requires Inv(p) && Legal(p, e)
    ensures e.ClientError? || InBounds(p, e.i)
    ensures Inv(Next(p, e))
  {
    match e
    case Connected(_, _, _) => ConnectKeeps(p, e);
    case FirstResponse(_, _, _) => FirstKeeps(p, e);
    case SecondResponse(_, _, _, _, _) => SecondKeeps(p, e);
    case Writable(_, _, _) => SendKeeps(p, e);
    case ClientError =>
      forall j | 0 <= j < |p.slots| ensures Healthy(Next(p, e), j) {
        assert Healthy(p, j);
      }
      forall k | 0 <= k < |p.handed| ensures Delivered(Next(p, e), p.handed[k]) {
        assert Delivered(p, p.handed[k]);
      }
  }

  // ---------------------------------------------------------------- whole runs

  ghost predicate LegalRun(p: Pool, es: seq<Event>)
    requires Inv(p)
    decreases |es|
  {
    es == [] || (Legal(p, es[0]) && (NextKeeps(p, es[0]); LegalRun(Next(p, es[0]), es[1..])))
  }

  ghost function After(p: Pool, es: seq<Event>): (q: Pool)
    requires Inv(p) && LegalRun(p, es)
    ensures Inv(q)
    decreases |es|
  {
    if es == [] then p
    else
      NextKeeps(p, es[0]);
      After(Next(p, es[0]), es[1..])
  }

  function Clamped(backlog: nat): nat {
    Min(backlog, MAX_CONNECTIONS)
  }

  function NewBuffers(n: nat): (r: seq<seq<byte>>)
    ensures |r| == n && forall i | 0 <= i < n :: |r[i]| == MICRO_BUFFER_SIZE
  {
    seq(n, _ => seq(MICRO_BUFFER_SIZE, _ => 0))
  }

  // The pool as it is left by a successful start: the connection on which the port was bound waits
  // for its second response, and a second connection is on its way.
  function Opened(port: S.Port, reply: seq<byte>, backlog: nat): Pool
    requires |reply| == FIRST_RESPONSE_SIZE
  {
    Pool([Slot(multiset{Second(false)}, C.BindMessage(port), reply), REOPENED],
         NewBuffers(Clamped(backlog)),
         Clamped(backlog), false, 0, [],
         C.BindMessage(port), C.BindMessage(port)[..11] + reply[10..])
  }

  /** Both slots that a start creates have a buffer, and the pool is sound, exactly if the clamped
      backlog is at least two. */
  lemma {:induction false} OpenedSafeIff(port: S.Port, reply: seq<byte>, backlog: nat)
    requires |reply| == FIRST_RESPONSE_SIZE && reply[3] == 0
    ensures (forall i | 0 <= i < 2 :: InBounds(Opened(port, reply, backlog), i)) <==> Clamped(backlog) >= 2
    ensures Inv(Opened(port, reply, backlog)) <==> Clamped(backlog) >= 2
    ensures Opened(port, reply, backlog).size == if backlog < 128 then backlog else 128
  {
    var p := Opened(port, reply, backlog);
    hide C.BindMessage;
    if Clamped(backlog) >= 2 {
      forall i | 0 <= i < |p.slots| ensures Healthy(p, i) { }
    } else {
      assert !InBounds(p, 1);
    }
  }

  // What a step leaves alone, and how the pool grows.
  lemma {:induction false} NextGrows(p: Pool, e: Event)
    requires Inv(p) && Legal(p, e) && (e.ClientError? || InBounds(p, e.i))
    ensures |p.slots| <= |Next(p, e).slots| <= |p.slots| + 1
    ensures |Next(p, e).slots| == |p.slots| + 1 ==>
              e.FirstResponse? && e.i + 1 == |p.slots| && !e.failed && e.data[3] == 0
    ensures Next(p, e).size == p.size && Next(p, e).request == p.request && Next(p, e).opening == p.opening
    ensures p.handed <= Next(p, e).handed
    ensures p.stopped ==> Next(p, e).stopped && Next(p, e).handed == p.handed && |Next(p, e).slots| == |p.slots|
  {
  }

  lemma {:induction false} RunGrows(p: Pool, es: seq<Event>)
    requires Inv(p) && LegalRun(p, es)
    ensures |p.slots| <= |After(p, es).slots| <= |p.slots| + |es|
    ensures After(p, es).size == p.size && After(p, es).request == p.request && After(p, es).opening == p.opening
    ensures p.stopped ==> After(p, es).stopped && After(p, es).handed == p.handed && |After(p, es).slots| == |p.slots|
    decreases |es|
  {
    if es != [] {
      NextKeeps(p, es[0]);
      NextGrows(p, es[0]);
      hide Inv, Next;
      RunGrows(Next(p, es[0]), es[1..]);
    }
  }

  /** Safety of the pool over all runs. */
  lemma {:induction false} PoolSafety(port: S.Port, reply: seq<byte>, backlog: nat, es: seq<Event>)
    requires |reply| == FIRST_RESPONSE_SIZE && reply[3] == 0 && Clamped(backlog) >= 2
    requires Inv(Opened(port, reply, backlog)) && LegalRun(Opened(port, reply, backlog), es)
    ensures var q := After(Opened(port, reply, backlog), es);
            // Every slot has its buffer, and one outstanding operation until the stop.
            && |q.slots| <= Clamped(backlog) == |q.buffers|
            && (forall i | 0 <= i < |q.slots| ::
                  InBounds(q, i) && if q.stopped then |q.slots[i].pending| <= 1 else |q.slots[i].pending| == 1)
            // A descriptor is handed over only after both responses to a BIND for the right port
            // were read in full and successful, and with the address the second one reported.
            && (forall k | 0 <= k < |q.handed| ::
                  && (|| q.handed[k].asked == C.BindMessage(port)
                      || q.handed[k].asked == C.BindMessage(port)[..11] + reply[10..])
                  && BothSucceeded(q.handed[k].seen) && Reports(q.handed[k].message, q.handed[k].seen))
  {
    hide C.BindMessage;
    var p := Opened(port, reply, backlog);
    RunGrows(p, es);
    var q := After(p, es);
    forall i | 0 <= i < |q.slots|
      ensures InBounds(q, i) && if q.stopped then |q.slots[i].pending| <= 1 else |q.slots[i].pending| == 1
    {
      assert Healthy(q, i);
    }
    forall k | 0 <= k < |q.handed| ensures Delivered(q, q.handed[k]) { }
  }

  // ---------------------------------------------------------------- the proxy's second response

  /** The second response of the proxy is as long as the pool's read exactly if the connection came
      from an IPv6 address.  The application is then told that address and port.  For an IPv4 address
      the read takes twelve bytes of payload with it, and the application is told them as address. */
  lemma {:induction false} SecondResponseFitsIff(
    env: S.Env, calls: seq<S.Call>, a: S.Sockaddr, payload: seq<byte>, padding: seq<byte>)
    requires env.destAddress(calls, true) == Some(a) && |padding| == 2
    ensures var resp := S.CreateResp(env, calls, true);
            var stream := resp + payload;
            && (|resp| == SECOND_RESPONSE_SIZE <==> a.V6?)
            && (a.V6? ==> stream[..SECOND_RESPONSE_SIZE] == resp && resp[1] == 0 &&
                          Message(resp, padding)[4..22] == a.addr + a.port)
            && (a.V4? && |stream| >= SECOND_RESPONSE_SIZE ==>
                  Message(stream[..SECOND_RESPONSE_SIZE], padding)[4..22] == a.addr + a.port + payload[..12])
  {
    if !a.OtherFamily? {
      var resp := S.CreateResp(env, calls, true);
      S.AddressBytes(a);
      ResponseBytes(if a.V4? then 1 else 4, a.addr + a.port, payload, padding);
    }
  }

  lemma {:induction false} ResponseBytes(atyp: byte, body: seq<byte>, payload: seq<byte>, padding: seq<byte>)
    requires 4 + |body| <= SECOND_RESPONSE_SIZE && |padding| == 2
    ensures var stream := [5, 0, 0] + ([atyp] + body) + payload;
            |stream| >= SECOND_RESPONSE_SIZE ==>
              && stream[..SECOND_RESPONSE_SIZE] == [5, 0, 0] + ([atyp] + body) + payload[..18 - |body|]
              && Message(stream[..SECOND_RESPONSE_SIZE], padding)[4..22] == body + payload[..18 - |body|]
  {
    var stream := [5, 0, 0] + ([atyp] + body) + payload;
    if |stream| >= SECOND_RESPONSE_SIZE {
      var data := stream[..SECOND_RESPONSE_SIZE];
      assert data[4..20] + data[20..22] == data[4..22];
      assert Message(data, padding)[4..22] == data[4..22];
      assert data[4..22] == stream[4..22];
    }
  }

  // ---------------------------------------------------------------- the object

  // What the outside answers to the calls that a start makes, in order.
  datatype Opening = Opening(
    bindRequest: Option<S.Port>,       // the port the application asks for
    connected: bool,
    written: bool,
    reply: Option<seq<byte>>,          // the first response, if it was read in full
    bindAnswered: bool,
    listenRequest: Option<int>,        // the backlog
    listenAnswered: bool)

  // The start gets through: every call succeeds, the proxy bound the port, the backlog is a size.
  predicate Opens(o: Opening) {
    && o.bindRequest.Some? && o.connected && o.written
    && o.reply.Some? && |o.reply.value| == FIRST_RESPONSE_SIZE && o.reply.value[3] == 0
    && o.bindAnswered && o.listenRequest.Some? && o.listenAnswered && o.listenRequest.value >= 0
  }

  class ClientSessionPool {
    var pool: seq<Slot>
    var buffers: seq<seq<byte>>
    var poolSize: nat
    var stopped: bool
    var errors: nat
    var handed: seq<Handover>
    var port: nat
    var opening: seq<byte>
    const bindRequest: array<byte>

    constructor ()
      ensures bindRequest.Length == 13 && fresh(bindRequest) && !stopped && errors == 0 && handed == []
    {
      bindRequest := new byte[13];
      pool, buffers, poolSize, stopped, errors, handed, port, opening := [], [], 0, false, 0, [], 0, [];
    }

    ghost function View(): Pool
      reads this, bindRequest
    {
      Pool(pool, buffers, poolSize, stopped, errors, handed, opening, bindRequest[..])
    }

    // The last two bytes of the request are the port.
    method FillPort(bytes: seq<byte>)
      requires bindRequest.Length == 13 && |bytes| == 2
      modifies bindRequest
      ensures bindRequest[..] == old(bindRequest[..11]) + bytes
    {
      bindRequest[11], bindRequest[12] := bytes[0], bytes[1];
    }

    // The request for a port.
    method FillRequest(asked: S.Port)
      requires bindRequest.Length == 13
      modifies this`opening, bindRequest
      ensures bindRequest[..] == opening == C.BindMessage(asked)
    {
      Copy(bindRequest, 0, C.BIND_TEMPLATE);
      assert bindRequest[..][..11] == C.BIND_TEMPLATE;
      FillPort(S.PortBytes(asked));
      opening := bindRequest[..];
    }

    // The listen call: the pool is hydrated from its first connection.
    method Listen(reply: seq<byte>, backlog: nat)
      modifies this`pool, this`buffers, this`poolSize
      ensures pool == [Slot(multiset{Second(false)}, opening, reply), REOPENED]
      ensures poolSize == Clamped(backlog) && buffers == NewBuffers(poolSize)
    {
      pool := [Slot(multiset{}, opening, reply)];
      poolSize := if backlog > MAX_CONNECTIONS then MAX_CONNECTIONS else backlog;
      buffers := NewBuffers(poolSize);
      pool := [Started(pool[0], Second(false))];
      assert multiset{} + multiset{Second(false)} == multiset{Second(false)};
      pool := pool + [REOPENED];
    }

    method Start(o: Opening) returns (ok: bool)
      requires bindRequest.Length == 13 && !stopped && errors == 0 && handed == []
      requires o.reply.Some? ==> |o.reply.value| == FIRST_RESPONSE_SIZE
      modifies this, bindRequest
      ensures ok <==> Opens(o)
      ensures ok ==> View() == Opened(o.bindRequest.value, o.reply.value, o.listenRequest.value)
      ensures ok ==> port == S.PortOf(o.reply.value[10..]) == S.PortOf(bindRequest[11..])
      ensures ok ==> (Inv(View()) <==> Clamped(o.listenRequest.value) >= 2)
    {
      hide Inv, Clamped, C.BindMessage, NewBuffers;
      pool := [];
      if o.bindRequest.None? || !o.connected {
        return false;
      }
      FillRequest(o.bindRequest.value);
      if !o.written || o.reply.None? || o.reply.value[3] != 0 {
        return false;
      }
      var reply := o.reply.value;
      FillPort(reply[10..]);
      assert bindRequest[11..] == bindRequest[..][11..] == reply[10..];
      port := S.PortOf(reply[10..]);
      if !o.bindAnswered || o.listenRequest.None? || !o.listenAnswered || o.listenRequest.value < 0 {
        return false;
      }
      Listen(reply, o.listenRequest.value);
      OpenedSafeIff(o.bindRequest.value, reply, o.listenRequest.value);
      return true;
    }

    // The slot gives up its connection and begins a new one.
    method Restart(index: nat)
      requires index < |pool| && pool[index].pending == multiset{}
      modifies this`pool, this`errors
      ensures View() == Restarted(old(View()), index)
    {
      errors := errors + 1;
      InitiateSocket(index);
    }

    // The asynchronous operation, the only one outstanding, is over; what it read is in the buffer.
    method Complete(index: nat, op: Op, data: seq<byte>)
      requires Inv(View()) && index < |pool| && op in pool[index].pending && |data| <= MICRO_BUFFER_SIZE
      modifies this`pool, this`buffers
      ensures InBounds(old(View()), index) && View() == Completed(old(View()), index, op, data)
      ensures InBounds(View(), index) && pool[index].pending == multiset{}
    {
      CompletedFacts(View(), index, op, data);
      hide Inv;
      var s := pool[index];
      pool := pool[index := s.(pending := s.pending - multiset{op}, seen := s.seen + data)];
      buffers := buffers[index := data + buffers[index][|data|..]];
    }

    // A slot with nothing outstanding begins a new connection; the others are untouched.
    method InitiateSocket(index: nat)
      requires index < |pool| && pool[index].pending == multiset{}
      modifies this`pool
      ensures pool == old(pool)[index := REOPENED]
      ensures View() == Initiated(old(View()), index)
    {
      pool := pool[index := pool[index].(asked := [], seen := [])];
      pool := pool[index := Started(pool[index], Connect)];
      assert multiset{} + multiset{Connect} == multiset{Connect};
    }

    method HandleConnect(index: nat, failed: bool, writeFailed: bool)
      requires Inv(View()) && Legal(View(), Connected(index, failed, writeFailed))
      modifies this
      ensures Inv(View()) && View() == Next(old(View()), Connected(index, failed, writeFailed))
    {
      NextKeeps(View(), Connected(index, failed, writeFailed));
      hide Inv, Completed, Restarted;
      Complete(index, Connect, []);
      if stopped {
        return;
      }
      if failed || writeFailed {
        Restart(index);
        return;
      }
      pool := pool[index := Started(pool[index].(asked := bindRequest[..]), First)];
    }

    method Handle1stResp(index: nat, data: seq<byte>, failed: bool)
      requires Inv(View()) && Legal(View(), FirstResponse(index, data, failed))
      modifies this
      ensures Inv(View()) && View() == Next(old(View()), FirstResponse(index, data, failed))
    {
      NextKeeps(View(), FirstResponse(index, data, failed));
      hide Inv, Completed, Restarted;
      Complete(index, First, data);
      if stopped {
        return;
      }
      if failed || buffers[index][3] != 0 {
        Restart(index);
        return;
      }
      pool := pool[index := Started(pool[index], Second(true))];
      if index == |pool| - 1 && |pool| < poolSize {
        pool := pool + [REOPENED];
      }
    }

    method Handle2ndResp(index: nat, whole: bool, data: seq<byte>, failed: bool, padding: seq<byte>)
      requires Inv(View()) && Legal(View(), SecondResponse(index, whole, data, failed, padding))
      modifies this
      ensures Inv(View()) && View() == Next(old(View()), SecondResponse(index, whole, data, failed, padding))
    {
      NextKeeps(View(), SecondResponse(index, whole, data, failed, padding));
      hide Inv, Completed, Restarted, Message;
      Complete(index, Second(whole), data);
      if stopped {
        return;
      }
      if failed || |data| < SECOND_RESPONSE_SIZE || buffers[index][1] != 0 {
        Restart(index);
        return;
      }
      buffers := buffers[index := Message(buffers[index], padding)];
      pool := pool[index := Started(pool[index], Send)];
    }

    method HandleSendFd(index: nat, failed: bool, sent: int)
      requires Inv(View()) && Legal(View(), Writable(index, failed, sent))
      modifies this
      ensures Inv(View()) && View() == Next(old(View()), Writable(index, failed, sent))
    {
      NextKeeps(View(), Writable(index, failed, sent));
      var message := buffers[index];
      Complete(index, Send, []);
      hide Inv;
      if stopped {
        return;
      }
      if failed {
        Restart(index);
        return;
      }
      if sent <= 0 {
        Stop();
        return;
      }
      assert pool[index].seen == old(pool[index].seen);
      handed := handed + [Handover(pool[index].asked, pool[index].seen, message)];
      InitiateSocket(index);
    }

    method HandleClientError()
      requires Inv(View())
      modifies this
      ensures Inv(View()) && View() == Next(old(View()), ClientError)
    {
      NextKeeps(View(), ClientError);
      hide Inv;
      if !stopped {
        Stop();
      }
    }

    method Stop()
      modifies this`stopped
      ensures stopped
    {
      stopped := true;
    }
  }
}
