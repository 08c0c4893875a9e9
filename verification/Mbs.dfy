/**
The generation protocol of measurement-bound storage: any number of instances share one store, and
the first to find it pristine generates the key backup under a lock.

The store holds four artifacts and a lock.  Every read, write, create and delete of a single object
is one atomic step; a backup is read and written one artifact at a time, so instances see each other
half way.  Any step may fail, with or without having had its effect, an instance may crash at any
point, and an operator may remove a lock that no running attempt holds.
*/
module Mbs {
  import opened Bytes
  import opened Options
  import opened Sequences

  // The four artifacts of a backup, in the order in which they are read: the certificate first.
  datatype Backup = Backup(cert: seq<byte>, dataKey: seq<byte>, privateKey: seq<byte>, attestation: seq<byte>)

  const ARTIFACTS: nat := 4

  function Part(b: Backup, j: nat): seq<byte>
    requires j < ARTIFACTS
  {
    if j == 0 then b.cert else if j == 1 then b.dataKey else if j == 2 then b.privateKey else b.attestation
  }

  // The artifact written k-th: private key, data key, attestation, and the certificate last.
  function WriteOrder(k: nat): (j: nat)
    requires k < ARTIFACTS
    ensures j < ARTIFACTS
  {
    if k == 0 then 2 else if k == 1 then 1 else if k == 2 then 3 else 0
  }

  // ---------------------------------------------------------------- reading a backup

  type Object = Option<seq<byte>>

  datatype Found =
    | NotFound          // no artifact at all
    | PartiallyWritten  // some artifacts, but no certificate
    | Incomplete        // a certificate, but artifacts are missing
    | Complete(b: Backup)

  function Classify(seen: seq<Object>): Found
    requires |seen| == ARTIFACTS
  {
    if seen[0].None? && seen[1].None? && seen[2].None? && seen[3].None? then NotFound
    else if seen[0].None? then PartiallyWritten
    else if seen[1].None? || seen[2].None? || seen[3].None? then Incomplete
    else Complete(Backup(seen[0].value, seen[1].value, seen[2].value, seen[3].value))
  }

  // ---------------------------------------------------------------- the instances

  // Where an instance is.  `seen` is what the current read of the backup has returned so far.
  datatype Pc =
    | Idle
    | Probe(seen: seq<Object>)    // looking for a backup, without the lock
    | Acquire                     // about to take the lock
    | Recheck(seen: seq<Object>)  // looking again, with the lock
    | Generate                    // generating certificate, keys and attestation
    | Put(k: nat, b: Backup)      // about to write the k-th artifact
    | Release                     // about to remove the lock
    | Load(seen: seq<Object>)     // reading the backup to serve
    | Verify(b: Backup)           // decrypting it and checking the key against the certificate

  datatype Instance = Instance(pc: Pc, retried: bool, served: Option<Backup>)

  // The lock is recorded with the instance that created it.  `published`, `written`, `started` and
  // `wasted` are for the statements: the backup of which artifacts have been written and how many,
  // and how many puts have begun and how many of them ended without having written anything.
  datatype System = System(
    objects: seq<Object>,
    lock: Option<nat>,
    insts: seq<Instance>,
    published: Option<Backup>,
    written: nat,
    started: nat,
    wasted: nat)

  // How the step of an instance turns out.
  datatype Result =
    | Ok
    | Generated(b: Backup)
    | AlreadyLocked(effect: bool)
    | Error(effect: bool)

  datatype Event =
    | Reload(i: nat)
    | Do(i: nat, r: Result)
    | Crash(i: nat)
    | RemoveLock

  // An instance in the part of the protocol that the lock protects.
  predicate Holding(pc: Pc) {
    pc.Recheck? || pc.Generate? || pc.Put? || pc.Release?
  }

  // ---------------------------------------------------------------- the steps

  function Initial(n: nat): System {
    System([None, None, None, None], None, seq(n, _ => Instance(Idle, false, None)), None, 0, 0, 0)
  }

  // The attempt is over.  What is served stays.
  function Aborted(x: Instance): Instance {
    x.(pc := Idle, retried := false)
  }

  // A transient state is retried once, from the beginning.
  function Retried(x: Instance): Instance {
    if x.retried then Aborted(x) else x.(pc := Probe([]), retried := true)
  }

  ghost predicate PcOk(pc: Pc) {
    && (pc.Probe? || pc.Recheck? || pc.Load? ==> |pc.seen| < ARTIFACTS)
    && (pc.Put? ==> pc.k < ARTIFACTS)
  }

  ghost predicate Ready(s: System) {
    |s.objects| == ARTIFACTS && forall i | 0 <= i < |s.insts| :: PcOk(s.insts[i].pc)
  }

  function AfterProbe(x: Instance, seen: seq<Object>): (y: Instance)
    requires |seen| <= ARTIFACTS
    ensures PcOk(y.pc) && !Holding(y.pc) && y.served == x.served
  {
    if |seen| != ARTIFACTS then x.(pc := Probe(seen))
    else
      match Classify(seen)
      case NotFound => x.(pc := Acquire)
      case PartiallyWritten => Retried(x)
      case Incomplete => Aborted(x)
      case Complete(_) => x.(pc := Load([]))
  }

  function AfterRecheck(x: Instance, seen: seq<Object>): (y: Instance)
    requires |seen| <= ARTIFACTS
    ensures PcOk(y.pc) && y.served == x.served
  {
    if |seen| != ARTIFACTS then x.(pc := Recheck(seen))
    else
      match Classify(seen)
      case NotFound => x.(pc := Generate)
      case PartiallyWritten => Retried(x)
      case Incomplete => Aborted(x)
      case Complete(_) => x.(pc := Release)
  }

  function AfterLoad(x: Instance, seen: seq<Object>): (y: Instance)
    requires |seen| <= ARTIFACTS
    ensures PcOk(y.pc) && !Holding(y.pc) && y.served == x.served
  {
    if |seen| != ARTIFACTS then x.(pc := Load(seen))
    else
      match Classify(seen)
      case NotFound => Aborted(x)
      case PartiallyWritten => Retried(x)
      case Incomplete => Aborted(x)
      case Complete(b) => x.(pc := Verify(b))
  }

  ghost predicate Enabled(accepts: Backup -> bool, s: System, e: Event) {
    match e
    case Reload(i) => i < |s.insts| && s.insts[i].pc == Idle
    case Crash(i) => i < |s.insts|
    // Only a lock that no attempt is relying on.
    case RemoveLock => s.lock.Some? && (s.lock.value < |s.insts| ==> !Holding(s.insts[s.lock.value].pc))
    case Do(i, r) =>
      i < |s.insts| &&
      match s.insts[i].pc
      case Idle => false
      case Acquire =>
        // Creating the lock succeeds only if it is absent.
        (r == Ok ==> s.lock.None?) && !r.Generated? && (r.AlreadyLocked? && s.lock.None? ==> r.effect)
      case Generate => r.Generated? || r.Error?
      case Verify(b) => (r == Ok && accepts(b)) || r.Error?
      case _ => r == Ok || r.Error?
  }

  function WithInstance(s: System, i: nat, x: Instance): (t: System)
    requires Ready(s) && i < |s.insts| && PcOk(x.pc)
    ensures Ready(t)
  {
    s.(insts := s.insts[i := x])
  }

  // The k-th artifact of b is written.
  function Write(s: System, k: nat, b: Backup): (t: System)
    requires Ready(s) && k < ARTIFACTS
    ensures Ready(t)
  {
    s.(objects := s.objects[WriteOrder(k) := Some(Part(b, WriteOrder(k)))],
       written := k + 1,
       published := if s.published.None? then Some(b) else s.published)
  }

  // The attempt of instance i is over for good or ill; a put that had written nothing is wasted.
  function Stop(s: System, i: nat, x: Instance): (t: System)
    requires Ready(s) && i < |s.insts| && PcOk(x.pc)
    ensures Ready(t)
  {
    var s1 := if s.insts[i].pc.Put? && s.insts[i].pc.k == 0 then s.(wasted := s.wasted + 1) else s;
    WithInstance(s1, i, x)
  }

  function DoAcquire(s: System, i: nat, r: Result): (t: System)
    requires Ready(s) && i < |s.insts|
    ensures Ready(t)
  {
    var x := s.insts[i];
    match r
    case Ok => WithInstance(s.(lock := Some(i)), i, x.(pc := Recheck([])))
    case AlreadyLocked(_) =>
      WithInstance(if s.lock.None? then s.(lock := Some(i)) else s, i, Retried(x))
    case Error(effect) =>
      WithInstance(if effect && s.lock.None? then s.(lock := Some(i)) else s, i, Aborted(x))
    case Generated(_) => s
  }

  function DoPut(s: System, i: nat, k: nat, b: Backup, r: Result): (t: System)
    requires Ready(s) && i < |s.insts| && k < ARTIFACTS
    ensures Ready(t)
  {
    var x := s.insts[i];
    match r
    case Error(effect) =>
      if effect then WithInstance(Write(s, k, b), i, Aborted(x)) else Stop(s, i, Aborted(x))
    case _ => WithInstance(Write(s, k, b), i, x.(pc := if k + 1 < ARTIFACTS then Put(k + 1, b) else Release))
  }

  function DoRelease(s: System, i: nat, r: Result): (t: System)
    requires Ready(s) && i < |s.insts|
    ensures Ready(t)
  {
    var x := s.insts[i];
    match r
    case Error(effect) => WithInstance(if effect then s.(lock := None) else s, i, Aborted(x))
    case _ => WithInstance(s.(lock := None), i, x.(pc := Load([])))
  }

  function DoStep(s: System, i: nat, r: Result): (t: System)
    requires Ready(s) && i < |s.insts|
    ensures Ready(t)
  {
    var x := s.insts[i];
    match x.pc
    case Idle => s
    case Probe(seen) =>
      WithInstance(s, i, if r.Error? then Aborted(x) else AfterProbe(x, seen + [s.objects[|seen|]]))
    case Acquire => DoAcquire(s, i, r)
    case Recheck(seen) =>
      WithInstance(s, i, if r.Error? then Aborted(x) else AfterRecheck(x, seen + [s.objects[|seen|]]))
    case Generate =>
      if r.Generated? then WithInstance(s.(started := s.started + 1), i, x.(pc := Put(0, r.b)))
      else WithInstance(s, i, Aborted(x))
    case Put(k, b) => DoPut(s, i, k, b, r)
    case Release => DoRelease(s, i, r)
    case Load(seen) =>
      WithInstance(s, i, if r.Error? then Aborted(x) else AfterLoad(x, seen + [s.objects[|seen|]]))
    case Verify(b) =>
      WithInstance(s, i, if r == Ok then Instance(Idle, false, Some(b)) else Aborted(x))
  }

  function Next(s: System, e: Event): (t: System)
    requires Ready(s) && (e.RemoveLock? || e.i < |s.insts|)
    ensures Ready(t)
  {
    match e
    case Reload(i) => WithInstance(s, i, s.insts[i].(pc := Probe([]), retried := false))
    case Crash(i) => Stop(s, i, Instance(Idle, false, None))
    case RemoveLock => s.(lock := None)
    case Do(i, r) => DoStep(s, i, r)
  }

  // ---------------------------------------------------------------- the invariant

  // The store after w artifacts of b have been written.
  function Image(b: Backup, w: nat): seq<Object> {
    [if w > 3 then Some(b.cert) else None,
     if w > 1 then Some(b.dataKey) else None,
     if w > 0 then Some(b.privateKey) else None,
     if w > 2 then Some(b.attestation) else None]
  }

  // Everything in the store belongs to the one published backup, written in order.
  ghost predicate Stored(s: System) {
    && s.written <= ARTIFACTS
    && (s.published.None? ==> s.written == 0 && s.objects == [None, None, None, None])
    && (s.published.Some? ==> s.written > 0 && s.objects == Image(s.published.value, s.written))
  }

  // A read without the lock: what was found is still there, and a certificate was found only
  // after everything had been written.
  ghost predicate Glimpsed(s: System, seen: seq<Object>) {
    && |seen| < ARTIFACTS == |s.objects|
    && (forall j | 0 <= j < |seen| :: seen[j].Some? ==> seen[j] == s.objects[j])
    && (|seen| > 0 && seen[0].Some? ==> s.written == ARTIFACTS && forall j | 0 <= j < |seen| :: seen[j].Some?)
  }

  ghost predicate Sound(s: System, pc: Pc) {
    match pc
    case Idle => true
    case Probe(seen) => Glimpsed(s, seen)
    case Acquire => true
    case Recheck(seen) => |seen| < ARTIFACTS == |s.objects| && seen == s.objects[..|seen|]
    case Generate => s.written == 0
    case Put(k, b) => k < ARTIFACTS && s.written == k && (k > 0 ==> s.published == Some(b))
    case Release => s.written == ARTIFACTS
    case Load(seen) => Glimpsed(s, seen) && s.written == ARTIFACTS && forall j | 0 <= j < |seen| :: seen[j].Some?
    case Verify(b) => s.written == ARTIFACTS && s.published == Some(b)
  }

  ghost predicate Serving(accepts: Backup -> bool, s: System, served: Option<Backup>) {
    served.Some? ==> s.written == ARTIFACTS && s.published == served && accepts(served.value)
  }

  ghost predicate Fine(accepts: Backup -> bool, s: System, i: nat)
    requires i < |s.insts| && |s.objects| == ARTIFACTS
  {
    && (Holding(s.insts[i].pc) ==> s.lock == Some(i))
    && Sound(s, s.insts[i].pc)
    && Serving(accepts, s, s.insts[i].served)
  }

  // A put has begun that has not written anything yet.
  predicate Pending(s: System) {
    s.lock.Some? && s.lock.value < |s.insts| && s.insts[s.lock.value].pc.Put? && s.insts[s.lock.value].pc.k == 0
  }

  // Of the puts that have begun, all but at most one ended without having written anything.
  ghost predicate Accounted(s: System) {
    s.started == s.wasted + if s.published.Some? || Pending(s) then 1 else 0
  }

  ghost predicate Inv(accepts: Backup -> bool, s: System) {
    && Stored(s)
    && Accounted(s)
    && forall i | 0 <= i < |s.insts| :: Fine(accepts, s, i)
  }

  // What a step of somebody else may do to the store.
  ghost predicate Grows(s: System, t: System) {
    && |s.objects| == |t.objects| == ARTIFACTS
    && s.written <= t.written <= ARTIFACTS
    && (s.published.Some? ==> t.published == s.published)
    && (forall j | 0 <= j < ARTIFACTS :: s.objects[j].Some? ==> t.objects[j] == s.objects[j])
  }

  lemma {:induction false} OthersStay(accepts: Backup -> bool, s: System, t: System, j: nat)
    requires |s.insts| == |t.insts| && j < |s.insts| && t.insts[j] == s.insts[j]
    requires Grows(s, t)
    requires Holding(s.insts[j].pc) ==> t.lock == s.lock && t.objects == s.objects && t.written == s.written
    requires Fine(accepts, s, j)
    ensures Fine(accepts, t, j)
  {
  }

  // A step of instance i that leaves the others where they are.
  lemma {:induction false} StepKeeps(accepts: Backup -> bool, s: System, t: System, i: nat)
    requires |s.objects| == ARTIFACTS && i < |s.insts| == |t.insts|
    requires forall j | 0 <= j < |s.insts| :: Fine(accepts, s, j)
    requires forall j | 0 <= j < |s.insts| && j != i :: t.insts[j] == s.insts[j]
    requires Grows(s, t)
    requires (t.lock != s.lock || t.objects != s.objects || t.written != s.written) ==>
               s.lock.None? || s.lock == Some(i)
    requires Fine(accepts, t, i)
    ensures forall j | 0 <= j < |t.insts| :: Fine(accepts, t, j)
  {
    forall j | 0 <= j < |t.insts| ensures Fine(accepts, t, j) {
      if j != i {
        assert Fine(accepts, s, j);
        OthersStay(accepts, s, t, j);
      }
    }
  }

  lemma {:induction false} PutKeeps(accepts: Backup -> bool, s: System, i: nat, r: Result)
    requires Inv(accepts, s) && Ready(s) && Enabled(accepts, s, Do(i, r)) && s.insts[i].pc.Put?
    ensures s.insts[i].pc.k < ARTIFACTS
    ensures Inv(accepts, DoPut(s, i, s.insts[i].pc.k, s.insts[i].pc.b, r))
  {
    assert Fine(accepts, s, i);
    var k, b := s.insts[i].pc.k, s.insts[i].pc.b;
    var t := DoPut(s, i, k, b, r);
    StepKeeps(accepts, s, t, i);
  }

  lemma {:induction false} AcquireKeeps(accepts: Backup -> bool, s: System, i: nat, r: Result)
    requires Inv(accepts, s) && Ready(s) && Enabled(accepts, s, Do(i, r)) && s.insts[i].pc.Acquire?
    ensures Inv(accepts, DoAcquire(s, i, r))
  {
    assert Fine(accepts, s, i);
    StepKeeps(accepts, s, DoAcquire(s, i, r), i);
  }

  lemma {:induction false} ReleaseKeeps(accepts: Backup -> bool, s: System, i: nat, r: Result)
    requires Inv(accepts, s) && Ready(s) && Enabled(accepts, s, Do(i, r)) && s.insts[i].pc.Release?
    ensures Inv(accepts, DoRelease(s, i, r))
  {
    assert Fine(accepts, s, i);
    StepKeeps(accepts, s, DoRelease(s, i, r), i);
  }

  // One more artifact is read without the lock.
  lemma {:induction false} GlimpseMore(s: System, seen: seq<Object>)
    requires Stored(s) && Glimpsed(s, seen)
    ensures var more := seen + [s.objects[|seen|]];
            && (|more| < ARTIFACTS ==> Glimpsed(s, more))
            && (|more| == ARTIFACTS ==> !Classify(more).Incomplete?)
            && (|more| == ARTIFACTS && Classify(more).Complete? ==>
                  s.written == ARTIFACTS && s.published == Some(Classify(more).b))
  {
  }

  // A step that only moves the instance on.
  lemma {:induction false} MoveKeeps(accepts: Backup -> bool, s: System, i: nat, y: Instance)
    requires Inv(accepts, s) && Ready(s) && i < |s.insts| && !s.insts[i].pc.Put? && !y.pc.Put? && PcOk(y.pc)
    requires Fine(accepts, WithInstance(s, i, y), i)
    ensures Inv(accepts, WithInstance(s, i, y))
  {
    hide Fine;
    StepKeeps(accepts, s, WithInstance(s, i, y), i);
  }

  lemma {:induction false} ProbeKeeps(accepts: Backup -> bool, s: System, i: nat, r: Result)
    requires Inv(accepts, s) && Ready(s) && Enabled(accepts, s, Do(i, r)) && s.insts[i].pc.Probe?
    ensures Inv(accepts, DoStep(s, i, r))
  {
    assert Fine(accepts, s, i);
    GlimpseMore(s, s.insts[i].pc.seen);
    hide Classify, Inv, Stored;
    MoveKeeps(accepts, s, i, DoStep(s, i, r).insts[i]);
  }

  lemma {:induction false} LoadKeeps(accepts: Backup -> bool, s: System, i: nat, r: Result)
    requires Inv(accepts, s) && Ready(s) && Enabled(accepts, s, Do(i, r)) && s.insts[i].pc.Load?
    ensures Inv(accepts, DoStep(s, i, r))
  {
    assert Fine(accepts, s, i);
    GlimpseMore(s, s.insts[i].pc.seen);
    hide Classify, Inv, Stored;
    MoveKeeps(accepts, s, i, DoStep(s, i, r).insts[i]);
  }

  // Under the lock nobody else writes, so the four reads together are a snapshot of the store.
  lemma {:induction false} RecheckSees(s: System, seen: seq<Object>)
    requires Stored(s) && |seen| + 1 == ARTIFACTS && seen == s.objects[..|seen|]
    ensures var all := seen + [s.objects[|seen|]];
            && all == s.objects
            && (Classify(all).NotFound? <==> s.written == 0)
            && (Classify(all).PartiallyWritten? <==> 0 < s.written < ARTIFACTS)
            && (Classify(all).Complete? <==> s.written == ARTIFACTS)
            && !Classify(all).Incomplete?
  {
  }

  lemma {:induction false} RecheckKeeps(accepts: Backup -> bool, s: System, i: nat, r: Result)
    requires Inv(accepts, s) && Ready(s) && Enabled(accepts, s, Do(i, r)) && s.insts[i].pc.Recheck?
    ensures Inv(accepts, DoStep(s, i, r))
  {
    assert Fine(accepts, s, i);
    var seen := s.insts[i].pc.seen;
    if |seen| + 1 == ARTIFACTS {
      RecheckSees(s, seen);
    } else {
      assert seen + [s.objects[|seen|]] == s.objects[..|seen| + 1];
    }
    hide Classify, Inv, Stored;
    MoveKeeps(accepts, s, i, DoStep(s, i, r).insts[i]);
  }

  lemma {:induction false} OtherStepKeeps(accepts: Backup -> bool, s: System, i: nat, r: Result)
    requires Inv(accepts, s) && Ready(s) && Enabled(accepts, s, Do(i, r))
    requires s.insts[i].pc.Generate? || s.insts[i].pc.Verify?
    ensures Inv(accepts, DoStep(s, i, r))
  {
    assert Fine(accepts, s, i);
    StepKeeps(accepts, s, DoStep(s, i, r), i);
  }

  lemma {:induction false} StopKeeps(accepts: Backup -> bool, s: System, i: nat)
    requires Inv(accepts, s) && Ready(s) && i < |s.insts|
    ensures Inv(accepts, Stop(s, i, Instance(Idle, false, None)))
  {
    assert Fine(accepts, s, i);
    StepKeeps(accepts, s, Stop(s, i, Instance(Idle, false, None)), i);
  }

  lemma {:induction false} ReloadKeeps(accepts: Backup -> bool, s: System, i: nat)
    requires Inv(accepts, s) && Ready(s) && Enabled(accepts, s, Reload(i))
    ensures Inv(accepts, Next(s, Reload(i)))
  {
    assert Fine(accepts, s, i);
    StepKeeps(accepts, s, Next(s, Reload(i)), i);
  }

  lemma {:induction false} RemoveLockKeeps(accepts: Backup -> bool, s: System)
    requires Inv(accepts, s) && Ready(s) && Enabled(accepts, s, RemoveLock)
    ensures Inv(accepts, s.(lock := None))
  {
    var t := s.(lock := None);
    forall j | 0 <= j < |t.insts| ensures Fine(accepts, t, j) {
      assert Fine(accepts, s, j);
      OthersStay(accepts, s, t, j);
    }
  }

  // Every step, failure, crash and removal of a leftover lock keeps the invariant.
  lemma {:induction false} NextKeeps(accepts: Backup -> bool, s: System, e: Event)
    requires Inv(accepts, s) && Ready(s) && Enabled(accepts, s, e)
    ensures Inv(accepts, Next(s, e))
  {
    hide Inv, Stop, WithInstance, DoPut, DoAcquire, DoRelease;
    match e
    case Reload(i) => ReloadKeeps(accepts, s, i);
    case Crash(i) => StopKeeps(accepts, s, i);
    case RemoveLock => RemoveLockKeeps(accepts, s);
    case Do(i, r) =>
      match s.insts[i].pc
      case Probe(_) => ProbeKeeps(accepts, s, i, r);
      case Acquire => AcquireKeeps(accepts, s, i, r);
      case Recheck(_) => RecheckKeeps(accepts, s, i, r);
      case Put(_, _) => PutKeeps(accepts, s, i, r);
      case Release => ReleaseKeeps(accepts, s, i, r);
      case Load(_) => LoadKeeps(accepts, s, i, r);
      case _ => OtherStepKeeps(accepts, s, i, r);
  }

  // ---------------------------------------------------------------- whole runs

  ghost predicate LegalRun(accepts: Backup -> bool, s: System, es: seq<Event>)
    requires Ready(s)
    decreases |es|
  {
    es == [] || (Enabled(accepts, s, es[0]) && LegalRun(accepts, Next(s, es[0]), es[1..]))
  }

  function After(ghost accepts: Backup -> bool, s: System, es: seq<Event>): (t: System)
    requires Ready(s) && LegalRun(accepts, s, es)
    ensures Ready(t)
    decreases |es|
  {
    if es == [] then s else After(accepts, Next(s, es[0]), es[1..])
  }

  lemma {:induction false} RunKeeps(accepts: Backup -> bool, s: System, es: seq<Event>)
    requires Inv(accepts, s) && Ready(s) && LegalRun(accepts, s, es)
    ensures Inv(accepts, After(accepts, s, es))
    decreases |es|
  {
    if es != [] {
      NextKeeps(accepts, s, es[0]);
      hide Inv, Enabled, Next;
      RunKeeps(accepts, Next(s, es[0]), es[1..]);
    }
  }

  // Some run from s ends in t.
  ghost predicate Leads(accepts: Backup -> bool, s: System, t: System) {
    Ready(s) && exists es :: LegalRun(accepts, s, es) && t == After(accepts, s, es)
  }

  // A state of a run of n instances that begins with an empty store.
  ghost predicate Reachable(accepts: Backup -> bool, n: nat, s: System) {
    Leads(accepts, Initial(n), s)
  }

  lemma {:induction false} AfterOneMore(accepts: Backup -> bool, s: System, es: seq<Event>, e: Event)
    requires Ready(s) && LegalRun(accepts, s, es) && Enabled(accepts, After(accepts, s, es), e)
    ensures LegalRun(accepts, s, es + [e])
    ensures After(accepts, s, es + [e]) == Next(After(accepts, s, es), e)
    decreases |es|
  {
    if es == [] {
      assert es + [e] == [e];
    } else {
      var next := Next(s, es[0]);
      hide Next, Enabled, Ready;
      AfterOneMore(accepts, next, es[1..], e);
      ConcatHead(es, [e]);
    }
  }

  lemma {:induction false} LeadsNext(accepts: Backup -> bool, s: System, t: System, e: Event)
    requires Leads(accepts, s, t) && Ready(t) && Enabled(accepts, t, e)
    ensures Leads(accepts, s, Next(t, e))
  {
    var es :| LegalRun(accepts, s, es) && t == After(accepts, s, es);
    AfterOneMore(accepts, s, es, e);
  }

  lemma {:induction false} LeadsNowhere(accepts: Backup -> bool, s: System)
    requires Ready(s)
    ensures Leads(accepts, s, s)
  {
    assert LegalRun(accepts, s, []) && s == After(accepts, s, []);
  }

  lemma {:induction false} ReachableInv(accepts: Backup -> bool, n: nat, s: System)
    requires Reachable(accepts, n, s)
    ensures Inv(accepts, s) && Ready(s)
  {
    var es :| LegalRun(accepts, Initial(n), es) && s == After(accepts, Initial(n), es);
    assert Inv(accepts, Initial(n)) by {
      forall i | 0 <= i < n ensures Fine(accepts, Initial(n), i) { }
    }
    RunKeeps(accepts, Initial(n), es);
  }

  // ---------------------------------------------------------------- single generation

  // A put begins only in a pristine store, by the instance that holds the lock, while nobody else
  // is under it; and every put that began earlier ended without having written anything.
  lemma {:induction false} PutBeginsPristine(accepts: Backup -> bool, n: nat, s: System, i: nat)
    requires Reachable(accepts, n, s)
    requires i < |s.insts| && s.insts[i].pc.Generate?
    ensures s.objects == [None, None, None, None] && s.lock == Some(i)
    ensures forall j | 0 <= j < |s.insts| && j != i :: !Holding(s.insts[j].pc)
    ensures s.started == s.wasted
  {
    ReachableInv(accepts, n, s);
    assert Fine(accepts, s, i);
    forall j | 0 <= j < |s.insts| && j != i ensures !Holding(s.insts[j].pc) {
      assert Fine(accepts, s, j);
    }
  }

  // At most one put ever has an effect: of all that began, all but one were wasted.
  lemma {:induction false} AtMostOneEffective(accepts: Backup -> bool, n: nat, s: System)
    requires Reachable(accepts, n, s)
    ensures s.started <= s.wasted + 1
    ensures s.started == s.wasted + 1 <==> s.published.Some? || Pending(s)
  {
    ReachableInv(accepts, n, s);
  }

  // ---------------------------------------------------------------- agreement and retention

  // What has been published stays, and no artifact is ever overwritten or lost.
  lemma {:induction false} NextGrows(accepts: Backup -> bool, s: System, e: Event)
    requires Inv(accepts, s) && Ready(s) && Enabled(accepts, s, e)
    ensures Grows(s, Next(s, e))
  {
    if e.Do? {
      assert Fine(accepts, s, e.i);
    }
  }

  lemma {:induction false} RunGrows(accepts: Backup -> bool, s: System, es: seq<Event>)
    requires Inv(accepts, s) && Ready(s) && LegalRun(accepts, s, es)
    ensures Grows(s, After(accepts, s, es))
    decreases |es|
  {
    if es != [] {
      NextKeeps(accepts, s, es[0]);
      NextGrows(accepts, s, es[0]);
      hide Inv, Enabled, Next;
      RunGrows(accepts, Next(s, es[0]), es[1..]);
    }
  }

  // Whatever two instances serve, at the same or at different times, is the same backup: the one
  // that was published, read back complete, and found to match its certificate.
  lemma {:induction false} Agreement(
    accepts: Backup -> bool, n: nat, s: System, es: seq<Event>, i: nat, j: nat)
    requires Reachable(accepts, n, s) && Ready(s) && LegalRun(accepts, s, es)
    requires i < |s.insts| && s.insts[i].served.Some?
    requires j < |After(accepts, s, es).insts| && After(accepts, s, es).insts[j].served.Some?
    ensures s.insts[i].served == After(accepts, s, es).insts[j].served == s.published
    ensures accepts(s.published.value)
    ensures s.objects == After(accepts, s, es).objects == Image(s.published.value, ARTIFACTS)
  {
    var t := After(accepts, s, es);
    ReachableInv(accepts, n, s);
    RunKeeps(accepts, s, es);
    RunGrows(accepts, s, es);
    assert Fine(accepts, s, i);
    assert Fine(accepts, t, j);
  }

  // A step changes what is served only by a successful check of the published backup, or a crash.
  lemma {:induction false} ServedChanges(accepts: Backup -> bool, s: System, e: Event, i: nat)
    requires Inv(accepts, s) && Ready(s) && Enabled(accepts, s, e) && i < |s.insts|
    ensures |Next(s, e).insts| == |s.insts|
    ensures Next(s, e).insts[i].served != s.insts[i].served ==>
              || (e == Do(i, Ok) && s.insts[i].pc.Verify? && Next(s, e).insts[i].served == s.published)
              || e == Crash(i)
  {
    if e.RemoveLock? || e.i != i {
      OthersDoNotMove(s, e, i);
    } else if e.Do? {
      OwnStepServes(accepts, s, i, e.r);
    }
    hide Inv, DoStep;
  }

  lemma {:induction false} OwnStepServes(accepts: Backup -> bool, s: System, i: nat, r: Result)
    requires Inv(accepts, s) && Ready(s) && Enabled(accepts, s, Do(i, r))
    ensures var t := DoStep(s, i, r);
            && |t.insts| == |s.insts|
            && (t.insts[i].served == s.insts[i].served ||
                (r == Ok && s.insts[i].pc.Verify? && t.insts[i].served == s.published))
  {
    assert Fine(accepts, s, i);
    hide Classify, Inv, AfterProbe, AfterRecheck, AfterLoad;
  }

  // What an instance serves outlives every failed reload, its own and others'.
  lemma {:induction false} Retention(accepts: Backup -> bool, s: System, es: seq<Event>, i: nat)
    requires Inv(accepts, s) && Ready(s) && LegalRun(accepts, s, es)
    requires i < |s.insts| && s.insts[i].served.Some?
    requires Crash(i) !in es
    ensures i < |After(accepts, s, es).insts|
    ensures After(accepts, s, es).insts[i].served == s.insts[i].served
    decreases |es|
  {
    if es != [] {
      assert Fine(accepts, s, i);
      ServedChanges(accepts, s, es[0], i);
      NextKeeps(accepts, s, es[0]);
      hide Inv, Enabled, Next;
      Retention(accepts, Next(s, es[0]), es[1..], i);
    }
  }

  // ---------------------------------------------------------------- a leftover lock blocks nothing

  predicate AllFound(seen: seq<Object>) {
    forall j | 0 <= j < |seen| :: seen[j].Some?
  }

  // A reload that missed an artifact before the store was complete, and has had its retry.
  predicate Doomed(x: Instance) {
    x.pc.Probe? && !AllFound(x.pc.seen) && x.retried
  }

  // How many successful operations a reload of a complete store is from serving it.
  ghost function Remaining(x: Instance): nat
    requires PcOk(x.pc)
  {
    match x.pc
    case Idle => 0
    case Probe(seen) => if AllFound(seen) then 9 - |seen| else 13 - |seen|
    case Acquire => 11
    case Recheck(seen) => 10 - |seen|
    case Release => 6
    case Load(seen) => 5 - |seen|
    case Verify(_) => 1
    case _ => 0
  }

  // A read of a complete store goes on finding everything, or ends in the transient state.
  lemma {:induction false} CompleteRead(s: System, seen: seq<Object>)
    requires Stored(s) && s.written == ARTIFACTS && Glimpsed(s, seen)
    ensures var more := seen + [s.objects[|seen|]];
            && (AllFound(more) <==> AllFound(seen))
            && (|more| == ARTIFACTS ==>
                  Classify(more) == if AllFound(seen) then Complete(s.published.value) else PartiallyWritten)
  {
    var more := seen + [s.objects[|seen|]];
    assert more[|seen|].Some? && forall j | 0 <= j < |seen| :: more[j] == seen[j];
  }

  lemma {:induction false} CompleteRecheck(s: System, seen: seq<Object>)
    requires Stored(s) && s.written == ARTIFACTS && |seen| + 1 == ARTIFACTS && seen == s.objects[..|seen|]
    ensures Classify(seen + [s.objects[|seen|]]).Complete?
  {
    RecheckSees(s, seen);
  }

  /** In a complete store every successful operation of a reload brings it one step closer to serving
      the published backup, whoever holds the lock or left it behind.  The exception is a reload that
      missed an artifact earlier and has had its retry: it ends and what is served stays. */
  lemma {:induction false} CompleteStep(accepts: Backup -> bool, s: System, i: nat)
    requires Inv(accepts, s) && Ready(s) && Enabled(accepts, s, Do(i, Ok)) && s.written == ARTIFACTS
    ensures var x, y := s.insts[i], Next(s, Do(i, Ok)).insts[i];
            if Doomed(x) then Doomed(y) || (y.pc == Idle && y.served == x.served)
            else !Doomed(y) && Remaining(y) == Remaining(x) - 1 && (Remaining(x) == 1 ==> y.served == s.published)
    ensures s.insts[i].pc.Acquire? || s.insts[i].pc.Release? || Next(s, Do(i, Ok)).lock == s.lock
  {
    assert Fine(accepts, s, i);
    var pc := s.insts[i].pc;
    if pc.Probe? || pc.Load? {
      CompleteRead(s, pc.seen);
    } else if pc.Recheck? && |pc.seen| + 1 == ARTIFACTS {
      CompleteRecheck(s, pc.seen);
    }
    hide Classify, Inv;
  }

  lemma {:induction false} OthersDoNotMove(s: System, e: Event, i: nat)
    requires Ready(s) && i < |s.insts| && (e.RemoveLock? || (e.i < |s.insts| && e.i != i))
    ensures |Next(s, e).insts| == |s.insts| && Next(s, e).insts[i] == s.insts[i]
  {
    hide Classify, AfterProbe, AfterRecheck, AfterLoad;
  }

  lemma {:induction false} StaysAway(accepts: Backup -> bool, s: System, e: Event, i: nat)
    requires Inv(accepts, s) && Ready(s) && Enabled(accepts, s, e)
    requires s.written == ARTIFACTS && i < |s.insts| && !s.insts[i].pc.Acquire?
    ensures |Next(s, e).insts| == |s.insts| && !Next(s, e).insts[i].pc.Acquire?
  {
    assert Fine(accepts, s, i);
    if e.RemoveLock? || e.i != i {
      OthersDoNotMove(s, e, i);
    } else if e.Do? && s.insts[i].pc.Probe? {
      CompleteRead(s, s.insts[i].pc.seen);
    }
    hide Classify, Inv;
  }

  lemma {:induction false} NeverLocksAgain(accepts: Backup -> bool, s: System, es: seq<Event>, i: nat)
    requires Inv(accepts, s) && Ready(s) && LegalRun(accepts, s, es)
    requires s.written == ARTIFACTS && i < |s.insts| && !s.insts[i].pc.Acquire?
    ensures i < |After(accepts, s, es).insts| && !After(accepts, s, es).insts[i].pc.Acquire?
    decreases |es|
  {
    if es != [] {
      NextKeeps(accepts, s, es[0]);
      NextGrows(accepts, s, es[0]);
      StaysAway(accepts, s, es[0], i);
      hide Inv, Enabled, Next;
      NeverLocksAgain(accepts, Next(s, es[0]), es[1..], i);
    }
  }

  /** Once the store is complete, an instance is ever again about to take the lock exactly if it is
      about to take it already. */
  lemma {:induction false} TriesLockIff(accepts: Backup -> bool, s: System, i: nat)
    requires Inv(accepts, s) && Ready(s) && s.written == ARTIFACTS && i < |s.insts|
    ensures (exists t :: Leads(accepts, s, t) && i < |t.insts| && t.insts[i].pc.Acquire?) <==> s.insts[i].pc.Acquire?
  {
    LeadsNowhere(accepts, s);
    if t :| Leads(accepts, s, t) && i < |t.insts| && t.insts[i].pc.Acquire? && !s.insts[i].pc.Acquire? {
      var es :| LegalRun(accepts, s, es) && t == After(accepts, s, es);
      NeverLocksAgain(accepts, s, es, i);
    }
  }

  // The operations of one instance.
  ghost predicate OwnOnly(es: seq<Event>, i: nat) {
    forall e | e in es :: e.Do? && e.i == i
  }

  // Instance i alone leads from s to t.
  ghost predicate Alone(accepts: Backup -> bool, s: System, t: System, i: nat) {
    Ready(s) && exists es :: OwnOnly(es, i) && LegalRun(accepts, s, es) && t == After(accepts, s, es)
  }

  lemma {:induction false} AloneNowhere(accepts: Backup -> bool, s: System, i: nat)
    requires Ready(s)
    ensures Alone(accepts, s, s, i)
  {
    assert OwnOnly([], i) && LegalRun(accepts, s, []) && s == After(accepts, s, []);
  }

  lemma {:induction false} AloneNext(accepts: Backup -> bool, s: System, t: System, i: nat, r: Result)
    requires Alone(accepts, s, t, i) && Ready(t) && Enabled(accepts, t, Do(i, r))
    ensures Alone(accepts, s, Next(t, Do(i, r)), i)
  {
    var es :| OwnOnly(es, i) && LegalRun(accepts, s, es) && t == After(accepts, s, es);
    AfterOneMore(accepts, s, es, Do(i, r));
    assert OwnOnly(es + [Do(i, r)], i);
  }

  // A reload that cannot succeed any more: it missed an artifact before the store was complete, or it
  // is about to take a lock that is taken, and it has had its retry.
  ghost predicate Stuck(s: System, i: nat)
    requires i < |s.insts|
  {
    Doomed(s.insts[i]) || (s.insts[i].pc.Acquire? && s.lock.Some? && s.insts[i].retried)
  }

  lemma {:induction false} StuckStep(accepts: Backup -> bool, s: System, i: nat, r: Result)
    requires Inv(accepts, s) && Ready(s) && Enabled(accepts, s, Do(i, r)) && s.written == ARTIFACTS && Stuck(s, i)
    ensures var t := Next(s, Do(i, r)); |t.insts| == |s.insts| && (Stuck(t, i) || t.insts[i].pc == Idle)
  {
    assert Fine(accepts, s, i);
    if s.insts[i].pc.Probe? {
      CompleteRead(s, s.insts[i].pc.seen);
    }
    hide Classify, Inv;
  }

  lemma {:induction false} StuckStays(accepts: Backup -> bool, s: System, es: seq<Event>, i: nat)
    requires Inv(accepts, s) && Ready(s) && LegalRun(accepts, s, es) && OwnOnly(es, i)
    requires s.written == ARTIFACTS && i < |s.insts| && (Stuck(s, i) || s.insts[i].pc == Idle)
    ensures var t := After(accepts, s, es);
            i < |t.insts| && (Stuck(t, i) || t.insts[i].pc == Idle)
    decreases |es|
  {
    if es != [] {
      assert es[0] in es;
      NextKeeps(accepts, s, es[0]);
      NextGrows(accepts, s, es[0]);
      StuckStep(accepts, s, i, es[0].r);
      hide Inv, Enabled, Next, Stuck;
      StuckStays(accepts, Next(s, es[0]), es[1..], i);
    }
  }

  // The answer of the store that brings a reload on: a lock that is taken sends it back to the start.
  function Onward(s: System, i: nat): Result
    requires i < |s.insts|
  {
    if s.insts[i].pc.Acquire? && s.lock.Some? then AlreadyLocked(false) else Ok
  }

  // The lock a reload leaves: none, if it has taken it or finds it free; otherwise whatever was there.
  function LockLeft(s: System, i: nat): Option<nat>
    requires i < |s.insts|
  {
    if Holding(s.insts[i].pc) || (s.insts[i].pc.Acquire? && s.lock.None?) then None else s.lock
  }

  lemma {:induction false} OnwardStep(accepts: Backup -> bool, s: System, i: nat)
    requires Inv(accepts, s) && Ready(s) && s.written == ARTIFACTS && i < |s.insts|
    requires s.insts[i].pc != Idle && !s.insts[i].pc.Verify? && !Stuck(s, i)
    ensures Enabled(accepts, s, Do(i, Onward(s, i)))
    ensures var t := Next(s, Do(i, Onward(s, i)));
            && |t.insts| == |s.insts| && !Stuck(t, i) && t.insts[i].pc != Idle
            && Remaining(t.insts[i]) < Remaining(s.insts[i]) && LockLeft(t, i) == LockLeft(s, i)
  {
    assert Fine(accepts, s, i);
    if Onward(s, i) == Ok {
      CompleteStep(accepts, s, i);
      if !s.insts[i].pc.Acquire? {
        StaysAway(accepts, s, Do(i, Ok), i);
      }
    }
    hide Classify, Inv;
  }

  lemma {:induction false} GetsToCheck(accepts: Backup -> bool, o: System, s: System, i: nat) returns (t: System)
    requires Alone(accepts, o, s, i) && Inv(accepts, s) && Ready(s) && s.written == ARTIFACTS && i < |s.insts|
    requires s.insts[i].pc != Idle && !Stuck(s, i)
    ensures Alone(accepts, o, t, i) && Inv(accepts, t) && Ready(t) && t.published == s.published
    ensures |t.insts| == |s.insts| && t.insts[i].pc.Verify? && t.lock == LockLeft(s, i)
    decreases Remaining(s.insts[i])
  {
    t := s;
    if !s.insts[i].pc.Verify? {
      OnwardStep(accepts, s, i);
      var e := Do(i, Onward(s, i));
      AloneNext(accepts, o, s, i, e.r);
      NextKeeps(accepts, s, e);
      NextGrows(accepts, s, e);
      hide Inv, Next, Enabled, Alone, Remaining, Onward, LockLeft, Stuck;
      t := GetsToCheck(accepts, o, Next(s, e), i);
    }
  }

  /** A reload of a complete store gets as far as checking the backup, with no help from anybody,
      exactly if it has not both had its retry and either missed an artifact or met a taken lock. */
  lemma {:induction false} GetsToCheckIff(accepts: Backup -> bool, s: System, i: nat)
    requires Inv(accepts, s) && Ready(s) && s.written == ARTIFACTS && i < |s.insts| && s.insts[i].pc != Idle
    ensures (exists t :: Alone(accepts, s, t, i) && i < |t.insts| && t.insts[i].pc.Verify?) <==> !Stuck(s, i)
  {
    AloneNowhere(accepts, s, i);
    if !Stuck(s, i) {
      var t := GetsToCheck(accepts, s, s, i);
    } else if t :| Alone(accepts, s, t, i) && i < |t.insts| && t.insts[i].pc.Verify? {
      var es :| OwnOnly(es, i) && LegalRun(accepts, s, es) && t == After(accepts, s, es);
      StuckStays(accepts, s, es, i);
    }
  }

  /** And then, if the backup passes, it serves it: a lock left behind is in nobody's way, and stays. */
  lemma {:induction false} ReloadServes(accepts: Backup -> bool, s: System, i: nat) returns (t: System)
    requires Inv(accepts, s) && Ready(s) && s.published.Some? && accepts(s.published.value)
    requires s.written == ARTIFACTS && i < |s.insts| && s.insts[i].pc != Idle && !Stuck(s, i)
    ensures Alone(accepts, s, t, i) && |t.insts| == |s.insts|
    ensures t.insts[i].served == s.published && t.insts[i].pc == Idle && t.lock == LockLeft(s, i)
  {
    AloneNowhere(accepts, s, i);
    t := GetsToCheck(accepts, s, s, i);
    assert Fine(accepts, t, i);
    AloneNext(accepts, s, t, i, Ok);
    hide Inv, Alone;
    t := Next(t, Do(i, Ok));
  }

  // ---------------------------------------------------------------- a lock left behind

  // The lock is there, and nobody is in the part of the protocol that it protects.
  ghost predicate Abandoned(s: System) {
    s.lock.Some? && forall j | 0 <= j < |s.insts| :: !Holding(s.insts[j].pc)
  }

  lemma {:induction false} LockAfterOwn(s: System, e: Event, i: nat)
    requires Ready(s) && i < |s.insts| && (e.Do? || e.Crash?) && e.i == i
    requires Holding(s.insts[i].pc)
    ensures Next(s, e).lock == if e.Do? && s.insts[i].pc.Release? && e.r != Error(false) then None else s.lock
  {
    hide Classify, AfterProbe, AfterRecheck, AfterLoad;
  }

  // The step takes instance i from under the lock, or past creating it, and the lock stays there.
  ghost predicate Strands(s: System, e: Event)
    requires Ready(s)
  {
    (e.Do? || e.Crash?) && e.i < |s.insts| && e.i < |Next(s, e).insts| &&
    var pc := s.insts[e.i].pc;
    if Holding(pc) then !Holding(Next(s, e).insts[e.i].pc) && !(e.Do? && pc.Release? && e.r != Error(false))
    else e.Do? && pc.Acquire? && s.lock.None? && (e.r.AlreadyLocked? || e.r == Error(true))
  }

  // Nobody but the creator of the lock is under it, and a step moves nobody else.
  lemma {:induction false} Bystander(accepts: Backup -> bool, s: System, e: Event, j: nat)
    requires Inv(accepts, s) && Ready(s) && Enabled(accepts, s, e) && j < |s.insts| && !e.RemoveLock? && j != e.i
    ensures |Next(s, e).insts| == |s.insts| && Next(s, e).insts[j] == s.insts[j]
    ensures Holding(s.insts[j].pc) ==> s.lock == Some(j)
  {
    assert Fine(accepts, s, j);
    OthersDoNotMove(s, e, j);
  }

  lemma {:induction false} StrandsUnder(accepts: Backup -> bool, s: System, e: Event)
    requires Inv(accepts, s) && Ready(s) && Enabled(accepts, s, e)
    requires (e.Do? || e.Crash?) && Holding(s.insts[e.i].pc)
    ensures Abandoned(Next(s, e)) <==> Strands(s, e)
  {
    assert Fine(accepts, s, e.i);
    OwnMove(s, e);
    LockAfterOwn(s, e, e.i);
    hide Inv, Next, Enabled;
    forall j | 0 <= j < |s.insts| && j != e.i ensures !Holding(Next(s, e).insts[j].pc) {
      Bystander(accepts, s, e, j);
    }
  }

  lemma {:induction false} StrandsOutside(accepts: Backup -> bool, s: System, e: Event)
    requires Inv(accepts, s) && Ready(s) && Enabled(accepts, s, e) && !Abandoned(s)
    requires !e.RemoveLock? && !Holding(s.insts[e.i].pc)
    ensures Abandoned(Next(s, e)) <==> Strands(s, e)
  {
    OwnMove(s, e);
    hide Inv, Next;
    forall j | 0 <= j < |s.insts| && j != e.i
      ensures Next(s, e).insts[j] == s.insts[j] && (Holding(s.insts[j].pc) ==> s.lock == Some(j))
    {
      Bystander(accepts, s, e, j);
    }
    if j: nat :| j < |s.insts| && Holding(s.insts[j].pc) {
      assert Holding(Next(s, e).insts[j].pc);
    } else {
      assert s.lock.None?;
      assert forall j | 0 <= j < |s.insts| && j != e.i :: !Holding(Next(s, e).insts[j].pc);
    }
  }

  /** These are all the ways in which a lock comes to be left behind: an attempt ends under it, or
      creating it was reported to have failed although it had its effect. */
  lemma {:induction false} StrandsIff(accepts: Backup -> bool, s: System, e: Event)
    requires Inv(accepts, s) && Ready(s) && Enabled(accepts, s, e) && !Abandoned(s)
    ensures Abandoned(Next(s, e)) <==> Strands(s, e)
  {
    if !e.RemoveLock? {
      if Holding(s.insts[e.i].pc) {
        StrandsUnder(accepts, s, e);
      } else {
        StrandsOutside(accepts, s, e);
      }
      hide Next, Abandoned, Strands, Inv;
    }
  }

  // A step that begins outside the lock.
  lemma {:induction false} OwnMove(s: System, e: Event)
    requires Ready(s) && !e.RemoveLock? && e.i < |s.insts|
    ensures var t := Next(s, e);
            && |t.insts| == |s.insts|
            && (!Holding(s.insts[e.i].pc) ==>
                  if e.Do? && s.insts[e.i].pc.Acquire? then
                    && (s.lock.None? ==> (t.lock.Some? <==> e.r == Ok || e.r.AlreadyLocked? || e.r == Error(true)))
                    && (Holding(t.insts[e.i].pc) <==> e.r == Ok)
                  else t.lock == s.lock && !Holding(t.insts[e.i].pc))
  {
    hide AfterProbe, AfterRecheck, AfterLoad;
  }

  /** An instance that ends under the lock, by a failure, a retry or a crash, leaves it behind unless
      the removal of the lock has had its effect. */
  lemma {:induction false} LeavesLockIff(accepts: Backup -> bool, s: System, e: Event, i: nat)
    requires Inv(accepts, s) && Ready(s) && Enabled(accepts, s, e) && i < |s.insts|
    requires (e.Do? || e.Crash?) && e.i == i
    requires Holding(s.insts[i].pc) && |Next(s, e).insts| == |s.insts| && !Holding(Next(s, e).insts[i].pc)
    ensures Abandoned(Next(s, e)) <==> !(e.Do? && s.insts[i].pc.Release? && e.r != Error(false))
    ensures Abandoned(Next(s, e)) ==> Next(s, e).lock == Some(i)
  {
    assert Fine(accepts, s, i);
    LockAfterOwn(s, e, i);
    StrandsUnder(accepts, s, e);
    hide Inv, Next;
  }

  lemma {:induction false} AbandonedStep(accepts: Backup -> bool, s: System, e: Event)
    requires Ready(s) && Abandoned(s) && Enabled(accepts, s, e) && e != RemoveLock
    ensures Abandoned(Next(s, e)) && SameStore(s, Next(s, e))
  {
    forall j | 0 <= j < |s.insts| && j != e.i ensures !Holding(Next(s, e).insts[j].pc) {
      OthersDoNotMove(s, e, j);
    }
    hide Classify;
  }

  ghost predicate SameStore(s: System, t: System) {
    && t.lock == s.lock && t.objects == s.objects
    && t.published == s.published && t.written == s.written && t.started == s.started
  }

  /** Until an operator removes it, a lock left behind stays, no put begins and the store does not
      change; and if the store is not complete, nobody comes to serve anything. */
  lemma {:induction false} AbandonedFreezes(accepts: Backup -> bool, s: System, es: seq<Event>)
    requires Inv(accepts, s) && Ready(s) && Abandoned(s) && LegalRun(accepts, s, es) && RemoveLock !in es
    ensures var t := After(accepts, s, es);
            && Abandoned(t) && SameStore(s, t)
            && (s.written < ARTIFACTS ==> forall j | 0 <= j < |t.insts| :: t.insts[j].served.None?)
    decreases |es|
  {
    if es == [] {
      forall j | 0 <= j < |s.insts| ensures s.written < ARTIFACTS ==> s.insts[j].served.None? {
        assert Fine(accepts, s, j);
      }
    } else {
      NextKeeps(accepts, s, es[0]);
      AbandonedStep(accepts, s, es[0]);
      hide Inv, Enabled, Next, Abandoned;
      AbandonedFreezes(accepts, Next(s, es[0]), es[1..]);
    }
  }

  // ---------------------------------------------------------------- when another put can begin

  // An instance alone with a pristine store and no lock gets as far as generating.
  lemma {:induction false} Climb(accepts: Backup -> bool, o: System, s: System, i: nat)
    requires Leads(accepts, o, s) && Ready(s)
    requires i < |s.insts| && s.insts[i].pc == Idle && s.lock.None? && s.objects == [None, None, None, None]
    ensures Leads(accepts, o, s.(lock := Some(i), insts := s.insts[i := Instance(Generate, false, s.insts[i].served)]))
  {
    var t := Next(s, Reload(i));
    LeadsNext(accepts, o, s, Reload(i));
    t := ReadFour(accepts, o, t, i);
    LeadsNext(accepts, o, t, Do(i, Ok));
    t := Next(t, Do(i, Ok));
    t := ReadFour(accepts, o, t, i);
    assert t.insts == s.insts[i := Instance(Generate, false, s.insts[i].served)];
  }

  // Where a read of a pristine store leads.
  function Beyond(pc: Pc): Pc {
    if pc.Probe? then Acquire else Generate
  }

  lemma {:induction false} ReadFour(accepts: Backup -> bool, o: System, s: System, i: nat) returns (t: System)
    requires Leads(accepts, o, s) && Ready(s) && s.objects == [None, None, None, None]
    requires i < |s.insts| && (s.insts[i].pc.Probe? || s.insts[i].pc.Recheck?)
    requires s.insts[i].pc.seen == s.objects[..|s.insts[i].pc.seen|]
    ensures Leads(accepts, o, t)
    ensures t == s.(insts := s.insts[i := s.insts[i].(pc := Beyond(s.insts[i].pc))])
    decreases ARTIFACTS - |s.insts[i].pc.seen|
  {
    LeadsNext(accepts, o, s, Do(i, Ok));
    ReadOne(s, i);
    t := Next(s, Do(i, Ok));
    hide Next, Enabled, Leads;
    if t.insts[i].pc.Probe? || t.insts[i].pc.Recheck? {
      t := ReadFour(accepts, o, t, i);
    }
  }

  lemma {:induction false} ReadOne(s: System, i: nat)
    requires Ready(s) && s.objects == [None, None, None, None]
    requires i < |s.insts| && (s.insts[i].pc.Probe? || s.insts[i].pc.Recheck?)
    requires s.insts[i].pc.seen == s.objects[..|s.insts[i].pc.seen|]
    ensures var k := |s.insts[i].pc.seen| + 1;
            var pc := s.insts[i].pc;
            Next(s, Do(i, Ok)) == s.(insts := s.insts[i := s.insts[i].(pc :=
              if k < ARTIFACTS then pc.(seen := s.objects[..k]) else Beyond(pc))])
  {
    var k := |s.insts[i].pc.seen|;
    assert s.objects[..k] + [s.objects[k]] == s.objects[..k + 1];
  }

  // A put begins in a pristine store that nobody has locked.
  lemma {:induction false} BeginPut(accepts: Backup -> bool, o: System, s: System, i: nat, b: Backup)
    returns (t: System)
    requires Leads(accepts, o, s) && Ready(s)
    requires i < |s.insts| && s.insts[i].pc == Idle && s.lock.None? && s.objects == [None, None, None, None]
    ensures Leads(accepts, o, t) && t.started == s.started + 1 && t.wasted == s.wasted
    ensures t == System(s.objects, Some(i), s.insts[i := Instance(Put(0, b), false, s.insts[i].served)],
                        s.published, s.written, t.started, t.wasted)
  {
    Climb(accepts, o, s, i);
    t := s.(lock := Some(i), insts := s.insts[i := Instance(Generate, false, s.insts[i].served)]);
    LeadsNext(accepts, o, t, Do(i, Generated(b)));
    t := Next(t, Do(i, Generated(b)));
    assert t.insts == s.insts[i := Instance(Put(0, b), false, s.insts[i].served)];
  }

  // The operator and a crash or two can bring any state to one without a lock.
  lemma {:induction false} FreeLock(accepts: Backup -> bool, o: System, s: System) returns (t: System)
    requires Leads(accepts, o, s) && Ready(s)
    ensures Leads(accepts, o, t) && Ready(t) && t.lock.None?
    ensures |t.insts| == |s.insts| && t.objects == s.objects && t.started == s.started
  {
    t := s;
    if s.lock.Some? && s.lock.value < |s.insts| {
      LeadsNext(accepts, o, s, Crash(s.lock.value));
      t := Next(s, Crash(s.lock.value));
    }
    if s.lock.Some? {
      LeadsNext(accepts, o, t, RemoveLock);
      t := Next(t, RemoveLock);
    }
  }

  // With one more crash, instance 0 is idle.
  lemma {:induction false} Vacate(accepts: Backup -> bool, o: System, s: System) returns (t: System)
    requires Leads(accepts, o, s) && Ready(s) && |s.insts| > 0
    ensures Leads(accepts, o, t) && Ready(t) && t.lock.None? && |t.insts| > 0 && t.insts[0].pc == Idle
    ensures t.objects == s.objects && t.started == s.started
  {
    t := FreeLock(accepts, o, s);
    LeadsNext(accepts, o, t, Crash(0));
    t := Next(t, Crash(0));
  }

  // Once anything has been written no put ever begins again.
  lemma {:induction false} NoMorePuts(accepts: Backup -> bool, s: System, es: seq<Event>)
    requires Inv(accepts, s) && Ready(s) && LegalRun(accepts, s, es) && s.written > 0
    ensures After(accepts, s, es).started == s.started
    decreases |es|
  {
    if es != [] {
      NextKeeps(accepts, s, es[0]);
      NextGrows(accepts, s, es[0]);
      NoPutBegins(accepts, s, es[0]);
      hide Inv, Enabled, Next;
      NoMorePuts(accepts, Next(s, es[0]), es[1..]);
    }
  }

  lemma {:induction false} NoPutBegins(accepts: Backup -> bool, s: System, e: Event)
    requires Inv(accepts, s) && Ready(s) && Enabled(accepts, s, e) && s.written > 0
    ensures Next(s, e).started == s.started
  {
    if e.Do? {
      assert Fine(accepts, s, e.i);
    }
    hide Classify, Inv, AfterProbe, AfterRecheck, AfterLoad;
  }

  /** That a put begins at most once is not true: the first write of one may fail without effect,
      after which an operator removes the lock and the store is still pristine. */
  lemma {:induction false} TwoPutsCanBegin(accepts: Backup -> bool, b: Backup) returns (s: System)
    ensures Reachable(accepts, 1, s) && s.started == 2
  {
    var o := Initial(1);
    LeadsNowhere(accepts, o);
    s := BeginPut(accepts, o, o, 0, b);
    LeadsNext(accepts, o, s, Do(0, Error(false)));
    s := Next(s, Do(0, Error(false)));
    LeadsNext(accepts, o, s, RemoveLock);
    s := Next(s, RemoveLock);
    s := BeginPut(accepts, o, s, 0, b);
  }

  /** Exactly when: however many puts have begun, another can begin in some run from here if and only
      if the store is pristine, which is what an operator can look at before removing a lock. */
  lemma {:induction false} AnotherPutIff(accepts: Backup -> bool, n: nat, s: System)
    requires Reachable(accepts, n, s) && |s.insts| > 0
    ensures (exists t :: Leads(accepts, s, t) && t.started > s.started) <==> s.objects == [None, None, None, None]
  {
    ReachableInv(accepts, n, s);
    LeadsNowhere(accepts, s);
    if s.objects == [None, None, None, None] {
      var t := Vacate(accepts, s, s);
      t := BeginPut(accepts, s, t, 0, Backup([], [], [], []));
    }
    if t :| Leads(accepts, s, t) && t.started > s.started && s.written > 0 {
      var es :| LegalRun(accepts, s, es) && t == After(accepts, s, es);
      NoMorePuts(accepts, s, es);
    }
  }
}
