/**
What an instance makes of a store, whatever the store holds: what a look at it finds and leads to, that
a store in which anything is found is left alone, and that a pristine one gets its backup.

The first two hold of any store, also of one that the protocol cannot have left behind.
*/
module MbsStores {
  import opened Bytes
  import opened Options
  import opened Mbs

  // ---------------------------------------------------------------- a look

  predicate AllMissing(seen: seq<Object>) {
    forall j | 0 <= j < |seen| :: seen[j].None?
  }

  // A complete backup, in the order in which it is read.
  function Whole(b: Backup): seq<Object> {
    [Some(b.cert), Some(b.dataKey), Some(b.privateKey), Some(b.attestation)]
  }

  /** What a look finds, for any four objects: pristine means that nothing at all is there, and a
      certificate with anything missing is damage. */
  lemma {:induction false} ClassifyIff(seen: seq<Object>)
    requires |seen| == ARTIFACTS
    ensures Classify(seen).NotFound? <==> AllMissing(seen)
    ensures Classify(seen).PartiallyWritten? <==> seen[0].None? && !AllMissing(seen)
    ensures Classify(seen).Incomplete? <==> seen[0].Some? && !AllFound(seen)
    ensures forall b :: Classify(seen) == Complete(b) <==> seen == Whole(b)
    ensures Classify(seen).Complete? <==> AllFound(seen)
  {
    assert seen == [seen[0], seen[1], seen[2], seen[3]];
  }

  // Where a look leads an instance, by what was found.
  ghost predicate Concludes(x: Instance, seen: seq<Object>, y: Instance)
    requires |seen| == ARTIFACTS
  {
    // Nothing at all: without the lock it goes to take it, with the lock it goes to generate.
    && (AllMissing(seen) ==>
          y == if x.pc.Probe? then x.(pc := Acquire) else if x.pc.Recheck? then x.(pc := Generate)
               else x.(pc := Idle, retried := false))
    // Something, but no certificate: the attempt is made once more.
    && (seen[0].None? && !AllMissing(seen) ==>
          y == if x.retried then x.(pc := Idle, retried := false) else x.(pc := Probe([]), retried := true))
    // A certificate, but something missing: the attempt is over.
    && (seen[0].Some? && !AllFound(seen) ==> y == x.(pc := Idle, retried := false))
    // Everything: it goes to load, to remove the lock, or to check what it has loaded.
    && (AllFound(seen) ==>
          y == if x.pc.Probe? then x.(pc := Load([])) else if x.pc.Recheck? then x.(pc := Release)
               else x.(pc := Verify(Backup(seen[0].value, seen[1].value, seen[2].value, seen[3].value))))
  }

  predicate Looks(pc: Pc) {
    pc.Probe? || pc.Recheck? || pc.Load?
  }

  /** The last read of a look decides it, whatever the store holds. */
  lemma {:induction false} LookConcludes(s: System, i: nat)
    requires Ready(s) && i < |s.insts| && Looks(s.insts[i].pc) && |s.insts[i].pc.seen| + 1 == ARTIFACTS
    ensures var seen := s.insts[i].pc.seen + [s.objects[ARTIFACTS - 1]];
            var t := Next(s, Do(i, Ok));
            && |t.insts| == |s.insts| && Concludes(s.insts[i], seen, t.insts[i])
            && t == s.(insts := s.insts[i := t.insts[i]])
  {
    ClassifyIff(s.insts[i].pc.seen + [s.objects[ARTIFACTS - 1]]);
  }

  /** An attempt starts over at most once, and exactly if the lock is reported as taken or a look finds
      something but no certificate; any failure ends it. */
  lemma {:induction false} StartsOverIff(accepts: Backup -> bool, s: System, i: nat, r: Result)
    requires Ready(s) && Enabled(accepts, s, Do(i, r))
    ensures |Next(s, Do(i, r)).insts| == |s.insts|
    ensures var x, y := s.insts[i], Next(s, Do(i, r)).insts[i];
            var transient := r.AlreadyLocked? ||
                             (r == Ok && Looks(x.pc) && |x.pc.seen| + 1 == ARTIFACTS &&
                              var seen := x.pc.seen + [s.objects[ARTIFACTS - 1]];
                              seen[0].None? && !AllMissing(seen));
            && (transient && !x.retried ==> y == x.(pc := Probe([]), retried := true))
            && (transient && x.retried ==> y == x.(pc := Idle, retried := false))
            && (!transient && y.pc != Idle ==> y.retried == x.retried)
            && (r.Error? ==> y == x.(pc := Idle, retried := false))
  {
    var x := s.insts[i];
    if Looks(x.pc) && |x.pc.seen| + 1 == ARTIFACTS {
      ClassifyIff(x.pc.seen + [s.objects[ARTIFACTS - 1]]);
    }
    hide Classify;
  }

  // An instance that is looking at, loading or checking what the store holds, and nothing else.
  ghost predicate LooksAt(pc: Pc, objects: seq<Object>)
    requires |objects| == ARTIFACTS
  {
    match pc
    case Idle => true
    case Probe(seen) => |seen| < ARTIFACTS && seen == objects[..|seen|]
    case Load(seen) => |seen| < ARTIFACTS && seen == objects[..|seen|] && AllFound(objects)
    case Verify(b) => objects == Whole(b)
    case _ => false
  }

  ghost predicate OnlyLooking(s: System) {
    Ready(s) && forall i | 0 <= i < |s.insts| :: LooksAt(s.insts[i].pc, s.objects)
  }

  lemma {:induction false} LookingOn(objects: seq<Object>, x: Instance)
    requires |objects| == ARTIFACTS && !AllMissing(objects)
    requires x.pc.Probe? || x.pc.Load?
    requires LooksAt(x.pc, objects)
    ensures var more := x.pc.seen + [objects[|x.pc.seen|]];
            var y := if x.pc.Probe? then AfterProbe(x, more) else AfterLoad(x, more);
            LooksAt(y.pc, objects) && y.served == x.served
  {
    var k := |x.pc.seen|;
    assert objects[..k] + [objects[k]] == objects[..k + 1];
    if k + 1 == ARTIFACTS {
      assert objects[..k + 1] == objects;
      ClassifyIff(objects);
      assert objects == [objects[0], objects[1], objects[2], objects[3]];
    }
    hide Classify;
  }

  // What a step may do to what instance i serves, in a store that only holds these objects.
  ghost predicate ServesOnly(accepts: Backup -> bool, s: System, t: System, i: nat)
    requires i < |s.insts|
  {
    && |t.insts| == |s.insts|
    && (|| t.insts[i].served == s.insts[i].served || t.insts[i].served.None?
        || (accepts(t.insts[i].served.value) && s.objects == Whole(t.insts[i].served.value)))
  }

  lemma {:induction false} LookingOwn(accepts: Backup -> bool, s: System, e: Event)
    requires OnlyLooking(s) && !AllMissing(s.objects) && Enabled(accepts, s, e) && e != RemoveLock
    ensures var t := Next(s, e);
            && |t.insts| == |s.insts| && LooksAt(t.insts[e.i].pc, s.objects) && ServesOnly(accepts, s, t, e.i)
            && t.(insts := s.insts) == s
  {
    assert LooksAt(s.insts[e.i].pc, s.objects);
    var x := s.insts[e.i];
    if e.Do? && (x.pc.Probe? || x.pc.Load?) {
      LookingOn(s.objects, x);
    }
    hide Classify, AfterProbe, AfterLoad, AfterRecheck;
  }

  lemma {:induction false} LookingStep(accepts: Backup -> bool, s: System, e: Event, i: nat)
    requires OnlyLooking(s) && !AllMissing(s.objects) && Enabled(accepts, s, e) && i < |s.insts|
    ensures var t := Next(s, e);
            && OnlyLooking(t) && ServesOnly(accepts, s, t, i)
            && t.(insts := s.insts, lock := s.lock) == s && (e != RemoveLock ==> t.lock == s.lock)
  {
    if e != RemoveLock {
      LookingOwn(accepts, s, e);
      var t := Next(s, e);
      forall j | 0 <= j < |s.insts| && j != e.i ensures t.insts[j] == s.insts[j] {
        OthersDoNotMove(s, e, j);
      }
      hide Next, Enabled, LooksAt;
    }
  }

  /** A store in which anything at all is found is left alone: in every run of instances that start on
      it, whatever it holds, nobody takes the lock, generates or writes, and nobody comes to serve
      anything but a complete backup that is there and passes its check. */
  lemma {:induction false} FoundIsLeftAlone(accepts: Backup -> bool, s: System, es: seq<Event>, i: nat)
    requires OnlyLooking(s) && !AllMissing(s.objects) && LegalRun(accepts, s, es) && i < |s.insts|
    ensures var t := After(accepts, s, es);
            && OnlyLooking(t) && ServesOnly(accepts, s, t, i)
            && t.(insts := s.insts, lock := s.lock) == s && (RemoveLock !in es ==> t.lock == s.lock)
    decreases |es|
  {
    if es != [] {
      LookingStep(accepts, s, es[0], i);
      hide Next, Enabled, OnlyLooking;
      FoundIsLeftAlone(accepts, Next(s, es[0]), es[1..], i);
    }
  }

  // ---------------------------------------------------------------- the first backup

  // A put that nothing goes wrong with writes the whole backup.
  lemma {:induction false} PutsAll(accepts: Backup -> bool, o: System, s: System, i: nat) returns (t: System)
    requires Alone(accepts, o, s, i) && Inv(accepts, s) && Ready(s) && i < |s.insts| && s.insts[i].pc.Put?
    ensures Alone(accepts, o, t, i) && Inv(accepts, t) && Ready(t) && |t.insts| == |s.insts|
    ensures t.insts[i] == s.insts[i].(pc := Release) && t.objects == Whole(s.insts[i].pc.b)
    ensures t.published == Some(s.insts[i].pc.b) && t.written == ARTIFACTS && t.started == s.started
    decreases ARTIFACTS - s.insts[i].pc.k
  {
    assert Fine(accepts, s, i);
    AloneNext(accepts, o, s, i, Ok);
    NextKeeps(accepts, s, Do(i, Ok));
    t := Next(s, Do(i, Ok));
    assert Fine(accepts, t, i);
    if t.insts[i].pc.Put? {
      hide Inv, Next, Enabled, Alone, Fine;
      t := PutsAll(accepts, o, t, i);
    }
  }

  /** The purpose of it all: on a pristine store without a lock, whatever the others were doing, a reload
      that nothing goes wrong with generates a backup, stores all of it, removes the lock and serves it. */
  lemma {:induction false} FirstReloadServes(accepts: Backup -> bool, s: System, i: nat, b: Backup)
    returns (t: System, u: System)
    requires Inv(accepts, s) && Ready(s) && i < |s.insts| && accepts(b)
    requires s.insts[i].pc == Idle && s.lock.None? && s.objects == [None, None, None, None]
    ensures Leads(accepts, s, t) && t.started == s.started + 1 && Alone(accepts, t, u, i)
    ensures u.objects == Whole(b) && u.published == Some(b) && u.lock.None?
    ensures |u.insts| == |s.insts| && u.insts[i].pc == Idle && u.insts[i].served == Some(b)
  {
    LeadsNowhere(accepts, s);
    t := BeginPut(accepts, s, s, i, b);
    LeadsKeeps(accepts, s, t);
    AloneNowhere(accepts, t, i);
    var p := PutsAll(accepts, t, t, i);
    var c := GetsToCheck(accepts, t, p, i);
    assert Fine(accepts, c, i);
    assert c.objects == Image(b, ARTIFACTS) == Whole(b);
    AloneNext(accepts, t, c, i, Ok);
    hide Inv, Alone, Leads;
    u := Next(c, Do(i, Ok));
  }

  lemma {:induction false} LeadsKeeps(accepts: Backup -> bool, s: System, t: System)
    requires Inv(accepts, s) && Leads(accepts, s, t)
    ensures Inv(accepts, t) && Ready(t)
  {
    var es :| LegalRun(accepts, s, es) && t == After(accepts, s, es);
    RunKeeps(accepts, s, es);
  }
}
