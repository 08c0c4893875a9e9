/**
The reload of one instance of measurement-bound storage as it is written: nested calls, exceptions,
and one retry.  The instances of module `Mbs` are program counters; here the structured code is
proved to be a run of that machine, whatever the other instances and the operator do between any
two of its operations.
*/
module Provider {
  import opened Options
  import opened Sequences
  import M = Mbs
  import A = MbsStores

  // An operation of this instance: what everybody else does before it, and how it turns out.
  datatype Turn = Turn(others: seq<M.Event>, r: M.Result)

  // How a call ends: it returns, it throws, or the process is gone before it ends.
  datatype Exit = Returns | Throws(transient: bool) | Gone

  ghost predicate Elsewhere(es: seq<M.Event>, id: nat) {
    forall e | e in es :: e.RemoveLock? || e.i != id
  }

  // The turns can happen, from w on, until this instance is done.
  ghost predicate Possible(accepts: M.Backup -> bool, w: M.System, id: nat, script: seq<Turn>)
    requires M.Ready(w)
    decreases |script|
  {
    script == [] || id >= |w.insts| || w.insts[id].pc == M.Idle ||
    (&& Elsewhere(script[0].others, id) && M.LegalRun(accepts, w, script[0].others)
     && var w1 := M.After(accepts, w, script[0].others);
        && M.Enabled(accepts, w1, M.Do(id, script[0].r))
        && Possible(accepts, M.Next(w1, M.Do(id, script[0].r)), id, script[1..]))
  }

  // The others do not move this instance.
  lemma {:induction false} OthersLeave(accepts: M.Backup -> bool, w: M.System, es: seq<M.Event>, id: nat)
    requires M.Ready(w) && M.LegalRun(accepts, w, es) && Elsewhere(es, id) && id < |w.insts|
    ensures |M.After(accepts, w, es).insts| == |w.insts| && M.After(accepts, w, es).insts[id] == w.insts[id]
    decreases |es|
  {
    if es != [] {
      assert es[0] in es;
      M.OthersDoNotMove(w, es[0], id);
      hide M.Next, M.Enabled;
      OthersLeave(accepts, M.Next(w, es[0]), es[1..], id);
    }
  }

  lemma {:induction false} AfterBoth(accepts: M.Backup -> bool, s: M.System, a: seq<M.Event>, b: seq<M.Event>)
    requires M.Ready(s) && M.LegalRun(accepts, s, a) && M.LegalRun(accepts, M.After(accepts, s, a), b)
    ensures M.LegalRun(accepts, s, a + b) && M.After(accepts, s, a + b) == M.After(accepts, M.After(accepts, s, a), b)
    decreases |a|
  {
    if a == [] {
      assert a + b == b;
    } else {
      var next := M.Next(s, a[0]);
      hide M.Next, M.Ready, M.Enabled;
      AfterBoth(accepts, next, a[1..], b);
      ConcatHead(a, b);
    }
  }

  // What the others leave this instance with.
  lemma {:induction false} TurnBegins(accepts: M.Backup -> bool, w: M.System, id: nat, others: seq<M.Event>)
    requires M.Ready(w) && M.Inv(accepts, w) && id < |w.insts|
    requires Elsewhere(others, id) && M.LegalRun(accepts, w, others)
    ensures var w1 := M.After(accepts, w, others);
            && M.Inv(accepts, w1) && |w1.insts| == |w.insts| && w1.insts[id] == w.insts[id]
            && (M.Holding(w1.insts[id].pc) ==> w1.lock == Some(id))
  {
    M.RunKeeps(accepts, w, others);
    OthersLeave(accepts, w, others, id);
    assert M.Fine(accepts, M.After(accepts, w, others), id);
  }

  // And what it then does.
  lemma {:induction false} TurnEnds(accepts: M.Backup -> bool, w1: M.System, id: nat, r: M.Result)
    requires M.Ready(w1) && M.Inv(accepts, w1) && M.Enabled(accepts, w1, M.Do(id, r))
    ensures id < |w1.insts| && |M.Next(w1, M.Do(id, r)).insts| == |w1.insts|
    ensures M.Inv(accepts, M.Next(w1, M.Do(id, r)))
  {
    M.NextKeeps(accepts, w1, M.Do(id, r));
    M.OwnStepServes(accepts, w1, id, r);
  }

  // A turn lengthens the run.
  lemma {:induction false} TurnExtends(
    accepts: M.Backup -> bool, origin: M.System, trace: seq<M.Event>, id: nat, turn: Turn)
    requires M.Ready(origin) && M.LegalRun(accepts, origin, trace)
    requires M.LegalRun(accepts, M.After(accepts, origin, trace), turn.others)
    requires M.Enabled(accepts, M.After(accepts, M.After(accepts, origin, trace), turn.others), M.Do(id, turn.r))
    ensures M.LegalRun(accepts, origin, trace + turn.others)
    ensures M.After(accepts, origin, trace + turn.others)
         == M.After(accepts, M.After(accepts, origin, trace), turn.others)
    ensures M.LegalRun(accepts, origin, trace + turn.others + [M.Do(id, turn.r)])
    ensures M.After(accepts, origin, trace + turn.others + [M.Do(id, turn.r)])
         == M.Next(M.After(accepts, M.After(accepts, origin, trace), turn.others), M.Do(id, turn.r))
  {
    hide M.Next;
    AfterBoth(accepts, origin, trace, turn.others);
    M.AfterOneMore(accepts, origin, trace + turn.others, M.Do(id, turn.r));
  }

  predicate IsRead(pc: M.Pc) {
    pc.Probe? || pc.Recheck? || pc.Load?
  }

  predicate SameRead(a: M.Pc, b: M.Pc) {
    (a.Probe? && b.Probe?) || (a.Recheck? && b.Recheck?) || (a.Load? && b.Load?)
  }

  // Where an instance is after its read has returned `seen`.
  function Concluded(x: M.Instance, seen: seq<M.Object>): M.Instance
    requires IsRead(x.pc) && |seen| <= M.ARTIFACTS
  {
    if x.pc.Probe? then M.AfterProbe(x, seen)
    else if x.pc.Recheck? then M.AfterRecheck(x, seen)
    else M.AfterLoad(x, seen)
  }

  // Where an instance is after an exception has left the attempt.
  function Thrown(x: M.Instance, transient: bool): M.Instance {
    if transient then M.Retried(x) else M.Aborted(x)
  }

  // What the answer of the store to creating the lock becomes.
  function Answer(r: M.Result): Exit {
    if r.Error? then Throws(false) else if r.AlreadyLocked? then Throws(true) else Returns
  }

  class CertificateProvider {
    const id: nat
    ghost const accepts: M.Backup -> bool
    var world: M.System
    var script: seq<Turn>
    ghost var origin: M.System
    ghost var trace: seq<M.Event>
    ghost var before: M.System

    constructor (id: nat, ghost accepts: M.Backup -> bool, world: M.System, script: seq<Turn>)
      requires M.Inv(accepts, world) && M.Ready(world) && id < |world.insts| && world.insts[id].pc == M.Idle
      ensures Valid() && this.id == id && this.accepts == accepts && this.world == world && this.script == script
      ensures origin == world && trace == []
    {
      this.id, this.accepts, this.world, this.script := id, accepts, world, script;
      origin, trace, before := world, [], world;
    }

    // What has happened so far is a run.
    ghost predicate Valid()
      reads this
    {
      id < |world.insts| && IsRun()
    }

    ghost predicate IsRun()
      reads this
    {
      && M.Ready(origin) && M.LegalRun(accepts, origin, trace) && world == M.After(accepts, origin, trace)
      && M.Inv(accepts, world)
      && Possible(accepts, world, id, script)
    }

    // The run so far ends with an operation of this instance, before which the world was `before`.
    ghost predicate Operated()
      reads this
    {
      var n := |trace| - 1;
      && trace != [] && trace[n].Do? && trace[n].i == id
      && M.Ready(origin) && M.LegalRun(accepts, origin, trace[..n]) && before == M.After(accepts, origin, trace[..n])
      && M.Inv(accepts, before) && M.Enabled(accepts, before, trace[n]) && world == M.Next(before, trace[n])
    }

    // Where that operation was made.
    ghost function At(): M.Pc
      reads this
    {
      if id < |before.insts| then before.insts[id].pc else M.Idle
    }

    // What the look that the last operation belongs to has found so far.
    ghost function Seen(): seq<M.Object>
      reads this
    {
      var k := if IsRead(At()) then |At().seen| else |before.objects|;
      if k < |before.objects| then At().seen + [before.objects[k]] else []
    }

    // The last operation has failed.
    ghost predicate Erred()
      reads this
    {
      trace != [] && trace[|trace| - 1].Do? && trace[|trace| - 1].r.Error?
    }

    function Self(): M.Instance
      requires id < |world.insts|
      reads this
    {
      world.insts[id]
    }

    // The next operation: the others first, then this instance.
    method Step() returns (r: M.Result, w1: M.System)
      requires Valid() && Self().pc != M.Idle && script != []
      modifies `world, `script, `trace, `before
      ensures Valid() && script == old(script)[1..] && r == old(script)[0].r
      ensures M.Holding(old(Self()).pc) ==> w1.lock == Some(id)
      ensures M.Inv(accepts, w1) && M.Ready(w1) && id < |w1.insts| && w1.insts[id] == old(Self())
      ensures M.Enabled(accepts, w1, M.Do(id, r)) && world == M.Next(w1, M.Do(id, r))
      ensures Operated() && before == w1 && trace[|trace| - 1].r == r
    {
      hide M.Inv, M.Next, M.Enabled;
      var turn := script[0];
      r := turn.r;
      w1 := M.After(accepts, world, turn.others);
      TurnBegins(accepts, world, id, turn.others);
      TurnEnds(accepts, w1, id, r);
      TurnExtends(accepts, origin, trace, id, turn);
      Cut(trace + turn.others, [M.Do(id, r)]);
      before := w1;
      trace := trace + turn.others + [M.Do(id, r)];
      world := M.Next(w1, M.Do(id, r));
      script := script[1..];
    }

    // One artifact.
    method Read() returns (exit: Exit, obj: M.Object)
      requires Valid() && IsRead(Self().pc) && |Self().pc.seen| < M.ARTIFACTS
      modifies `world, `script, `trace, `before
      ensures Valid()
      ensures exit.Throws? ==> exit == Throws(false) && Self() == M.Aborted(old(Self()))
      ensures exit.Returns? ==> Self() == Concluded(old(Self()), old(Self()).pc.seen + [obj])
      ensures M.Holding(old(Self()).pc) && !exit.Gone? ==> world.lock == Some(id)
      ensures !exit.Gone? ==> Operated() && At() == old(Self()).pc
      ensures exit.Throws? ==> Erred()
      ensures exit.Returns? ==> !Erred() && Seen() == old(Self()).pc.seen + [obj]
      ensures exit.Gone? ==> script == []
    {
      hide M.Inv;
      if script == [] {
        return Gone, None;
      }
      var x := Self();
      var r, w1 := Step();
      return if r.Error? then Throws(false) else Returns, w1.objects[|x.pc.seen|];
    }

    // All four artifacts.
    method GetKeyBackup() returns (exit: Exit, found: M.Found, ghost seen: seq<M.Object>)
      requires Valid() && IsRead(Self().pc) && Self().pc.seen == []
      modifies `world, `script, `trace, `before
      ensures Valid()
      ensures exit.Throws? ==> exit == Throws(false) && Self() == M.Aborted(old(Self()))
      ensures exit.Returns? ==> |seen| == M.ARTIFACTS && found == M.Classify(seen)
      ensures exit.Returns? ==> Self() == Concluded(old(Self()), seen)
      ensures M.Holding(old(Self()).pc) && !exit.Gone? ==> world.lock == Some(id)
      ensures !exit.Gone? ==> Operated() && SameRead(At(), old(Self()).pc)
      ensures exit.Throws? ==> Erred()
      ensures exit.Returns? ==> !Erred() && Seen() == seen
      ensures exit.Gone? ==> script == []
    {
      hide IsRun, Operated, M.Classify;
      var objs := [];
      seen := [];
      while |objs| < M.ARTIFACTS
        invariant Valid() && |objs| <= M.ARTIFACTS && seen == objs
        invariant Self() == Concluded(old(Self()), objs)
        invariant M.Holding(old(Self()).pc) && objs != [] ==> world.lock == Some(id)
        invariant objs != [] ==> Operated() && SameRead(At(), old(Self()).pc) && !Erred() && Seen() == objs
      {
        var obj;
        exit, obj := Read();
        if !exit.Returns? {
          return exit, M.NotFound, seen;
        }
        objs := objs + [obj];
        seen := objs;
      }
      return Returns, M.Classify(objs), objs;
    }

    // Whether there is a backup, looked for with or without the lock.
    method KeyBackupExists() returns (exit: Exit, present: bool)
      requires Valid() && (Self().pc == M.Probe([]) || Self().pc == M.Recheck([]))
      modifies `world, `script, `trace, `before
      ensures Valid()
      ensures exit.Throws? ==> Self() == Thrown(old(Self()), exit.transient)
      ensures exit.Returns? && old(Self()).pc.Probe? ==>
                Self() == old(Self()).(pc := if present then M.Load([]) else M.Acquire)
      ensures exit.Returns? && old(Self()).pc.Recheck? ==>
                Self() == old(Self()).(pc := if present then M.Release else M.Generate)
      ensures M.Holding(old(Self()).pc) && !exit.Gone? ==> world.lock == Some(id)
      ensures !exit.Gone? ==> Operated() && SameRead(At(), old(Self()).pc)
      ensures exit.Throws? && Erred() ==> !exit.transient
      ensures !exit.Gone? && !Erred() ==>
                && |Seen()| == M.ARTIFACTS
                && (exit.Returns? && present <==> M.AllFound(Seen()))
                && (exit.Returns? && !present <==> A.AllMissing(Seen()))
                && (exit == Throws(true) <==> Seen()[0].None? && !A.AllMissing(Seen()))
                && (exit == Throws(false) <==> Seen()[0].Some? && !M.AllFound(Seen()))
      ensures exit.Gone? ==> script == []
    {
      hide IsRun, Operated, M.Classify;
      var found;
      ghost var seen;
      exit, found, seen := GetKeyBackup();
      if exit.Returns? {
        A.ClassifyIff(seen);
      }
      present := found.Complete?;
      if exit.Returns? && found.PartiallyWritten? {
        exit := Throws(true);
      } else if exit.Returns? && found.Incomplete? {
        exit := Throws(false);
      }
    }

    method AcquireLock() returns (exit: Exit)
      requires Valid() && Self().pc == M.Acquire
      modifies `world, `script, `trace, `before
      ensures Valid()
      ensures exit == if old(script) == [] then Gone else Answer(old(script)[0].r)
      ensures exit.Throws? ==> Self() == Thrown(old(Self()), exit.transient)
      ensures exit == Throws(true) ==> world.lock.Some?
      ensures exit.Returns? ==> Self() == old(Self()).(pc := M.Recheck([])) && world.lock == Some(id)
      ensures !exit.Gone? ==> Operated() && At() == M.Acquire
      ensures exit.Gone? ==> script == []
    {
      hide M.Inv;
      if script == [] {
        return Gone;
      }
      var r, w1 := Step();
      return Answer(r);
    }

    method ReleaseLock() returns (exit: Exit)
      requires Valid() && Self().pc == M.Release
      modifies `world, `script, `trace, `before
      ensures Valid()
      ensures exit.Throws? ==> exit == Throws(false) && Self() == M.Aborted(old(Self()))
      ensures exit.Returns? ==> Self() == old(Self()).(pc := M.Load([])) && world.lock.None?
      ensures !exit.Gone? ==> Operated() && At() == M.Release
      ensures exit.Gone? ==> script == []
    {
      hide M.Inv;
      if script == [] {
        return Gone;
      }
      var r, w1 := Step();
      return if r.Error? then Throws(false) else Returns;
    }

    // The artifacts one after the other, the certificate last.
    method PutKeyBackup(ghost b: M.Backup) returns (exit: Exit)
      requires Valid() && Self().pc == M.Put(0, b)
      modifies `world, `script, `trace, `before
      ensures Valid()
      ensures exit.Throws? ==> exit == Throws(false) && Self() == M.Aborted(old(Self()))
      ensures exit.Returns? ==> Self() == old(Self()).(pc := M.Release)
      ensures exit.Throws? ==> world.lock == Some(id)
      ensures !exit.Gone? ==> Operated() && At().Put?
      ensures exit.Gone? ==> script == []
    {
      hide IsRun, Operated;
      for k := 0 to M.ARTIFACTS
        invariant Valid() && Self() == old(Self()).(pc := if k < M.ARTIFACTS then M.Put(k, b) else M.Release)
        invariant k > 0 ==> Operated() && At().Put?
      {
        exit := PutArtifact(k, b);
        if !exit.Returns? {
          return;
        }
      }
      return Returns;
    }

    method PutArtifact(k: nat, ghost b: M.Backup) returns (exit: Exit)
      requires Valid() && k < M.ARTIFACTS && Self().pc == M.Put(k, b)
      modifies `world, `script, `trace, `before
      ensures Valid()
      ensures exit.Throws? ==> exit == Throws(false) && Self() == M.Aborted(old(Self()))
      ensures exit.Returns? ==> Self() == old(Self()).(pc := if k + 1 < M.ARTIFACTS then M.Put(k + 1, b) else M.Release)
      ensures exit.Throws? ==> world.lock == Some(id)
      ensures !exit.Gone? ==> Operated() && At().Put?
      ensures exit.Gone? ==> script == []
    {
      hide M.Inv;
      if script == [] {
        return Gone;
      }
      var r, w1 := Step();
      return if r.Error? then Throws(false) else Returns;
    }

    method GenerateAndStoreKeyBackup() returns (exit: Exit)
      requires Valid() && Self().pc == M.Generate
      modifies `world, `script, `trace, `before
      ensures Valid()
      ensures exit.Throws? ==> exit == Throws(false) && Self() == M.Aborted(old(Self()))
      ensures exit.Returns? ==> Self() == old(Self()).(pc := M.Release)
      ensures exit.Throws? ==> world.lock == Some(id)
      ensures !exit.Gone? ==> Operated() && (At().Put? || At().Generate?)
      ensures exit.Gone? ==> script == []
    {
      hide M.Inv;
      if script == [] {
        return Gone;
      }
      var r, w1 := Step();
      if r.Error? {
        return Throws(false);
      }
      hide IsRun;
      exit := PutKeyBackup(r.b);
    }

    // What the last operation, made under the lock, has left of the lock.
    lemma {:induction false} LeftBehindIff()
      requires Valid() && Operated() && M.Holding(At()) && !M.Holding(Self().pc)
      ensures M.Abandoned(world) <==> (At().Release? ==> trace[|trace| - 1].r == M.Error(false))
      ensures M.Abandoned(world) ==> world.lock == Some(id)
    {
      var e := trace[|trace| - 1];
      hide M.Next, M.Inv, M.Abandoned, M.Enabled, IsRun;
      TurnEnds(accepts, before, id, e.r);
      M.LeavesLockIff(accepts, before, e, id);
    }

    /** A return means that the backup was there at the first look, or that the lock was taken and has
        been removed.  An exception thrown under the lock, wherever it comes from, leaves the lock
        behind with nobody under it, unless it is the removal that failed and still had its effect. */
    method GenerateMissingKeyBackup() returns (exit: Exit)
      requires Valid() && Self().pc == M.Probe([])
      modifies `world, `script, `trace, `before
      ensures Valid()
      ensures exit.Throws? ==> Self() == Thrown(old(Self()), exit.transient)
      ensures exit.Returns? ==> Self() == old(Self()).(pc := M.Load([]))
      ensures exit.Returns? ==> Operated() && (At().Probe? || (At().Release? && world.lock.None?))
      ensures exit.Throws? ==> Operated() && (At().Probe? || At().Acquire? || M.Holding(At()))
      ensures exit.Throws? && M.Holding(At()) ==>
                (M.Abandoned(world) <==> (At().Release? ==> trace[|trace| - 1].r == M.Error(false)))
      ensures exit.Gone? ==> script == []
    {
      hide IsRun, Operated, Seen, Erred, M.Abandoned, M.AllFound, A.AllMissing;
      var backup;
      exit, backup := KeyBackupExists();
      if !exit.Returns? || backup {
        return;
      }
      exit := AcquireLock();
      if !exit.Returns? {
        return;
      }
      exit, backup := KeyBackupExists();
      if exit.Returns? && !backup {
        exit := GenerateAndStoreKeyBackup();
      }
      if exit.Returns? {
        exit := ReleaseLock();
      }
      if exit.Throws? {
        LeftBehindIff();
      }
    }

    method LoadExistingKeyBackup() returns (exit: Exit)
      requires Valid() && Self().pc == M.Load([])
      modifies `world, `script, `trace, `before
      ensures Valid()
      ensures exit.Throws? ==> Self() == Thrown(old(Self()), exit.transient)
      ensures exit.Returns? ==> Self().pc == M.Idle && Self().served.Some? && Self().served == world.published
      ensures exit.Gone? ==> script == []
    {
      var found;
      ghost var seen;
      exit, found, seen := GetKeyBackup();
      if !exit.Returns? {
        return;
      }
      if !found.Complete? {
        return Throws(found.PartiallyWritten?);
      }
      exit := Check(found.b);
    }

    // Decrypt and compare with the certificate, then serve.
    method Check(ghost b: M.Backup) returns (exit: Exit)
      requires Valid() && Self().pc == M.Verify(b)
      modifies `world, `script, `trace, `before
      ensures Valid()
      ensures exit.Throws? ==> exit == Throws(false) && Self() == M.Aborted(old(Self()))
      ensures exit.Returns? ==> Self().pc == M.Idle && Self().served.Some? && Self().served == world.published
      ensures exit.Gone? ==> script == []
    {
      if script == [] {
        return Gone;
      }
      var r, w1 := Step();
      assert M.Fine(accepts, w1, id);
      return if r.Error? then Throws(false) else Returns;
    }

    method ReloadCertificateOnce() returns (exit: Exit)
      requires Valid() && Self().pc == M.Probe([])
      modifies `world, `script, `trace, `before
      ensures Valid()
      ensures exit.Throws? ==> Self() == Thrown(old(Self()), exit.transient)
      ensures exit.Returns? ==> Self().pc == M.Idle && Self().served.Some? && Self().served == world.published
      ensures exit.Gone? ==> script == []
    {
      hide IsRun;
      exit := GenerateMissingKeyBackup();
      if exit.Returns? {
        exit := LoadExistingKeyBackup();
      }
    }

    /** A reload: what happens is a run of the state machine.  A reload that returns serves the
        published backup; one that throws leaves what is served as it was. */
    method ReloadCertificate() returns (exit: Exit)
      requires Valid() && Self().pc == M.Idle
      requires M.Ready(world) && Possible(accepts, M.Next(world, M.Reload(id)), id, script)
      modifies `world, `script, `trace, `before
      ensures Valid() && origin == old(origin)
      ensures exit.Returns? ==> Self().pc == M.Idle && Self().served.Some? && Self().served == world.published
      ensures exit.Throws? ==> Self().pc == M.Idle && Self().served == old(Self()).served
      ensures exit.Gone? ==> script == []
    {
      M.NextKeeps(accepts, world, M.Reload(id));
      M.AfterOneMore(accepts, origin, trace, M.Reload(id));
      trace := trace + [M.Reload(id)];
      world := M.Next(world, M.Reload(id));
      hide IsRun;
      exit := ReloadCertificateOnce();
      if exit == Throws(true) {
        exit := ReloadCertificateOnce();
      }
    }
  }
}
