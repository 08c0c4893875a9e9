/**
The handling of one request as it is written: checks, post and signatures in sequence, with values
computed along the way.  It is proved to be a run of the machine of module `Endorsements`, whatever
other requests and reloads do between any two of its operations.
*/
module EndorsementService {
  import opened Bytes
  import opened Options
  import opened Sequences
  import E = Encodings
  import N = Endorsements

  // What everybody else does before an operation of this request, and how the operation turns out.
  datatype Turn = Turn(others: seq<N.Event>, r: N.Result)

  ghost predicate Elsewhere(evs: seq<N.Event>, i: nat) {
    forall ev | ev in evs :: ev.Advance? ==> ev.i != i
  }

  // The turns can happen, from w on.
  ghost predicate Possible(checks: N.Checks, w: N.System, i: nat, script: seq<Turn>)
    decreases |script|
  {
    script == [] ||
    (&& Elsewhere(script[0].others, i) && N.LegalRun(checks, w, script[0].others)
     && var w1 := N.After(checks, w, script[0].others);
        i < |w1.flows| && Possible(checks, N.Next(checks, w1, N.Advance(i, script[0].r)), i, script[1..]))
  }

  lemma {:induction false} OthersLeave(checks: N.Checks, w: N.System, evs: seq<N.Event>, i: nat)
    requires N.LegalRun(checks, w, evs) && Elsewhere(evs, i) && i < |w.flows|
    ensures i < |N.After(checks, w, evs).flows| && N.After(checks, w, evs).flows[i] == w.flows[i]
    decreases |evs|
  {
    if evs != [] {
      assert evs[0] in evs;
      N.OneLeaves(checks, w, evs[0], i);
      hide N.Next;
      OthersLeave(checks, N.Next(checks, w, evs[0]), evs[1..], i);
    }
  }

  lemma {:induction false} AfterBoth(checks: N.Checks, s: N.System, a: seq<N.Event>, b: seq<N.Event>)
    requires N.LegalRun(checks, s, a) && N.LegalRun(checks, N.After(checks, s, a), b)
    ensures N.LegalRun(checks, s, a + b) && N.After(checks, s, a + b) == N.After(checks, N.After(checks, s, a), b)
    decreases |a|
  {
    if a == [] {
      assert a + b == b;
    } else {
      hide N.Next;
      ConcatHead(a, b);
      AfterBoth(checks, N.Next(checks, s, a[0]), a[1..], b);
    }
  }

  // What the others leave this request with.
  lemma {:induction false} TurnBegins(checks: N.Checks, w: N.System, i: nat, others: seq<N.Event>)
    requires N.Inv(checks, w) && i < |w.flows| && Elsewhere(others, i) && N.LegalRun(checks, w, others)
    ensures var w1 := N.After(checks, w, others); N.Inv(checks, w1) && i < |w1.flows| && w1.flows[i] == w.flows[i]
  {
    N.RunKeeps(checks, w, others);
    OthersLeave(checks, w, others, i);
  }

  // And what it then does.
  lemma {:induction false} TurnEnds(checks: N.Checks, w1: N.System, i: nat, r: N.Result)
    requires N.Inv(checks, w1) && i < |w1.flows|
    ensures N.Inv(checks, N.Next(checks, w1, N.Advance(i, r))) && |N.Step(checks, w1, i, r).flows| == |w1.flows|
  {
    N.NextKeeps(checks, w1, N.Advance(i, r));
    assert w1.flows[i] in w1.flows;
    N.StepFaithful(checks, w1, i, r);
  }

  // A turn lengthens the run.
  lemma {:induction false} TurnExtends(checks: N.Checks, origin: N.System, trace: seq<N.Event>, i: nat, turn: Turn)
    requires N.LegalRun(checks, origin, trace) && N.LegalRun(checks, N.After(checks, origin, trace), turn.others)
    requires i < |N.After(checks, N.After(checks, origin, trace), turn.others).flows|
    ensures N.LegalRun(checks, origin, trace + turn.others + [N.Advance(i, turn.r)])
    ensures N.After(checks, origin, trace + turn.others + [N.Advance(i, turn.r)])
         == N.Next(checks, N.After(checks, N.After(checks, origin, trace), turn.others), N.Advance(i, turn.r))
  {
    AfterBoth(checks, origin, trace, turn.others);
    hide N.Next;
    AfterBoth(checks, origin, trace + turn.others, [N.Advance(i, turn.r)]);
  }

  lemma {:induction false} EarliestIsUnique(bundles: seq<N.Bundle>, a: int, b: int)
    requires N.IsEarliest(bundles, a) && N.IsEarliest(bundles, b)
    ensures a == b
  {
  }

  datatype Exit = Returns(e: N.Endorsement) | Throws | Gone

  class RequestHandler {
    const i: nat
    const checks: N.Checks
    var world: N.System
    var script: seq<Turn>
    ghost var origin: N.System
    ghost var trace: seq<N.Event>
    ghost const turns: seq<Turn>
    ghost var ops: seq<N.Op>

    // The request has just come in.
    constructor (checks: N.Checks, world: N.System, i: nat, script: seq<Turn>)
      requires i < |world.flows| && N.Inv(checks, world) && Possible(checks, world, i, script)
      requires world.flows[i].stage == N.Received
      ensures Valid() && this.checks == checks && this.world == world && this.i == i && this.script == script
      ensures origin == world && trace == [] && ops == [] && turns == script
    {
      N.DecidedBy(checks, world.flows[i].request, [], world.flows[i].stage);
      this.checks, this.world, this.i, this.script := checks, world, i, script;
      origin, trace, ops, turns := world, [], [], script;
    }

    ghost predicate Valid()
      reads this
    {
      && i < |world.flows| && IsRun() && Recorded()
      && N.Stands(checks, Flow().request, ops, Flow().stage)
      && N.Answers(checks, Flow().request, ops, Flow().stage)
    }

    // `ops` are the operations of this request so far, as its turns have them.
    ghost predicate Recorded()
      reads this
    {
      && |ops| <= |turns| && script == turns[|ops|..]
      && (forall k | 0 <= k < |ops| :: ops[k].r == turns[k].r)
      && (ops == [] ==> world == origin)
      && (ops != [] ==>
            && N.LegalRun(checks, origin, turns[0].others)
            && ops[0].active == N.After(checks, origin, turns[0].others).active)
    }

    // What has happened so far is a run.
    ghost predicate IsRun()
      reads this
    {
      && N.LegalRun(checks, origin, trace) && world == N.After(checks, origin, trace)
      && N.Inv(checks, world)
      && Possible(checks, world, i, script)
    }

    function Flow(): N.Flow
      requires i < |world.flows|
      reads this
    {
      world.flows[i]
    }

    // The next operation: the others first, then this request.
    method Step() returns (r: N.Result, w1: N.System)
      requires Valid() && script != []
      modifies `world, `script, `trace, `ops
      ensures Valid() && |script| < |old(script)|
      ensures N.Inv(checks, w1) && i < |w1.flows| && w1.flows[i] == old(Flow())
      ensures world == N.Step(checks, w1, i, r)
    {
      hide N.Inv, N.Step, N.Stands, N.Answers;
      var turn := script[0];
      r := turn.r;
      w1 := N.After(checks, world, turn.others);
      TurnBegins(checks, world, i, turn.others);
      TurnEnds(checks, w1, i, r);
      TurnExtends(checks, origin, trace, i, turn);
      N.StandsOn(checks, w1, i, r, ops);
      N.DecidedBy(checks, Flow().request, ops + [N.Op(w1.active, r)], N.Step(checks, w1, i, r).flows[i].stage);
      trace := trace + turn.others + [N.Advance(i, r)];
      ops := ops + [N.Op(w1.active, r)];
      world := N.Next(checks, w1, N.Advance(i, r));
      script := script[1..];
    }

    // One snapshot of the active certificates, and the earliest of their expiries.
    method TakeSnapshot() returns (ok: bool, bundles: seq<N.Bundle>, limit: int)
      requires Valid() && Flow().stage == N.Received && script != []
      modifies `world, `script, `trace, `ops
      ensures Valid() && Flow().request == old(Flow()).request
      ensures Flow().stage == if ok then N.Snapshotted(bundles, limit) else N.Rejected
    {
      hide N.Inv;
      ok, bundles, limit := false, [], 0;
      var request := Flow().request;
      var _, w1 := Step();
      if !request.formatKnown || w1.active.None? {
        return;
      }
      bundles := w1.active.value;
      var earliest := N.EarliestCertificateExpiry(bundles);
      if earliest.Some? {
        ok, limit := true, earliest.value;
        EarliestIsUnique(bundles, limit, N.Earliest(bundles));
      }
    }

    // Statement, expiry, publisher and policy.
    method ParseAndVerify(limit: int, ghost bundles: seq<N.Bundle>) returns (ok: bool)
      requires Valid() && Flow().stage == N.Snapshotted(bundles, limit) && script != []
      modifies `world, `script, `trace, `ops
      ensures Valid() && Flow().request == old(Flow()).request
      ensures Flow().stage == if ok then N.Verified(bundles) else N.Rejected
    {
      hide N.Inv, IsRun, Recorded, N.Stands, N.Answers;
      var request := Flow().request;
      var _, w1 := Step();
      var notAfter := checks.notAfter(request.statement);
      if !request.formatKnown || notAfter.None? || notAfter.value > limit {
        return false;
      }
      var publisher := checks.publisher(request.statement);
      if publisher.None? {
        return false;
      }
      ok := VerifyPublisher(publisher.value, request);
    }

    method VerifyPublisher(publisherId: N.Text, request: N.Request) returns (ok: bool)
      ensures ok == N.Authorized(checks, publisherId, request)
    {
      var key := E.Escape(publisherId);
      if key !in checks.policies {
        return false;
      }
      var policy := checks.policies[key];
      if (request.issuer, request.subject) !in policy.callers || publisherId != policy.publisherId {
        return false;
      }
      return request.material in policy.materials;
    }

    method VerifySignature(ghost bundles: seq<N.Bundle>) returns (ok: bool)
      requires Valid() && Flow().stage == N.Verified(bundles) && script != []
      modifies `world, `script, `trace, `ops
      ensures Valid() && Flow().request == old(Flow()).request
      ensures Flow().stage == if ok then N.SignatureChecked(bundles) else N.Rejected
    {
      hide N.Inv, IsRun, Recorded, N.Stands, N.Answers;
      var request := Flow().request;
      var _, w1 := Step();
      return checks.signatureValid(request.material, request.signature, request.statement);
    }

    method Publish(ghost bundles: seq<N.Bundle>) returns (logId: Option<seq<byte>>)
      requires Valid() && Flow().stage == N.SignatureChecked(bundles) && |script| > 0
      modifies `world, `script, `trace, `ops
      ensures Valid() && Flow().request == old(Flow()).request
      ensures Flow().stage == if logId.Some? then N.Posted(bundles, logId.value) else N.Rejected
    {
      hide N.Inv, IsRun, Recorded, N.Stands, N.Answers;
      var r, w1 := Step();
      return if r.Ok? then Some(r.logId) else None;
    }

    // One more signature.
    method SignOne(dataToSign: seq<byte>, bundles: seq<N.Bundle>, logId: seq<byte>, signatures: seq<seq<byte>>)
      returns (ok: bool, signature: seq<byte>)
      requires Valid() && Flow().stage == N.Signing(bundles, logId, signatures)
      requires |signatures| < |bundles| && script != []
      requires dataToSign == E.Pae(N.SignedFields(Flow().request, logId))
      modifies `world, `script, `trace, `ops
      ensures Valid() && Flow().request == old(Flow()).request
      ensures Flow().stage == if ok then N.Signing(bundles, logId, signatures + [signature]) else N.Rejected
    {
      hide N.Inv, IsRun, Recorded, N.Stands, N.Answers, E.Pae;
      var r, w1 := Step();
      return !r.Error?, checks.sign(dataToSign, bundles[|signatures|]);
    }

    method BeginSigning(bundles: seq<N.Bundle>, logId: seq<byte>)
      requires Valid() && Flow().stage == N.Posted(bundles, logId) && script != []
      modifies `world, `script, `trace, `ops
      ensures Valid() && Flow() == old(Flow()).(stage := N.Signing(bundles, logId, []))
    {
      hide N.Inv, IsRun, Recorded, N.Stands, N.Answers;
      var _, _ := Step();
    }

    method Finish(bundles: seq<N.Bundle>, logId: seq<byte>, signatures: seq<seq<byte>>) returns (e: N.Endorsement)
      requires Valid() && Flow().stage == N.Signing(bundles, logId, signatures)
      requires |signatures| == |bundles| && script != []
      modifies `world, `script, `trace, `ops
      ensures Valid() && Flow() == old(Flow()).(stage := N.Returned(bundles, e))
    {
      hide N.Inv, IsRun, Recorded, N.Stands, N.Answers;
      var request := Flow().request;
      var _, _ := Step();
      return N.Endorsement(request.statement, request.material, request.signature, logId, signatures);
    }

    // Every certificate of the snapshot signs the same bytes.
    method Sign(bundles: seq<N.Bundle>, logId: seq<byte>) returns (exit: Exit)
      requires Valid() && Flow().stage == N.Posted(bundles, logId)
      modifies `world, `script, `trace, `ops
      ensures Valid() && Flow().request == old(Flow()).request
      ensures exit.Returns? ==> Flow().stage == N.Returned(bundles, exit.e)
      ensures exit.Throws? ==> Flow().stage == N.Rejected
      ensures exit.Gone? ==> script == [] && !Flow().stage.Returned? && !Flow().stage.Rejected?
    {
      hide IsRun, Recorded, N.Stands, N.Answers, E.Pae, E.DecodePae;
      var dataToSign := E.Calculate(N.SignedFields(Flow().request, logId));
      if script == [] {
        return Gone;
      }
      BeginSigning(bundles, logId);
      var signatures := [];
      while |signatures| < |bundles|
        invariant Valid() && Flow().request == old(Flow()).request && |signatures| <= |bundles|
        invariant Flow().stage == N.Signing(bundles, logId, signatures)
      {
        if script == [] {
          return Gone;
        }
        var ok, signature := SignOne(dataToSign, bundles, logId, signatures);
        if !ok {
          return Throws;
        }
        signatures := signatures + [signature];
      }
      if script == [] {
        return Gone;
      }
      var e := Finish(bundles, logId, signatures);
      return Returns(e);
    }

    /** The whole call is a run of the machine, whatever others do between its operations.  It returns
        exactly if the request is endorsed: with the certificates that were active when it was taken up
        it had everything it needs, and the post and all signatures succeeded; it throws exactly if one
        of these did not hold; and it does neither only if it never came to its end. */
    method CreateEndorsement() returns (exit: Exit)
      requires Valid() && Flow().stage == N.Received
      modifies `world, `script, `trace, `ops
      ensures Valid() && origin == old(origin) && Flow().request == old(Flow()).request
      ensures exit.Returns? ==> Flow().stage.Returned? && Flow().stage.e == exit.e
      ensures exit.Returns? <==> N.Endorsed(checks, Flow().request, ops)
      ensures exit.Throws? <==> ops != [] && !N.Clean(checks, Flow().request, ops, |ops|)
      ensures exit.Gone? ==> script == []
    {
      hide IsRun, Recorded, N.Stands, N.Endorsed, N.Clean;
      if script == [] {
        return Gone;
      }
      var ok, bundles, limit := TakeSnapshot();
      if !ok {
        return Throws;
      }
      if script == [] {
        return Gone;
      }
      ok := ParseAndVerify(limit, bundles);
      if !ok {
        return Throws;
      }
      if script == [] {
        return Gone;
      }
      ok := VerifySignature(bundles);
      if !ok {
        return Throws;
      }
      if script == [] {
        return Gone;
      }
      var logId := Publish(bundles);
      if logId.None? {
        return Throws;
      }
      exit := Sign(bundles, logId.value);
    }
  }
}
