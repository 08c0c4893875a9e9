/**
The endorsement service: a request is checked, posted to the transparency log and signed with every
certificate that was active when it came in.

Requests run side by side, a step at a time, while the certificates are reloaded.  Parsing,
signature checks and signing are parameters; the log may refuse a post or fail after taking it.
*/
module Endorsements {
  import opened Bytes
  import opened Options
  import opened Sequences
  import E = Encodings

  type Text = seq<E.Unit>

  // A certificate with its key.
  datatype Bundle = Bundle(notAfter: int, key: seq<byte>)

  datatype Request = Request(
    formatKnown: bool, statement: seq<byte>, material: seq<byte>, signature: seq<byte>, issuer: Text, subject: Text)

  // What a publisher may use: who may call, and which verification material.
  datatype Policy = Policy(publisherId: Text, callers: set<(Text, Text)>, materials: set<seq<byte>>)

  // `notAfter` and `publisher` are what the statement says, if it can be parsed; policies are kept
  // under the escaped publisher id.
  datatype Checks = Checks(
    notAfter: seq<byte> -> Option<int>,
    publisher: seq<byte> -> Option<Text>,
    policies: map<Text, Policy>,
    signatureValid: (seq<byte>, seq<byte>, seq<byte>) -> bool,
    sign: (seq<byte>, Bundle) -> seq<byte>)

  datatype Post = Post(request: Request, logId: seq<byte>)

  datatype Endorsement = Endorsement(
    statement: seq<byte>, material: seq<byte>, signature: seq<byte>, logId: seq<byte>, signatures: seq<seq<byte>>)

  // How far a request has come.  `bundles` is the snapshot it works with.
  datatype Stage =
    | Received
    | Snapshotted(bundles: seq<Bundle>, limit: int)
    | Verified(bundles: seq<Bundle>)
    | SignatureChecked(bundles: seq<Bundle>)
    | Posted(bundles: seq<Bundle>, logId: seq<byte>)
    | Signing(bundles: seq<Bundle>, logId: seq<byte>, signatures: seq<seq<byte>>)
    | Returned(bundles: seq<Bundle>, e: Endorsement)
    | Rejected

  datatype Flow = Flow(request: Request, stage: Stage)

  // `history` is every set of certificates that was ever active.
  datatype System = System(
    active: Option<seq<Bundle>>, history: seq<seq<Bundle>>, ledger: seq<Post>, flows: seq<Flow>)

  // How a step turns out: the log may fail with or without having taken the post.
  datatype Result = Ok(logId: seq<byte>) | Error(effect: bool)

  datatype Event =
    | Reload(bundles: seq<Bundle>)
    | Receive(request: Request)
    | Advance(i: nat, r: Result)

  const IDLE := System(None, [], [], [])

  // ---------------------------------------------------------------- the steps

  ghost predicate IsEarliest(bundles: seq<Bundle>, limit: int) {
    && (forall b | b in bundles :: limit <= b.notAfter)
    && (exists b :: b in bundles && limit == b.notAfter)
  }

  function Earliest(bundles: seq<Bundle>): (limit: int)
    requires bundles != []
    ensures IsEarliest(bundles, limit)
  {
    if |bundles| == 1 then
      assert bundles == [bundles[0]];
      bundles[0].notAfter
    else
      var rest := Earliest(bundles[1..]);
      assert bundles == [bundles[0]] + bundles[1..];
      assert bundles[0] in bundles;
      if bundles[0].notAfter < rest then bundles[0].notAfter else rest
  }

  /** The earliest expiry of the certificates; none if there are none. */
  method EarliestCertificateExpiry(bundles: seq<Bundle>) returns (limit: Option<int>)
    ensures limit.None? <==> bundles == []
    ensures limit.Some? ==> IsEarliest(bundles, limit.value)
  {
    limit := None;
    for i := 0 to |bundles|
      invariant limit.None? <==> i == 0
      invariant limit.Some? ==> IsEarliest(bundles[..i], limit.value)
    {
      assert bundles[..i + 1] == bundles[..i] + [bundles[i]];
      assert bundles[i] in bundles[..i + 1];
      if limit.None? || bundles[i].notAfter < limit.value {
        limit := Some(bundles[i].notAfter);
      }
    }
    assert bundles[..|bundles|] == bundles;
  }

  // The policy under the escaped id covers the caller, the publisher and the verification material.
  predicate Authorized(checks: Checks, publisherId: Text, r: Request) {
    var key := E.Escaped(publisherId);
    && key in checks.policies
    && (r.issuer, r.subject) in checks.policies[key].callers
    && checks.policies[key].publisherId == publisherId
    && r.material in checks.policies[key].materials
  }

  // The statement parses, is not valid for longer than allowed, and its publisher is authorized.
  predicate Acceptable(checks: Checks, r: Request, limit: int) {
    && r.formatKnown
    && checks.notAfter(r.statement).Some? && checks.notAfter(r.statement).value <= limit
    && checks.publisher(r.statement).Some? && Authorized(checks, checks.publisher(r.statement).value, r)
  }

  function SignedFields(r: Request, logId: seq<byte>): E.Signed {
    E.Signed(r.statement, r.material, r.signature, logId)
  }

  function With(s: System, i: nat, stage: Stage): System
    requires i < |s.flows|
  {
    s.(flows := s.flows[i := s.flows[i].(stage := stage)])
  }

  function Step(checks: Checks, s: System, i: nat, r: Result): System
    requires i < |s.flows|
  {
    var request := s.flows[i].request;
    match s.flows[i].stage
    case Received =>
      if !request.formatKnown || s.active.None? || s.active.value == [] then With(s, i, Rejected)
      else With(s, i, Snapshotted(s.active.value, Earliest(s.active.value)))
    case Snapshotted(bundles, limit) =>
      With(s, i, if Acceptable(checks, request, limit) then Verified(bundles) else Rejected)
    case Verified(bundles) =>
      With(s, i, if checks.signatureValid(request.material, request.signature, request.statement)
                 then SignatureChecked(bundles) else Rejected)
    case SignatureChecked(bundles) =>
      if r.Error? && !r.effect then With(s, i, Rejected)
      else
        var logId := if r.Ok? then r.logId else [];
        With(s.(ledger := s.ledger + [Post(request, logId)]), i, if r.Ok? then Posted(bundles, logId) else Rejected)
    case Posted(bundles, logId) => With(s, i, Signing(bundles, logId, []))
    case Signing(bundles, logId, signatures) =>
      if |signatures| < |bundles| then
        if r.Error? then With(s, i, Rejected)
        else
          var signature := checks.sign(E.Pae(SignedFields(request, logId)), bundles[|signatures|]);
          With(s, i, Signing(bundles, logId, signatures + [signature]))
      else
        var e := Endorsement(request.statement, request.material, request.signature, logId, signatures);
        With(s, i, Returned(bundles, e))
    case Returned(_, _) => s
    case Rejected => s
  }

  function Next(checks: Checks, s: System, ev: Event): System
    requires ev.Advance? ==> ev.i < |s.flows|
  {
    match ev
    case Reload(bundles) => s.(active := Some(bundles), history := s.history + [bundles])
    case Receive(request) => s.(flows := s.flows + [Flow(request, Received)])
    case Advance(i, r) => Step(checks, s, i, r)
  }

  // ---------------------------------------------------------------- the invariant

  // The request has passed every check, against these certificates.
  ghost predicate Passed(checks: Checks, r: Request, bundles: seq<Bundle>) {
    && r.formatKnown && bundles != []
    && checks.notAfter(r.statement).Some?
    && (forall b | b in bundles :: checks.notAfter(r.statement).value <= b.notAfter)
    && checks.publisher(r.statement).Some? && Authorized(checks, checks.publisher(r.statement).value, r)
  }

  ghost predicate SignatureGood(checks: Checks, r: Request) {
    checks.signatureValid(r.material, r.signature, r.statement)
  }

  // The i-th signature is that of the i-th certificate over the encoding of the fields.
  ghost predicate SignedBy(checks: Checks, fields: E.Signed, bundles: seq<Bundle>, signatures: seq<seq<byte>>) {
    && |signatures| <= |bundles|
    && forall k | 0 <= k < |signatures| :: signatures[k] == checks.sign(E.Pae(fields), bundles[k])
  }

  ghost predicate Faithful(checks: Checks, s: System, f: Flow) {
    match f.stage
    case Received => true
    case Rejected => true
    case Snapshotted(bundles, limit) =>
      f.request.formatKnown && bundles in s.history && bundles != [] && IsEarliest(bundles, limit)
    case Verified(bundles) => bundles in s.history && Passed(checks, f.request, bundles)
    case SignatureChecked(bundles) =>
      bundles in s.history && Passed(checks, f.request, bundles) && SignatureGood(checks, f.request)
    case Posted(bundles, logId) =>
      && bundles in s.history && Passed(checks, f.request, bundles) && SignatureGood(checks, f.request)
      && Post(f.request, logId) in s.ledger
    case Signing(bundles, logId, signatures) =>
      && bundles in s.history && Passed(checks, f.request, bundles) && SignatureGood(checks, f.request)
      && Post(f.request, logId) in s.ledger && SignedBy(checks, SignedFields(f.request, logId), bundles, signatures)
    case Returned(bundles, e) =>
      && bundles in s.history && Passed(checks, f.request, bundles) && SignatureGood(checks, f.request)
      && Post(f.request, e.logId) in s.ledger
      && e == Endorsement(f.request.statement, f.request.material, f.request.signature, e.logId, e.signatures)
      && |e.signatures| == |bundles|
      && SignedBy(checks, SignedFields(f.request, e.logId), bundles, e.signatures)
  }

  // A post follows successful checks against certificates that were active.
  ghost predicate Justified(checks: Checks, s: System, p: Post) {
    SignatureGood(checks, p.request) && exists bundles :: bundles in s.history && Passed(checks, p.request, bundles)
  }

  ghost predicate Inv(checks: Checks, s: System) {
    && (s.active.Some? ==> s.active.value in s.history)
    && (forall f | f in s.flows :: Faithful(checks, s, f))
    && (forall p | p in s.ledger :: Justified(checks, s, p))
  }

  // More history and more posts take nothing away.
  lemma {:induction false} FaithfulStays(checks: Checks, s: System, t: System, f: Flow)
    requires Faithful(checks, s, f)
    requires forall b | b in s.history :: b in t.history
    requires forall p | p in s.ledger :: p in t.ledger
    ensures Faithful(checks, t, f)
  {
  }

  lemma {:induction false} StepKeeps(checks: Checks, s: System, i: nat, r: Result)
    requires Inv(checks, s) && i < |s.flows|
    ensures Inv(checks, Step(checks, s, i, r))
  {
    var t := Step(checks, s, i, r);
    assert s.flows[i] in s.flows;
    StepFaithful(checks, s, i, r);
    forall f | f in t.flows ensures Faithful(checks, t, f) {
      if f != t.flows[i] {
        assert f in s.flows;
        FaithfulStays(checks, s, t, f);
      }
    }
    forall p | p in t.ledger ensures Justified(checks, t, p) {
      if p in s.ledger {
        assert Justified(checks, s, p);
      }
    }
  }

  lemma {:induction false} StepFaithful(checks: Checks, s: System, i: nat, r: Result)
    requires i < |s.flows| && Faithful(checks, s, s.flows[i])
    requires s.active.Some? ==> s.active.value in s.history
    ensures var t := Step(checks, s, i, r);
            |t.flows| == |s.flows| && Faithful(checks, t, t.flows[i]) && t.history == s.history && s.ledger <= t.ledger
  {
    hide E.Pae, Authorized;
  }

  lemma {:induction false} NextKeeps(checks: Checks, s: System, ev: Event)
    requires Inv(checks, s) && (ev.Advance? ==> ev.i < |s.flows|)
    ensures Inv(checks, Next(checks, s, ev))
  {
    if ev.Advance? {
      StepKeeps(checks, s, ev.i, ev.r);
    } else {
      var t := Next(checks, s, ev);
      forall f | f in t.flows ensures Faithful(checks, t, f) {
        if f in s.flows { FaithfulStays(checks, s, t, f); }
      }
      forall p | p in t.ledger ensures Justified(checks, t, p) {
        assert Justified(checks, s, p);
      }
    }
  }

  // ---------------------------------------------------------------- whole runs

  ghost predicate LegalRun(checks: Checks, s: System, evs: seq<Event>)
    decreases |evs|
  {
    evs == [] || ((evs[0].Advance? ==> evs[0].i < |s.flows|) && LegalRun(checks, Next(checks, s, evs[0]), evs[1..]))
  }

  function After(checks: Checks, s: System, evs: seq<Event>): System
    requires LegalRun(checks, s, evs)
    decreases |evs|
  {
    if evs == [] then s else After(checks, Next(checks, s, evs[0]), evs[1..])
  }

  lemma {:induction false} RunKeeps(checks: Checks, s: System, evs: seq<Event>)
    requires Inv(checks, s) && LegalRun(checks, s, evs)
    ensures Inv(checks, After(checks, s, evs))
    decreases |evs|
  {
    if evs != [] {
      NextKeeps(checks, s, evs[0]);
      hide Inv, Next;
      RunKeeps(checks, Next(checks, s, evs[0]), evs[1..]);
    }
  }

  /** In every run, every post to the log follows successful checks, and every endorsement returned
      carries one signature per certificate of one snapshot, over the encoding of its own fields,
      and was posted, and expires no later than any of those certificates. */
  lemma {:induction false} EndorsementSafety(checks: Checks, evs: seq<Event>)
    requires LegalRun(checks, IDLE, evs)
    ensures var s := After(checks, IDLE, evs);
            && (forall p | p in s.ledger :: Justified(checks, s, p))
            && (forall f | f in s.flows && f.stage.Returned? ::
                  var e, bundles := f.stage.e, f.stage.bundles;
                  && bundles in s.history && Passed(checks, f.request, bundles) && SignatureGood(checks, f.request)
                  && (e.statement, e.material, e.signature) ==
                     (f.request.statement, f.request.material, f.request.signature)
                  && Post(f.request, e.logId) in s.ledger
                  && |e.signatures| == |bundles|
                  && SignedBy(checks, E.Signed(e.statement, e.material, e.signature, e.logId), bundles, e.signatures))
  {
    RunKeeps(checks, IDLE, evs);
  }

  // ---------------------------------------------------------------- which requests are endorsed

  // An operation of a request: the certificates that were active, and how it turned out.
  datatype Op = Op(active: Option<seq<Bundle>>, r: Result)

  ghost function OpOf(s: System, ev: Event, i: nat): seq<Op> {
    if ev.Advance? && ev.i == i then [Op(s.active, ev.r)] else []
  }

  ghost function PostOf(s: System, ev: Event, t: System, i: nat): seq<Post> {
    if ev.Advance? && ev.i == i && |s.ledger| <= |t.ledger| then t.ledger[|s.ledger|..] else []
  }

  // The operations of request i in a run, and what they posted.
  ghost function Ops(checks: Checks, s: System, evs: seq<Event>, i: nat): seq<Op>
    requires LegalRun(checks, s, evs)
    decreases |evs|
  {
    if evs == [] then []
    else
      OpOf(s, evs[0], i) + Ops(checks, Next(checks, s, evs[0]), evs[1..], i)
  }

  ghost function Posts(checks: Checks, s: System, evs: seq<Event>, i: nat): seq<Post>
    requires LegalRun(checks, s, evs)
    decreases |evs|
  {
    if evs == [] then []
    else
      var t := Next(checks, s, evs[0]);
      PostOf(s, evs[0], t, i) + Posts(checks, t, evs[1..], i)
  }

  // There are certificates to sign with, and the format is known.
  ghost predicate Served(r: Request, active: Option<seq<Bundle>>) {
    r.formatKnown && active.Some? && active.value != []
  }

  // The statement says how long it is valid, which is no longer than any of the certificates, and who
  // published it; and the policy kept under the escaped id of that publisher is that publisher's, and
  // names the caller and the verification material.
  ghost predicate Entitled(checks: Checks, r: Request, bundles: seq<Bundle>) {
    && checks.notAfter(r.statement).Some?
    && (forall b | b in bundles :: checks.notAfter(r.statement).value <= b.notAfter)
    && checks.publisher(r.statement).Some?
    && var id := checks.publisher(r.statement).value;
       && E.Escaped(id) in checks.policies
       && var policy := checks.policies[E.Escaped(id)];
          policy.publisherId == id && (r.issuer, r.subject) in policy.callers && r.material in policy.materials
  }

  // Nothing has gone wrong in the first k operations: everything holds that the request needs, the log
  // has taken the post, and every certificate so far has signed.
  ghost predicate Clean(checks: Checks, r: Request, ops: seq<Op>, k: nat)
    requires 0 < k <= |ops|
  {
    && Served(r, ops[0].active)
    && (k > 1 ==> Entitled(checks, r, ops[0].active.value))
    && (k > 2 ==> checks.signatureValid(r.material, r.signature, r.statement))
    && (k > 3 ==> ops[3].r.Ok?)
    && (forall j | 5 <= j < k && j < 5 + |ops[0].active.value| :: !ops[j].r.Error?)
  }

  // What the operations of a request have posted.
  ghost function PostedBy(checks: Checks, r: Request, ops: seq<Op>): seq<Post> {
    if |ops| < 4 || !Clean(checks, r, ops, 3) then []
    else match ops[3].r
      case Ok(logId) => [Post(r, logId)]
      case Error(effect) => if effect then [Post(r, [])] else []
  }

  // Where a request stands after its operations.
  ghost predicate Stands(checks: Checks, r: Request, ops: seq<Op>, stage: Stage) {
    if ops == [] then stage == Received
    else if !Clean(checks, r, ops, |ops|) then stage == Rejected
    else
      var bundles := ops[0].active.value;
      if |ops| == 1 then stage == Snapshotted(bundles, Earliest(bundles))
      else if |ops| == 2 then stage == Verified(bundles)
      else if |ops| == 3 then stage == SignatureChecked(bundles)
      else if |ops| == 4 then stage == Posted(bundles, ops[3].r.logId)
      else if |ops| <= 5 + |bundles| then
        stage.Signing? && stage.bundles == bundles && stage.logId == ops[3].r.logId && |stage.signatures| == |ops| - 5
      else stage.Returned? && stage.bundles == bundles && stage.e.logId == ops[3].r.logId
  }

  lemma {:induction false} CleanMore(checks: Checks, r: Request, ops: seq<Op>, op: Op, k: nat)
    requires 0 < k <= |ops|
    ensures Clean(checks, r, ops + [op], k) <==> Clean(checks, r, ops, k)
  {
    assert forall j | 0 <= j < |ops| :: (ops + [op])[j] == ops[j];
  }

  lemma {:induction false} AcceptableIff(checks: Checks, r: Request, bundles: seq<Bundle>)
    requires r.formatKnown && bundles != []
    ensures Acceptable(checks, r, Earliest(bundles)) <==> Entitled(checks, r, bundles)
  {
    hide E.Escaped;
    var limit := Earliest(bundles);
    assert IsEarliest(bundles, limit);
    var b :| b in bundles && limit == b.notAfter;
  }

  lemma {:induction false} CleanLast(checks: Checks, r: Request, ops: seq<Op>)
    requires |ops| > 1 && Clean(checks, r, ops, |ops| - 1)
    ensures var k := |ops|;
            var bundles := ops[0].active.value;
            Clean(checks, r, ops, k) <==>
              if k == 2 then Entitled(checks, r, bundles)
              else if k == 3 then checks.signatureValid(r.material, r.signature, r.statement)
              else if k == 4 then ops[3].r.Ok?
              else 5 < k <= 5 + |bundles| ==> !ops[k - 1].r.Error?
  {
    hide Entitled;
  }

  // An early operation: the checks and the post.
  lemma {:induction false} StandsEarly(checks: Checks, s: System, i: nat, r: Result, ops: seq<Op>)
    requires i < |s.flows| && |ops| < 4 && Stands(checks, s.flows[i].request, ops, s.flows[i].stage)
    ensures var t := Step(checks, s, i, r);
            |t.flows| == |s.flows| && Stands(checks, t.flows[i].request, ops + [Op(s.active, r)], t.flows[i].stage)
  {
    var more, request := ops + [Op(s.active, r)], s.flows[i].request;
    if ops != [] {
      CleanMore(checks, request, ops, Op(s.active, r), |ops|);
      if Clean(checks, request, ops, |ops|) {
        CleanLast(checks, request, more);
        AcceptableIff(checks, request, ops[0].active.value);
      }
    }
    hide Acceptable, Entitled, E.Pae;
  }

  lemma {:induction false} StandsLate(checks: Checks, s: System, i: nat, r: Result, ops: seq<Op>)
    requires i < |s.flows| && |ops| >= 4 && Stands(checks, s.flows[i].request, ops, s.flows[i].stage)
    ensures var t := Step(checks, s, i, r);
            |t.flows| == |s.flows| && Stands(checks, t.flows[i].request, ops + [Op(s.active, r)], t.flows[i].stage)
  {
    var more, request := ops + [Op(s.active, r)], s.flows[i].request;
    CleanMore(checks, request, ops, Op(s.active, r), |ops|);
    if Clean(checks, request, ops, |ops|) {
      CleanLast(checks, request, more);
    } else {
      UncleanStays(checks, request, more, |ops|);
    }
    hide Clean, E.Pae;
  }

  lemma {:induction false} UncleanStays(checks: Checks, r: Request, ops: seq<Op>, k: nat)
    requires 0 < k <= |ops| && !Clean(checks, r, ops, k)
    ensures !Clean(checks, r, ops, |ops|)
  {
    hide Entitled;
  }

  lemma {:induction false} PostsOne(checks: Checks, s: System, i: nat, r: Result, ops: seq<Op>)
    requires i < |s.flows| && Stands(checks, s.flows[i].request, ops, s.flows[i].stage)
    ensures var t := Step(checks, s, i, r);
            && |s.ledger| <= |t.ledger| && t.ledger == s.ledger + t.ledger[|s.ledger|..]
            && PostedBy(checks, s.flows[i].request, ops + [Op(s.active, r)]) ==
               PostedBy(checks, s.flows[i].request, ops) + t.ledger[|s.ledger|..]
  {
    var request := s.flows[i].request;
    if |ops| >= 3 {
      CleanMore(checks, request, ops, Op(s.active, r), 3);
      if !Clean(checks, request, ops, 3) {
        UncleanStays(checks, request, ops, 3);
      }
    }
    hide Entitled, E.Pae;
  }

  // A step of anybody else leaves a request where it is.
  lemma {:induction false} OneLeaves(checks: Checks, w: System, ev: Event, i: nat)
    requires i < |w.flows| && (ev.Advance? ==> ev.i < |w.flows| && ev.i != i)
    ensures i < |Next(checks, w, ev).flows| && Next(checks, w, ev).flows[i] == w.flows[i]
  {
  }

  lemma {:induction false} RunStands(checks: Checks, s: System, evs: seq<Event>, i: nat, ops: seq<Op>)
    requires LegalRun(checks, s, evs) && i < |s.flows| && Stands(checks, s.flows[i].request, ops, s.flows[i].stage)
    ensures var t, r, all := After(checks, s, evs), s.flows[i].request, ops + Ops(checks, s, evs, i);
            && i < |t.flows| && t.flows[i].request == r && Stands(checks, r, all, t.flows[i].stage)
            && PostedBy(checks, r, all) == PostedBy(checks, r, ops) + Posts(checks, s, evs, i)
    decreases |evs|
  {
    hide Next, Stands, PostedBy;
    if evs == [] {
      assert ops + [] == ops;
      assert PostedBy(checks, s.flows[i].request, ops) + [] == PostedBy(checks, s.flows[i].request, ops);
    } else {
      var t, own := Next(checks, s, evs[0]), OpOf(s, evs[0], i);
      NextStands(checks, s, evs[0], i, ops);
      RunStands(checks, t, evs[1..], i, ops + own);
      Associate(ops, own, Ops(checks, t, evs[1..], i));
      Associate(PostedBy(checks, s.flows[i].request, ops), PostOf(s, evs[0], t, i), Posts(checks, t, evs[1..], i));
    }
  }

  lemma {:induction false} NextStands(checks: Checks, s: System, ev: Event, i: nat, ops: seq<Op>)
    requires i < |s.flows| && (ev.Advance? ==> ev.i < |s.flows|)
    requires Stands(checks, s.flows[i].request, ops, s.flows[i].stage)
    ensures var t, r, more := Next(checks, s, ev), s.flows[i].request, ops + OpOf(s, ev, i);
            && i < |t.flows| && t.flows[i].request == r && Stands(checks, r, more, t.flows[i].stage)
            && PostedBy(checks, r, more) == PostedBy(checks, r, ops) + PostOf(s, ev, t, i)
  {
    if ev.Advance? && ev.i == i {
      StandsOn(checks, s, i, ev.r, ops);
      PostsOne(checks, s, i, ev.r, ops);
      hide Step, Stands, PostedBy;
    } else {
      OneLeaves(checks, s, ev, i);
      hide Step, Stands, PostedBy;
      assert ops + [] == ops;
    }
  }

  lemma {:induction false} StandsOn(checks: Checks, s: System, i: nat, r: Result, ops: seq<Op>)
    requires i < |s.flows| && Stands(checks, s.flows[i].request, ops, s.flows[i].stage)
    ensures var t := Step(checks, s, i, r);
            && |t.flows| == |s.flows| && t.flows[i].request == s.flows[i].request
            && Stands(checks, t.flows[i].request, ops + [Op(s.active, r)], t.flows[i].stage)
  {
    StepKeepsRequest(checks, s, i, r);
    if |ops| < 4 {
      StandsEarly(checks, s, i, r, ops);
    } else {
      StandsLate(checks, s, i, r, ops);
    }
    hide Step, Stands;
  }

  lemma {:induction false} StepKeepsRequest(checks: Checks, s: System, i: nat, r: Result)
    requires i < |s.flows|
    ensures |Step(checks, s, i, r).flows| == |s.flows|
    ensures Step(checks, s, i, r).flows[i].request == s.flows[i].request
  {
    hide E.Pae, Acceptable;
  }

  /** The request is endorsed: with the certificates that were active when it was taken up, it has
      everything it needs, the log took its post, and all of those certificates have signed. */
  ghost predicate Endorsed(checks: Checks, r: Request, ops: seq<Op>) {
    ops != [] && ops[0].active.Some? && |ops| >= 6 + |ops[0].active.value| && Clean(checks, r, ops, |ops|)
  }

  lemma {:induction false} DecidedBy(checks: Checks, r: Request, ops: seq<Op>, stage: Stage)
    requires Stands(checks, r, ops, stage)
    ensures Answers(checks, r, ops, stage)
  {
    hide Entitled;
  }

  // Whether a request has been answered, and how, is what its operations say.
  ghost predicate Answers(checks: Checks, r: Request, ops: seq<Op>, stage: Stage) {
    && (stage.Returned? <==> Endorsed(checks, r, ops))
    && (stage.Rejected? <==> ops != [] && !Clean(checks, r, ops, |ops|))
    && (stage.Returned? ==> |ops| > 3 && ops[3].r.Ok? && stage.e.logId == ops[3].r.logId)
  }

  /** Exactly which requests are endorsed, in any run, whatever other requests and reloads do: a request
      has its endorsement if and only if it is endorsed as above, and is refused if and only if one of
      those things did not hold when its turn came; and it was posted once, or not at all. */
  lemma {:induction false} EndorsedIff(checks: Checks, s: System, evs: seq<Event>, i: nat)
    requires LegalRun(checks, s, evs) && i < |s.flows| && s.flows[i].stage == Received
    ensures var t, r, ops := After(checks, s, evs), s.flows[i].request, Ops(checks, s, evs, i);
            && i < |t.flows| && Answers(checks, r, ops, t.flows[i].stage)
            && Posts(checks, s, evs, i) == PostedBy(checks, r, ops)
  {
    RunStands(checks, s, evs, i, []);
    assert [] + Ops(checks, s, evs, i) == Ops(checks, s, evs, i);
    DecidedBy(checks, s.flows[i].request, Ops(checks, s, evs, i), After(checks, s, evs).flows[i].stage);
    hide Answers, Stands, After, LegalRun, Ops, Posts;
  }

  // The requests that have come in, in order, and the certificates that were put in place last.
  ghost function Requests(evs: seq<Event>): seq<Request> {
    if evs == [] then [] else (if evs[0].Receive? then [evs[0].request] else []) + Requests(evs[1..])
  }

  ghost function Latest(active: Option<seq<Bundle>>, evs: seq<Event>): Option<seq<Bundle>>
    decreases |evs|
  {
    if evs == [] then active else Latest(if evs[0].Reload? then Some(evs[0].bundles) else active, evs[1..])
  }

  ghost function RequestsOf(flows: seq<Flow>): seq<Request> {
    seq(|flows|, i requires 0 <= i < |flows| => flows[i].request)
  }

  /** In any run, the certificates that are active, which a request is checked against and signed with, are
      those of the latest reload; and every request that came in is there, in order. */
  lemma {:induction false} ActiveIsLatest(checks: Checks, s: System, evs: seq<Event>)
    requires LegalRun(checks, s, evs)
    ensures After(checks, s, evs).active == Latest(s.active, evs)
    ensures RequestsOf(After(checks, s, evs).flows) == RequestsOf(s.flows) + Requests(evs)
    decreases |evs|
  {
    if evs != [] {
      NextTakesIn(checks, s, evs[0]);
      hide Next, RequestsOf;
      ActiveIsLatest(checks, Next(checks, s, evs[0]), evs[1..]);
      Associate(RequestsOf(s.flows), if evs[0].Receive? then [evs[0].request] else [], Requests(evs[1..]));
    } else {
      assert RequestsOf(s.flows) + [] == RequestsOf(s.flows);
    }
  }

  lemma {:induction false} NextTakesIn(checks: Checks, s: System, ev: Event)
    requires ev.Advance? ==> ev.i < |s.flows|
    ensures Next(checks, s, ev).active == if ev.Reload? then Some(ev.bundles) else s.active
    ensures RequestsOf(Next(checks, s, ev).flows) ==
            RequestsOf(s.flows) + if ev.Receive? then [ev.request] else []
  {
    hide Acceptable, E.Pae;
  }

  /** Endorsements over the same signed bytes are endorsements of the same thing. */
  lemma {:induction false} SignedBytesIdentify(a: Endorsement, b: Endorsement)
    requires E.Pae(E.Signed(a.statement, a.material, a.signature, a.logId)) ==
             E.Pae(E.Signed(b.statement, b.material, b.signature, b.logId))
    ensures a == b.(signatures := a.signatures)
  {
    E.PaeInjective(
      E.Signed(a.statement, a.material, a.signature, a.logId),
      E.Signed(b.statement, b.material, b.signature, b.logId));
  }
}
