/** Requests leave lease and attempt ids free: any text is valid and evaluates alike, so there are allowed decisions that
    no receipt can conform to and valid requests that no approval can be attached to. */
module LeaseFreedom {
  import opened Prelude
  import opened PyStrings
  import opened PyValues
  import opened CanonicalRecord
  import opened RecordText
  import opened GovernanceRecords
  import opened GovernanceRequests
  import opened ApprovalBinding
  import opened GovernanceDecisions
  import opened DecisionGuarantees
  import opened DraftDigests
  import opened ReceiptConformance
  import opened ReceiptGuarantees

  function WithLease(r: Request, lease: string): Request {
    r.(leaseId := lease)
  }

  function WithAttempt(r: Request, attempt: string): Request {
    r.(attemptId := attempt)
  }

  // ------------------------------------------------------------- validation

  lemma IdentityIsFree(r: Request, x: string)
    requires CheckIdentity(r).Ok? && Strip(x) != ""
    ensures CheckIdentity(WithLease(r, x)).Ok? && CheckIdentity(WithAttempt(r, x)).Ok?
  {
    hide Strip, IsSha256;
    LeaseIdentity(r, x);
  }

  lemma LeaseIdentity(r: Request, x: string)
    requires CheckIdentity(r).Ok? && Strip(x) != ""
    ensures CheckIdentity(WithLease(r, x)).Ok?
  {
    hide Strip, IsSha256;
  }

  lemma InputsIgnoreIds(env: Env, r: Request, x: string)
    ensures CheckInputs(env, WithLease(r, x)) == CheckInputs(env, r) == CheckInputs(env, WithAttempt(r, x))
    ensures CheckCrossBindings(WithLease(r, x)) == CheckCrossBindings(r) == CheckCrossBindings(WithAttempt(r, x))
  {
    hide Bounded, RejectKeys, Same;
  }

  lemma DigestsIgnoreIds(env: Env, r: Request, x: string)
    ensures CheckDigests(env, WithLease(r, x)) == CheckDigests(env, r) == CheckDigests(env, WithAttempt(r, x))
  {
    hide Same, FactsDigest, ScopeDigest, ScopePolicyDigest, RequirementsDigest, InventoryDigest, Digest;
  }

  /** A valid request without an approval stays valid under any lease and any attempt id that is not blank. */
  lemma IdsAreFree(env: Env, r: Request, x: string)
    requires Valid(env, r) && r.approval.None? && Strip(x) != ""
    ensures Valid(env, WithLease(r, x)) && Valid(env, WithAttempt(r, x))
  {
    hide CheckIdentity, CheckInputs, CheckDigests, CheckCrossBindings, Strip;
    IdentityIsFree(r, x);
    InputsIgnoreIds(env, r, x);
    DigestsIgnoreIds(env, r, x);
  }

  /** Under any attempt id outside ASCII a valid request can no longer be approved. */
  lemma UnapprovableRequest(env: Env, r: Request, attempt: string)
    requires HexHash(env.hash) && ClockOk(env) && Valid(env, r) && r.approval.None?
    requires Strip(attempt) != "" && !IsAscii(attempt)
    ensures Valid(env, WithAttempt(r, attempt)) && !Approvable(env, WithAttempt(r, attempt))
  {
    hide ValidateRequest, IsAscii, Strip;
    IdsAreFree(env, r, attempt);
    ApprovableExactly(env, WithAttempt(r, attempt));
  }

  // ------------------------------------------------------------- evaluation

  lemma FindIgnoresLease(e: Engine, r: Request, lease: string, at: int)
    requires r.approval.None?
    ensures Find(e, WithLease(r, lease), at) == Find(e, r, at)
  {
    hide ActiveUntil, PlanOf, Resolve;
    ActivationIgnoresLease(e, r, lease, at);
  }

  lemma ActivationIgnoresLease(e: Engine, r: Request, lease: string, at: int)
    ensures ActiveUntil(e, WithLease(r, lease), at) == ActiveUntil(e, r, at)
  {
    hide Same, WithinDeclared, ParseTime;
  }

  lemma GrantFollowsLease(env: Env, r: Request, id: string, call: Call, activeUntil: int, lease: string, a: Authorization)
    requires Authorize(env, r, id, call, None, activeUntil) == Ok(a) && Strip(lease) != ""
    ensures Authorize(env, WithLease(r, lease), id, call, None, activeUntil) == Ok(a.(leaseId := lease))
  {
    hide CheckAuthorization, Strip;
    GrantKeepsForm(env, a, lease);
  }

  lemma GrantKeepsForm(env: Env, a: Authorization, lease: string)
    requires CheckAuthorization(env, a).Ok? && Strip(lease) != ""
    ensures CheckAuthorization(env, a.(leaseId := lease)).Ok?
  {
    hide Strip, CheckGrantForms, CheckGrantWindow;
    GrantKeepsRest(env, a, lease);
  }

  lemma GrantKeepsRest(env: Env, a: Authorization, lease: string)
    ensures CheckGrantForms(a.(leaseId := lease)) == CheckGrantForms(a)
    ensures CheckGrantWindow(env, a.(leaseId := lease)) == CheckGrantWindow(env, a)
  {
    hide Sha, AtLeastZero;
  }

  /** Replacing one text member of a record keeps it digestible. */
  lemma TextMemberIsFree(h: Hash, recordType: string, f: Fields, g: Fields, i: nat, text: string)
    requires Strip(recordType) == recordType && HasPrefix(recordType, "govengine.")
    requires Digest(h, recordType, f).Ok? && i < |f| && g == f[i := (f[i].0, S(text))]
    ensures Digest(h, recordType, g).Ok?
  {
    hide Canonicalise, Strip, HasPrefix, Digest, Record, S;
    EmptyIsUnowned();
    DigestibleIff(h, recordType, f);
    DigestibleIff(h, recordType, g);
    ReplacedMember(f, g, i, text);
  }

  lemma ReplacedMember(f: Fields, g: Fields, i: nat, text: string)
    requires Canonicalise(Record(f)).Ok? && i < |f| && g == f[i := (f[i].0, S(text))]
    ensures Canonicalise(Record(g)).Ok?
  {
    hide Canonicalise, Record, S;
    ScalarsAccepted();
    forall k | 0 <= k < |g| ensures Canonicalise(g[k].1).Ok? {
      AcceptedMember(f, k);
    }
    RecordAccepted(g);
  }

  lemma RequestDigestIsFree(h: Hash, r: Request, lease: string)
    requires RequestDigest(h, r).Ok?
    ensures RequestDigest(h, WithLease(r, lease)).Ok?
  {
    hide Digest, Strip, HasPrefix, S, N, Record, PolicyPackFields, ScopePolicyFields, RequirementFields, InventoryFields,
         ApprovalValue;
    RequestTypeIsOwned();
    var f, g := RequestFields(r), RequestFields(WithLease(r, lease));
    assert f[21] == ("lease_id", S(r.leaseId));
    assert g == f[21 := ("lease_id", S(lease))];
    TextMemberIsFree(h, REQUEST, f, g, 21, lease);
  }

  /** The decision of the same evaluation under another lease. */
  function Released(d: Decision, requestDigest: string, lease: string): Decision {
    d.(requestDigest := requestDigest,
       authorization := if d.authorization.None? then None else Some(d.authorization.value.(leaseId := lease)))
  }

  lemma GrantedFollowsLease(e: Engine, r: Request, call: Call, f: Findings, lease: string, g: Option<Authorization>)
    requires f.approval.None? && Granted(e, r, call, f) == Ok(g) && Strip(lease) != ""
    ensures Granted(e, WithLease(r, lease), call, f)
            == Ok(if g.None? then None else Some(g.value.(leaseId := lease)))
  {
    hide OutcomeOf, Authorize, Strip;
    if g.Some? {
      GrantFollowsLease(e.env, r, "gov-auth:" + DecisionId(r, call), call, f.activeUntil, lease, g.value);
    }
  }

  lemma DraftFollowsLease(e: Engine, r: Request, call: Call, lease: string, draft: Decision) returns (digest: string)
    requires r.approval.None? && Draft(e, r, call) == Ok(draft) && Strip(lease) != ""
    ensures Draft(e, WithLease(r, lease), call) == Ok(Released(draft, digest, lease))
  {
    hide Find, Granted, RequestDigest, ValidateVerdict, OutcomeOf, DecisionId, Strip;
    var f := DraftParts(e, r, call, draft);
    FoundApproval(e, r, call.at, f);
    FindIgnoresLease(e, r, lease, call.at);
    GrantedFollowsLease(e, r, call, f, lease, draft.authorization);
    RequestDigestIsFree(e.env.hash, r, lease);
    SameDecisionId(r, call, lease);
    digest := RequestDigest(e.env.hash, WithLease(r, lease)).value;
  }

  lemma SameDecisionId(r: Request, call: Call, lease: string)
    ensures DecisionId(WithLease(r, lease), call) == DecisionId(r, call)
  {
    hide Strip;
  }

  lemma ReleasedIsDigestible(h: Hash, d: Decision, requestDigest: string, lease: string)
    requires DecisionBodyDigest(h, d).Ok?
    ensures DecisionBodyDigest(h, Released(d, requestDigest, lease)).Ok?
  {
    hide Canonicalise, Digest, Strip, HasPrefix, S, N, Flag, Texts, Record, ControlFields, AuthorizationFields;
    RequestTypeIsOwned();
    EmptyIsUnowned();
    var q := Released(d, requestDigest, lease);
    var f, g := DecisionFields(d), DecisionFields(q);
    DigestibleIff(h, DECISION, f);
    DigestibleIff(h, DECISION, g);
    ReleasedGrant(d.authorization, lease, f, g);
    ReleasedMembers(d, q, f, g);
  }

  lemma ReleasedGrant(a: Option<Authorization>, lease: string, f: Fields, g: Fields)
    requires |f| == 18 && |g| == 18 && Canonicalise(Record(f)).Ok? && f[17].1 == AuthorizationValue(a)
    requires g[17].1 == AuthorizationValue(if a.None? then None else Some(a.value.(leaseId := lease)))
    ensures Canonicalise(g[17].1).Ok?
  {
    hide Canonicalise, Record, S, N, Flag;
    AcceptedMember(f, 17);
    if a.Some? {
      var x, y := AuthorizationFields(a.value), AuthorizationFields(a.value.(leaseId := lease));
      assert x[6] == ("lease_id", S(a.value.leaseId));
      assert y == x[6 := ("lease_id", S(lease))];
      ReplacedMember(x, y, 6, lease);
    }
  }

  lemma ReleasedMembers(d: Decision, q: Decision, f: Fields, g: Fields)
    requires f == DecisionFields(d) && g == DecisionFields(q) && Canonicalise(Record(f)).Ok?
    requires q == d.(requestDigest := q.requestDigest, authorization := q.authorization)
    requires Canonicalise(g[17].1).Ok?
    ensures Canonicalise(Record(g)).Ok?
  {
    hide Canonicalise, Record, S, N, Flag, Texts, ControlFields, AuthorizationValue;
    ScalarsAccepted();
    forall k | 0 <= k < |g| ensures Canonicalise(g[k].1).Ok? {
      AcceptedMember(f, k);
      assert g[3].1 == S(q.requestDigest);
      assert k != 3 && k != 17 ==> g[k] == f[k];
    }
    RecordAccepted(g);
  }

  /** An evaluation without an approval returns the same status, reason and blockers under any lease that is not blank,
      and its authorization carries that lease. */
  lemma EvaluationIgnoresLease(e: Engine, r: Request, call: Call, lease: string, d: Decision) returns (q: Decision)
    requires SoundEngine(e) && r.approval.None? && Strip(lease) != "" && EvaluateGovernance(e, r, call) == Ok(d)
    ensures Valid(e.env, WithLease(r, lease)) && EvaluateGovernance(e, WithLease(r, lease), call) == Ok(q)
    ensures q.status == d.status && q.reasonCode == d.reasonCode && q.blockers == d.blockers
    ensures if d.authorization.None? then q.authorization.None?
            else q.authorization == Some(d.authorization.value.(leaseId := lease))
  {
    hide EvaluateGovernance, Draft, ValidateRequest, DecisionBodyDigest, SoundEngine, ValidateDecisionFor, Strip;
    var draft := DecisionIsDraft(e, r, call, d);
    IdsAreFree(e.env, r, lease);
    var requestDigest := DraftFollowsLease(e, r, call, lease, draft);
    var moved := Released(draft, requestDigest, lease);
    ReleasedIsDigestible(e.env.hash, draft, requestDigest, lease);
    var digest := DecisionBodyDigest(e.env.hash, moved).value;
    ClosingValidationAccepts(e, WithLease(r, lease), call, moved, digest);
    q := moved.(decisionDigest := digest);
  }

  /** From one allowed decision without an approval come allowed decisions for every lease, and such a decision can be
      receipted exactly when the lease has digest form and the four identifiers are ASCII; under any other lease no
      receipt conforms to it, whatever the permit. */
  lemma AllowedButUnreceiptable(e: Engine, r: Request, call: Call, lease: string, d: Decision) returns (q: Decision)
    requires SoundEngine(e) && r.approval.None? && Strip(lease) != ""
    requires EvaluateGovernance(e, r, call) == Ok(d) && d.Allowed()
    ensures EvaluateGovernance(e, WithLease(r, lease), call) == Ok(q) && q.Allowed()
    ensures forall permit | IsSha256(permit) ::
              Receiptable(e.env, q, permit) <==>
                IsSha256(lease) && IsAscii(r.operationId) && IsAscii(r.stepId)
                && IsAscii(r.attemptId) && IsAscii(r.runtimeInstanceId)
  {
    hide EvaluateGovernance, SoundEngine, CheckDecision, IsSha256, IsAscii, Strip, Receiptable, ValidateRequest,
         BindDecision;
    q := EvaluationIgnoresLease(e, r, call, lease, d);
    var _ := DecisionIsDraft(e, WithLease(r, lease), call, q);
    SoundHash(e);
    AllowedMeansAuthorized(e, WithLease(r, lease), call, q);
    BoundGrant(e.env, q, WithLease(r, lease));
    forall permit | IsSha256(permit)
      ensures Receiptable(e.env, q, permit) <==>
                IsSha256(lease) && IsAscii(r.operationId) && IsAscii(r.stepId)
                && IsAscii(r.attemptId) && IsAscii(r.runtimeInstanceId)
    {
      ReceiptableExactly(e.env, q, permit);
    }
  }

  lemma BoundGrant(env: Env, d: Decision, r: Request)
    requires ValidateDecisionFor(env, d, r).Ok? && d.authorization.Some?
    ensures CheckDecision(env, d).Ok?
    ensures var g := d.authorization.value;
            && g.leaseId == r.leaseId && g.operationId == r.operationId && g.stepId == r.stepId
            && g.attemptId == r.attemptId && g.runtimeInstanceId == r.runtimeInstanceId
  {
    hide CheckDecision, ValidateRequest, RequestDigest, Same;
  }
}
