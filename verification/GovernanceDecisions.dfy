/** One governance evaluation (`govengine/governance_decision.py`, `govengine/policy/enforcement.py`):
    policy activation, gates, the short-lived authorization and the closing validation. */
module GovernanceDecisions {
  import opened Prelude
  import opened PyStrings
  import opened PyValues
  import opened CanonicalRecord
  import opened RecordText
  import opened GovernanceRecords
  import opened GovernanceRequests

  // --------------------------------------------------------- policy verdicts

  /** A policy verdict; obligations, constraints and other members are in `rest`. */
  datatype Verdict = Verdict(
    decision: string, reasonCode: string, blockers: seq<string>, evidenceRefs: set<string>,
    packId: Option<string>, packVersion: Option<string>, approvalRef: Option<string>, rest: Value)

  const VERDICTS := {"allow", "allow_with_obligations", "approval_required", "deny"}

  function ValidateVerdict(v: Verdict): Result<Verdict, GovError> {
    if v.decision !in VERDICTS then Err(Refused("unknown_policy_verdict_decision"))
    else
      :- Need(v.decision == "deny" ==> v.blockers != [], Refused("policy_deny_without_blocker"));
      :- Need(v.decision == "approval_required" ==> v.blockers != [], Refused("policy_approval_without_blocker"));
      Ok(v)
  }

  datatype Plan = Plan(ready: bool, reasonCode: string, controls: Controls, blockers: seq<string>) {
    predicate Allowed() {
      ready && blockers == []
    }
  }

  /** `RuntimeControlProjection()`: the controls of a plan that projects none. */
  const NO_CONTROLS := Controls(Finite(['0', '.', '0']), 0, 0, true, false, false, false, false, [], [], [], [])

  function NonEmpty(texts: seq<string>): seq<string> {
    if texts == [] then []
    else (if texts[0] == "" then [] else [texts[0]]) + NonEmpty(texts[1..])
  }

  // ------------------------------------------------------------ environment

  datatype Activation = Activation(
    policyId: string, policyVersion: string, policyPackDigest: string, policyEpoch: int, issuerRef: string,
    status: string, notBefore: string, expiresAt: string)

  datatype Gate = Gate(open: bool, reasonCode: string, digest: string)

  /** The parts of an evaluation that are not modelled: the policy engine and control projection, the scope and
      capability gates, record digests of verdict, plan and trace, and the host's ports. */
  datatype Engine = Engine(
    env: Env,
    activation: string -> Activation, activationShape: Activation -> Check<GovError>,
    policyRequest: Value -> Result<(string, string), GovError>,
    evaluate: (Value, PolicyPack) -> Result<Verdict, GovError>,
    project: Verdict -> Result<Controls, string>,
    scopeGate: (Value, ScopePolicyBinding) -> Result<Gate, GovError>,
    capabilityGate: (CapabilityRequirements, CapabilityInventory) -> Result<Gate, GovError>,
    verdictDigest: Verdict -> string, planDigest: Plan -> string,
    traceDigest: (string, Verdict, Plan) -> string, requiredControls: Plan -> seq<string>,
    trust: Option<TrustPolicy>, revoked: Option<Revocation>,
    verifySignature: Option<(Attestation, string, string) -> bool>)

  /** What the caller passes besides the request. */
  datatype Call = Call(at: int, nonce: string, expiresAt: Option<int>, decisionId: string)

  // ------------------------------------------------------------- the plan

  function Reason(v: Verdict): string {
    if v.reasonCode == "" then v.decision else v.reasonCode
  }

  function PlanBlockers(e: Engine, pack: PolicyPack, v: Verdict): seq<string> {
    v.blockers
    + (if v.packId == Some(pack.policyId) then [] else ["policy_verdict_pack_mismatch"])
    + (if v.packVersion == Some(pack.version) then [] else ["policy_verdict_version_mismatch"])
    + (if v.decision !in {"allow", "allow_with_obligations"} then [Reason(v)]
       else match e.project(v)
            case Ok(_) => []
            case Err(reason) => [reason])
  }

  /** `admit_policy_execution`, appending blockers to a list as it goes. */
  method AdmitPolicyExecution(e: Engine, pack: PolicyPack, v: Verdict) returns (r: Result<Plan, GovError>)
    ensures r == PlanOf(e, pack, v)
  {
    hide Dedup, NonEmpty, ValidateVerdict;
    var checked := ValidateVerdict(v);
    if checked.Err? {
      return Err(checked.error);
    }
    var blockers := v.blockers;
    var reasonCode := Reason(v);
    var controls := NO_CONTROLS;
    if v.packId != Some(pack.policyId) {
      blockers := blockers + ["policy_verdict_pack_mismatch"];
    }
    if v.packVersion != Some(pack.version) {
      blockers := blockers + ["policy_verdict_version_mismatch"];
    }
    if v.decision !in {"allow", "allow_with_obligations"} {
      blockers := blockers + [reasonCode];
    } else {
      match e.project(v) {
        case Ok(projected) => controls := projected;
        case Err(reason) =>
          reasonCode := reason;
          blockers := blockers + [reason];
      }
    }
    assert blockers == PlanBlockers(e, pack, v);
    var merged := Dedup(NonEmpty(blockers));
    if merged == [] {
      reasonCode := "policy_controls_projected";
    }
    return if reasonCode == "" then Err(Refused("missing_policy_enforcement_plan_reason_code"))
           else Ok(Plan(merged == [], reasonCode, controls, merged));
  }

  function PlanOf(e: Engine, pack: PolicyPack, v: Verdict): Result<Plan, GovError> {
    var _ :- ValidateVerdict(v);
    var blockers := Dedup(NonEmpty(PlanBlockers(e, pack, v)));
    var projected := if v.decision in {"allow", "allow_with_obligations"} then e.project(v) else Ok(NO_CONTROLS);
    var reason :=
      if blockers == [] then "policy_controls_projected"
      else if projected.Err? then projected.error else Reason(v);
    :- Need(reason != "", Refused("missing_policy_enforcement_plan_reason_code"));
    Ok(Plan(blockers == [], reason, if projected.Ok? then projected.value else NO_CONTROLS, blockers))
  }

  lemma {:induction false} NonEmptyKeeps(texts: seq<string>)
    ensures forall x :: x in NonEmpty(texts) <==> x in texts && x != ""
  {
    if texts != [] {
      NonEmptyKeeps(texts[1..]);
      assert texts == [texts[0]] + texts[1..];
    }
  }

  /** A plan is allowed exactly when nothing blocks it, and only a verdict that allows gives an allowed plan. */
  lemma PlanIsConsistent(e: Engine, pack: PolicyPack, v: Verdict)
    requires PlanOf(e, pack, v).Ok?
    ensures var p := PlanOf(e, pack, v).value;
            && (p.Allowed() <==> p.blockers == []) && p.reasonCode != ""
            && (p.Allowed() ==> v.decision in {"allow", "allow_with_obligations"})
            && (forall b :: b in p.blockers ==> b != "")
  {
    hide Dedup, NonEmpty, PlanBlockers, ValidateVerdict;
    var blockers := PlanBlockers(e, pack, v);
    NonEmptyKeeps(blockers);
    DedupKeepsElements(NonEmpty(blockers));
    RefusalBlocks(e, pack, v);
  }

  /** A verdict that does not allow blocks the plan under its own reason. */
  lemma RefusalBlocks(e: Engine, pack: PolicyPack, v: Verdict)
    requires ValidateVerdict(v).Ok?
    ensures v.decision !in {"allow", "allow_with_obligations"} ==> Reason(v) != "" && Reason(v) in PlanBlockers(e, pack, v)
  {
    var blockers := PlanBlockers(e, pack, v);
    if v.decision !in {"allow", "allow_with_obligations"} {
      assert blockers[|blockers| - 1] == Reason(v);
    }
  }

  // -------------------------------------------------------------- the gates

  datatype Gates = Gates(
    initial: Verdict, plan: Plan, scope: Gate, capability: Gate, approvalRequired: bool, approvalValidated: bool)
  {
    predicate MissingApproval() {
      approvalRequired && !approvalValidated
    }
  }

  datatype Outcome = Outcome(status: string, reasonCode: string, blockers: seq<string>)

  function AllBlockers(g: Gates): seq<string> {
    (if g.plan.Allowed() then [] else if g.plan.blockers == [] then [g.plan.reasonCode] else g.plan.blockers)
    + (if g.scope.open then [] else [g.scope.reasonCode])
    + (if g.capability.open then [] else [g.capability.reasonCode])
    + (if g.MissingApproval() then ["approval_attestation_required"] else [])
  }

  function OutcomeOf(g: Gates): Outcome {
    var merged := Dedup(NonEmpty(AllBlockers(g)));
    if g.initial.decision == "deny" || (!g.plan.Allowed() && g.initial.decision != "approval_required") then
      Outcome("denied", g.plan.reasonCode, merged)
    else if !g.scope.open then Outcome("denied", g.scope.reasonCode, merged)
    else if !g.capability.open then Outcome("denied", g.capability.reasonCode, merged)
    else if g.MissingApproval() then Outcome("approval_required", "approval_attestation_required", merged)
    else if !g.plan.Allowed() then Outcome("denied", g.plan.reasonCode, merged)
    else Outcome("allowed", "all_governance_gates_passed", [])
  }

  /** A blocker the gates give: one of the plan's, or the reason of a gate that is closed. */
  ghost predicate Blocks(g: Gates, b: string) {
    || (!g.plan.Allowed() && (b in g.plan.blockers || (g.plan.blockers == [] && b == g.plan.reasonCode)))
    || (!g.scope.open && b == g.scope.reasonCode)
    || (!g.capability.open && b == g.capability.reasonCode)
    || (g.MissingApproval() && b == "approval_attestation_required")
  }

  /** `_decision_outcome`, accumulating a blocker list. */
  method DecisionOutcome(g: Gates) returns (r: Outcome)
    ensures r == OutcomeOf(g)
    ensures r.status == "allowed" <==> g.initial.decision != "deny" && g.plan.Allowed() && g.scope.open
                                       && g.capability.open && !g.MissingApproval()
    ensures r.status == "approval_required" <==>
              && g.initial.decision != "deny" && g.scope.open && g.capability.open && g.MissingApproval()
              && (g.plan.Allowed() || g.initial.decision == "approval_required")
    ensures r.status in {"allowed", "approval_required", "denied"}
    ensures if r.status == "allowed" then r.blockers == []
            else Distinct(r.blockers) && forall b :: b in r.blockers <==> Blocks(g, b) && b != ""
  {
    hide Dedup, NonEmpty;
    NonEmptyKeeps(AllBlockers(g));
    DedupKeepsElements(NonEmpty(AllBlockers(g)));
    var blockers: seq<string> := [];
    if !g.plan.Allowed() {
      blockers := blockers + (if g.plan.blockers == [] then [g.plan.reasonCode] else g.plan.blockers);
    }
    if !g.scope.open {
      blockers := blockers + [g.scope.reasonCode];
    }
    if !g.capability.open {
      blockers := blockers + [g.capability.reasonCode];
    }
    if g.MissingApproval() {
      blockers := blockers + ["approval_attestation_required"];
    }
    assert blockers == AllBlockers(g);
    var merged := Dedup(NonEmpty(blockers));
    if g.initial.decision == "deny" || (!g.plan.Allowed() && g.initial.decision != "approval_required") {
      return Outcome("denied", g.plan.reasonCode, merged);
    }
    if !g.scope.open {
      return Outcome("denied", g.scope.reasonCode, merged);
    }
    if !g.capability.open {
      return Outcome("denied", g.capability.reasonCode, merged);
    }
    if g.MissingApproval() {
      return Outcome("approval_required", "approval_attestation_required", merged);
    }
    if !g.plan.Allowed() {
      return Outcome("denied", g.plan.reasonCode, merged);
    }
    return Outcome("allowed", "all_governance_gates_passed", []);
  }

  // --------------------------------------------------------- authorizations

  const MAX_LIFETIME := 60_000_000  // microseconds

  /** `_validate_authorization`. */
  function CheckAuthorization(env: Env, a: Authorization): Result<(), GovError> {
    hide CheckGrantNames, CheckGrantForms, CheckGrantWindow;
    var _ :- CheckGrantNames(a);
    var _ :- CheckGrantForms(a);
    CheckGrantWindow(env, a)
  }

  function CheckGrantNames(a: Authorization): Result<(), GovError> {
    if a.schemaVersion != "v1" then Err(Refused("unknown_governance_authorization_schema_version"))
    else
      :- NonBlank(a.authorizationId, "missing_governance_authorization_id");
      :- NonBlank(a.operationId, "missing_governance_authorization_operation_id");
      :- NonBlank(a.stepId, "missing_governance_authorization_step_id");
      :- NonBlank(a.attemptId, "missing_governance_authorization_attempt_id");
      :- NonBlank(a.runtimeInstanceId, "missing_governance_authorization_runtime_instance_id");
      :- NonBlank(a.leaseId, "missing_governance_authorization_lease_id");
      :- NonBlank(a.nonce, "authorization_nonce_required");
      Ok(())
  }

  function CheckGrantForms(a: Authorization): Result<(), GovError> {
    hide IsSha256;
    :- Sha(a.fencingTokenDigest, "invalid_authorization_fencing_token_digest");
    :- Sha(a.executionSpecDigest, "invalid_authorization_execution_spec_digest");
    :- Sha(a.payloadDigest, "invalid_authorization_payload_digest");
    :- Sha(a.requestedScopeDigest, "invalid_authorization_requested_scope_digest");
    :- Sha(a.inventoryDigest, "invalid_authorization_capability_inventory_digest");
    :- Sha(a.policyPackDigest, "invalid_authorization_policy_pack_digest");
    Ok(())
  }

  function CheckGrantWindow(env: Env, a: Authorization): Result<(), GovError> {
    if a.leaseEpoch < 0 then Err(Refused("invalid_authorization_lease_epoch"))
    else
      :- AtLeastZero(a.inventoryEpoch, "invalid_authorization_inventory_epoch");
      :- AtLeastZero(a.policyEpoch, "invalid_authorization_policy_epoch");
      :- Need(a.consumeOnce, Refused("authorization_must_be_consume_once"));
      var issued :- ParseTime(env, a.issuedAt, "invalid_authorization_issued_at");
      var expires :- ParseTime(env, a.expiresAt, "invalid_authorization_expires_at");
      :- Need(expires > issued, Refused("authorization_expiry_not_after_issue"));
      :- Need(expires - issued <= MAX_LIFETIME, Refused("authorization_lifetime_exceeded"));
      Ok(())
  }

  /** `_authorization`. */
  function Authorize(
    env: Env, r: Request, id: string, call: Call, approval: Option<Attestation>, activationExpires: int)
    : Result<Authorization, GovError>
  {
    hide Strip, OutlivesNoApproval, CheckAuthorization;
    :- NonBlank(call.nonce, "authorization_nonce_required");
    :- Need(|Strip(call.nonce)| <= 256, Refused("authorization_nonce_too_long"));
    :- Need(call.expiresAt.Some?, Refused("authorization_expiry_required"));
    var expires := call.expiresAt.value;
    :- Need(expires > call.at, Refused("authorization_expiry_not_after_issue"));
    :- Need(expires - call.at <= MAX_LIFETIME, Refused("authorization_lifetime_exceeded"));
    :- Need(expires <= activationExpires, Refused("authorization_outlives_policy_activation"));
    var _ :- OutlivesNoApproval(env, expires, approval);
    var item := Authorization(
      id, r.operationId, r.stepId, r.attemptId, r.runtimeInstanceId, r.leaseId, r.leaseEpoch,
      r.fencingTokenDigest, r.executionSpecDigest, r.payloadDigest, r.requestedScopeDigest, r.inventoryDigest,
      r.inventory.inventoryEpoch, r.policyPackDigest, r.policyEpoch, env.stamp(call.at), env.stamp(expires),
      Strip(call.nonce), true, "v1");
    var _ :- CheckAuthorization(env, item);
    Ok(item)
  }

  function OutlivesNoApproval(env: Env, expires: int, approval: Option<Attestation>): Result<(), GovError> {
    match approval
    case None => Ok(())
    case Some(a) =>
      var approvalExpires :- ParseTime(env, a.expiresAt, "invalid_approval_expires_at");
      :- Need(expires <= approvalExpires, Refused("authorization_outlives_approval"));
      Ok(())
  }

  // ------------------------------------------------------- policy activation

  /** `_validate_policy_activation`: the binding in force at `at`; the result is its expiry. */
  function ActiveUntil(e: Engine, r: Request, at: int): Result<int, GovError> {
    var current := e.activation(r.policyPack.policyId);
    :- e.activationShape(current);
    :- Need(current.policyId == r.policyPack.policyId, Refused("policy_activation_id_mismatch"));
    :- Need(current.policyVersion == r.policyPack.version, Refused("policy_activation_version_mismatch"));
    :- Same(current.policyPackDigest, r.policyPackDigest, "policy_activation_digest_mismatch");
    :- Need(current.policyEpoch == r.policyEpoch, Refused("policy_epoch_drift"));
    var _ :- WithinDeclared(e.env, r.policyPack, current);
    :- Need(current.status == "active", Refused("policy_" + current.status));
    var notBefore :- ParseTime(e.env, current.notBefore, "invalid_policy_activation_not_before");
    var expires :- ParseTime(e.env, current.expiresAt, "invalid_policy_activation_expires_at");
    :- Need(at >= notBefore, Refused("policy_not_yet_valid"));
    :- Need(at < expires, Refused("policy_expired"));
    Ok(expires)
  }

  /** A v1 pack states its issuer and its own window, which the activation may only narrow. */
  function WithinDeclared(env: Env, pack: PolicyPack, current: Activation): Result<(), GovError> {
    if pack.schemaVersion != "v1" then Ok(())
    else
      :- Need(current.issuerRef == pack.issuerRef, Refused("policy_activation_issuer_mismatch"));
      var declaredNotBefore :- ParseTime(env, pack.notBefore, "invalid_policy_not_before");
      var declaredExpires :- ParseTime(env, pack.expiresAt, "invalid_policy_expires_at");
      var notBefore :- ParseTime(env, current.notBefore, "invalid_policy_activation_not_before");
      var expires :- ParseTime(env, current.expiresAt, "invalid_policy_activation_expires_at");
      :- Need(declaredNotBefore <= notBefore, Refused("policy_activation_not_before_mismatch"));
      :- Need(expires <= declaredExpires, Refused("policy_activation_expires_at_mismatch"));
      Ok(())
  }

  // ------------------------------------------------------ the validated approval

  /** `_validated_approval`: no approval is fine; one that is attached must be valid and signed. */
  function ValidatedApproval(e: Engine, r: Request, at: int): Result<Option<Attestation>, GovError> {
    hide ValidateApproval, CheckedAttestationDigest;
    match r.approval
    case None => Ok(None)
    case Some(a) =>
      :- Need(e.trust.Some?, Refused("approval_trust_policy_required"));
      :- Need(e.revoked.Some?, Refused("approval_revocation_port_required"));
      var checked :- ValidateApproval(e.env, a, r, e.trust.value, e.revoked.value, at);
      :- Need(e.verifySignature.Some?, Refused("approval_signature_verifier_required"));
      var d :- CheckedAttestationDigest(e.env, checked);
      :- Need(e.verifySignature.value(checked, d, e.trust.value.policyId),
              Refused("approval_signature_verification_failed"));
      Ok(Some(checked))
  }

  /** `_resolve_approval_requirement`. */
  function Resolve(env: Env, v: Verdict, approval: Option<Attestation>): Result<Verdict, GovError> {
    hide CheckedAttestationDigest;
    if v.decision != "approval_required" || approval.None? then Ok(v)
    else
      var d :- CheckedAttestationDigest(env, approval.value);
      ValidateVerdict(v.(decision := "allow_with_obligations", reasonCode := "approval_requirement_satisfied",
                         blockers := [], evidenceRefs := v.evidenceRefs + {d}, approvalRef := Some(d)))
  }

  // -------------------------------------------------------- decision validation

  const STATUSES := {"allowed", "approval_required", "denied"}

  /** `validate_governance_decision` without a request. */
  function CheckDecision(env: Env, d: Decision): Result<(), GovError> {
    hide Strip, IsSha256, IsAscii, CheckPosture, DecisionBodyDigest;
    :- Need(d.schemaVersion == "v1", Refused("unknown_governance_decision_schema_version"));
    :- NonBlank(d.decisionId, "missing_governance_decision_id");
    :- NonBlank(d.transactionId, "missing_governance_decision_transaction_id");
    :- NonBlank(d.reasonCode, "missing_governance_decision_reason_code");
    :- Need(d.status in STATUSES, Refused("unknown_governance_decision_status"));
    :- Sha(d.requestDigest, "invalid_governance_decision_request_digest");
    :- Sha(d.policyEvaluationDigest, "invalid_policy_evaluation_digest");
    :- Sha(d.policyVerdictDigest, "invalid_governance_policy_verdict_digest");
    :- Sha(d.enforcementPlanDigest, "invalid_governance_enforcement_plan_digest");
    :- Sha(d.governanceTraceDigest, "invalid_governance_trace_digest");
    :- Sha(d.scopeDecisionDigest, "invalid_governance_scope_decision_digest");
    :- Sha(d.capabilityDigest, "invalid_governance_capability_compatibility_digest");
    :- Sha(d.decisionDigest, "invalid_governance_decision_digest");
    :- Need(d.approvalDigest != "" ==> IsSha256(d.approvalDigest),
            Refused("invalid_governance_approval_attestation_digest"));
    var _ :- CheckPosture(env, d);
    var expected :- DecisionBodyDigest(env.hash, d);
    :- Same(expected, d.decisionDigest, "governance_decision_digest_mismatch");
    Ok(())
  }

  /** An allowed decision has an authorization and no blockers; any other has blockers and no authorization. */
  function CheckPosture(env: Env, d: Decision): Result<(), GovError> {
    hide CheckAuthorization;
    if d.Allowed() then
      :- Need(d.authorization.Some?, Refused("allowed_governance_decision_without_authorization"));
      :- Need(d.blockers == [], Refused("allowed_governance_decision_with_blockers"));
      CheckAuthorization(env, d.authorization.value)
    else
      :- Need(d.authorization.None?, Refused("non_allowed_governance_decision_with_authorization"));
      :- Need(d.blockers != [], Refused("non_allowed_governance_decision_without_blockers"));
      Ok(())
  }

  /** `_validate_decision_request_binding`. */
  function BindDecision(env: Env, d: Decision, r: Request): Result<(), GovError> {
    hide RequestDigest, IsAscii, BindAuthorization;
    :- Need(d.transactionId == r.transactionId, Refused("governance_decision_transaction_id_mismatch"));
    var digest :- RequestDigest(env.hash, r);
    :- Same(d.requestDigest, digest, "governance_decision_request_digest_mismatch");
    match d.authorization
    case None => Ok(())
    case Some(a) => BindAuthorization(a, r)
  }

  function BindAuthorization(a: Authorization, r: Request): Result<(), GovError> {
    if a.operationId != r.operationId then Err(Refused("authorization_operation_id_mismatch"))
    else
      :- Need(a.stepId == r.stepId, Refused("authorization_step_id_mismatch"));
      :- Need(a.attemptId == r.attemptId, Refused("authorization_attempt_id_mismatch"));
      :- Need(a.runtimeInstanceId == r.runtimeInstanceId, Refused("authorization_runtime_instance_id_mismatch"));
      :- Need(a.leaseId == r.leaseId, Refused("authorization_lease_id_mismatch"));
      :- Need(a.leaseEpoch == r.leaseEpoch, Refused("authorization_lease_epoch_mismatch"));
      :- Need(a.fencingTokenDigest == r.fencingTokenDigest, Refused("authorization_fencing_token_digest_mismatch"));
      :- Need(a.executionSpecDigest == r.executionSpecDigest, Refused("authorization_execution_spec_digest_mismatch"));
      :- Need(a.payloadDigest == r.payloadDigest, Refused("authorization_payload_digest_mismatch"));
      :- Need(a.requestedScopeDigest == r.requestedScopeDigest,
              Refused("authorization_requested_scope_digest_mismatch"));
      :- Need(a.inventoryDigest == r.inventoryDigest, Refused("authorization_capability_inventory_digest_mismatch"));
      :- Need(a.inventoryEpoch == r.inventory.inventoryEpoch, Refused("authorization_inventory_epoch_mismatch"));
      :- Need(a.policyPackDigest == r.policyPackDigest, Refused("authorization_policy_pack_digest_mismatch"));
      :- Need(a.policyEpoch == r.policyEpoch, Refused("authorization_policy_epoch_mismatch"));
      Ok(())
  }

  /** `validate_governance_decision` with a request. */
  function ValidateDecisionFor(env: Env, d: Decision, r: Request): Result<Decision, GovError> {
    hide CheckDecision, ValidateRequest, BindDecision;
    var _ :- CheckDecision(env, d);
    var _ :- ValidateRequest(env, r);
    var _ :- BindDecision(env, d, r);
    Ok(d)
  }

  // ------------------------------------------------------------ evaluation

  /** What one evaluation has worked out before it writes its decision down. */
  datatype Findings = Findings(
    gates: Gates, approval: Option<Attestation>, effective: Verdict, activeUntil: int)

  function Find(e: Engine, r: Request, at: int): Result<Findings, GovError> {
    hide ActiveUntil, ValidatedApproval, Resolve, PlanOf;
    var activeUntil :- ActiveUntil(e, r, at);
    var (requestId, subjectRef) :- e.policyRequest(r.executionFacts);
    :- Need(requestId == r.transactionId, Refused("policy_request_id_mismatch"));
    :- Need(subjectRef == "governance:" + r.operationId + ":" + r.stepId + ":" + r.attemptId,
            Refused("policy_request_subject_ref_mismatch"));
    var initial :- e.evaluate(r.executionFacts, r.policyPack);
    var approval :- ValidatedApproval(e, r, at);
    var effective :- Resolve(e.env, initial, approval);
    var plan :- PlanOf(e, r.policyPack, effective);
    var scope :- e.scopeGate(r.requestedScope, r.scopePolicy);
    var capability :- e.capabilityGate(r.requirements, r.inventory);
    var required := r.sideEffectClass == "mutation" || initial.decision == "approval_required";
    Ok(Findings(Gates(initial, plan, scope, capability, required, approval.Some?), approval, effective, activeUntil))
  }

  function DecisionId(r: Request, call: Call): string {
    if Strip(call.decisionId) == "" then "gov-decision:" + r.transactionId else Strip(call.decisionId)
  }

  /** Only an allowed outcome is given an authorization. */
  function Granted(e: Engine, r: Request, call: Call, f: Findings): Result<Option<Authorization>, GovError> {
    hide OutcomeOf, Authorize;
    if OutcomeOf(f.gates).status != "allowed" then Ok(None)
    else
      var a :- Authorize(e.env, r, "gov-auth:" + DecisionId(r, call), call, f.approval, f.activeUntil);
      Ok(Some(a))
  }

  function ApprovalDigest(env: Env, approval: Option<Attestation>): Result<string, GovError> {
    match approval
    case None => Ok("")
    case Some(a) => CheckedAttestationDigest(env, a)
  }

  function Assemble(e: Engine, r: Request, call: Call, f: Findings, authorization: Option<Authorization>,
                    requestDigest: string, approvalDigest: string): Decision
  {
    var outcome := OutcomeOf(f.gates);
    Decision(
      DecisionId(r, call), r.transactionId, requestDigest, outcome.status, outcome.reasonCode,
      e.verdictDigest(f.gates.initial), e.verdictDigest(f.effective), e.planDigest(f.gates.plan),
      e.traceDigest(r.transactionId, f.effective, f.gates.plan), f.gates.scope.digest, f.gates.capability.digest,
      approvalDigest, f.gates.plan.controls, e.requiredControls(f.gates.plan), outcome.blockers,
      authorization, "v1", "")
  }

  /** The decision as built, its own digest still empty. */
  function Draft(e: Engine, r: Request, call: Call): Result<Decision, GovError> {
    hide Find, Granted, RequestDigest, ValidateVerdict, ApprovalDigest;
    var f :- Find(e, r, call.at);
    var authorization :- Granted(e, r, call, f);
    var requestDigest :- RequestDigest(e.env.hash, r);
    var _ :- ValidateVerdict(f.gates.initial);
    var approvalDigest :- ApprovalDigest(e.env, f.approval);
    Ok(Assemble(e, r, call, f, authorization, requestDigest, approvalDigest))
  }

  /** `evaluate_governance`. */
  function EvaluateGovernance(e: Engine, r: Request, call: Call): Result<Decision, GovError> {
    hide ValidateRequest, Draft, DecisionBodyDigest, ValidateDecisionFor;
    var _ :- ValidateRequest(e.env, r);
    var draft :- Draft(e, r, call);
    var digest :- DecisionBodyDigest(e.env.hash, draft);
    ValidateDecisionFor(e.env, draft.(decisionDigest := digest), r)
  }
}
