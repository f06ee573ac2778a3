/** Governed admission of typed executions, v0.1 and v0.2 (`govengine/typed_execution_governed_admission.py`),
    and exactly how long an admission stays valid. */
module GovernedAdmission {
  import opened Prelude
  import opened PyStrings
  import opened PyValues
  import opened CanonicalRecord
  import opened RecordText
  import opened GovernanceRecords
  import opened GovernanceRequests
  import opened ApprovalBinding
  import opened GovernanceDecisions
  import opened DecisionGuarantees
  import opened TypedExecution

  /** The shape check and the digests of typed-execution records, and of the admissions themselves. */
  datatype TypedEnv = TypedEnv(
    shape: TypedRequest -> Check<GovError>,
    requestDigest: TypedRequest -> string, projectionDigest: TypedRequest -> string,
    reportDigest: TypedRequest -> string, bundleDigest: TypedRequest -> string,
    admissionDigest: Admission -> string)

  /** The values an admission copies from its request, its decision and the typed execution. */
  datatype Bound = Bound(
    typedMode: string, requestId: string, transactionId: string, decisionId: string, operationId: string,
    stepId: string, attemptId: string, runtimeInstanceId: string, leaseId: string, leaseEpoch: int,
    fencingTokenDigest: string, typedRequestDigest: string, projectionDigest: string, reportDigest: string,
    bundleDigest: string, governanceRequestDigest: string, decisionDigest: string, approvalDigest: string,
    executionSpecDigest: string, executionFactsDigest: string, payloadDigest: string, requestedScopeDigest: string,
    inventoryDigest: string, inventoryEpoch: int, policyPackDigest: string, policyEpoch: int, sideEffectClass: string)

  /** What a v0.2 admission adds. */
  datatype Plugin = Plugin(
    backend: string, egress: string, identity: string, capabilities: seq<string>, requirementsDigest: string,
    allowedBackends: seq<string>, allowedEgress: seq<string>)

  datatype Admission = Admission(
    status: string, reasonCode: string, actualMode: string, bound: Bound, discounted: seq<Blocker>,
    blockers: seq<string>, admittedAt: string, decisionExpiresAt: string, digest: string, plugin: Option<Plugin>)
  {
    predicate Allowed() {
      status == "passed"
    }
  }

  datatype Version = V01 | V02

  function Passed(version: Version): string {
    match version
    case V01 => "typed_execution_governed_admission_passed"
    case V02 => "typed_execution_governed_admission_v02_passed"
  }

  function Mode(text: string): Result<string, GovError> {
    hide Strip;
    :- Need(Strip(text) == "apply" || Strip(text) == "recovery",
            Refused("unsupported_typed_execution_governed_operation_mode"));
    Ok(Strip(text))
  }

  // --------------------------------------------------------------- blockers

  function Expiry(env: Env, d: Decision): Result<Option<int>, GovError> {
    match d.authorization
    case None => Ok(None)
    case Some(a) =>
      var t :- ParseTime(env, a.expiresAt, "invalid_authorization_expires_at");
      Ok(Some(t))
  }

  predicate Expired(expiry: Option<int>, at: int) {
    expiry.Some? && at >= expiry.value
  }

  /** The list both versions accumulate; only v0.2 compares the decision's controls with the plugin. */
  function RawBlockers(d: Decision, plugin: Option<Plugin>, expired: bool): seq<string> {
    (if d.Allowed() then [] else ["governance_decision_not_allowed"] + d.blockers)
    + (if plugin.None? || d.controls.allowedBackendClasses == [plugin.value.backend] then []
       else ["plugin_backend_policy_control_mismatch"])
    + (if plugin.None? || d.controls.allowedNetworkEgress == [plugin.value.egress] then []
       else ["plugin_egress_policy_control_mismatch"])
    + (if expired then ["governance_decision_expired"] else [])
  }

  function BlockersAt(d: Decision, plugin: Option<Plugin>, expiry: Option<int>, at: int): seq<string> {
    Dedup(RawBlockers(d, plugin, Expired(expiry, at)))
  }

  /** `_governed_v02_decision_blockers`; without a plugin, the accumulation of v0.1. */
  method DecisionBlockers(d: Decision, plugin: Option<Plugin>, expiry: Option<int>, at: int)
    returns (blockers: seq<string>)
    ensures blockers == BlockersAt(d, plugin, expiry, at)
  {
    hide Dedup;
    blockers := [];
    if !d.Allowed() {
      blockers := blockers + ["governance_decision_not_allowed"];
      blockers := blockers + d.blockers;
    }
    if plugin.Some? {
      if d.controls.allowedBackendClasses != [plugin.value.backend] {
        blockers := blockers + ["plugin_backend_policy_control_mismatch"];
      }
      if d.controls.allowedNetworkEgress != [plugin.value.egress] {
        blockers := blockers + ["plugin_egress_policy_control_mismatch"];
      }
    }
    if expiry.Some? && at >= expiry.value {
      blockers := blockers + ["governance_decision_expired"];
    }
    assert blockers == RawBlockers(d, plugin, Expired(expiry, at));
    return Dedup(blockers);
  }

  // --------------------------------------------------------------- shape

  function CheckBoundIds(b: Bound): Result<(), GovError> {
    hide Strip;
    :- NonBlank(b.requestId, "missing_typed_execution_governed_request_id");
    :- NonBlank(b.transactionId, "missing_typed_execution_governed_transaction_id");
    :- NonBlank(b.decisionId, "missing_typed_execution_governed_decision_id");
    :- NonBlank(b.operationId, "missing_typed_execution_governed_operation_id");
    :- NonBlank(b.stepId, "missing_typed_execution_governed_step_id");
    :- NonBlank(b.attemptId, "missing_typed_execution_governed_attempt_id");
    :- NonBlank(b.runtimeInstanceId, "missing_typed_execution_governed_runtime_instance_id");
    :- NonBlank(b.leaseId, "missing_typed_execution_governed_lease_id");
    :- AtLeastZero(b.leaseEpoch, "invalid_typed_execution_governed_lease_epoch");
    :- AtLeastZero(b.inventoryEpoch, "invalid_typed_execution_governed_inventory_epoch");
    :- AtLeastZero(b.policyEpoch, "invalid_typed_execution_governed_policy_epoch");
    Ok(())
  }

  function CheckBoundDigests(b: Bound): Result<(), GovError> {
    hide IsSha256;
    :- Sha(b.fencingTokenDigest, "invalid_typed_execution_governed_fencing_token_digest");
    :- Sha(b.typedRequestDigest, "invalid_typed_execution_governed_typed_execution_request_digest");
    :- Sha(b.projectionDigest, "invalid_typed_execution_governed_typed_execution_governance_projection_digest");
    :- Sha(b.reportDigest, "invalid_typed_execution_governed_typed_execution_capability_compatibility_digest");
    :- Sha(b.bundleDigest, "invalid_typed_execution_governed_typed_execution_bundle_digest");
    :- Sha(b.governanceRequestDigest, "invalid_typed_execution_governed_governance_request_digest");
    :- Sha(b.decisionDigest, "invalid_typed_execution_governed_governance_decision_digest");
    :- Sha(b.executionSpecDigest, "invalid_typed_execution_governed_execution_spec_digest");
    :- Sha(b.executionFactsDigest, "invalid_typed_execution_governed_execution_facts_digest");
    :- Sha(b.payloadDigest, "invalid_typed_execution_governed_payload_digest");
    :- Sha(b.requestedScopeDigest, "invalid_typed_execution_governed_requested_scope_digest");
    :- Sha(b.inventoryDigest, "invalid_typed_execution_governed_capability_inventory_digest");
    :- Sha(b.policyPackDigest, "invalid_typed_execution_governed_policy_pack_digest");
    Ok(())
  }

  function CheckDiscounted(a: Admission): Result<(), GovError> {
    match a.plugin
    case None =>
      :- Need(a.discounted != [], Refused("typed_execution_mutation_approval_blocker_required"));
      :- Need(forall b :: b in a.discounted ==> IsApproval(b), Refused("invalid_discounted_typed_execution_blocker"));
      Ok(())
    case Some(_) =>
      :- Need(|Keep(IsApproval, a.discounted)| == 1,
              Refused("typed_execution_governed_v02_single_approval_blocker_required"));
      :- Need(|a.discounted| == 2 && UnsupportedBackendClass in a.discounted,
              Refused("invalid_discounted_typed_execution_v02_blockers"));
      Ok(())
  }

  function CheckPlugin(a: Admission): Result<(), GovError> {
    match a.plugin
    case None => Ok(())
    case Some(p) =>
      :- Need(p.backend != "" && !IsBuiltin(p.backend) && !IsRawShell(p.backend),
              Refused("invalid_typed_execution_governed_v02_plugin_backend"));
      :- Need(IsContained(p.egress), Refused("invalid_typed_execution_governed_v02_plugin_egress"));
      :- Need(IsPluginIdentity(p.identity), Refused("invalid_typed_execution_governed_v02_plugin_identity"));
      :- Need(p.capabilities != [] && SortedSet(p.capabilities),
              Refused("invalid_typed_execution_governed_v02_plugin_capabilities"));
      :- Sha(p.requirementsDigest, "invalid_typed_execution_governed_v02_capability_requirements_digest");
      :- Need(SortedSet(p.allowedBackends), Refused("invalid_typed_execution_governed_v02_decision_backend_controls"));
      :- Need(SortedSet(p.allowedEgress), Refused("invalid_typed_execution_governed_v02_decision_egress_controls"));
      :- Need(a.Allowed() ==> p.allowedBackends == [p.backend],
              Refused("typed_execution_governed_v02_decision_backend_control_mismatch"));
      :- Need(a.Allowed() ==> p.allowedEgress == [p.egress],
              Refused("typed_execution_governed_v02_decision_egress_control_mismatch"));
      Ok(())
  }

  function VersionOf(a: Admission): Version {
    if a.plugin.None? then V01 else V02
  }

  function DecisionExpiry(env: Env, a: Admission): Result<Option<int>, GovError> {
    if a.decisionExpiresAt == "" then Ok(None)
    else
      var t :- ParseTime(env, a.decisionExpiresAt, "invalid_typed_execution_governed_decision_expires_at");
      Ok(Some(t))
  }

  /** An admission that passed has no blockers and was made before the decision expired. */
  function CheckVerdict(env: Env, a: Admission): Result<(), GovError> {
    var admittedAt :- ParseTime(env, a.admittedAt, "invalid_typed_execution_governed_admitted_at");
    var expires :- DecisionExpiry(env, a);
    if a.Allowed() then CheckPassed(a, admittedAt, expires) else CheckBlocked(a)
  }

  function CheckPassed(a: Admission, admittedAt: int, expires: Option<int>): Result<(), GovError> {
    if a.blockers != [] then Err(Refused("allowed_typed_execution_governed_admission_with_blockers"))
    else if a.reasonCode != Passed(VersionOf(a)) then Err(Refused("typed_execution_governed_admission_reason_mismatch"))
    else if a.bound.approvalDigest == "" then Err(Refused("typed_execution_governed_approval_attestation_required"))
    else if expires.None? then Err(Refused("typed_execution_governed_decision_expiry_required"))
    else if admittedAt >= expires.value then Err(Refused("allowed_typed_execution_governed_admission_expired"))
    else Ok(())
  }

  function CheckBlocked(a: Admission): Result<(), GovError> {
    if a.blockers == [] then Err(Refused("blocked_typed_execution_governed_admission_without_blockers"))
    else if a.reasonCode != a.blockers[0] then Err(Refused("typed_execution_governed_admission_reason_mismatch"))
    else Ok(())
  }

  /** `_validate_admission_shape` and `_validate_admission_v02_shape`. */
  function CheckShape(te: TypedEnv, env: Env, a: Admission): Result<(), GovError> {
    hide CheckDiscounted, CheckBoundIds, CheckBoundDigests, CheckVerdict, CheckPlugin, IsSha256, IsAscii;
    :- Need(a.status in {"passed", "blocked"}, Refused("unknown_typed_execution_governed_admission_status"));
    :- Need(a.actualMode in {"apply", "recovery"}, Refused("unsupported_typed_execution_governed_operation_mode"));
    :- Need(a.bound.typedMode == "apply", Refused("typed_execution_governed_apply_alias_required"));
    :- Need(a.bound.sideEffectClass == "mutation", Refused("typed_execution_governed_mutation_posture_required"));
    var _ :- CheckDiscounted(a);
    var _ :- CheckBoundIds(a.bound);
    var _ :- CheckBoundDigests(a.bound);
    :- Need(a.bound.approvalDigest != "" ==> IsSha256(a.bound.approvalDigest),
            Refused("invalid_typed_execution_governed_approval_attestation_digest"));
    var _ :- CheckVerdict(env, a);
    var _ :- CheckPlugin(a);
    :- Same(te.admissionDigest(a.(digest := "")), a.digest, "typed_execution_governed_admission_digest_mismatch");
    Ok(())
  }

  // ------------------------------------------------------------ record bindings

  function Lookup(items: seq<Item>, name: string): Option<Value> {
    if items == [] then None
    else if items[0].key == TextKey(U(name)) then Some(items[0].value)
    else Lookup(items[1..], name)
  }

  function Member(v: Value, name: string): Option<Value> {
    if v.Dict? then Lookup(v.items, name) else None
  }

  /** `_validate_typed_governance_request_binding`: the facts name the typed request and the actual mode. */
  function BindTyped(te: TypedEnv, t: TypedRequest, r: Request, actualMode: string): Result<(), GovError> {
    var mode :- Mode(actualMode);
    var metadata := Member(r.executionFacts, "metadata");
    :- Need(metadata.Some? && metadata.value.Dict?, Refused("typed_execution_governed_facts_metadata_required"));
    :- Need(t.operationId == r.operationId, Refused("typed_execution_governed_operation_id_mismatch"));
    :- Need(t.stepId == r.stepId, Refused("typed_execution_governed_step_id_mismatch"));
    :- Need(t.specDigest == r.executionSpecDigest, Refused("typed_execution_governed_execution_spec_digest_mismatch"));
    :- Need(t.payloadDigest == r.payloadDigest, Refused("typed_execution_governed_payload_digest_mismatch"));
    :- Need(t.sideEffectClass == r.sideEffectClass, Refused("typed_execution_governed_side_effect_class_mismatch"));
    :- Need(Member(metadata.value, "typed_execution_governance_request_digest") == Some(S(te.requestDigest(t))),
            Refused("typed_execution_governed_facts_request_digest_mismatch"));
    :- Need(Member(metadata.value, "actual_operation_mode") == Some(S(mode)),
            Refused("typed_execution_governed_actual_operation_mode_mismatch"));
    Ok(())
  }

  function BoundTo(te: TypedEnv, env: Env, t: TypedRequest, r: Request, d: Decision): Result<Bound, GovError> {
    hide RequestDigest, ApprovalDigest;
    var requestDigest :- RequestDigest(env.hash, r);
    var approvalDigest :- ApprovalDigest(env, r.approval);
    Ok(Bound(
         t.operationMode, t.requestId, r.transactionId, d.decisionId, r.operationId, r.stepId, r.attemptId,
         r.runtimeInstanceId, r.leaseId, r.leaseEpoch, r.fencingTokenDigest, te.requestDigest(t),
         te.projectionDigest(t), te.reportDigest(t), te.bundleDigest(t), requestDigest, d.decisionDigest,
         approvalDigest, r.executionSpecDigest, r.executionFactsDigest, r.payloadDigest, r.requestedScopeDigest,
         r.inventoryDigest, r.inventory.inventoryEpoch, r.policyPackDigest, r.policyEpoch, r.sideEffectClass))
  }

  function PostureReason(version: Version, fault: PostureFault): string {
    match (version, fault)
    case (V01, WrongVersion) => "unsupported_typed_execution_governed_request_version"
    case (V01, WrongMode) => "typed_execution_governed_apply_alias_required"
    case (V01, WrongEffect) => "typed_execution_governed_mutation_posture_required"
    case (V01, WrongDescriptorMode) => "typed_execution_governed_capability_apply_alias_required"
    case (V02, WrongVersion) => "unsupported_typed_execution_governed_v02_request_version"
    case (V02, WrongMode) => "typed_execution_governed_v02_apply_alias_required"
    case (V02, WrongEffect) => "typed_execution_governed_v02_mutation_posture_required"
    case (V02, WrongDescriptorMode) => "typed_execution_governed_v02_capability_apply_alias_required"
  }

  function LiftPrecheck<T>(version: Version, r: Result<T, PrecheckError>): Result<T, GovError> {
    match r
    case Ok(v) => Ok(v)
    case Err(NotMutating(fault)) => Err(Refused(PostureReason(version, fault)))
    case Err(Posed(reason)) => Err(Refused(reason))
    case Err(NoApprovalBlocker) => Err(Refused("typed_execution_mutation_approval_blocker_required"))
    case Err(NotOneApprovalBlocker) => Err(Refused("typed_execution_governed_v02_single_approval_blocker_required"))
    case Err(NoBackendBlocker) => Err(Refused("typed_execution_governed_v02_unsupported_backend_blocker_required"))
    case Err(NotTwoDiscounted) => Err(Refused("invalid_discounted_typed_execution_v02_blockers"))
    case Err(Residual(_)) =>
      Err(Refused(if version == V01 then "typed_execution_governed_precheck_blocked"
                  else "typed_execution_governed_v02_precheck_blocked"))
  }

  /** The precheck of one version: the discounted blockers, and for v0.2 the plugin's posture. */
  function PrecheckFor(version: Version, env: Env, t: TypedRequest, r: Request, d: Decision)
    : Result<(seq<Blocker>, Option<Plugin>), GovError>
  {
    hide Precheck, PluginPrecheck, RequirementsDigest, LiftPrecheck;
    match version
    case V01 =>
      var discounted :- LiftPrecheck(V01, Precheck(t));
      Ok((discounted, None))
    case V02 =>
      var discounted :- LiftPrecheck(V02, PluginPrecheck(t, r));
      var requirementsDigest :- RequirementsDigest(env, r.requirements);
      Ok((discounted,
          Some(Plugin(t.descriptor.backendClass, t.descriptor.egressClass, t.descriptor.identityClass,
                      t.descriptor.declared, requirementsDigest, d.controls.allowedBackendClasses,
                      d.controls.allowedNetworkEgress))))
  }

  // ----------------------------------------------------------------- validation

  /** The records are each valid by themselves. */
  function CheckOwners(
    version: Version, te: TypedEnv, env: Env, a: Admission, t: TypedRequest, r: Request, d: Decision)
    : Result<(), GovError>
  {
    hide CheckShape, ValidateRequest, ValidateDecisionFor;
    :- Need(VersionOf(a) == version, Refused("unsupported_typed_execution_governed_admission_version"));
    var _ :- CheckShape(te, env, a);
    :- te.shape(t);
    var _ :- ValidateRequest(env, r);
    var _ :- ValidateDecisionFor(env, d, r);
    Ok(())
  }

  /** The admission states what its owner records say. */
  function CheckBindings(
    te: TypedEnv, env: Env, a: Admission, t: TypedRequest, r: Request, d: Decision,
    discounted: seq<Blocker>, plugin: Option<Plugin>): Result<(), GovError>
  {
    hide ApprovalDigest, BoundTo, IsAscii;
    var approvalDigest :- ApprovalDigest(env, r.approval);
    :- Same(d.approvalDigest, approvalDigest,
            "typed_execution_governed_decision_approval_attestation_digest_mismatch");
    var bound :- BoundTo(te, env, t, r, d);
    :- Need(a.bound == bound, Refused("typed_execution_governed_binding_mismatch"));
    :- Need(a.discounted == discounted, Refused("discounted_typed_execution_blockers_mismatch"));
    :- Need(a.plugin == plugin, Refused("typed_execution_governed_v02_plugin_mismatch"));
    :- Need(a.decisionExpiresAt == (if d.authorization.None? then "" else d.authorization.value.expiresAt),
            Refused("typed_execution_governed_decision_expiry_mismatch"));
    Ok(())
  }

  /** Everything in the validation that does not depend on when it happens; returns the admission time, the
      authorization's expiry and the plugin posture. */
  function CheckRecords(
    version: Version, te: TypedEnv, env: Env, a: Admission, t: TypedRequest, r: Request, d: Decision)
    : Result<(int, Option<int>, Option<Plugin>), GovError>
  {
    hide CheckOwners, PrecheckFor, BindTyped, CheckBindings, Expiry, NotBeforeIssue;
    var _ :- CheckOwners(version, te, env, a, t, r, d);
    var admittedAt :- ParseTime(env, a.admittedAt, "invalid_typed_execution_governed_admitted_at");
    var (discounted, plugin) :- PrecheckFor(version, env, t, r, d);
    var _ :- BindTyped(te, t, r, a.actualMode);
    var _ :- CheckBindings(te, env, a, t, r, d, discounted, plugin);
    var expiry :- Expiry(env, d);
    var _ :- NotBeforeIssue(env, d, admittedAt);
    Ok((admittedAt, expiry, plugin))
  }

  function NotBeforeIssue(env: Env, d: Decision, admittedAt: int): Result<(), GovError> {
    match d.authorization
    case None => Ok(())
    case Some(g) =>
      var issued :- ParseTime(env, g.issuedAt, "invalid_authorization_issued_at");
      :- Need(d.Allowed() ==> admittedAt >= issued,
              Refused("typed_execution_governed_admission_precedes_authorization"));
      Ok(())
  }

  /** `validate_typed_execution_governed_admission` and its v0.2 form, at the instant `now`. */
  function Validate(
    version: Version, te: TypedEnv, env: Env, a: Admission, t: TypedRequest, r: Request, d: Decision, now: int)
    : Result<Admission, GovError>
  {
    hide CheckRecords, BlockersAt, Expired;
    var (admittedAt, expiry, plugin) :- CheckRecords(version, te, env, a, t, r, d);
    :- Need(admittedAt <= now, Refused("typed_execution_governed_admitted_at_in_future"));
    :- Need(version == V01 && Expired(expiry, now) ==> !a.Allowed(),
            Refused("typed_execution_governed_decision_expired"));
    :- Need(a.blockers == BlockersAt(d, plugin, expiry, now), Refused("typed_execution_governed_blockers_mismatch"));
    Ok(a)
  }

  // ------------------------------------------------------------------ evaluation

  function Sealed(te: TypedEnv, a: Admission): Admission {
    a.(digest := te.admissionDigest(a.(digest := "")))
  }

  /** The admission as built from what evaluation found. */
  function Built(
    version: Version, te: TypedEnv, env: Env, mode: string, bound: Bound, discounted: seq<Blocker>,
    plugin: Option<Plugin>, d: Decision, expiry: Option<int>, admittedAt: int): Admission
  {
    hide BlockersAt;
    var blockers := BlockersAt(d, plugin, expiry, admittedAt);
    Sealed(te, Admission(
      if blockers == [] then "passed" else "blocked",
      if blockers == [] then Passed(version) else blockers[0],
      mode, bound, discounted, blockers, env.stamp(admittedAt),
      if d.authorization.None? then "" else d.authorization.value.expiresAt, "", plugin))
  }

  function Project(
    version: Version, te: TypedEnv, env: Env, t: TypedRequest, r: Request, d: Decision, mode: string, admittedAt: int)
    : Result<Admission, GovError>
  {
    hide PrecheckFor, Expiry, BoundTo, Built;
    var (discounted, plugin) :- PrecheckFor(version, env, t, r, d);
    var expiry :- Expiry(env, d);
    var bound :- BoundTo(te, env, t, r, d);
    Ok(Built(version, te, env, mode, bound, discounted, plugin, d, expiry, admittedAt))
  }

  function PrecheckAlone(version: Version, t: TypedRequest, r: Request): Result<seq<Blocker>, GovError> {
    LiftPrecheck(version, if version == V01 then Precheck(t) else PluginPrecheck(t, r))
  }

  /** `evaluate_typed_execution_governed_admission` and its v0.2 form. */
  function Evaluate(
    version: Version, te: TypedEnv, e: Engine, t: TypedRequest, r: Request, actualMode: string, call: Call,
    admittedAt: int): Result<(Admission, Decision), GovError>
  {
    hide ValidateRequest, Mode, PrecheckAlone, BindTyped, EvaluateGovernance, Project, Validate;
    :- te.shape(t);
    var _ :- ValidateRequest(e.env, r);
    var mode :- Mode(actualMode);
    :- Need(admittedAt >= call.at, Refused("typed_execution_governed_admission_precedes_evaluation"));
    var _ :- PrecheckAlone(version, t, r);
    var _ :- BindTyped(te, t, r, mode);
    var d :- EvaluateGovernance(e, r, call);
    var a :- Project(version, te, e.env, t, r, d, mode, admittedAt);
    var checked :- Validate(version, te, e.env, a, t, r, d, admittedAt);
    Ok((checked, d))
  }

  // ------------------------------------------------------------ validity over time

  /** The same side of the expiry: both before it or both at or after it. */
  predicate SameSide(expiry: Option<int>, t: int, u: int) {
    Expired(expiry, t) == Expired(expiry, u)
  }

  lemma LastStaysOut(s: seq<string>, x: string)
    requires x !in s
    ensures Dedup(s + [x]) == Dedup(s) + [x]
  {
    DedupKeepsElements(s);
    assert (s + [x])[..|s|] == s;
  }

  /** For a decision with an authorization, the expiry blocker appears exactly once the expiry is reached. */
  lemma BlockersShowExpiry(d: Decision, plugin: Option<Plugin>, expiry: Option<int>, t: int, u: int)
    requires d.Allowed()
    ensures BlockersAt(d, plugin, expiry, t) == BlockersAt(d, plugin, expiry, u) <==> SameSide(expiry, t, u)
  {
    hide Dedup;
    var calm := RawBlockers(d, plugin, false);
    assert RawBlockers(d, plugin, true) == calm + ["governance_decision_expired"];
    assert calm + [] == calm;
    LastStaysOut(calm, "governance_decision_expired");
  }

  lemma BlockersWithoutExpiry(d: Decision, plugin: Option<Plugin>, t: int, u: int)
    ensures BlockersAt(d, plugin, None, t) == BlockersAt(d, plugin, None, u)
  {
  }

  /** An admission that validates at one instant validates at another exactly when that is not before the admission was
      made and lies on the same side of the authorization's expiry. */
  lemma ValidityOverTime(
    version: Version, te: TypedEnv, env: Env, a: Admission, t: TypedRequest, r: Request, d: Decision,
    once: int, now: int) returns (admittedAt: int, expiry: Option<int>)
    requires Validate(version, te, env, a, t, r, d, once).Ok?
    ensures env.parse(a.admittedAt) == Some(admittedAt) && Expiry(env, d) == Ok(expiry)
    ensures Validate(version, te, env, a, t, r, d, now).Ok? <==>
              now >= admittedAt && (d.authorization.None? || SameSide(expiry, once, now))
  {
    hide CheckRecords, BlockersAt;
    var plugin;
    admittedAt, expiry, plugin := RecordTimes(version, te, env, a, t, r, d);
    if d.authorization.Some? {
      BlockersShowExpiry(d, plugin, expiry, once, now);
    } else {
      BlockersWithoutExpiry(d, plugin, once, now);
    }
  }

  /** What the time-independent checks return and imply. */
  lemma RecordTimes(version: Version, te: TypedEnv, env: Env, a: Admission, t: TypedRequest, r: Request, d: Decision)
    returns (admittedAt: int, expiry: Option<int>, plugin: Option<Plugin>)
    requires CheckRecords(version, te, env, a, t, r, d).Ok?
    ensures CheckRecords(version, te, env, a, t, r, d) == Ok((admittedAt, expiry, plugin))
    ensures env.parse(a.admittedAt) == Some(admittedAt) && Expiry(env, d) == Ok(expiry)
    ensures if d.authorization.Some? then d.Allowed() else expiry.None?
  {
    hide CheckOwners, CheckBindings, BindTyped, PrecheckFor, NotBeforeIssue, CheckDecision;
    OwnersAreValid(version, te, env, a, t, r, d);
    GrantedIsAllowed(env, d);
    admittedAt, expiry, plugin := CheckRecords(version, te, env, a, t, r, d).value.0,
                                  CheckRecords(version, te, env, a, t, r, d).value.1,
                                  CheckRecords(version, te, env, a, t, r, d).value.2;
  }

  lemma OwnersAreValid(version: Version, te: TypedEnv, env: Env, a: Admission, t: TypedRequest, r: Request, d: Decision)
    requires CheckOwners(version, te, env, a, t, r, d).Ok?
    ensures CheckDecision(env, d).Ok?
  {
    hide CheckShape, ValidateRequest, CheckDecision, BindDecision;
  }

  lemma GrantedIsAllowed(env: Env, d: Decision)
    ensures CheckDecision(env, d).Ok? && d.authorization.Some? ==> d.Allowed()
  {
    hide IsSha256, Strip, CheckAuthorization, DecisionBodyDigest, Same;
  }

  lemma ReturnedIsValidated(
    version: Version, te: TypedEnv, e: Engine, t: TypedRequest, r: Request, actualMode: string, call: Call,
    admittedAt: int, a: Admission, d: Decision)
    requires ClockOk(e.env) && Evaluate(version, te, e, t, r, actualMode, call, admittedAt) == Ok((a, d))
    ensures Validate(version, te, e.env, a, t, r, d, admittedAt).Ok?
    ensures e.env.parse(a.admittedAt) == Some(admittedAt) && EvaluateGovernance(e, r, call) == Ok(d)
  {
    hide EvaluateGovernance, Validate, ValidateRequest, BindTyped, Project, PrecheckAlone, Mode;
    var built := Project(version, te, e.env, t, r, d, Mode(actualMode).value, admittedAt).value;
    ProjectedTime(version, te, e.env, t, r, d, Mode(actualMode).value, admittedAt, built);
    ValidateReturns(version, te, e.env, built, t, r, d, admittedAt);
  }

  lemma ProjectedTime(
    version: Version, te: TypedEnv, env: Env, t: TypedRequest, r: Request, d: Decision, mode: string, admittedAt: int,
    a: Admission)
    requires ClockOk(env) && Project(version, te, env, t, r, d, mode, admittedAt) == Ok(a)
    ensures env.parse(a.admittedAt) == Some(admittedAt)
  {
    hide PrecheckFor, Expiry, BoundTo, BlockersAt, Passed;
  }

  lemma ValidateReturns(
    version: Version, te: TypedEnv, env: Env, a: Admission, t: TypedRequest, r: Request, d: Decision, now: int)
    ensures Validate(version, te, env, a, t, r, d, now).Ok? ==> Validate(version, te, env, a, t, r, d, now) == Ok(a)
  {
    hide CheckRecords, BlockersAt, Expired;
  }

  /** A returned admission validates again at `now` exactly when `now` is not before the admission and its decision has
      no authorization or `now` is on the admission's side of the authorization expiry; in both versions. */
  lemma AdmissionValidity(
    version: Version, te: TypedEnv, e: Engine, t: TypedRequest, r: Request, actualMode: string, call: Call,
    admittedAt: int, a: Admission, d: Decision, now: int) returns (expiry: Option<int>)
    requires ClockOk(e.env) && Evaluate(version, te, e, t, r, actualMode, call, admittedAt) == Ok((a, d))
    ensures Expiry(e.env, d) == Ok(expiry)
    ensures Validate(version, te, e.env, a, t, r, d, now).Ok? <==>
              now >= admittedAt && (d.authorization.None? || SameSide(expiry, admittedAt, now))
  {
    hide Evaluate, EvaluateGovernance, Validate, Expiry, Expired;
    ReturnedIsValidated(version, te, e, t, r, actualMode, call, admittedAt, a, d);
    var made;
    made, expiry := ValidityOverTime(version, te, e.env, a, t, r, d, admittedAt, now);
  }
}
