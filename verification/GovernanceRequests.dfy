/** Validation of governance requests and of the approvals attached to them
    (`govengine/governance.py`, `govengine/approvals.py`). */
module GovernanceRequests {
  import opened Prelude
  import opened PyStrings
  import opened PyValues
  import opened CanonicalRecord
  import opened Readback
  import opened RecordText
  import opened BoundedTraversal
  import opened BoundedCopy
  import opened TraversalAgreement
  import opened GovernanceRecords

  /** What validation takes from outside: the hash, key normalisation, the policy compiler, the checks on
      members kept in `rest`, and timestamp text as integer instants. */
  datatype Env = Env(
    hash: Hash,
    normalise: Str -> Str, forbidden: set<Str>, selfAuthorized: set<Str>, rawDestination: set<Str>,
    compile: PolicyPack -> Result<PolicyPack, string>,
    scopePolicyShape: ScopePolicyBinding -> Check<GovError>,
    requirementsShape: CapabilityRequirements -> Check<GovError>,
    inventoryShape: CapabilityInventory -> Check<GovError>,
    parse: string -> Option<int>, stamp: int -> string)

  /** Printing an instant and parsing it back gives the instant. */
  ghost predicate ClockOk(env: Env) {
    forall t: int :: env.parse(env.stamp(t)) == Some(t) && Strip(env.stamp(t)) != ""
  }

  // ------------------------------------------------------------ small checks

  function NonBlank(text: string, reason: string): Check<GovError> {
    Need(Strip(text) != "", Refused(reason))
  }

  function Sha(text: string, reason: string): Check<GovError> {
    Need(IsSha256(text), Refused(reason))
  }

  function AtLeastZero(i: int, reason: string): Check<GovError> {
    Need(i >= 0, Refused(reason))
  }

  /** `hmac.compare_digest` on two strings: a type error unless both are ASCII. */
  function CompareDigest(actual: string, expected: string): Result<bool, GovError> {
    if IsAscii(actual) && IsAscii(expected) then Ok(actual == expected) else Err(NonAsciiComparison)
  }

  function Same(actual: string, expected: string, reason: string): Check<GovError> {
    match CompareDigest(actual, expected)
    case Ok(same) => Need(same, Refused(reason))
    case Err(e) => Fail(e)
  }

  function ParseTime(env: Env, text: string, reason: string): Result<int, GovError> {
    match env.parse(text)
    case Some(t) => Ok(t)
    case None => Err(Refused(reason))
  }

  lemma Sha256IsAscii(s: string)
    requires IsSha256(s)
    ensures IsAscii(s) && Strip(s) != ""
  {
    assert forall i :: 0 <= i < 7 ==> s[i] == s[..7][i];
    assert forall i :: 7 <= i < |s| ==> s[i] == s[7..][i - 7];
    assert s[0] == s[..7][0];
    StripKeepsVisible(s);
  }

  lemma {:induction false} StripKeepsVisible(s: string)
    requires s != "" && !IsSpace(s[0])
    ensures StripRight(s) != ""
  {
    if IsSpace(s[|s| - 1]) {
      StripKeepsVisible(s[..|s| - 1]);
    }
  }

  // --------------------------------------------------- bounded, clean inputs

  function Looking(env: Env, keys: set<Str>): Query {
    Query(env.normalise, keys, DEFAULT_LIMITS)
  }

  /** `_bounded_mapping`: a non-empty mapping within all limits, copied. */
  function Bounded(v: Value, reason: string): Result<Value, GovError> {
    hide Copy;
    :- Need(v.Dict?, Refused(reason));
    match Copy(DEFAULT_LIMITS, true, v)
    case Err(breach) => Err(OutOfBounds(breach))
    case Ok(copied) => if copied == Dict([]) then Err(Refused(reason)) else Ok(copied)
  }

  function RejectKeys(env: Env, keys: set<Str>, v: Value, reason: string): Check<GovError> {
    match ScanFrom(Looking(env, keys), ViewOf, v, 0, 0).0
    case Clear => Pass
    case Found(_) => Fail(Refused(reason))
    case Breached(breach) => Fail(OutOfBounds(breach))
  }

  function FactsDigest(env: Env, facts: Value): Result<string, GovError> {
    var copied :- Bounded(facts, "invalid_governance_execution_facts");
    :- RejectKeys(env, env.forbidden, copied, "forbidden_governance_input");
    DigestOf(env.hash, "govengine.governance.ExecutionFacts", copied)
  }

  /** `validate_requested_scope`: scanned three times before it is copied. */
  function CheckedScope(env: Env, scope: Value): Result<Value, GovError> {
    hide RejectKeys, Bounded;
    :- Need(scope.Dict?, Refused("invalid_requested_scope"));
    :- RejectKeys(env, env.forbidden, scope, "forbidden_governance_input");
    :- RejectKeys(env, env.selfAuthorized, scope, "self_authorized_scope_policy");
    :- RejectKeys(env, env.rawDestination, scope, "raw_destination_detail_forbidden");
    Bounded(scope, "invalid_requested_scope")
  }

  function ScopeDigest(env: Env, scope: Value): Result<string, GovError> {
    var copied :- CheckedScope(env, scope);
    DigestOf(env.hash, "govengine.governance.RequestedScope", copied)
  }

  function DigestOf(h: Hash, recordType: string, v: Value): Result<string, GovError> {
    match RecordDigest(h, recordType, "v1", v)
    case Ok(d) => Ok(d)
    case Err(e) => Err(Undigestible(e))
  }

  const PACK := "govengine." + "policy.compiler.CompiledPolicyPack"
  const SCOPE_POLICY := "govengine." + "scope_policy.ScopePolicyBinding"
  const REQUIREMENTS := "govengine." + "capabilities.OperationCapabilityRequirements"
  const INVENTORY := "govengine." + "capabilities.CapabilityInventoryBinding"

  function ScopePolicyDigest(env: Env, b: ScopePolicyBinding): Result<string, GovError> {
    hide IsSha256, Digest;
    :- env.scopePolicyShape(b);
    :- Sha(b.policyPackDigest, "invalid_scope_policy_pack_digest");
    :- AtLeastZero(b.policyEpoch, "invalid_scope_policy_epoch");
    Digest(env.hash, SCOPE_POLICY, ScopePolicyFields(b))
  }

  function RequirementsDigest(env: Env, q: CapabilityRequirements): Result<string, GovError> {
    hide IsSha256, Digest;
    :- env.requirementsShape(q);
    :- Sha(q.executionSpecDigest, "invalid_capability_requirements_execution_spec_digest");
    Digest(env.hash, REQUIREMENTS, RequirementFields(q))
  }

  function InventoryDigest(env: Env, i: CapabilityInventory): Result<string, GovError> {
    hide Digest;
    :- env.inventoryShape(i);
    :- AtLeastZero(i.inventoryEpoch, "invalid_capability_inventory_epoch");
    Digest(env.hash, INVENTORY, InventoryFields(i))
  }

  // ------------------------------------------------------ request validation

  function CheckIdentity(r: Request): Result<(), GovError> {
    hide CheckRequestNames, CheckRequestForms;
    var _ :- CheckRequestNames(r);
    var _ :- CheckRequestForms(r);
    :- Need(r.sideEffectClass in {"read_only", "mutation"}, Refused("unsupported_governance_side_effect_class"));
    Ok(())
  }

  function CheckRequestNames(r: Request): Result<(), GovError> {
    if r.schemaVersion != "v1" then Err(Refused("unknown_governance_request_schema_version"))
    else
      :- NonBlank(r.transactionId, "missing_governance_transaction_id");
      :- NonBlank(r.operationId, "missing_governance_operation_id");
      :- NonBlank(r.stepId, "missing_governance_step_id");
      :- NonBlank(r.attemptId, "missing_governance_attempt_id");
      :- NonBlank(r.runtimeInstanceId, "missing_governance_runtime_instance_id");
      :- NonBlank(r.leaseId, "missing_governance_lease_id");
      :- AtLeastZero(r.policyEpoch, "invalid_governance_policy_epoch");
      :- AtLeastZero(r.leaseEpoch, "invalid_governance_lease_epoch");
      Ok(())
  }

  function CheckRequestForms(r: Request): Result<(), GovError> {
    hide IsSha256;
    :- Sha(r.policyPackDigest, "invalid_governance_policy_pack_digest");
    :- Sha(r.executionFactsDigest, "invalid_governance_execution_facts_digest");
    :- Sha(r.executionSpecDigest, "invalid_governance_execution_spec_digest");
    :- Sha(r.payloadDigest, "invalid_governance_payload_digest");
    :- Sha(r.requestedScopeDigest, "invalid_governance_requested_scope_digest");
    :- Sha(r.scopePolicyDigest, "invalid_scope_policy_binding_digest");
    :- Sha(r.requirementsDigest, "invalid_capability_requirements_digest");
    :- Sha(r.inventoryDigest, "invalid_capability_inventory_digest");
    :- Sha(r.fencingTokenDigest, "invalid_governance_fencing_token_digest");
    Ok(())
  }

  function CheckInputs(env: Env, r: Request): Result<(), GovError> {
    match env.compile(r.policyPack)
    case Err(reason) => Err(Refused(if reason == "" then "invalid_governance_policy_pack" else reason))
    case Ok(compiled) =>
      :- Need(compiled == r.policyPack, Refused("invalid_governance_policy_pack"));
      var _ :- Bounded(r.executionFacts, "invalid_governance_execution_facts");
      var _ :- Bounded(r.requestedScope, "invalid_governance_requested_scope");
      :- RejectKeys(env, env.forbidden, r.executionFacts, "forbidden_governance_input");
      :- RejectKeys(env, env.forbidden, r.requestedScope, "forbidden_governance_input");
      Ok(())
  }

  function CheckDigests(env: Env, r: Request): Result<(), GovError> {
    hide Digest, FactsDigest, ScopeDigest, ScopePolicyDigest, RequirementsDigest, InventoryDigest, IsAscii;
    var pack :- Digest(env.hash, PACK, PolicyPackFields(r.policyPack));
    :- Same(pack, r.policyPackDigest, "policy_pack_digest_mismatch");
    :- Need(r.policyPack.schemaVersion == "v1" ==> r.policyPack.policyEpoch == r.policyEpoch,
            Refused("policy_pack_epoch_mismatch"));
    var facts :- FactsDigest(env, r.executionFacts);
    :- Same(facts, r.executionFactsDigest, "execution_facts_digest_mismatch");
    var scope :- ScopeDigest(env, r.requestedScope);
    :- Same(scope, r.requestedScopeDigest, "requested_scope_digest_mismatch");
    var scopePolicy :- ScopePolicyDigest(env, r.scopePolicy);
    :- Same(scopePolicy, r.scopePolicyDigest, "scope_policy_binding_digest_mismatch");
    var requirements :- RequirementsDigest(env, r.requirements);
    :- Same(requirements, r.requirementsDigest, "capability_requirements_digest_mismatch");
    var inventory :- InventoryDigest(env, r.inventory);
    :- Same(inventory, r.inventoryDigest, "capability_inventory_digest_mismatch");
    Ok(())
  }

  function CheckCrossBindings(r: Request): Result<(), GovError> {
    hide IsAscii;
    :- Same(r.scopePolicy.policyPackDigest, r.policyPackDigest, "scope_policy_pack_digest_mismatch");
    :- Need(r.scopePolicy.policyEpoch == r.policyEpoch, Refused("scope_policy_epoch_mismatch"));
    :- Need(r.requirements.operationId == r.operationId, Refused("capability_requirements_operation_id_mismatch"));
    :- Need(r.requirements.stepId == r.stepId, Refused("capability_requirements_step_id_mismatch"));
    :- Same(r.requirements.executionSpecDigest, r.executionSpecDigest,
            "capability_requirements_execution_spec_digest_mismatch");
    :- Need(r.requirements.sideEffectClass == r.sideEffectClass,
            Refused("capability_requirements_side_effect_class_mismatch"));
    :- Need(r.inventory.runtimeInstanceId == r.runtimeInstanceId,
            Refused("capability_inventory_runtime_instance_id_mismatch"));
    Ok(())
  }

  /** `_validate_approval_attestation_shape`. */
  function CheckAttestation(env: Env, a: Attestation): Result<(), GovError> {
    hide Strip, IsSha256;
    :- Need(a.schemaVersion == "v1", Refused("unknown_approval_attestation_schema_version"));
    :- NonBlank(a.approvalId, "missing_approval_id");
    :- NonBlank(a.operationId, "missing_approval_operation_id");
    :- NonBlank(a.stepId, "missing_approval_step_id");
    :- NonBlank(a.attemptId, "missing_approval_attempt_id");
    :- NonBlank(a.sideEffectClass, "missing_approved_side_effect_class");
    :- NonBlank(a.approverRef, "missing_approval_approver_ref");
    :- NonBlank(a.approverRole, "missing_approval_approver_role");
    :- NonBlank(a.trustDomain, "missing_approval_trust_domain");
    :- NonBlank(a.issuedAt, "missing_approval_issued_at");
    :- NonBlank(a.notBefore, "missing_approval_not_before");
    :- NonBlank(a.expiresAt, "missing_approval_expires_at");
    :- NonBlank(a.revocationRef, "missing_approval_revocation_ref");
    :- Sha(a.subjectDigest, "invalid_approval_subject_digest");
    :- Sha(a.executionSpecDigest, "invalid_approval_execution_spec_digest");
    :- Sha(a.executionFactsDigest, "invalid_approval_execution_facts_digest");
    :- Sha(a.targetScopeDigest, "invalid_approval_target_scope_digest");
    :- Sha(a.policyPackDigest, "invalid_approval_policy_pack_digest");
    :- AtLeastZero(a.policyEpoch, "invalid_approval_policy_epoch");
    :- Need(a.sideEffectClass in {"read_only", "mutation"}, Refused("unsupported_approval_side_effect_class"));
    var issued :- ParseTime(env, a.issuedAt, "invalid_approval_issued_at");
    var notBefore :- ParseTime(env, a.notBefore, "invalid_approval_not_before");
    var expires :- ParseTime(env, a.expiresAt, "invalid_approval_expires_at");
    :- Need(issued < expires && notBefore < expires, Refused("invalid_approval_validity_window"));
    Ok(())
  }

  function CheckedAttestationDigest(env: Env, a: Attestation): Result<string, GovError> {
    hide CheckAttestation;
    var _ :- CheckAttestation(env, a);
    AttestationDigest(env.hash, a)
  }

  /** One identifier binding of an approval: non-blank ASCII on both sides, and equal. */
  function BindIdentifier(actual: string, expected: string, reason: string): Check<GovError> {
    if Strip(actual) == "" || !IsAscii(actual) then Fail(Refused("invalid_approval_binding_identifier"))
    else if Strip(expected) == "" || !IsAscii(expected) then Fail(Refused("invalid_governance_binding_identifier"))
    else Need(actual == expected, Refused(reason))
  }

  /** `_validate_request_binding`. */
  function BindApproval(env: Env, a: Attestation, r: Request): Result<(), GovError> {
    hide SubjectDigest, Strip, IsAscii;
    var subject :- SubjectDigest(env.hash, r);
    :- BindIdentifier(a.subjectDigest, subject, "approval_subject_digest_mismatch");
    :- BindIdentifier(a.operationId, r.operationId, "approval_operation_id_mismatch");
    :- BindIdentifier(a.stepId, r.stepId, "approval_step_id_mismatch");
    :- BindIdentifier(a.attemptId, r.attemptId, "approval_attempt_id_mismatch");
    :- BindIdentifier(a.executionSpecDigest, r.executionSpecDigest, "approval_execution_spec_digest_mismatch");
    :- BindIdentifier(a.executionFactsDigest, r.executionFactsDigest, "approval_execution_facts_digest_mismatch");
    :- BindIdentifier(a.targetScopeDigest, r.requestedScopeDigest, "approval_target_scope_digest_mismatch");
    :- BindIdentifier(a.policyPackDigest, r.policyPackDigest, "approval_policy_pack_digest_mismatch");
    :- BindIdentifier(a.sideEffectClass, r.sideEffectClass, "approval_side_effect_class_mismatch");
    :- Need(a.policyEpoch == r.policyEpoch, Refused("approval_policy_epoch_mismatch"));
    Ok(())
  }

  function CheckApproval(env: Env, r: Request): Result<(), GovError> {
    match r.approval
    case None => :- Need(r.approvalDigest == "", Refused("approval_attestation_without_payload")); Ok(())
    case Some(a) =>
      :- Sha(r.approvalDigest, "invalid_approval_attestation_digest");
      var d :- CheckedAttestationDigest(env, a);
      :- Same(d, r.approvalDigest, "approval_attestation_digest_mismatch");
      BindApproval(env, a, r)
  }

  /** `validate_governance_request`. */
  function ValidateRequest(env: Env, r: Request): Result<Request, GovError> {
    hide CheckIdentity, CheckInputs, CheckDigests, CheckCrossBindings, CheckApproval;
    var _ :- CheckIdentity(r);
    var _ :- CheckInputs(env, r);
    var _ :- CheckDigests(env, r);
    var _ :- CheckCrossBindings(r);
    var _ :- CheckApproval(env, r);
    Ok(r)
  }

  ghost predicate Valid(env: Env, r: Request) {
    ValidateRequest(env, r).Ok?
  }

  // ----------------------------------------------------- approval validation

  datatype TrustPolicy = TrustPolicy(
    policyId: string, roles: seq<string>, domains: seq<string>, approvers: seq<string>, requireSignature: bool)

  /** The host's revocation lookup: approval id, approval digest, revocation reference. */
  type Revocation = (string, string, string) -> bool

  function ValidateApproval(
    env: Env, a: Attestation, r: Request, trust: TrustPolicy, revoked: Revocation, now: int)
    : Result<Attestation, GovError>
  {
    hide CheckAttestation, ValidateRequest, BindApproval, CheckedAttestationDigest, IsAscii;
    var _ :- CheckAttestation(env, a);
    var _ :- ValidateRequest(env, r);
    var _ :- BindApproval(env, a, r);
    var d :- CheckedAttestationDigest(env, a);
    :- Need(r.approvalDigest != "", Refused("approval_attestation_digest_mismatch"));
    :- Same(r.approvalDigest, d, "approval_attestation_digest_mismatch");
    :- Need(a.approverRole in trust.roles, Refused("approval_role_not_trusted"));
    :- Need(a.trustDomain in trust.domains, Refused("approval_trust_domain_not_trusted"));
    :- Need(trust.approvers == [] || a.approverRef in trust.approvers, Refused("approval_approver_not_trusted"));
    :- Need(trust.requireSignature ==> a.signatureRef != "", Refused("approval_signature_ref_required"));
    var notBefore :- ParseTime(env, a.notBefore, "invalid_approval_not_before");
    var expires :- ParseTime(env, a.expiresAt, "invalid_approval_expires_at");
    :- Need(notBefore <= now, Refused("approval_not_yet_valid"));
    :- Need(now < expires, Refused("approval_expired"));
    :- Need(!revoked(a.approvalId, d, a.revocationRef), Refused("approval_revoked"));
    Ok(a)
  }

  /** Trust in an approval has no gaps: valid at two instants, it is valid at every instant between. */
  lemma ApprovalTrustHasNoGaps(
    env: Env, a: Attestation, r: Request, trust: TrustPolicy, revoked: Revocation, t1: int, t: int, t2: int)
    requires t1 <= t <= t2
    requires ValidateApproval(env, a, r, trust, revoked, t1).Ok?
    requires ValidateApproval(env, a, r, trust, revoked, t2).Ok?
    ensures ValidateApproval(env, a, r, trust, revoked, t).Ok?
  {
    hide CheckAttestation, ValidateRequest, BindApproval, CheckedAttestationDigest, Same, IsAscii;
  }
}
