/** The digest-bound records of one governance transaction (`govengine/governance.py`,
    `govengine/approvals.py`, `govengine/governance_decision.py`) and what a digest fixes about them. */
module GovernanceRecords {
  import opened Prelude
  import opened PyStrings
  import opened PyValues
  import opened CanonicalRecord
  import opened Readback
  import opened RecordText
  import opened BoundedTraversal

  datatype GovError =
    | Refused(reason: string)
    | Undigestible(error: RecordError)
    | OutOfBounds(breach: Breach)
    | NonAsciiComparison

  // ------------------------------------------------------------------ inputs

  /** Members of nested records that no check below looks at are kept as one value, `rest`. */
  datatype PolicyPack = PolicyPack(
    schemaVersion: string, policyId: string, version: string, issuerRef: string, policyEpoch: int,
    notBefore: string, expiresAt: string, rest: Value)

  datatype ScopePolicyBinding = ScopePolicyBinding(policyPackDigest: string, policyEpoch: int, rest: Value)

  datatype CapabilityRequirements = CapabilityRequirements(
    operationId: string, stepId: string, executionSpecDigest: string, sideEffectClass: string,
    requiredBackendClass: string, requiredCapabilities: seq<string>, rest: Value)

  datatype CapabilityInventory = CapabilityInventory(
    runtimeInstanceId: string, inventoryEpoch: int, backendClasses: seq<string>, capabilities: seq<string>, rest: Value)

  datatype Attestation = Attestation(
    approvalId: string, subjectDigest: string, operationId: string, stepId: string, attemptId: string,
    executionSpecDigest: string, executionFactsDigest: string, targetScopeDigest: string,
    policyPackDigest: string, policyEpoch: int, sideEffectClass: string, approverRef: string,
    approverRole: string, trustDomain: string, issuedAt: string, notBefore: string, expiresAt: string,
    revocationRef: string, schemaVersion: string, signatureRef: string)

  datatype Request = Request(
    transactionId: string, operationId: string, stepId: string, attemptId: string,
    policyPack: PolicyPack, policyPackDigest: string, policyEpoch: int,
    executionFacts: Value, executionFactsDigest: string, executionSpecDigest: string, payloadDigest: string,
    requestedScope: Value, requestedScopeDigest: string,
    scopePolicy: ScopePolicyBinding, scopePolicyDigest: string,
    requirements: CapabilityRequirements, requirementsDigest: string,
    inventory: CapabilityInventory, inventoryDigest: string,
    sideEffectClass: string, runtimeInstanceId: string, leaseId: string, leaseEpoch: int,
    fencingTokenDigest: string, schemaVersion: string,
    approval: Option<Attestation>, approvalDigest: string)

  // ----------------------------------------------------------------- outputs

  datatype Authorization = Authorization(
    authorizationId: string, operationId: string, stepId: string, attemptId: string,
    runtimeInstanceId: string, leaseId: string, leaseEpoch: int, fencingTokenDigest: string,
    executionSpecDigest: string, payloadDigest: string, requestedScopeDigest: string,
    inventoryDigest: string, inventoryEpoch: int, policyPackDigest: string, policyEpoch: int,
    issuedAt: string, expiresAt: string, nonce: string, consumeOnce: bool, schemaVersion: string)

  datatype Controls = Controls(
    timeoutSeconds: Float, maxSteps: int, maxOutputBytes: int, receiptRequired: bool,
    outputDigestRequired: bool, readOnlyRequired: bool, noRawShell: bool, mutationRequiresApproval: bool,
    allowedNetworkEgress: seq<string>, allowedBackendClasses: seq<string>,
    typedControlIds: seq<string>, controlIds: seq<string>)

  datatype Decision = Decision(
    decisionId: string, transactionId: string, requestDigest: string, status: string, reasonCode: string,
    policyEvaluationDigest: string, policyVerdictDigest: string, enforcementPlanDigest: string,
    governanceTraceDigest: string, scopeDecisionDigest: string, capabilityDigest: string,
    approvalDigest: string, controls: Controls, requiredControls: seq<string>, blockers: seq<string>,
    authorization: Option<Authorization>, schemaVersion: string, decisionDigest: string)
  {
    predicate Allowed() {
      status == "allowed"
    }
  }

  // ------------------------------------------------------------------ fields

  type Fields = seq<(string, Value)>

  function PolicyPackFields(p: PolicyPack): Fields {
    [("schema_version", S(p.schemaVersion)), ("policy_id", S(p.policyId)), ("version", S(p.version)),
     ("issuer_ref", S(p.issuerRef)), ("policy_epoch", N(p.policyEpoch)), ("not_before", S(p.notBefore)),
     ("expires_at", S(p.expiresAt)), ("rest", p.rest)]
  }

  function ScopePolicyFields(b: ScopePolicyBinding): Fields {
    [("policy_pack_digest", S(b.policyPackDigest)), ("policy_epoch", N(b.policyEpoch)), ("rest", b.rest)]
  }

  function RequirementFields(r: CapabilityRequirements): Fields {
    [("operation_id", S(r.operationId)), ("step_id", S(r.stepId)),
     ("execution_spec_digest", S(r.executionSpecDigest)), ("side_effect_class", S(r.sideEffectClass)),
     ("required_backend_class", S(r.requiredBackendClass)),
     ("required_capabilities", Texts(r.requiredCapabilities)), ("rest", r.rest)]
  }

  function InventoryFields(i: CapabilityInventory): Fields {
    [("runtime_instance_id", S(i.runtimeInstanceId)), ("inventory_epoch", N(i.inventoryEpoch)),
     ("backend_classes", Texts(i.backendClasses)), ("capabilities", Texts(i.capabilities)), ("rest", i.rest)]
  }

  function AttestationFields(a: Attestation): Fields {
    [("approval_id", S(a.approvalId)), ("subject_digest", S(a.subjectDigest)), ("operation_id", S(a.operationId)),
     ("step_id", S(a.stepId)), ("attempt_id", S(a.attemptId)), ("execution_spec_digest", S(a.executionSpecDigest)),
     ("execution_facts_digest", S(a.executionFactsDigest)), ("target_scope_digest", S(a.targetScopeDigest)),
     ("policy_pack_digest", S(a.policyPackDigest)), ("policy_epoch", N(a.policyEpoch)),
     ("approved_side_effect_class", S(a.sideEffectClass)), ("approver_ref", S(a.approverRef)),
     ("approver_role", S(a.approverRole)), ("trust_domain", S(a.trustDomain)), ("issued_at", S(a.issuedAt)),
     ("not_before", S(a.notBefore)), ("expires_at", S(a.expiresAt)), ("revocation_ref", S(a.revocationRef)),
     ("schema_version", S(a.schemaVersion)), ("signature_ref", S(a.signatureRef))]
  }

  function ApprovalValue(a: Option<Attestation>): Value {
    match a
    case None => Leaf(NoneValue)
    case Some(attestation) => Record(AttestationFields(attestation))
  }

  function RequestFields(r: Request): Fields {
    [("transaction_id", S(r.transactionId)), ("operation_id", S(r.operationId)), ("step_id", S(r.stepId)),
     ("attempt_id", S(r.attemptId)), ("policy_pack", Record(PolicyPackFields(r.policyPack))),
     ("policy_pack_digest", S(r.policyPackDigest)), ("policy_epoch", N(r.policyEpoch)),
     ("execution_facts", r.executionFacts), ("execution_facts_digest", S(r.executionFactsDigest)),
     ("execution_spec_digest", S(r.executionSpecDigest)), ("payload_digest", S(r.payloadDigest)),
     ("requested_scope", r.requestedScope), ("requested_scope_digest", S(r.requestedScopeDigest)),
     ("scope_policy_binding", Record(ScopePolicyFields(r.scopePolicy))),
     ("scope_policy_binding_digest", S(r.scopePolicyDigest)),
     ("capability_requirements", Record(RequirementFields(r.requirements))),
     ("capability_requirements_digest", S(r.requirementsDigest)),
     ("capability_inventory", Record(InventoryFields(r.inventory))),
     ("capability_inventory_digest", S(r.inventoryDigest)),
     ("side_effect_class", S(r.sideEffectClass)), ("runtime_instance_id", S(r.runtimeInstanceId)),
     ("lease_id", S(r.leaseId)), ("lease_epoch", N(r.leaseEpoch)),
     ("fencing_token_digest", S(r.fencingTokenDigest)), ("schema_version", S(r.schemaVersion)),
     ("approval_attestation", ApprovalValue(r.approval)), ("approval_attestation_digest", S(r.approvalDigest))]
  }

  /** What an approval approves: everything that identifies the attempt, but not the approval itself. */
  function SubjectFields(r: Request): Fields {
    [("transaction_id", S(r.transactionId)), ("operation_id", S(r.operationId)), ("step_id", S(r.stepId)),
     ("attempt_id", S(r.attemptId)), ("policy_pack_digest", S(r.policyPackDigest)), ("policy_epoch", N(r.policyEpoch)),
     ("execution_facts_digest", S(r.executionFactsDigest)), ("execution_spec_digest", S(r.executionSpecDigest)),
     ("payload_digest", S(r.payloadDigest)), ("requested_scope_digest", S(r.requestedScopeDigest)),
     ("scope_policy_binding_digest", S(r.scopePolicyDigest)),
     ("capability_requirements_digest", S(r.requirementsDigest)),
     ("capability_inventory_digest", S(r.inventoryDigest)), ("side_effect_class", S(r.sideEffectClass)),
     ("runtime_instance_id", S(r.runtimeInstanceId)), ("lease_id", S(r.leaseId)), ("lease_epoch", N(r.leaseEpoch)),
     ("fencing_token_digest", S(r.fencingTokenDigest))]
  }

  function AuthorizationFields(a: Authorization): Fields {
    [("schema_version", S(a.schemaVersion)), ("authorization_id", S(a.authorizationId)),
     ("operation_id", S(a.operationId)), ("step_id", S(a.stepId)), ("attempt_id", S(a.attemptId)),
     ("runtime_instance_id", S(a.runtimeInstanceId)), ("lease_id", S(a.leaseId)), ("lease_epoch", N(a.leaseEpoch)),
     ("fencing_token_digest", S(a.fencingTokenDigest)), ("execution_spec_digest", S(a.executionSpecDigest)),
     ("payload_digest", S(a.payloadDigest)), ("requested_scope_digest", S(a.requestedScopeDigest)),
     ("capability_inventory_digest", S(a.inventoryDigest)), ("inventory_epoch", N(a.inventoryEpoch)),
     ("policy_pack_digest", S(a.policyPackDigest)), ("policy_epoch", N(a.policyEpoch)),
     ("issued_at", S(a.issuedAt)), ("expires_at", S(a.expiresAt)), ("nonce", S(a.nonce)),
     ("consume_once", Flag(a.consumeOnce))]
  }

  function ControlFields(c: Controls): Fields {
    [("timeout_seconds", Leaf(Real(c.timeoutSeconds))), ("max_steps", N(c.maxSteps)),
     ("max_output_bytes", N(c.maxOutputBytes)), ("receipt_required", Flag(c.receiptRequired)),
     ("output_digest_required", Flag(c.outputDigestRequired)), ("read_only_required", Flag(c.readOnlyRequired)),
     ("no_raw_shell", Flag(c.noRawShell)), ("mutation_requires_approval", Flag(c.mutationRequiresApproval)),
     ("allowed_network_egress", Texts(c.allowedNetworkEgress)),
     ("allowed_backend_classes", Texts(c.allowedBackendClasses)),
     ("typed_execution_control_ids", Texts(c.typedControlIds)), ("control_ids", Texts(c.controlIds))]
  }

  function AuthorizationValue(a: Option<Authorization>): Value {
    match a
    case None => Leaf(NoneValue)
    case Some(authorization) => Record(AuthorizationFields(authorization))
  }

  /** The decision body: everything but its own digest. */
  function DecisionFields(d: Decision): Fields {
    [("schema_version", S(d.schemaVersion)), ("decision_id", S(d.decisionId)), ("transaction_id", S(d.transactionId)),
     ("request_digest", S(d.requestDigest)), ("status", S(d.status)), ("allowed", Flag(d.Allowed())),
     ("reason_code", S(d.reasonCode)), ("policy_evaluation_digest", S(d.policyEvaluationDigest)),
     ("policy_verdict_digest", S(d.policyVerdictDigest)), ("enforcement_plan_digest", S(d.enforcementPlanDigest)),
     ("governance_trace_digest", S(d.governanceTraceDigest)), ("scope_decision_digest", S(d.scopeDecisionDigest)),
     ("capability_compatibility_digest", S(d.capabilityDigest)),
     ("approval_attestation_digest", S(d.approvalDigest)), ("controls", Record(ControlFields(d.controls))),
     ("required_controls", Texts(d.requiredControls)), ("blockers", Texts(d.blockers)),
     ("authorization", AuthorizationValue(d.authorization))]
  }

  // ----------------------------------------------------------------- digests

  function Digest(h: Hash, recordType: string, fields: Fields): Result<string, GovError> {
    match RecordDigest(h, recordType, "v1", Record(fields))
    case Ok(d) => Ok(d)
    case Err(e) => Err(Undigestible(e))
  }

  const SUBJECT := "govengine." + "governance.GovernanceSubject"
  const REQUEST := "govengine." + "governance.GovernanceRequest"
  const ATTESTATION := "govengine." + "approvals.ApprovalAttestation"
  const DECISION := "govengine." + "governance_decision.GovernanceDecision"

  function SubjectDigest(h: Hash, r: Request): Result<string, GovError> {
    Digest(h, SUBJECT, SubjectFields(r))
  }

  function RequestDigest(h: Hash, r: Request): Result<string, GovError> {
    Digest(h, REQUEST, RequestFields(r))
  }

  function AttestationDigest(h: Hash, a: Attestation): Result<string, GovError> {
    Digest(h, ATTESTATION, AttestationFields(a))
  }

  function DecisionBodyDigest(h: Hash, d: Decision): Result<string, GovError> {
    Digest(h, DECISION, DecisionFields(d))
  }

  // ------------------------------------------------- what equal digests mean

  /** The same fields, each with the same meaning: equal text, integers and flags, and nested values
      equal up to key order and tuple/list. */
  ghost predicate SameFields(f: Fields, g: Fields) {
    && |f| == |g|
    && forall i :: 0 <= i < |f| ==> f[i].0 == g[i].0 && Denote(f[i].1) == Denote(g[i].1)
  }

  ghost predicate UnsplitFields(f: Fields) {
    forall i :: 0 <= i < |f| ==> Unsplit(f[i].1)
  }

  function TextOf(recordType: string, fields: Fields): string {
    match CanonicalText(recordType, "v1", Record(fields))
    case Ok(text) => text
    case Err(_) => ""
  }

  /** Equal digests of records of one type: the same fields, unless the hash collides on their two texts. */
  lemma EqualDigestsSameFields(h: Hash, recordType: string, f: Fields, g: Fields)
    requires SameNames(f, g) && UnsplitFields(f) && UnsplitFields(g)
    requires Digest(h, recordType, f).Ok? && Digest(h, recordType, f) == Digest(h, recordType, g)
    requires NoCollision(h, {TextOf(recordType, f), TextOf(recordType, g)})
    ensures SameFields(f, g)
  {
    hide Canonicalise, Denote, Unsplit;
    RecordUnsplit(f);
    RecordUnsplit(g);
    DigestBinds(h, recordType, "v1", Record(f), recordType, "v1", Record(g));
    FieldsBind(f, g);
    forall i | 0 <= i < |f| ensures Denote(f[i].1) == Denote(g[i].1) {
      ValueAt(f, g, i);
    }
  }

  lemma SameText(f: Fields, g: Fields, i: nat, x: string, y: string)
    requires SameFields(f, g) && i < |f| && f[i].1 == S(x) && g[i].1 == S(y)
    ensures x == y
  {
    UInjective(x, y);
  }

  lemma SameInt(f: Fields, g: Fields, i: nat, x: int, y: int)
    requires SameFields(f, g) && i < |f| && f[i].1 == N(x) && g[i].1 == N(y)
    ensures x == y
  {
  }

  lemma DigestHasShape(h: Hash, recordType: string, f: Fields)
    requires HexHash(h)
    ensures Digest(h, recordType, f).Ok? ==> IsSha256(Digest(h, recordType, f).value)
  {
    DigestShape(h, recordType, "v1", Record(f));
  }

  // --------------------------------------- scalar strings never hide a split

  lemma ScalarsUnsplit()
    ensures forall s: string :: Unsplit(S(s))
    ensures forall i: int :: Unsplit(N(i))
    ensures forall b: bool :: Unsplit(Flag(b))
    ensures forall ts: seq<string> :: Unsplit(Texts(ts))
  {
    forall s: string ensures Unsplit(S(s)) {
      ScalarTextUnsplit(s);
    }
    forall ts: seq<string> ensures Unsplit(Texts(ts)) {
      forall i | 0 <= i < |ts| ensures Unsplit(Texts(ts).elems[i]) {
        ScalarTextUnsplit(ts[i]);
      }
    }
  }

  lemma AttestationUnsplit(a: Attestation)
    ensures UnsplitFields(AttestationFields(a)) && Unsplit(Record(AttestationFields(a)))
  {
    hide Unsplit, Texts;
    ScalarsUnsplit();
    RecordUnsplit(AttestationFields(a));
  }

  lemma SubjectUnsplit(r: Request)
    ensures UnsplitFields(SubjectFields(r))
  {
    hide Unsplit, Texts;
    ScalarsUnsplit();
  }

  lemma AuthorizationUnsplit(a: Authorization)
    ensures UnsplitFields(AuthorizationFields(a)) && Unsplit(Record(AuthorizationFields(a)))
  {
    hide Unsplit, Texts;
    ScalarsUnsplit();
    RecordUnsplit(AuthorizationFields(a));
  }

  lemma LeavesUnsplit(f: Float)
    ensures Unsplit(Leaf(Real(f))) && Unsplit(Leaf(NoneValue))
  {
  }

  lemma ControlsUnsplit(c: Controls)
    ensures UnsplitFields(ControlFields(c)) && Unsplit(Record(ControlFields(c)))
  {
    hide Unsplit, Texts;
    ScalarsUnsplit();
    LeavesUnsplit(c.timeoutSeconds);
    RecordUnsplit(ControlFields(c));
  }

  lemma DecisionUnsplit(d: Decision)
    ensures UnsplitFields(DecisionFields(d))
  {
    hide Unsplit, Texts, ControlFields, AuthorizationFields;
    ScalarsUnsplit();
    LeavesUnsplit(d.controls.timeoutSeconds);
    ControlsUnsplit(d.controls);
    if d.authorization.Some? {
      AuthorizationUnsplit(d.authorization.value);
    }
  }

  /** The values a request carries as they came contain no split surrogate pair. */
  ghost predicate UnsplitRequest(r: Request) {
    && Unsplit(r.policyPack.rest) && Unsplit(r.executionFacts) && Unsplit(r.requestedScope)
    && Unsplit(r.scopePolicy.rest) && Unsplit(r.requirements.rest) && Unsplit(r.inventory.rest)
  }

  lemma NestedUnsplit(r: Request)
    requires UnsplitRequest(r)
    ensures Unsplit(Record(PolicyPackFields(r.policyPack))) && Unsplit(Record(ScopePolicyFields(r.scopePolicy)))
    ensures Unsplit(Record(RequirementFields(r.requirements))) && Unsplit(Record(InventoryFields(r.inventory)))
    ensures Unsplit(ApprovalValue(r.approval))
  {
    hide Unsplit, Texts, AttestationFields;
    ScalarsUnsplit();
    RecordUnsplit(PolicyPackFields(r.policyPack));
    RecordUnsplit(ScopePolicyFields(r.scopePolicy));
    RecordUnsplit(RequirementFields(r.requirements));
    RecordUnsplit(InventoryFields(r.inventory));
    LeavesUnsplit(NonFinite);
    if r.approval.Some? {
      AttestationUnsplit(r.approval.value);
    }
  }

  lemma RequestUnsplit(r: Request)
    requires UnsplitRequest(r)
    ensures UnsplitFields(RequestFields(r))
  {
    hide Unsplit, Texts, PolicyPackFields, ScopePolicyFields, RequirementFields, InventoryFields, ApprovalValue;
    ScalarsUnsplit();
    NestedUnsplit(r);
  }
}
