/** Requests and decisions in plain terms: what their validation demands of each member (`govengine/governance.py`,
    `govengine/governance_decision.py`). */
module RequestTerms {
  import opened Prelude
  import opened PyStrings
  import opened PyValues
  import opened CanonicalRecord
  import opened RecordText
  import opened BoundedTraversal
  import opened BoundedCopy
  import opened TraversalAgreement
  import opened GovernanceRecords
  import opened GovernanceRequests
  import opened ApprovalBinding
  import opened GovernanceDecisions
  import opened EvaluationTerms

  // ----------------------------------------------------------------- requests

  /** Every name is there and every digest has its form. */
  ghost predicate NamesGiven(r: Request) {
    && r.schemaVersion == "v1" && Strip(r.transactionId) != "" && Strip(r.operationId) != "" && Strip(r.stepId) != ""
    && Strip(r.attemptId) != "" && Strip(r.runtimeInstanceId) != "" && Strip(r.leaseId) != ""
    && r.policyEpoch >= 0 && r.leaseEpoch >= 0
    && (r.sideEffectClass == "read_only" || r.sideEffectClass == "mutation")
  }

  ghost predicate DigestsGiven(r: Request) {
    && IsSha256(r.policyPackDigest) && IsSha256(r.executionFactsDigest) && IsSha256(r.executionSpecDigest)
    && IsSha256(r.payloadDigest) && IsSha256(r.requestedScopeDigest) && IsSha256(r.scopePolicyDigest)
    && IsSha256(r.requirementsDigest) && IsSha256(r.inventoryDigest) && IsSha256(r.fencingTokenDigest)
  }

  lemma NamesExactly(r: Request)
    ensures CheckRequestNames(r).Ok? && r.sideEffectClass in {"read_only", "mutation"} <==> NamesGiven(r)
  {
    hide Strip;
  }

  lemma FormsExactly(r: Request)
    ensures CheckRequestForms(r).Ok? <==> DigestsGiven(r)
  {
    hide IsSha256;
  }

  lemma IdentityExactly(r: Request)
    ensures CheckIdentity(r).Ok? <==> NamesGiven(r) && DigestsGiven(r)
  {
    hide CheckRequestNames, CheckRequestForms, NamesGiven, DigestsGiven;
    NamesExactly(r);
    FormsExactly(r);
  }

  /** A non-empty mapping whose copy stays within the limits on depth, nodes, collections and text. */
  ghost predicate WithinLimits(v: Value) {
    v.Dict? && Copy(Limits(32, 10000, 1000, 65536), true, v).Ok? && Copied(v) != Dict([])
  }

  lemma BoundedExactly(v: Value, reason: string)
    ensures Bounded(v, reason).Ok? <==> WithinLimits(v)
    ensures Bounded(v, reason).Ok? ==> Bounded(v, reason).value == Copied(v)
  {
    hide Copy;
  }

  /** None of the names occurs as a key, at any depth, and the scan ran to its end. */
  ghost predicate Clean(env: Env, names: set<Str>, v: Value) {
    ScanFrom(Query(env.normalise, names, Limits(32, 10000, 1000, 65536)), ViewOf, v, 0, 0).0 == Clear
  }

  lemma CleanExactly(env: Env, names: set<Str>, v: Value, reason: string)
    ensures RejectKeys(env, names, v, reason).Pass? <==> Clean(env, names, v)
  {
  }

  /** The pack is its own compiled form, facts and scope are bounded and clean. */
  ghost predicate InputsGiven(env: Env, r: Request) {
    && env.compile(r.policyPack) == Ok(r.policyPack)
    && WithinLimits(r.executionFacts) && WithinLimits(r.requestedScope)
    && Clean(env, env.forbidden, r.executionFacts) && Clean(env, env.forbidden, r.requestedScope)
  }

  lemma InputsExactly(env: Env, r: Request)
    ensures CheckInputs(env, r).Ok? <==> InputsGiven(env, r)
  {
    hide Bounded, RejectKeys, WithinLimits, Clean;
    BoundedExactly(r.executionFacts, "invalid_governance_execution_facts");
    BoundedExactly(r.requestedScope, "invalid_governance_requested_scope");
    CleanExactly(env, env.forbidden, r.executionFacts, "forbidden_governance_input");
    CleanExactly(env, env.forbidden, r.requestedScope, "forbidden_governance_input");
  }

  /** The digest of the copied facts; the copy is scanned. */
  lemma FactsDigestExactly(env: Env, v: Value, digest: string)
    ensures FactsDigest(env, v) == Ok(digest) <==>
              && WithinLimits(v) && Clean(env, env.forbidden, Copied(v))
              && RecordDigest(env.hash, "govengine.governance.ExecutionFacts", "v1", Copied(v)) == Ok(digest)
  {
    hide Bounded, RejectKeys, WithinLimits, Clean, RecordDigest, Copied;
    BoundedExactly(v, "invalid_governance_execution_facts");
    CleanExactly(env, env.forbidden, Copied(v), "forbidden_governance_input");
  }

  /** The digest of the copied scope; the scope itself is scanned, for three kinds of names. */
  lemma ScopeDigestExactly(env: Env, v: Value, digest: string)
    ensures ScopeDigest(env, v) == Ok(digest) <==>
              && WithinLimits(v) && Clean(env, env.forbidden, v) && Clean(env, env.selfAuthorized, v)
              && Clean(env, env.rawDestination, v)
              && RecordDigest(env.hash, "govengine.governance.RequestedScope", "v1", Copied(v)) == Ok(digest)
  {
    hide Bounded, RejectKeys, Clean, RecordDigest, Copied, Copy;
    BoundedExactly(v, "invalid_requested_scope");
    CleanExactly(env, env.forbidden, v, "forbidden_governance_input");
    CleanExactly(env, env.selfAuthorized, v, "self_authorized_scope_policy");
    CleanExactly(env, env.rawDestination, v, "raw_destination_detail_forbidden");
  }

  /** The record has that digest under its type's own name. */
  ghost predicate Digested(env: Env, recordType: string, fields: Fields, digest: string) {
    RecordDigest(env.hash, recordType, "v1", Record(fields)) == Ok(digest)
  }

  lemma DigestedExactly(env: Env, recordType: string, fields: Fields, digest: string)
    ensures Digest(env.hash, recordType, fields) == Ok(digest) <==> Digested(env, recordType, fields, digest)
  {
    hide RecordDigest, Record;
  }

  /** The six nested records have the digests the request states. */
  ghost predicate DigestsMatch(env: Env, r: Request) {
    && Digested(env, "govengine." + "policy.compiler.CompiledPolicyPack", PolicyPackFields(r.policyPack),
                r.policyPackDigest)
    && (r.policyPack.schemaVersion == "v1" ==> r.policyPack.policyEpoch == r.policyEpoch)
    && FactsDigest(env, r.executionFacts) == Ok(r.executionFactsDigest)
    && ScopeDigest(env, r.requestedScope) == Ok(r.requestedScopeDigest)
    && env.scopePolicyShape(r.scopePolicy).Pass? && IsSha256(r.scopePolicy.policyPackDigest)
    && r.scopePolicy.policyEpoch >= 0
    && Digested(env, "govengine." + "scope_policy.ScopePolicyBinding", ScopePolicyFields(r.scopePolicy),
                r.scopePolicyDigest)
    && env.requirementsShape(r.requirements).Pass? && IsSha256(r.requirements.executionSpecDigest)
    && Digested(env, "govengine." + "capabilities.OperationCapabilityRequirements", RequirementFields(r.requirements),
                r.requirementsDigest)
    && env.inventoryShape(r.inventory).Pass? && r.inventory.inventoryEpoch >= 0
    && Digested(env, "govengine." + "capabilities.CapabilityInventoryBinding", InventoryFields(r.inventory),
                r.inventoryDigest)
  }

  lemma NamesOfRecords()
    ensures PACK == "govengine." + "policy.compiler.CompiledPolicyPack"
    ensures SCOPE_POLICY == "govengine." + "scope_policy.ScopePolicyBinding"
    ensures REQUIREMENTS == "govengine." + "capabilities.OperationCapabilityRequirements"
    ensures INVENTORY == "govengine." + "capabilities.CapabilityInventoryBinding"
  {
  }

  lemma ShapedDigestsExactly(env: Env, r: Request)
    ensures ScopePolicyDigest(env, r.scopePolicy) == Ok(r.scopePolicyDigest) <==>
              && env.scopePolicyShape(r.scopePolicy).Pass? && IsSha256(r.scopePolicy.policyPackDigest)
              && r.scopePolicy.policyEpoch >= 0
              && Digest(env.hash, SCOPE_POLICY, ScopePolicyFields(r.scopePolicy)) == Ok(r.scopePolicyDigest)
    ensures RequirementsDigest(env, r.requirements) == Ok(r.requirementsDigest) <==>
              && env.requirementsShape(r.requirements).Pass? && IsSha256(r.requirements.executionSpecDigest)
              && Digest(env.hash, REQUIREMENTS, RequirementFields(r.requirements)) == Ok(r.requirementsDigest)
    ensures InventoryDigest(env, r.inventory) == Ok(r.inventoryDigest) <==>
              && env.inventoryShape(r.inventory).Pass? && r.inventory.inventoryEpoch >= 0
              && Digest(env.hash, INVENTORY, InventoryFields(r.inventory)) == Ok(r.inventoryDigest)
  {
    hide IsSha256, Digest, ScopePolicyFields, RequirementFields, InventoryFields;
  }

  /** Comparing a digest with one in digest form: equal or not, nothing raised. */
  lemma Compared(actual: Result<string, GovError>, stated: string)
    requires IsSha256(stated) && (actual.Ok? ==> IsSha256(actual.value))
    ensures actual.Ok? ==>
              forall reason: string :: Same(actual.value, stated, reason).Pass? <==> actual == Ok(stated)
  {
    hide IsSha256, IsAscii;
    Sha256IsAscii(stated);
    if actual.Ok? {
      Sha256IsAscii(actual.value);
    }
  }

  lemma DigestsExactly(env: Env, r: Request)
    requires HexHash(env.hash) && DigestsGiven(r)
    ensures CheckDigests(env, r).Ok? <==> DigestsMatch(env, r)
  {
    hide IsSha256, FactsDigest, ScopeDigest, Digest, Digested, PolicyPackFields, ScopePolicyFields, RequirementFields,
         InventoryFields, ScopePolicyDigest, RequirementsDigest, InventoryDigest, CheckDigests;
    NamesOfRecords();
    DigestsStated(env, r);
    ShapedDigestsExactly(env, r);
    DigestedExactly(env, PACK, PolicyPackFields(r.policyPack), r.policyPackDigest);
    DigestedExactly(env, SCOPE_POLICY, ScopePolicyFields(r.scopePolicy), r.scopePolicyDigest);
    DigestedExactly(env, REQUIREMENTS, RequirementFields(r.requirements), r.requirementsDigest);
    DigestedExactly(env, INVENTORY, InventoryFields(r.inventory), r.inventoryDigest);
  }

  /** The nested records have digests, and these are the ones stated. */
  ghost predicate Stated(env: Env, r: Request) {
    && Digest(env.hash, PACK, PolicyPackFields(r.policyPack)) == Ok(r.policyPackDigest)
    && (r.policyPack.schemaVersion == "v1" ==> r.policyPack.policyEpoch == r.policyEpoch)
    && FactsDigest(env, r.executionFacts) == Ok(r.executionFactsDigest)
    && ScopeDigest(env, r.requestedScope) == Ok(r.requestedScopeDigest)
    && ScopePolicyDigest(env, r.scopePolicy) == Ok(r.scopePolicyDigest)
    && RequirementsDigest(env, r.requirements) == Ok(r.requirementsDigest)
    && InventoryDigest(env, r.inventory) == Ok(r.inventoryDigest)
  }

  lemma ComparesDigests(env: Env, r: Request)
    requires HexHash(env.hash) && DigestsGiven(r)
    ensures CheckDigests(env, r).Ok? ==> Stated(env, r)
  {
    hide IsSha256, FactsDigest, ScopeDigest, Digest, PolicyPackFields, ScopePolicyFields, RequirementFields,
         InventoryFields, ScopePolicyDigest, RequirementsDigest, InventoryDigest, IsAscii;
  }

  lemma DigestsCompare(env: Env, r: Request)
    requires HexHash(env.hash) && DigestsGiven(r) && Stated(env, r)
    ensures CheckDigests(env, r).Ok?
  {
    hide IsSha256, FactsDigest, ScopeDigest, Digest, PolicyPackFields, ScopePolicyFields, RequirementFields,
         InventoryFields, ScopePolicyDigest, RequirementsDigest, InventoryDigest, IsAscii;
    forall x | IsSha256(x)
      ensures IsAscii(x)
    {
      Sha256IsAscii(x);
    }
  }

  lemma DigestsStated(env: Env, r: Request)
    requires HexHash(env.hash) && DigestsGiven(r)
    ensures CheckDigests(env, r).Ok? <==> Stated(env, r)
  {
    hide CheckDigests, Stated;
    ComparesDigests(env, r);
    if Stated(env, r) {
      DigestsCompare(env, r);
    }
  }

  /** The nested records are of this request: its pack, epoch, operation, step, specification, effect and runtime. */
  ghost predicate CrossBound(r: Request) {
    && r.scopePolicy.policyPackDigest == r.policyPackDigest && r.scopePolicy.policyEpoch == r.policyEpoch
    && r.requirements.operationId == r.operationId && r.requirements.stepId == r.stepId
    && r.requirements.executionSpecDigest == r.executionSpecDigest
    && r.requirements.sideEffectClass == r.sideEffectClass
    && r.inventory.runtimeInstanceId == r.runtimeInstanceId
  }

  lemma CrossExactly(env: Env, r: Request)
    requires DigestsGiven(r)
    ensures CheckCrossBindings(r).Ok? <==> CrossBound(r)
  {
    hide IsSha256, Same;
    ComparedText(r.scopePolicy.policyPackDigest, r.policyPackDigest, "scope_policy_pack_digest_mismatch");
    ComparedText(r.requirements.executionSpecDigest, r.executionSpecDigest,
                 "capability_requirements_execution_spec_digest_mismatch");
  }

  lemma ComparedText(actual: string, stated: string, reason: string)
    requires IsSha256(stated)
    ensures Same(actual, stated, reason).Pass? <==> actual == stated
  {
    hide IsSha256, IsAscii;
    Sha256IsAscii(stated);
  }

  /** Without an approval no digest is stated; with one, it is in form, has the digest stated and approves this subject. */
  ghost predicate ApprovalGiven(env: Env, r: Request) {
    match r.approval
    case None => r.approvalDigest == ""
    case Some(a) =>
      AttestationInForm(env, a) && AttestationDigest(env.hash, a) == Ok(r.approvalDigest) && ApprovesSubject(env, a, r)
  }

  lemma ApprovalExactly(env: Env, r: Request)
    requires HexHash(env.hash)
    ensures CheckApproval(env, r).Ok? <==> ApprovalGiven(env, r)
  {
    hide AttestationInForm, CheckAttestation, AttestationFields, ApprovesSubject, BindApproval, IsSha256, Same, Digest;
    if r.approval.Some? {
      var a := r.approval.value;
      AttestationExactly(env, a);
      ApprovesExactly(env, a, r);
      DigestHasShape(env.hash, ATTESTATION, AttestationFields(a));
      if IsSha256(r.approvalDigest) {
        Compared(AttestationDigest(env.hash, a), r.approvalDigest);
      }
    }
  }

  /** A request is valid exactly when its names and digests are given, its inputs are in order, the digests are those of
      its nested records, these belong to it, and an approval, if there is one, is for it. */
  lemma ValidRequestExactly(env: Env, r: Request)
    requires HexHash(env.hash)
    ensures Valid(env, r) <==>
              && NamesGiven(r) && DigestsGiven(r) && InputsGiven(env, r) && DigestsMatch(env, r) && CrossBound(r)
              && ApprovalGiven(env, r)
  {
    hide CheckIdentity, CheckInputs, CheckDigests, CheckCrossBindings, CheckApproval, NamesGiven, DigestsGiven, InputsGiven,
         DigestsMatch, CrossBound, ApprovalGiven;
    IdentityExactly(r);
    InputsExactly(env, r);
    if DigestsGiven(r) {
      DigestsExactly(env, r);
      CrossExactly(env, r);
    }
    ApprovalExactly(env, r);
  }

  // ---------------------------------------------------------------- decisions

  /** An authorization names everything it is for, is used once, and lives at most 60 seconds. */
  ghost predicate GrantInForm(env: Env, a: Authorization) {
    GrantNamesGiven(a) && GrantDigestsGiven(a) && GrantInTime(env, a)
  }

  ghost predicate GrantNamesGiven(a: Authorization) {
    && a.schemaVersion == "v1" && Strip(a.authorizationId) != "" && Strip(a.operationId) != "" && Strip(a.stepId) != ""
    && Strip(a.attemptId) != "" && Strip(a.runtimeInstanceId) != "" && Strip(a.leaseId) != "" && Strip(a.nonce) != ""
  }

  ghost predicate GrantDigestsGiven(a: Authorization) {
    && IsSha256(a.fencingTokenDigest) && IsSha256(a.executionSpecDigest) && IsSha256(a.payloadDigest)
    && IsSha256(a.requestedScopeDigest) && IsSha256(a.inventoryDigest) && IsSha256(a.policyPackDigest)
  }

  ghost predicate GrantInTime(env: Env, a: Authorization) {
    && a.leaseEpoch >= 0 && a.inventoryEpoch >= 0 && a.policyEpoch >= 0 && a.consumeOnce
    && env.parse(a.issuedAt).Some? && env.parse(a.expiresAt).Some?
    && env.parse(a.issuedAt).value < env.parse(a.expiresAt).value <= env.parse(a.issuedAt).value + 60_000_000
  }

  lemma GrantExactly(env: Env, a: Authorization)
    ensures CheckAuthorization(env, a).Ok? <==> GrantInForm(env, a)
  {
    hide CheckGrantNames, CheckGrantForms, CheckGrantWindow, GrantNamesGiven, GrantDigestsGiven, GrantInTime;
    GrantNamesExactly(a);
    GrantDigestsExactly(a);
    GrantTimeExactly(env, a);
  }

  lemma GrantNamesExactly(a: Authorization)
    ensures CheckGrantNames(a).Ok? <==> GrantNamesGiven(a)
  {
    hide Strip;
  }

  lemma GrantDigestsExactly(a: Authorization)
    ensures CheckGrantForms(a).Ok? <==> GrantDigestsGiven(a)
  {
    hide IsSha256;
  }

  lemma GrantTimeExactly(env: Env, a: Authorization)
    ensures CheckGrantWindow(env, a).Ok? <==> GrantInTime(env, a)
  {
  }

  ghost predicate DecisionNamesGiven(d: Decision) {
    && d.schemaVersion == "v1" && Strip(d.decisionId) != "" && Strip(d.transactionId) != "" && Strip(d.reasonCode) != ""
    && (d.status == "allowed" || d.status == "approval_required" || d.status == "denied")
  }

  ghost predicate DecisionDigestsGiven(d: Decision) {
    && IsSha256(d.requestDigest) && IsSha256(d.policyEvaluationDigest) && IsSha256(d.policyVerdictDigest)
    && IsSha256(d.enforcementPlanDigest) && IsSha256(d.governanceTraceDigest) && IsSha256(d.scopeDecisionDigest)
    && IsSha256(d.capabilityDigest) && IsSha256(d.decisionDigest) && (d.approvalDigest != "" ==> IsSha256(d.approvalDigest))
  }

  /** Exactly an allowed decision has an authorization, exactly the others have blockers. */
  ghost predicate Postured(env: Env, d: Decision) {
    if d.status == "allowed" then d.blockers == [] && exists a :: d.authorization == Some(a) && GrantInForm(env, a)
    else d.blockers != [] && d.authorization == None
  }

  lemma PostureIs(env: Env, d: Decision)
    ensures CheckPosture(env, d).Ok? <==> Postured(env, d)
  {
    hide CheckAuthorization, GrantInForm;
    if d.authorization.Some? {
      GrantExactly(env, d.authorization.value);
    }
  }

  /** A decision is valid exactly when its names and digests are given, its posture fits its status, and it carries the
      digest of its own record. */
  lemma ValidDecisionExactly(env: Env, d: Decision)
    requires HexHash(env.hash)
    ensures CheckDecision(env, d).Ok? <==>
              && DecisionNamesGiven(d) && DecisionDigestsGiven(d) && Postured(env, d)
              && RecordDigest(env.hash, "govengine." + "governance_decision.GovernanceDecision", "v1",
                              Record(DecisionFields(d))) == Ok(d.decisionDigest)
  {
    hide CheckDecision, DecisionNamesGiven, DecisionDigestsGiven, Postured, CheckPosture, RecordDigest, Record, DecisionFields;
    PostureIs(env, d);
    if CheckDecision(env, d).Ok? {
      DecisionGivesAll(env, d);
    }
    if DecisionNamesGiven(d) && DecisionDigestsGiven(d) && Postured(env, d)
       && DecisionBodyDigest(env.hash, d) == Ok(d.decisionDigest) {
      AllGivesDecision(env, d);
    }
  }

  lemma DecisionGivesAll(env: Env, d: Decision)
    requires CheckDecision(env, d).Ok?
    ensures DecisionNamesGiven(d) && DecisionDigestsGiven(d) && CheckPosture(env, d).Ok?
    ensures DecisionBodyDigest(env.hash, d) == Ok(d.decisionDigest)
  {
    hide Strip, IsSha256, IsAscii, CheckPosture, DecisionBodyDigest;
  }

  lemma AllGivesDecision(env: Env, d: Decision)
    requires DecisionNamesGiven(d) && DecisionDigestsGiven(d) && CheckPosture(env, d).Ok?
    requires DecisionBodyDigest(env.hash, d) == Ok(d.decisionDigest)
    ensures CheckDecision(env, d).Ok?
  {
    hide Strip, IsSha256, IsAscii, CheckPosture, DecisionBodyDigest;
    Sha256IsAscii(d.decisionDigest);
  }

  /** The authorization repeats fourteen values of the request. */
  ghost predicate GrantOf(a: Authorization, r: Request) {
    && a.operationId == r.operationId && a.stepId == r.stepId && a.attemptId == r.attemptId
    && a.runtimeInstanceId == r.runtimeInstanceId && a.leaseId == r.leaseId && a.leaseEpoch == r.leaseEpoch
    && a.fencingTokenDigest == r.fencingTokenDigest && a.executionSpecDigest == r.executionSpecDigest
    && a.payloadDigest == r.payloadDigest && a.requestedScopeDigest == r.requestedScopeDigest
    && a.inventoryDigest == r.inventoryDigest && a.inventoryEpoch == r.inventory.inventoryEpoch
    && a.policyPackDigest == r.policyPackDigest && a.policyEpoch == r.policyEpoch
  }

  lemma GrantOfExactly(a: Authorization, r: Request)
    ensures BindAuthorization(a, r).Ok? <==> GrantOf(a, r)
  {
  }

  /** A valid decision is for a valid request exactly when it names its transaction and digest, and its authorization, if
      there is one, repeats the request's values. */
  lemma DecisionForExactly(env: Env, d: Decision, r: Request)
    requires HexHash(env.hash)
    ensures ValidateDecisionFor(env, d, r).Ok? <==>
              && CheckDecision(env, d).Ok? && Valid(env, r)
              && d.transactionId == r.transactionId && RequestDigest(env.hash, r) == Ok(d.requestDigest)
              && forall a :: d.authorization == Some(a) ==> GrantOf(a, r)
  {
    hide CheckDecision, ValidateRequest, BindAuthorization, GrantOf, IsSha256, RequestFields, Same, Digest,
         DecisionDigestsGiven, DecisionNamesGiven;
    if d.authorization.Some? {
      GrantOfExactly(d.authorization.value, r);
    }
    DigestHasShape(env.hash, REQUEST, RequestFields(r));
    if CheckDecision(env, d).Ok? {
      StatedDigest(env, d);
      ComparedTo(d.requestDigest, RequestDigest(env.hash, r), "governance_decision_request_digest_mismatch");
    }
  }

  lemma StatedDigest(env: Env, d: Decision)
    requires CheckDecision(env, d).Ok?
    ensures IsSha256(d.requestDigest)
  {
    hide Strip, IsSha256, IsAscii, CheckPosture, DecisionBodyDigest;
  }

  lemma ComparedTo(stated: string, actual: Result<string, GovError>, reason: string)
    requires IsSha256(stated) && (actual.Ok? ==> IsSha256(actual.value))
    ensures actual.Ok? ==> (Same(stated, actual.value, reason).Pass? <==> actual == Ok(stated))
  {
    hide IsSha256, IsAscii;
    Sha256IsAscii(stated);
    if actual.Ok? {
      Sha256IsAscii(actual.value);
    }
  }
}
