/** The chain of digests from a receipt back to the approved subject. */
module EndToEnd {
  import opened Prelude
  import opened PyStrings
  import opened PyValues
  import opened CanonicalRecord
  import opened Readback
  import opened RecordText
  import opened GovernanceRecords
  import opened GovernanceRequests
  import opened ApprovalBinding
  import opened GovernanceDecisions
  import opened ReceiptConformance
  import opened ReceiptGuarantees

  /** Equal digests of one record type: field by field the same canonical form. */
  lemma EqualDigestsAgree(h: Hash, recordType: string, f: Fields, g: Fields)
    requires SameNames(f, g) && UnsplitFields(f) && UnsplitFields(g)
    requires Digest(h, recordType, f).Ok? && Digest(h, recordType, f) == Digest(h, recordType, g)
    requires NoCollision(h, {TextOf(recordType, f), TextOf(recordType, g)})
    ensures FieldsAgree(f, g)
  {
    hide Canonicalise, Denote, Unsplit;
    RecordUnsplit(f);
    RecordUnsplit(g);
    DigestBinds(h, recordType, "v1", Record(f), recordType, "v1", Record(g));
    FieldsBind(f, g);
  }

  // ------------------------------------------- a decision is its canonical form

  lemma FlagAt(f: Fields, g: Fields, i: nat, x: bool, y: bool)
    requires FieldsAgree(f, g) && i < |f| && f[i].1 == Flag(x) && g[i].1 == Flag(y)
    ensures x == y
  {
  }

  lemma FloatAt(f: Fields, g: Fields, i: nat, x: Float, y: Float)
    requires FieldsAgree(f, g) && i < |f| && f[i].1 == Leaf(Real(x)) && g[i].1 == Leaf(Real(y))
    ensures x == y
  {
  }

  /** A nested record agrees member by member. */
  lemma RecordAt(f: Fields, g: Fields, i: nat, x: Fields, y: Fields)
    requires FieldsAgree(f, g) && i < |f| && f[i].1 == Record(x) && g[i].1 == Record(y) && SameNames(x, y)
    ensures FieldsAgree(x, y)
  {
    hide Canonicalise;
    FieldsBind(x, y);
  }

  lemma ControlLimitsEqual(c: Controls, k: Controls)
    requires FieldsAgree(ControlFields(c), ControlFields(k))
    ensures c.timeoutSeconds == k.timeoutSeconds && c.maxSteps == k.maxSteps && c.maxOutputBytes == k.maxOutputBytes
    ensures c.receiptRequired == k.receiptRequired && c.outputDigestRequired == k.outputDigestRequired
    ensures c.readOnlyRequired == k.readOnlyRequired
  {
    hide S, N, Flag, Texts, FieldsAgree;
    var f, g := ControlFields(c), ControlFields(k);
    FloatAt(f, g, 0, c.timeoutSeconds, k.timeoutSeconds);
    IntAt(f, g, 1, c.maxSteps, k.maxSteps);
    IntAt(f, g, 2, c.maxOutputBytes, k.maxOutputBytes);
    FlagAt(f, g, 3, c.receiptRequired, k.receiptRequired);
    FlagAt(f, g, 4, c.outputDigestRequired, k.outputDigestRequired);
    FlagAt(f, g, 5, c.readOnlyRequired, k.readOnlyRequired);
  }

  lemma ControlListsEqual(c: Controls, k: Controls)
    requires FieldsAgree(ControlFields(c), ControlFields(k))
    ensures c.noRawShell == k.noRawShell && c.mutationRequiresApproval == k.mutationRequiresApproval
    ensures c.allowedNetworkEgress == k.allowedNetworkEgress && c.allowedBackendClasses == k.allowedBackendClasses
    ensures c.typedControlIds == k.typedControlIds && c.controlIds == k.controlIds
  {
    hide S, N, Flag, Texts, FieldsAgree;
    var f, g := ControlFields(c), ControlFields(k);
    FlagAt(f, g, 6, c.noRawShell, k.noRawShell);
    FlagAt(f, g, 7, c.mutationRequiresApproval, k.mutationRequiresApproval);
    TextsAt(f, g, 8, c.allowedNetworkEgress, k.allowedNetworkEgress);
    TextsAt(f, g, 9, c.allowedBackendClasses, k.allowedBackendClasses);
    TextsAt(f, g, 10, c.typedControlIds, k.typedControlIds);
    TextsAt(f, g, 11, c.controlIds, k.controlIds);
  }

  lemma ControlsEqual(c: Controls, k: Controls)
    requires FieldsAgree(ControlFields(c), ControlFields(k))
    ensures c == k
  {
    hide ControlFields;
    ControlLimitsEqual(c, k);
    ControlListsEqual(c, k);
  }

  lemma AuthorizationIdentityEqual(a: Authorization, b: Authorization)
    requires FieldsAgree(AuthorizationFields(a), AuthorizationFields(b))
    ensures a.schemaVersion == b.schemaVersion && a.authorizationId == b.authorizationId && a.operationId == b.operationId
    ensures a.stepId == b.stepId && a.attemptId == b.attemptId
  {
    hide S, N, Flag, FieldsAgree;
    var f, g := AuthorizationFields(a), AuthorizationFields(b);
    TextAt(f, g, 0, a.schemaVersion, b.schemaVersion);
    TextAt(f, g, 1, a.authorizationId, b.authorizationId);
    TextAt(f, g, 2, a.operationId, b.operationId);
    TextAt(f, g, 3, a.stepId, b.stepId);
    TextAt(f, g, 4, a.attemptId, b.attemptId);
  }

  lemma AuthorizationLeaseEqual(a: Authorization, b: Authorization)
    requires FieldsAgree(AuthorizationFields(a), AuthorizationFields(b))
    ensures a.runtimeInstanceId == b.runtimeInstanceId && a.leaseId == b.leaseId && a.leaseEpoch == b.leaseEpoch
    ensures a.fencingTokenDigest == b.fencingTokenDigest && a.executionSpecDigest == b.executionSpecDigest
  {
    hide S, N, Flag, FieldsAgree;
    var f, g := AuthorizationFields(a), AuthorizationFields(b);
    TextAt(f, g, 5, a.runtimeInstanceId, b.runtimeInstanceId);
    TextAt(f, g, 6, a.leaseId, b.leaseId);
    IntAt(f, g, 7, a.leaseEpoch, b.leaseEpoch);
    TextAt(f, g, 8, a.fencingTokenDigest, b.fencingTokenDigest);
    TextAt(f, g, 9, a.executionSpecDigest, b.executionSpecDigest);
  }

  lemma AuthorizationPayloadEqual(a: Authorization, b: Authorization)
    requires FieldsAgree(AuthorizationFields(a), AuthorizationFields(b))
    ensures a.payloadDigest == b.payloadDigest && a.requestedScopeDigest == b.requestedScopeDigest
    ensures a.inventoryDigest == b.inventoryDigest
    ensures a.inventoryEpoch == b.inventoryEpoch && a.policyPackDigest == b.policyPackDigest
  {
    hide S, N, Flag, FieldsAgree;
    var f, g := AuthorizationFields(a), AuthorizationFields(b);
    TextAt(f, g, 10, a.payloadDigest, b.payloadDigest);
    TextAt(f, g, 11, a.requestedScopeDigest, b.requestedScopeDigest);
    TextAt(f, g, 12, a.inventoryDigest, b.inventoryDigest);
    IntAt(f, g, 13, a.inventoryEpoch, b.inventoryEpoch);
    TextAt(f, g, 14, a.policyPackDigest, b.policyPackDigest);
  }

  lemma AuthorizationWindowEqual(a: Authorization, b: Authorization)
    requires FieldsAgree(AuthorizationFields(a), AuthorizationFields(b))
    ensures a.policyEpoch == b.policyEpoch && a.issuedAt == b.issuedAt && a.expiresAt == b.expiresAt
    ensures a.nonce == b.nonce && a.consumeOnce == b.consumeOnce
  {
    hide S, N, Flag, FieldsAgree;
    var f, g := AuthorizationFields(a), AuthorizationFields(b);
    IntAt(f, g, 15, a.policyEpoch, b.policyEpoch);
    TextAt(f, g, 16, a.issuedAt, b.issuedAt);
    TextAt(f, g, 17, a.expiresAt, b.expiresAt);
    TextAt(f, g, 18, a.nonce, b.nonce);
    FlagAt(f, g, 19, a.consumeOnce, b.consumeOnce);
  }

  lemma AuthorizationsEqual(a: Authorization, b: Authorization)
    requires FieldsAgree(AuthorizationFields(a), AuthorizationFields(b))
    ensures a == b
  {
    hide AuthorizationFields;
    AuthorizationIdentityEqual(a, b);
    AuthorizationLeaseEqual(a, b);
    AuthorizationPayloadEqual(a, b);
    AuthorizationWindowEqual(a, b);
  }

  /** The optional authorization of two agreeing decisions is the same. */
  lemma GrantsEqual(f: Fields, g: Fields, a: Option<Authorization>, b: Option<Authorization>)
    requires FieldsAgree(f, g) && |f| == 18
    requires f[17].1 == AuthorizationValue(a) && g[17].1 == AuthorizationValue(b)
    ensures a == b
  {
    if a.Some? && b.Some? {
      hide Canonicalise;
      AuthorizationNames(a.value, b.value);
      RecordAt(f, g, 17, AuthorizationFields(a.value), AuthorizationFields(b.value));
      AuthorizationsEqual(a.value, b.value);
    } else if a.Some? {
      hide AuthorizationFields;
      NoneIsNoRecord(AuthorizationFields(a.value));
    } else if b.Some? {
      hide AuthorizationFields;
      NoneIsNoRecord(AuthorizationFields(b.value));
    }
  }

  lemma NoneIsNoRecord(f: Fields)
    ensures Canonicalise(Record(f)) != Canonicalise(Leaf(NoneValue))
  {
  }

  lemma AuthorizationNames(a: Authorization, b: Authorization)
    ensures SameNames(AuthorizationFields(a), AuthorizationFields(b))
  {
    hide S, N, Flag;
  }

  lemma ControlNames(c: Controls, k: Controls)
    ensures SameNames(ControlFields(c), ControlFields(k))
  {
    hide S, N, Flag, Texts;
  }

  lemma DecisionNames(d: Decision, e: Decision)
    ensures SameNames(DecisionFields(d), DecisionFields(e))
  {
    hide S, N, Flag, Texts, Record, ControlFields, AuthorizationValue;
  }

  lemma DecisionIdentityEqual(d: Decision, e: Decision)
    requires FieldsAgree(DecisionFields(d), DecisionFields(e))
    ensures d.schemaVersion == e.schemaVersion && d.decisionId == e.decisionId && d.transactionId == e.transactionId
    ensures d.requestDigest == e.requestDigest
  {
    hide S, N, Flag, Texts, Record, FieldsAgree, ControlFields, AuthorizationValue;
    var f, g := DecisionFields(d), DecisionFields(e);
    TextAt(f, g, 0, d.schemaVersion, e.schemaVersion);
    TextAt(f, g, 1, d.decisionId, e.decisionId);
    TextAt(f, g, 2, d.transactionId, e.transactionId);
    TextAt(f, g, 3, d.requestDigest, e.requestDigest);
  }

  lemma DecisionOutcomeEqual(d: Decision, e: Decision)
    requires FieldsAgree(DecisionFields(d), DecisionFields(e))
    ensures d.status == e.status && d.reasonCode == e.reasonCode
    ensures d.policyEvaluationDigest == e.policyEvaluationDigest && d.policyVerdictDigest == e.policyVerdictDigest
  {
    hide S, N, Flag, Texts, Record, FieldsAgree, ControlFields, AuthorizationValue;
    var f, g := DecisionFields(d), DecisionFields(e);
    TextAt(f, g, 4, d.status, e.status);
    TextAt(f, g, 6, d.reasonCode, e.reasonCode);
    TextAt(f, g, 7, d.policyEvaluationDigest, e.policyEvaluationDigest);
    TextAt(f, g, 8, d.policyVerdictDigest, e.policyVerdictDigest);
  }

  lemma DecisionEvidenceEqual(d: Decision, e: Decision)
    requires FieldsAgree(DecisionFields(d), DecisionFields(e))
    ensures d.enforcementPlanDigest == e.enforcementPlanDigest && d.governanceTraceDigest == e.governanceTraceDigest
    ensures d.scopeDecisionDigest == e.scopeDecisionDigest && d.capabilityDigest == e.capabilityDigest
    ensures d.approvalDigest == e.approvalDigest
    ensures d.requiredControls == e.requiredControls && d.blockers == e.blockers
  {
    hide S, N, Flag, Texts, Record, FieldsAgree, ControlFields, AuthorizationValue;
    var f, g := DecisionFields(d), DecisionFields(e);
    TextAt(f, g, 9, d.enforcementPlanDigest, e.enforcementPlanDigest);
    TextAt(f, g, 10, d.governanceTraceDigest, e.governanceTraceDigest);
    TextAt(f, g, 11, d.scopeDecisionDigest, e.scopeDecisionDigest);
    TextAt(f, g, 12, d.capabilityDigest, e.capabilityDigest);
    TextAt(f, g, 13, d.approvalDigest, e.approvalDigest);
    TextsAt(f, g, 15, d.requiredControls, e.requiredControls);
    TextsAt(f, g, 16, d.blockers, e.blockers);
  }

  /** Two valid decisions with one digest are one decision. */
  lemma DecisionDigestIsIdentity(env: Env, d: Decision, e: Decision)
    requires CheckDecision(env, d).Ok? && CheckDecision(env, e).Ok? && d.decisionDigest == e.decisionDigest
    requires NoCollision(env.hash, {TextOf(DECISION, DecisionFields(d)), TextOf(DECISION, DecisionFields(e))})
    ensures d == e
  {
    hide Digest, FieldsAgree, SameNames, UnsplitFields, ControlFields, S, N, Flag, Texts, Record, AuthorizationValue,
         CheckDecision, TextOf;
    DecisionDigestIsRecomputed(env, d);
    DecisionDigestIsRecomputed(env, e);
    DecisionUnsplit(d);
    DecisionUnsplit(e);
    DecisionNames(d, e);
    var f, g := DecisionFields(d), DecisionFields(e);
    EqualDigestsAgree(env.hash, DECISION, f, g);
    DecisionIdentityEqual(d, e);
    DecisionOutcomeEqual(d, e);
    DecisionEvidenceEqual(d, e);
    ControlNames(d.controls, e.controls);
    RecordAt(f, g, 14, ControlFields(d.controls), ControlFields(e.controls));
    ControlsEqual(d.controls, e.controls);
    GrantsEqual(f, g, d.authorization, e.authorization);
  }

  lemma DecisionDigestIsRecomputed(env: Env, d: Decision)
    requires CheckDecision(env, d).Ok?
    ensures DecisionBodyDigest(env.hash, d) == Ok(d.decisionDigest)
  {
    hide IsSha256, IsAscii, Strip, CheckPosture, DecisionBodyDigest;
  }

  // ------------------------------------------------------------- the chain

  /** A receipt conforms, for whatever permit, to only one decision, and states the permit it was checked against. */
  lemma OneDecisionPerReceipt(env: Env, receipt: Receipt, d: Decision, permit: string, d': Decision, permit': string)
    requires Conforms(env, d, receipt, permit) && Conforms(env, d', receipt, permit')
    requires NoCollision(env.hash, {TextOf(DECISION, DecisionFields(d)), TextOf(DECISION, DecisionFields(d'))})
    ensures d == d' && permit == permit'
  {
    hide ConformanceOf, CheckDecision, ValidateReceipt, TextOf, DecisionFields, AsciiIds, IsSha256;
    ConformsIsAdmissible(env, d, receipt, permit);
    ConformsIsAdmissible(env, d', receipt, permit');
    ConformantExactly(env, d, receipt, permit);
    ConformantExactly(env, d', receipt, permit');
    DecisionDigestIsIdentity(env, d, d');
  }

  /** A decision validates against only one request. */
  lemma OneRequestPerDecision(env: Env, d: Decision, r: Request, q: Request)
    requires ValidateDecisionFor(env, d, r).Ok? && ValidateDecisionFor(env, d, q).Ok?
    requires UnsplitRequest(r) && UnsplitRequest(q)
    requires NoCollision(env.hash, {TextOf(REQUEST, RequestFields(r)), TextOf(REQUEST, RequestFields(q))})
    ensures SameFields(RequestFields(r), RequestFields(q))
  {
    hide CheckDecision, ValidateRequest, BindAuthorization, RequestFields, UnsplitRequest, Digest, SameNames,
         UnsplitFields, SameFields, TextOf, IsAscii;
    assert RequestDigest(env.hash, r) == Ok(d.requestDigest) == RequestDigest(env.hash, q);
    RequestUnsplit(r);
    RequestUnsplit(q);
    RequestNames(r, q);
    EqualDigestsSameFields(env.hash, REQUEST, RequestFields(r), RequestFields(q));
  }

  lemma RequestNames(r: Request, q: Request)
    ensures SameNames(RequestFields(r), RequestFields(q))
  {
    hide S, N, Record, PolicyPackFields, ScopePolicyFields, RequirementFields, InventoryFields, ApprovalValue;
  }

  /** The fourteen authorization bindings of a receipt are the request's own values. */
  ghost predicate CarriesRequest(receipt: Receipt, r: Request) {
    && receipt.operationId == r.operationId && receipt.stepId == r.stepId && receipt.attemptId == r.attemptId
    && receipt.runtimeInstanceId == r.runtimeInstanceId && receipt.leaseId == r.leaseId
    && receipt.leaseEpoch == r.leaseEpoch && receipt.fencingTokenDigest == r.fencingTokenDigest
    && receipt.executionSpecDigest == r.executionSpecDigest && receipt.payloadDigest == r.payloadDigest
    && receipt.requestedScopeDigest == r.requestedScopeDigest && receipt.inventoryDigest == r.inventoryDigest
    && receipt.inventoryEpoch == r.inventory.inventoryEpoch && receipt.policyPackDigest == r.policyPackDigest
    && receipt.policyEpoch == r.policyEpoch
  }

  lemma GrantIsRequest(env: Env, d: Decision, r: Request)
    requires ValidateDecisionFor(env, d, r).Ok? && d.authorization.Some?
    ensures BindAuthorization(d.authorization.value, r).Ok?
  {
    hide CheckDecision, ValidateRequest, BindAuthorization, RequestDigest, Same;
  }

  /** A conformant receipt of a decision carries the values of the decision's request. */
  lemma ReceiptCarriesRequest(env: Env, receipt: Receipt, d: Decision, permit: string, r: Request)
    requires Conforms(env, d, receipt, permit) && ValidateDecisionFor(env, d, r).Ok?
    ensures CarriesRequest(receipt, r)
  {
    hide ConformanceOf, ValidateDecisionFor, CheckDecision, ValidateReceipt, AsciiIds, IsSha256, CheckAuthorization,
         DecisionBodyDigest;
    ConformsIsAdmissible(env, d, receipt, permit);
    ConformantExactly(env, d, receipt, permit);
    AllowedHasGrant(env, d);
    GrantIsRequest(env, d, r);
  }

  lemma SoundIsUnsplit(r: Request)
    requires Sound(r)
    ensures UnsplitRequest(r)
  {
  }

  /** End to end: a conformant receipt leads to one decision and one request and carries that request's values, and an
      approval valid for that request is valid for no request that differs in anything but the approval. */
  lemma ReceiptFixesTransaction(
    env: Env, receipt: Receipt, d: Decision, permit: string, r: Request,
    d': Decision, permit': string, r': Request,
    a: Attestation, q: Request, trust: TrustPolicy, trust': TrustPolicy,
    revoked: Revocation, revoked': Revocation, now: int, now': int)
    requires Conforms(env, d, receipt, permit) && ValidateDecisionFor(env, d, r).Ok?
    requires Conforms(env, d', receipt, permit') && ValidateDecisionFor(env, d', r').Ok?
    requires Sound(r) && Sound(r') && Sound(q)
    requires NoCollision(env.hash, {TextOf(DECISION, DecisionFields(d)), TextOf(DECISION, DecisionFields(d'))})
    requires NoCollision(env.hash, {TextOf(REQUEST, RequestFields(r)), TextOf(REQUEST, RequestFields(r'))})
    requires NoCollision(env.hash, StatedTexts(r) + StatedTexts(q)
                                   + {TextOf(SUBJECT, SubjectFields(r)), TextOf(SUBJECT, SubjectFields(q))})
    ensures d == d' && SameFields(RequestFields(r), RequestFields(r')) && CarriesRequest(receipt, r)
    ensures (&& ValidateApproval(env, a, r, trust, revoked, now).Ok?
             && ValidateApproval(env, a, q, trust', revoked', now').Ok?) ==> SameButApproval(r, q)
  {
    hide ConformanceOf, ValidateDecisionFor, CheckDecision, ValidateReceipt, ValidateApproval, TextOf, DecisionFields,
         RequestFields, SubjectFields, StatedTexts, SameFields, Sound, CarriesRequest, SameButApproval;
    OneDecisionPerReceipt(env, receipt, d, permit, d', permit');
    SoundIsUnsplit(r);
    SoundIsUnsplit(r');
    OneRequestPerDecision(env, d, r, r');
    ReceiptCarriesRequest(env, receipt, d, permit, r);
    if ValidateApproval(env, a, r, trust, revoked, now).Ok? && ValidateApproval(env, a, q, trust', revoked', now').Ok? {
      ApprovalBindsRequest(env, a, r, q, trust, trust', revoked, revoked', now, now');
    }
  }
}
