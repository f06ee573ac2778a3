/** What the digests of a transaction fix, member by member: one approval digest, one approval; one approved subject, one
    request; one request digest, one request with its approval; one receipt digest, one receipt. */
module RecordMembers {
  import opened Prelude
  import opened PyStrings
  import opened PyValues
  import opened CanonicalRecord
  import opened Readback
  import opened RecordText
  import opened GovernanceRecords
  import opened GovernanceRequests
  import opened ApprovalBinding
  import opened GovernanceDecisions
  import opened ReceiptConformance
  import opened ReceiptGuarantees
  import opened EndToEnd

  lemma SameTexts(f: Fields, g: Fields, i: nat, xs: seq<string>, ys: seq<string>)
    requires SameFields(f, g) && i < |f| && f[i].1 == Texts(xs) && g[i].1 == Texts(ys)
    ensures xs == ys
  {
    var s, t := Texts(xs).elems, Texts(ys).elems;
    assert |DenoteElems(s)| == |xs| && |DenoteElems(t)| == |ys|;
    forall i | 0 <= i < |xs|
      ensures xs[i] == ys[i]
    {
      DenoteElemsAt(s, i);
      DenoteElemsAt(t, i);
      UInjective(xs[i], ys[i]);
    }
  }

  lemma AgreeingMeansSame(f: Fields, g: Fields)
    requires FieldsAgree(f, g) && SameNames(f, g)
    ensures SameFields(f, g)
  {
    hide Canonicalise, Denote;
    forall i | 0 <= i < |f|
      ensures Denote(f[i].1) == Denote(g[i].1)
    {
      CanonicalDenotes(f[i].1, Canonicalise(f[i].1).value);
      CanonicalDenotes(g[i].1, Canonicalise(g[i].1).value);
    }
  }

  // ------------------------------------------------------------ the subject

  lemma SubjectPart0(r: Request, q: Request)
    requires SameFields(SubjectFields(r), SubjectFields(q))
    ensures r.transactionId == q.transactionId && r.operationId == q.operationId && r.stepId == q.stepId
    ensures r.attemptId == q.attemptId && r.policyPackDigest == q.policyPackDigest && r.policyEpoch == q.policyEpoch
  {
    hide SameFields, S, N;
    var f, g := SubjectFields(r), SubjectFields(q);
    SameText(f, g, 0, r.transactionId, q.transactionId);
    SameText(f, g, 1, r.operationId, q.operationId);
    SameText(f, g, 2, r.stepId, q.stepId);
    SameText(f, g, 3, r.attemptId, q.attemptId);
    SameText(f, g, 4, r.policyPackDigest, q.policyPackDigest);
    SameInt(f, g, 5, r.policyEpoch, q.policyEpoch);
  }

  lemma SubjectPart1(r: Request, q: Request)
    requires SameFields(SubjectFields(r), SubjectFields(q))
    ensures r.executionFactsDigest == q.executionFactsDigest && r.executionSpecDigest == q.executionSpecDigest
    ensures r.payloadDigest == q.payloadDigest
    ensures r.requestedScopeDigest == q.requestedScopeDigest && r.scopePolicyDigest == q.scopePolicyDigest
    ensures r.requirementsDigest == q.requirementsDigest
  {
    hide SameFields, S, N;
    var f, g := SubjectFields(r), SubjectFields(q);
    SameText(f, g, 6, r.executionFactsDigest, q.executionFactsDigest);
    SameText(f, g, 7, r.executionSpecDigest, q.executionSpecDigest);
    SameText(f, g, 8, r.payloadDigest, q.payloadDigest);
    SameText(f, g, 9, r.requestedScopeDigest, q.requestedScopeDigest);
    SameText(f, g, 10, r.scopePolicyDigest, q.scopePolicyDigest);
    SameText(f, g, 11, r.requirementsDigest, q.requirementsDigest);
  }

  lemma SubjectPart2(r: Request, q: Request)
    requires SameFields(SubjectFields(r), SubjectFields(q))
    ensures r.inventoryDigest == q.inventoryDigest && r.sideEffectClass == q.sideEffectClass
    ensures r.runtimeInstanceId == q.runtimeInstanceId
    ensures r.leaseId == q.leaseId && r.leaseEpoch == q.leaseEpoch && r.fencingTokenDigest == q.fencingTokenDigest
  {
    hide SameFields, S, N;
    var f, g := SubjectFields(r), SubjectFields(q);
    SameText(f, g, 12, r.inventoryDigest, q.inventoryDigest);
    SameText(f, g, 13, r.sideEffectClass, q.sideEffectClass);
    SameText(f, g, 14, r.runtimeInstanceId, q.runtimeInstanceId);
    SameText(f, g, 15, r.leaseId, q.leaseId);
    SameInt(f, g, 16, r.leaseEpoch, q.leaseEpoch);
    SameText(f, g, 17, r.fencingTokenDigest, q.fencingTokenDigest);
  }

  // ------------------------------------------------------- nested records

  lemma PackMembers(p: PolicyPack, q: PolicyPack)
    requires SameFields(PolicyPackFields(p), PolicyPackFields(q))
    ensures SamePack(p, q)
  {
    hide SameFields, S, N;
    var f, g := PolicyPackFields(p), PolicyPackFields(q);
    SameText(f, g, 0, p.schemaVersion, q.schemaVersion);
    SameText(f, g, 1, p.policyId, q.policyId);
    SameText(f, g, 2, p.version, q.version);
    SameText(f, g, 3, p.issuerRef, q.issuerRef);
    SameInt(f, g, 4, p.policyEpoch, q.policyEpoch);
    SameText(f, g, 5, p.notBefore, q.notBefore);
    SameText(f, g, 6, p.expiresAt, q.expiresAt);
    SameAt(f, g, 7);
  }

  lemma SameAt(f: Fields, g: Fields, i: nat)
    requires SameFields(f, g) && i < |f|
    ensures |g| == |f| && Denote(f[i].1) == Denote(g[i].1)
  {
  }

  ghost predicate SamePack(p: PolicyPack, q: PolicyPack) {
    p == q.(rest := p.rest) && Denote(p.rest) == Denote(q.rest)
  }

  ghost predicate SameScopePolicy(b: ScopePolicyBinding, c: ScopePolicyBinding) {
    b == c.(rest := b.rest) && Denote(b.rest) == Denote(c.rest)
  }

  ghost predicate SameRequirements(x: CapabilityRequirements, y: CapabilityRequirements) {
    x == y.(rest := x.rest) && Denote(x.rest) == Denote(y.rest)
  }

  ghost predicate SameInventory(i: CapabilityInventory, j: CapabilityInventory) {
    i == j.(rest := i.rest) && Denote(i.rest) == Denote(j.rest)
  }

  lemma ScopePolicyMembers(b: ScopePolicyBinding, c: ScopePolicyBinding)
    requires SameFields(ScopePolicyFields(b), ScopePolicyFields(c))
    ensures SameScopePolicy(b, c)
  {
    hide SameFields, S, N;
    var f, g := ScopePolicyFields(b), ScopePolicyFields(c);
    SameText(f, g, 0, b.policyPackDigest, c.policyPackDigest);
    SameInt(f, g, 1, b.policyEpoch, c.policyEpoch);
    SameAt(f, g, 2);
  }

  lemma RequirementMembers(x: CapabilityRequirements, y: CapabilityRequirements)
    requires SameFields(RequirementFields(x), RequirementFields(y))
    ensures SameRequirements(x, y)
  {
    hide SameFields, S, Texts;
    var f, g := RequirementFields(x), RequirementFields(y);
    SameText(f, g, 0, x.operationId, y.operationId);
    SameText(f, g, 1, x.stepId, y.stepId);
    SameText(f, g, 2, x.executionSpecDigest, y.executionSpecDigest);
    SameText(f, g, 3, x.sideEffectClass, y.sideEffectClass);
    SameText(f, g, 4, x.requiredBackendClass, y.requiredBackendClass);
    SameTexts(f, g, 5, x.requiredCapabilities, y.requiredCapabilities);
    SameAt(f, g, 6);
  }

  lemma InventoryMembers(x: CapabilityInventory, y: CapabilityInventory)
    requires SameFields(InventoryFields(x), InventoryFields(y))
    ensures SameInventory(x, y)
  {
    hide SameFields, S, N, Texts;
    var f, g := InventoryFields(x), InventoryFields(y);
    SameText(f, g, 0, x.runtimeInstanceId, y.runtimeInstanceId);
    SameInt(f, g, 1, x.inventoryEpoch, y.inventoryEpoch);
    SameTexts(f, g, 2, x.backendClasses, y.backendClasses);
    SameTexts(f, g, 3, x.capabilities, y.capabilities);
    SameAt(f, g, 4);
  }

  /** Equal in every member but the approval and its digest; free-form values up to key order and tuple/list. */
  ghost predicate SameTransaction(r: Request, q: Request) {
    && SamePack(r.policyPack, q.policyPack) && SameScopePolicy(r.scopePolicy, q.scopePolicy)
    && SameRequirements(r.requirements, q.requirements) && SameInventory(r.inventory, q.inventory)
    && Denote(r.executionFacts) == Denote(q.executionFacts) && Denote(r.requestedScope) == Denote(q.requestedScope)
    && r.transactionId == q.transactionId && r.operationId == q.operationId && r.stepId == q.stepId
    && r.attemptId == q.attemptId && r.policyPackDigest == q.policyPackDigest && r.policyEpoch == q.policyEpoch
    && r.executionFactsDigest == q.executionFactsDigest && r.executionSpecDigest == q.executionSpecDigest
    && r.payloadDigest == q.payloadDigest && r.requestedScopeDigest == q.requestedScopeDigest
    && r.scopePolicyDigest == q.scopePolicyDigest && r.requirementsDigest == q.requirementsDigest
    && r.inventoryDigest == q.inventoryDigest && r.sideEffectClass == q.sideEffectClass
    && r.runtimeInstanceId == q.runtimeInstanceId && r.leaseId == q.leaseId && r.leaseEpoch == q.leaseEpoch
    && r.fencingTokenDigest == q.fencingTokenDigest && r.schemaVersion == q.schemaVersion
  }

  lemma SameButApprovalMembers(r: Request, q: Request)
    requires SameButApproval(r, q)
    ensures SameTransaction(r, q)
  {
    hide SameFields, SubjectFields, PolicyPackFields, ScopePolicyFields, RequirementFields, InventoryFields, SamePack,
         SameScopePolicy, SameRequirements, SameInventory;
    SubjectPart0(r, q);
    SubjectPart1(r, q);
    SubjectPart2(r, q);
    PackMembers(r.policyPack, q.policyPack);
    ScopePolicyMembers(r.scopePolicy, q.scopePolicy);
    RequirementMembers(r.requirements, q.requirements);
    InventoryMembers(r.inventory, q.inventory);
  }

  /** An approval valid for two requests approves one transaction: every member but the approval itself is the same. */
  lemma ApprovalFixesMembers(
    env: Env, a: Attestation, r: Request, q: Request, trust: TrustPolicy, trust': TrustPolicy,
    revoked: Revocation, revoked': Revocation, now: int, now': int)
    requires ValidateApproval(env, a, r, trust, revoked, now).Ok?
    requires ValidateApproval(env, a, q, trust', revoked', now').Ok?
    requires Sound(r) && Sound(q)
    requires NoCollision(env.hash, StatedTexts(r) + StatedTexts(q)
                                   + {TextOf(SUBJECT, SubjectFields(r)), TextOf(SUBJECT, SubjectFields(q))})
    ensures SameTransaction(r, q)
  {
    hide ValidateApproval, StatedTexts, TextOf, SubjectFields, SameButApproval, SameTransaction, Sound;
    ApprovalBindsRequest(env, a, r, q, trust, trust', revoked, revoked', now, now');
    SameButApprovalMembers(r, q);
  }

  // ------------------------------------------------------------ approvals

  lemma AttestationPart0(a: Attestation, b: Attestation)
    requires SameFields(AttestationFields(a), AttestationFields(b))
    ensures a.approvalId == b.approvalId && a.subjectDigest == b.subjectDigest && a.operationId == b.operationId
    ensures a.stepId == b.stepId && a.attemptId == b.attemptId
  {
    hide SameFields, S, N;
    var f, g := AttestationFields(a), AttestationFields(b);
    SameText(f, g, 0, a.approvalId, b.approvalId);
    SameText(f, g, 1, a.subjectDigest, b.subjectDigest);
    SameText(f, g, 2, a.operationId, b.operationId);
    SameText(f, g, 3, a.stepId, b.stepId);
    SameText(f, g, 4, a.attemptId, b.attemptId);
  }

  lemma AttestationPart1(a: Attestation, b: Attestation)
    requires SameFields(AttestationFields(a), AttestationFields(b))
    ensures a.executionSpecDigest == b.executionSpecDigest && a.executionFactsDigest == b.executionFactsDigest
    ensures a.targetScopeDigest == b.targetScopeDigest
    ensures a.policyPackDigest == b.policyPackDigest && a.policyEpoch == b.policyEpoch
  {
    hide SameFields, S, N;
    var f, g := AttestationFields(a), AttestationFields(b);
    SameText(f, g, 5, a.executionSpecDigest, b.executionSpecDigest);
    SameText(f, g, 6, a.executionFactsDigest, b.executionFactsDigest);
    SameText(f, g, 7, a.targetScopeDigest, b.targetScopeDigest);
    SameText(f, g, 8, a.policyPackDigest, b.policyPackDigest);
    SameInt(f, g, 9, a.policyEpoch, b.policyEpoch);
  }

  lemma AttestationPart2(a: Attestation, b: Attestation)
    requires SameFields(AttestationFields(a), AttestationFields(b))
    ensures a.sideEffectClass == b.sideEffectClass && a.approverRef == b.approverRef
    ensures a.approverRole == b.approverRole
    ensures a.trustDomain == b.trustDomain && a.issuedAt == b.issuedAt
  {
    hide SameFields, S, N;
    var f, g := AttestationFields(a), AttestationFields(b);
    SameText(f, g, 10, a.sideEffectClass, b.sideEffectClass);
    SameText(f, g, 11, a.approverRef, b.approverRef);
    SameText(f, g, 12, a.approverRole, b.approverRole);
    SameText(f, g, 13, a.trustDomain, b.trustDomain);
    SameText(f, g, 14, a.issuedAt, b.issuedAt);
  }

  lemma AttestationPart3(a: Attestation, b: Attestation)
    requires SameFields(AttestationFields(a), AttestationFields(b))
    ensures a.notBefore == b.notBefore && a.expiresAt == b.expiresAt && a.revocationRef == b.revocationRef
    ensures a.schemaVersion == b.schemaVersion && a.signatureRef == b.signatureRef
  {
    hide SameFields, S, N;
    var f, g := AttestationFields(a), AttestationFields(b);
    SameText(f, g, 15, a.notBefore, b.notBefore);
    SameText(f, g, 16, a.expiresAt, b.expiresAt);
    SameText(f, g, 17, a.revocationRef, b.revocationRef);
    SameText(f, g, 18, a.schemaVersion, b.schemaVersion);
    SameText(f, g, 19, a.signatureRef, b.signatureRef);
  }

  lemma AttestationMembers(a: Attestation, b: Attestation)
    requires SameFields(AttestationFields(a), AttestationFields(b))
    ensures a == b
  {
    hide SameFields, AttestationFields;
    AttestationPart0(a, b);
    AttestationPart1(a, b);
    AttestationPart2(a, b);
    AttestationPart3(a, b);
  }

  lemma AttestationNames(a: Attestation, b: Attestation)
    ensures SameNames(AttestationFields(a), AttestationFields(b))
  {
    hide S, N;
  }

  /** Two approvals with one digest are one approval. */
  lemma ApprovalDigestIsIdentity(h: Hash, a: Attestation, b: Attestation)
    requires AttestationDigest(h, a).Ok? && AttestationDigest(h, a) == AttestationDigest(h, b)
    requires NoCollision(h, {TextOf(ATTESTATION, AttestationFields(a)), TextOf(ATTESTATION, AttestationFields(b))})
    ensures a == b
  {
    hide Digest, SameFields, UnsplitFields, SameNames, AttestationFields, TextOf;
    AttestationUnsplit(a);
    AttestationUnsplit(b);
    AttestationNames(a, b);
    EqualDigestsSameFields(h, ATTESTATION, AttestationFields(a), AttestationFields(b));
    AttestationMembers(a, b);
  }

  // ------------------------------------------------------------ requests

  lemma NestedNames(r: Request, q: Request)
    ensures SameNames(PolicyPackFields(r.policyPack), PolicyPackFields(q.policyPack))
    ensures SameNames(ScopePolicyFields(r.scopePolicy), ScopePolicyFields(q.scopePolicy))
    ensures SameNames(RequirementFields(r.requirements), RequirementFields(q.requirements))
    ensures SameNames(InventoryFields(r.inventory), InventoryFields(q.inventory))
  {
    hide S, N, Texts;
  }

  lemma NestedAgree(r: Request, q: Request)
    requires FieldsAgree(RequestFields(r), RequestFields(q))
    ensures SamePack(r.policyPack, q.policyPack) && SameScopePolicy(r.scopePolicy, q.scopePolicy)
    ensures SameRequirements(r.requirements, q.requirements) && SameInventory(r.inventory, q.inventory)
  {
    hide FieldsAgree, SameFields, SameNames, S, N, Record, PolicyPackFields, ScopePolicyFields, RequirementFields,
         InventoryFields, ApprovalValue, SamePack, SameScopePolicy, SameRequirements, SameInventory;
    var f, g := RequestFields(r), RequestFields(q);
    NestedNames(r, q);
    RecordAt(f, g, 4, PolicyPackFields(r.policyPack), PolicyPackFields(q.policyPack));
    RecordAt(f, g, 13, ScopePolicyFields(r.scopePolicy), ScopePolicyFields(q.scopePolicy));
    RecordAt(f, g, 15, RequirementFields(r.requirements), RequirementFields(q.requirements));
    RecordAt(f, g, 17, InventoryFields(r.inventory), InventoryFields(q.inventory));
    AgreeingMeansSame(PolicyPackFields(r.policyPack), PolicyPackFields(q.policyPack));
    AgreeingMeansSame(ScopePolicyFields(r.scopePolicy), ScopePolicyFields(q.scopePolicy));
    AgreeingMeansSame(RequirementFields(r.requirements), RequirementFields(q.requirements));
    AgreeingMeansSame(InventoryFields(r.inventory), InventoryFields(q.inventory));
    PackMembers(r.policyPack, q.policyPack);
    ScopePolicyMembers(r.scopePolicy, q.scopePolicy);
    RequirementMembers(r.requirements, q.requirements);
    InventoryMembers(r.inventory, q.inventory);
  }

  lemma ApprovalAgrees(f: Fields, g: Fields, a: Option<Attestation>, b: Option<Attestation>)
    requires FieldsAgree(f, g) && |f| == 27 && f[25].1 == ApprovalValue(a) && g[25].1 == ApprovalValue(b)
    ensures a == b
  {
    if a.Some? && b.Some? {
      hide Canonicalise, FieldsAgree;
      AttestationNames(a.value, b.value);
      RecordAt(f, g, 25, AttestationFields(a.value), AttestationFields(b.value));
      AgreeingMeansSame(AttestationFields(a.value), AttestationFields(b.value));
      AttestationMembers(a.value, b.value);
    } else if a.Some? {
      hide AttestationFields;
      NoneIsNoRecord(AttestationFields(a.value));
    } else if b.Some? {
      hide AttestationFields;
      NoneIsNoRecord(AttestationFields(b.value));
    }
  }

  lemma RequestIdsSame(r: Request, q: Request)
    requires SameFields(RequestFields(r), RequestFields(q))
    ensures r.transactionId == q.transactionId && r.operationId == q.operationId && r.stepId == q.stepId
  {
    hide SameFields, S, N, Record, PolicyPackFields, ScopePolicyFields, RequirementFields, InventoryFields, ApprovalValue;
    var f, g := RequestFields(r), RequestFields(q);
    SameText(f, g, 0, r.transactionId, q.transactionId);
    SameText(f, g, 1, r.operationId, q.operationId);
    SameText(f, g, 2, r.stepId, q.stepId);
  }

  lemma RequestPolicySame(r: Request, q: Request)
    requires SameFields(RequestFields(r), RequestFields(q))
    ensures r.attemptId == q.attemptId && r.policyPackDigest == q.policyPackDigest && r.policyEpoch == q.policyEpoch
  {
    hide SameFields, S, N, Record, PolicyPackFields, ScopePolicyFields, RequirementFields, InventoryFields, ApprovalValue;
    var f, g := RequestFields(r), RequestFields(q);
    SameText(f, g, 3, r.attemptId, q.attemptId);
    SameText(f, g, 5, r.policyPackDigest, q.policyPackDigest);
    SameInt(f, g, 6, r.policyEpoch, q.policyEpoch);
  }

  lemma RequestInputsSame(r: Request, q: Request)
    requires SameFields(RequestFields(r), RequestFields(q))
    ensures Denote(r.executionFacts) == Denote(q.executionFacts)
    ensures Denote(r.requestedScope) == Denote(q.requestedScope)
    ensures r.executionFactsDigest == q.executionFactsDigest && r.executionSpecDigest == q.executionSpecDigest
    ensures r.payloadDigest == q.payloadDigest && r.requestedScopeDigest == q.requestedScopeDigest
  {
    hide SameFields, S, N, Record, PolicyPackFields, ScopePolicyFields, RequirementFields, InventoryFields, ApprovalValue,
         Denote;
    var f, g := RequestFields(r), RequestFields(q);
    SameAt(f, g, 7);
    SameText(f, g, 8, r.executionFactsDigest, q.executionFactsDigest);
    SameText(f, g, 9, r.executionSpecDigest, q.executionSpecDigest);
    SameText(f, g, 10, r.payloadDigest, q.payloadDigest);
    SameAt(f, g, 11);
    SameText(f, g, 12, r.requestedScopeDigest, q.requestedScopeDigest);
  }

  lemma RequestLeaseSame(r: Request, q: Request)
    requires SameFields(RequestFields(r), RequestFields(q))
    ensures r.scopePolicyDigest == q.scopePolicyDigest && r.requirementsDigest == q.requirementsDigest
    ensures r.inventoryDigest == q.inventoryDigest && r.sideEffectClass == q.sideEffectClass
    ensures r.runtimeInstanceId == q.runtimeInstanceId && r.leaseId == q.leaseId && r.leaseEpoch == q.leaseEpoch
    ensures r.fencingTokenDigest == q.fencingTokenDigest && r.schemaVersion == q.schemaVersion
    ensures r.approvalDigest == q.approvalDigest
  {
    hide SameFields, S, N, Record, PolicyPackFields, ScopePolicyFields, RequirementFields, InventoryFields, ApprovalValue;
    var f, g := RequestFields(r), RequestFields(q);
    SameText(f, g, 14, r.scopePolicyDigest, q.scopePolicyDigest);
    SameText(f, g, 16, r.requirementsDigest, q.requirementsDigest);
    SameText(f, g, 18, r.inventoryDigest, q.inventoryDigest);
    SameText(f, g, 19, r.sideEffectClass, q.sideEffectClass);
    SameText(f, g, 20, r.runtimeInstanceId, q.runtimeInstanceId);
    SameText(f, g, 21, r.leaseId, q.leaseId);
    SameInt(f, g, 22, r.leaseEpoch, q.leaseEpoch);
    SameText(f, g, 23, r.fencingTokenDigest, q.fencingTokenDigest);
    SameText(f, g, 24, r.schemaVersion, q.schemaVersion);
    SameText(f, g, 26, r.approvalDigest, q.approvalDigest);
  }

  /** Two requests with one digest are one request, approval included; a decision therefore validates against one
      request only, in every member. */
  lemma RequestDigestIsIdentity(h: Hash, r: Request, q: Request)
    requires RequestDigest(h, r).Ok? && RequestDigest(h, r) == RequestDigest(h, q)
    requires UnsplitRequest(r) && UnsplitRequest(q)
    requires NoCollision(h, {TextOf(REQUEST, RequestFields(r)), TextOf(REQUEST, RequestFields(q))})
    ensures SameTransaction(r, q) && r.approval == q.approval && r.approvalDigest == q.approvalDigest
  {
    hide Digest, FieldsAgree, SameFields, UnsplitFields, SameNames, RequestFields, TextOf, UnsplitRequest, SamePack,
         SameScopePolicy, SameRequirements, SameInventory;
    RequestUnsplit(r);
    RequestUnsplit(q);
    RequestNames(r, q);
    EqualDigestsAgree(h, REQUEST, RequestFields(r), RequestFields(q));
    AgreeingMeansSame(RequestFields(r), RequestFields(q));
    RequestIdsSame(r, q);
    RequestPolicySame(r, q);
    RequestInputsSame(r, q);
    RequestLeaseSame(r, q);
    NestedAgree(r, q);
    ApprovalField(r, q);
    ApprovalAgrees(RequestFields(r), RequestFields(q), r.approval, q.approval);
  }

  lemma ApprovalField(r: Request, q: Request)
    ensures |RequestFields(r)| == 27 && RequestFields(r)[25].1 == ApprovalValue(r.approval)
    ensures |RequestFields(q)| == 27 && RequestFields(q)[25].1 == ApprovalValue(q.approval)
  {
    hide S, N, Record, PolicyPackFields, ScopePolicyFields, RequirementFields, InventoryFields, ApprovalValue;
  }

  lemma DecisionFixesMembers(env: Env, d: Decision, r: Request, q: Request)
    requires ValidateDecisionFor(env, d, r).Ok? && ValidateDecisionFor(env, d, q).Ok?
    requires UnsplitRequest(r) && UnsplitRequest(q)
    requires NoCollision(env.hash, {TextOf(REQUEST, RequestFields(r)), TextOf(REQUEST, RequestFields(q))})
    ensures SameTransaction(r, q) && r.approval == q.approval && r.approvalDigest == q.approvalDigest
  {
    hide CheckDecision, ValidateRequest, BindAuthorization, RequestFields, UnsplitRequest, Digest, TextOf, IsAscii,
         SameTransaction;
    assert RequestDigest(env.hash, r) == Ok(d.requestDigest) == RequestDigest(env.hash, q);
    RequestDigestIsIdentity(env.hash, r, q);
  }

  // ------------------------------------------------------------- receipts

  lemma ReceiptPart0(r: Receipt, q: Receipt)
    requires SameFields(ReceiptFields(r), ReceiptFields(q))
    ensures r.schemaVersion == q.schemaVersion && r.receiptId == q.receiptId && r.operationId == q.operationId
  {
    hide SameFields, S, N, OutputValue;
    var f, g := ReceiptFields(r), ReceiptFields(q);
    SameText(f, g, 0, r.schemaVersion, q.schemaVersion);
    SameText(f, g, 1, r.receiptId, q.receiptId);
    SameText(f, g, 2, r.operationId, q.operationId);
  }

  lemma ReceiptPart1(r: Receipt, q: Receipt)
    requires SameFields(ReceiptFields(r), ReceiptFields(q))
    ensures r.stepId == q.stepId && r.attemptId == q.attemptId && r.runtimeInstanceId == q.runtimeInstanceId
    ensures r.decisionDigest == q.decisionDigest
  {
    hide SameFields, S, N, OutputValue;
    var f, g := ReceiptFields(r), ReceiptFields(q);
    SameText(f, g, 3, r.stepId, q.stepId);
    SameText(f, g, 4, r.attemptId, q.attemptId);
    SameText(f, g, 5, r.runtimeInstanceId, q.runtimeInstanceId);
    SameText(f, g, 6, r.decisionDigest, q.decisionDigest);
  }

  lemma ReceiptPart2(r: Receipt, q: Receipt)
    requires SameFields(ReceiptFields(r), ReceiptFields(q))
    ensures r.permitDigest == q.permitDigest && r.leaseId == q.leaseId && r.leaseEpoch == q.leaseEpoch
    ensures r.fencingTokenDigest == q.fencingTokenDigest && r.executionSpecDigest == q.executionSpecDigest
  {
    hide SameFields, S, N, OutputValue;
    var f, g := ReceiptFields(r), ReceiptFields(q);
    SameText(f, g, 7, r.permitDigest, q.permitDigest);
    SameText(f, g, 8, r.leaseId, q.leaseId);
    SameInt(f, g, 9, r.leaseEpoch, q.leaseEpoch);
    SameText(f, g, 10, r.fencingTokenDigest, q.fencingTokenDigest);
    SameText(f, g, 11, r.executionSpecDigest, q.executionSpecDigest);
  }

  lemma ReceiptPart3(r: Receipt, q: Receipt)
    requires SameFields(ReceiptFields(r), ReceiptFields(q))
    ensures r.payloadDigest == q.payloadDigest && r.requestedScopeDigest == q.requestedScopeDigest
    ensures r.inventoryDigest == q.inventoryDigest
    ensures r.inventoryEpoch == q.inventoryEpoch && r.policyPackDigest == q.policyPackDigest
    ensures r.policyEpoch == q.policyEpoch
    ensures r.terminalStatus == q.terminalStatus
  {
    hide SameFields, S, N, OutputValue;
    var f, g := ReceiptFields(r), ReceiptFields(q);
    SameText(f, g, 12, r.payloadDigest, q.payloadDigest);
    SameText(f, g, 13, r.requestedScopeDigest, q.requestedScopeDigest);
    SameText(f, g, 14, r.inventoryDigest, q.inventoryDigest);
    SameInt(f, g, 15, r.inventoryEpoch, q.inventoryEpoch);
    SameText(f, g, 16, r.policyPackDigest, q.policyPackDigest);
    SameInt(f, g, 17, r.policyEpoch, q.policyEpoch);
    SameText(f, g, 18, r.terminalStatus, q.terminalStatus);
  }

  lemma ReceiptRest(r: Receipt, q: Receipt)
    requires SameFields(ReceiptFields(r), ReceiptFields(q))
    ensures r.outputBytes == q.outputBytes
    ensures Denote(OutputValue(r.outputDigests)) == Denote(OutputValue(q.outputDigests))
  {
    hide SameFields, S, N, OutputValue;
    SameAt(ReceiptFields(r), ReceiptFields(q), 19);
    SameInt(ReceiptFields(r), ReceiptFields(q), 20, r.outputBytes, q.outputBytes);
  }

  lemma ReceiptNames(r: Receipt, q: Receipt)
    ensures SameNames(ReceiptFields(r), ReceiptFields(q))
  {
    hide S, N, OutputValue;
  }

  /** Output names as a mapping has them: no name twice. */
  ghost predicate NamedOnce(outputs: seq<(string, string)>) {
    forall i, j :: 0 <= i < j < |outputs| ==> outputs[i].0 != outputs[j].0
  }

  lemma OutputHeld(outputs: seq<(string, string)>, i: nat)
    requires NamedOnce(outputs) && i < |outputs|
    ensures var m := Denote(OutputValue(outputs));
            m.JObject? && TextKey(U(outputs[i].0)) in m.fields
            && m.fields[TextKey(U(outputs[i].0))] == Denote(S(outputs[i].1))
  {
    var items := OutputValue(outputs).items;
    forall i, j | 0 <= i < j < |items|
      ensures items[i].key != items[j].key
    {
      if items[i].key == items[j].key {
        UInjective(outputs[i].0, outputs[j].0);
      }
    }
    FillAt(DenoteEach(items), i);
    DenoteEachAt(items, i);
  }

  lemma OutputNamed(outputs: seq<(string, string)>, key: Key) returns (i: nat)
    requires Denote(OutputValue(outputs)).JObject? && key in Denote(OutputValue(outputs)).fields
    ensures i < |outputs| && key == TextKey(U(outputs[i].0))
  {
    var items := OutputValue(outputs).items;
    FillDomain(DenoteEach(items), key);
    i :| i < |items| && DenoteEach(items)[i].key == key;
  }

  lemma OutputsEqual(xs: seq<(string, string)>, ys: seq<(string, string)>, x: (string, string))
    requires NamedOnce(xs) && NamedOnce(ys) && Denote(OutputValue(xs)) == Denote(OutputValue(ys)) && x in xs
    ensures x in ys
  {
    hide OutputValue;
    var i :| 0 <= i < |xs| && xs[i] == x;
    OutputHeld(xs, i);
    var j := OutputNamed(ys, TextKey(U(x.0)));
    OutputHeld(ys, j);
    UInjective(x.0, ys[j].0);
    UInjective(x.1, ys[j].1);
    assert ys[j] == (ys[j].0, ys[j].1) && x == (x.0, x.1);
  }

  lemma ReceiptUnsplit(r: Receipt)
    ensures UnsplitFields(ReceiptFields(r))
  {
    hide Unsplit, OutputValue;
    ScalarsUnsplit();
    OutputsUnsplit(r.outputDigests);
  }

  lemma OutputsUnsplit(outputs: seq<(string, string)>)
    ensures Unsplit(OutputValue(outputs))
  {
    hide Unsplit;
    ScalarsUnsplit();
    RecordUnsplit(seq(|outputs|, i requires 0 <= i < |outputs| => (outputs[i].0, S(outputs[i].1))));
  }

  /** Two receipts with one digest are one receipt; their outputs are the same pairs, in whatever order. */
  lemma ReceiptDigestIsIdentity(env: Env, r: Receipt, q: Receipt)
    requires ValidateReceipt(env, r).Ok? && ValidateReceipt(env, q).Ok? && r.receiptDigest == q.receiptDigest
    requires NamedOnce(r.outputDigests) && NamedOnce(q.outputDigests)
    requires NoCollision(env.hash, {TextOf(RECEIPT, ReceiptFields(r)), TextOf(RECEIPT, ReceiptFields(q))})
    ensures r == q.(outputDigests := r.outputDigests)
    ensures forall x :: x in r.outputDigests <==> x in q.outputDigests
  {
    hide Digest, SameFields, UnsplitFields, SameNames, ReceiptFields, TextOf, OutputValue, NamedOnce, ValidateReceipt;
    ReceiptUnsplit(r);
    ReceiptUnsplit(q);
    ReceiptNames(r, q);
    ReceiptDigestIsRecomputed(env, r);
    ReceiptDigestIsRecomputed(env, q);
    EqualDigestsSameFields(env.hash, RECEIPT, ReceiptFields(r), ReceiptFields(q));
    ReceiptPart0(r, q);
    ReceiptPart1(r, q);
    ReceiptPart2(r, q);
    ReceiptPart3(r, q);
    ReceiptRest(r, q);
    forall x
      ensures x in r.outputDigests <==> x in q.outputDigests
    {
      if x in r.outputDigests {
        OutputsEqual(r.outputDigests, q.outputDigests, x);
      }
      if x in q.outputDigests {
        OutputsEqual(q.outputDigests, r.outputDigests, x);
      }
    }
  }

  lemma ReceiptDigestIsRecomputed(env: Env, r: Receipt)
    requires ValidateReceipt(env, r).Ok?
    ensures Digest(env.hash, RECEIPT, ReceiptFields(r)) == Ok(r.receiptDigest)
  {
    hide CheckShape, IsSha256, IsAscii, ReceiptFields, Digest;
  }
}
