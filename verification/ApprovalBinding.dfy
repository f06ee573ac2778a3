/** What a valid request's digests and an approval's subject digest fix, and which requests can be approved. */
module ApprovalBinding {
  import opened Prelude
  import opened PyStrings
  import opened PyValues
  import opened CanonicalRecord
  import opened Readback
  import opened RecordText
  import opened BoundedTraversal
  import opened BoundedCopy
  import opened CopiedRecords
  import opened GovernanceRecords
  import opened GovernanceRequests

  // ------------------------------------------------- what validation ensures

  /** The six nested records of a valid request have the digests the request states. */
  lemma DigestsRecomputed(env: Env, r: Request)
    requires CheckDigests(env, r).Ok?
    ensures Digest(env.hash, PACK, PolicyPackFields(r.policyPack)) == Ok(r.policyPackDigest)
    ensures FactsDigest(env, r.executionFacts) == Ok(r.executionFactsDigest)
    ensures ScopeDigest(env, r.requestedScope) == Ok(r.requestedScopeDigest)
    ensures Digest(env.hash, SCOPE_POLICY, ScopePolicyFields(r.scopePolicy)) == Ok(r.scopePolicyDigest)
    ensures Digest(env.hash, REQUIREMENTS, RequirementFields(r.requirements)) == Ok(r.requirementsDigest)
    ensures Digest(env.hash, INVENTORY, InventoryFields(r.inventory)) == Ok(r.inventoryDigest)
    ensures r.inventory.inventoryEpoch >= 0
  {
    hide Digest, FactsDigest, ScopeDigest, IsAscii, IsSha256, PolicyPackFields, ScopePolicyFields,
         RequirementFields, InventoryFields;
  }

  function Copied(v: Value): Value {
    match Copy(DEFAULT_LIMITS, true, v)
    case Ok(c) => c
    case Err(_) => v
  }

  function InputText(recordType: string, v: Value): string {
    match CanonicalText(recordType, "v1", Copied(v))
    case Ok(text) => text
    case Err(_) => ""
  }

  const FACTS := "govengine.governance.ExecutionFacts"
  const SCOPE := "govengine.governance.RequestedScope"

  lemma InputDigests(env: Env, r: Request)
    requires CheckDigests(env, r).Ok?
    ensures RecordDigest(env.hash, FACTS, "v1", Copied(r.executionFacts)) == Ok(r.executionFactsDigest)
    ensures RecordDigest(env.hash, SCOPE, "v1", Copied(r.requestedScope)) == Ok(r.requestedScopeDigest)
    ensures Copy(DEFAULT_LIMITS, true, r.executionFacts).Ok? && Copy(DEFAULT_LIMITS, true, r.requestedScope).Ok?
  {
    hide Copy, RecordDigest, RejectKeys, CheckDigests;
    DigestsRecomputed(env, r);
  }

  lemma SameInput(h: Hash, recordType: string, v: Value, w: Value)
    requires WellFormed(v) && WellFormed(w) && Unsplit(v) && Unsplit(w)
    requires Copy(DEFAULT_LIMITS, true, v).Ok? && Copy(DEFAULT_LIMITS, true, w).Ok?
    requires RecordDigest(h, recordType, "v1", Copied(v)).Ok?
    requires RecordDigest(h, recordType, "v1", Copied(v)) == RecordDigest(h, recordType, "v1", Copied(w))
    requires NoCollision(h, {InputText(recordType, v), InputText(recordType, w)})
    ensures Denote(v) == Denote(w)
  {
    hide Copy, Listed, Denote, Unsplit, WellFormed;
    CopyExact(DEFAULT_LIMITS, true, v);
    CopyExact(DEFAULT_LIMITS, true, w);
    ListedUnsplit(v);
    ListedUnsplit(w);
    DigestBinds(h, recordType, "v1", Copied(v), recordType, "v1", Copied(w));
  }

  // ------------------------------------------------- the subject fixes the request

  /** The inputs a request carries as they came: well formed, without split surrogate pairs. */
  ghost predicate Sound(r: Request) {
    UnsplitRequest(r) && WellFormed(r.executionFacts) && WellFormed(r.requestedScope)
  }

  /** The texts whose digests a request states. */
  function StatedTexts(r: Request): set<string> {
    {TextOf(PACK, PolicyPackFields(r.policyPack)), InputText(FACTS, r.executionFacts),
     InputText(SCOPE, r.requestedScope), TextOf(SCOPE_POLICY, ScopePolicyFields(r.scopePolicy)),
     TextOf(REQUIREMENTS, RequirementFields(r.requirements)), TextOf(INVENTORY, InventoryFields(r.inventory))}
  }

  /** Two requests that agree in everything but the attached approval. */
  ghost predicate SameButApproval(r: Request, q: Request) {
    && SameFields(SubjectFields(r), SubjectFields(q))
    && SameFields(PolicyPackFields(r.policyPack), PolicyPackFields(q.policyPack))
    && Denote(r.executionFacts) == Denote(q.executionFacts)
    && Denote(r.requestedScope) == Denote(q.requestedScope)
    && SameFields(ScopePolicyFields(r.scopePolicy), ScopePolicyFields(q.scopePolicy))
    && SameFields(RequirementFields(r.requirements), RequirementFields(q.requirements))
    && SameFields(InventoryFields(r.inventory), InventoryFields(q.inventory))
    && r.schemaVersion == q.schemaVersion
  }

  /** The six digests in the subject are equal. */
  lemma SubjectDigestsEqual(r: Request, q: Request)
    requires SameFields(SubjectFields(r), SubjectFields(q))
    ensures r.policyPackDigest == q.policyPackDigest && r.executionFactsDigest == q.executionFactsDigest
    ensures r.requestedScopeDigest == q.requestedScopeDigest && r.scopePolicyDigest == q.scopePolicyDigest
    ensures r.requirementsDigest == q.requirementsDigest && r.inventoryDigest == q.inventoryDigest
  {
    hide S, N, SameFields;
    var f, g := SubjectFields(r), SubjectFields(q);
    SameText(f, g, 4, r.policyPackDigest, q.policyPackDigest);
    SameText(f, g, 6, r.executionFactsDigest, q.executionFactsDigest);
    SameText(f, g, 9, r.requestedScopeDigest, q.requestedScopeDigest);
    SameText(f, g, 10, r.scopePolicyDigest, q.scopePolicyDigest);
    SameText(f, g, 11, r.requirementsDigest, q.requirementsDigest);
    SameText(f, g, 12, r.inventoryDigest, q.inventoryDigest);
  }

  lemma NestedNamesMatch(r: Request, q: Request)
    ensures SameNames(PolicyPackFields(r.policyPack), PolicyPackFields(q.policyPack))
    ensures SameNames(ScopePolicyFields(r.scopePolicy), ScopePolicyFields(q.scopePolicy))
    ensures SameNames(RequirementFields(r.requirements), RequirementFields(q.requirements))
    ensures SameNames(InventoryFields(r.inventory), InventoryFields(q.inventory))
  {
    hide S, N, Texts;
  }

  lemma NestedFieldsUnsplit(r: Request)
    requires UnsplitRequest(r)
    ensures UnsplitFields(PolicyPackFields(r.policyPack)) && UnsplitFields(ScopePolicyFields(r.scopePolicy))
    ensures UnsplitFields(RequirementFields(r.requirements)) && UnsplitFields(InventoryFields(r.inventory))
  {
    hide Unsplit, Texts;
    ScalarsUnsplit();
  }

  /** Equal digests of the four nested records: equal records. */
  lemma NestedRecordsFixed(env: Env, r: Request, q: Request)
    requires CheckDigests(env, r).Ok? && CheckDigests(env, q).Ok? && UnsplitRequest(r) && UnsplitRequest(q)
    requires r.policyPackDigest == q.policyPackDigest && r.scopePolicyDigest == q.scopePolicyDigest
    requires r.requirementsDigest == q.requirementsDigest && r.inventoryDigest == q.inventoryDigest
    requires NoCollision(env.hash, StatedTexts(r) + StatedTexts(q))
    ensures SameFields(PolicyPackFields(r.policyPack), PolicyPackFields(q.policyPack))
    ensures SameFields(ScopePolicyFields(r.scopePolicy), ScopePolicyFields(q.scopePolicy))
    ensures SameFields(RequirementFields(r.requirements), RequirementFields(q.requirements))
    ensures SameFields(InventoryFields(r.inventory), InventoryFields(q.inventory))
  {
    hide Digest, UnsplitFields, SameNames, SameFields, InputText, TextOf, CheckDigests, FactsDigest, ScopeDigest,
         PolicyPackFields, ScopePolicyFields, RequirementFields, InventoryFields, UnsplitRequest;
    DigestsRecomputed(env, r);
    DigestsRecomputed(env, q);
    NestedNamesMatch(r, q);
    NestedFieldsUnsplit(r);
    NestedFieldsUnsplit(q);
    var h := env.hash;
    EqualDigestsSameFields(h, PACK, PolicyPackFields(r.policyPack), PolicyPackFields(q.policyPack));
    EqualDigestsSameFields(h, SCOPE_POLICY, ScopePolicyFields(r.scopePolicy), ScopePolicyFields(q.scopePolicy));
    EqualDigestsSameFields(h, REQUIREMENTS, RequirementFields(r.requirements), RequirementFields(q.requirements));
    EqualDigestsSameFields(h, INVENTORY, InventoryFields(r.inventory), InventoryFields(q.inventory));
  }

  /** Equal digests of facts and scope: equal facts and scope. */
  lemma InputsFixed(env: Env, r: Request, q: Request)
    requires CheckDigests(env, r).Ok? && CheckDigests(env, q).Ok? && Sound(r) && Sound(q)
    requires r.executionFactsDigest == q.executionFactsDigest && r.requestedScopeDigest == q.requestedScopeDigest
    requires NoCollision(env.hash, StatedTexts(r) + StatedTexts(q))
    ensures Denote(r.executionFacts) == Denote(q.executionFacts)
    ensures Denote(r.requestedScope) == Denote(q.requestedScope)
  {
    hide RecordDigest, Denote, WellFormed, Unsplit, InputText, TextOf, CheckDigests, Copied, Copy,
         PolicyPackFields, ScopePolicyFields, RequirementFields, InventoryFields;
    InputDigests(env, r);
    InputDigests(env, q);
    SameInput(env.hash, FACTS, r.executionFacts, q.executionFacts);
    SameInput(env.hash, SCOPE, r.requestedScope, q.requestedScope);
  }

  lemma CheckedParts(env: Env, r: Request)
    requires Valid(env, r)
    ensures CheckDigests(env, r).Ok? && r.schemaVersion == "v1"
  {
    hide CheckRequestForms, CheckInputs, CheckDigests, CheckCrossBindings, CheckApproval, NonBlank;
  }

  /** Though it holds only digests and identifiers, the approved subject fixes the whole valid request:
      policy pack, facts, scope, scope policy, requirements and inventory. */
  lemma SubjectFixesRequest(env: Env, r: Request, q: Request)
    requires Valid(env, r) && Valid(env, q) && Sound(r) && Sound(q)
    requires SameFields(SubjectFields(r), SubjectFields(q))
    requires NoCollision(env.hash, StatedTexts(r) + StatedTexts(q))
    ensures SameButApproval(r, q)
  {
    hide ValidateRequest, CheckDigests, Denote, SameFields, PolicyPackFields, ScopePolicyFields, RequirementFields,
         InventoryFields, SubjectFields, StatedTexts, WellFormed, UnsplitRequest;
    SubjectDigestsEqual(r, q);
    CheckedParts(env, r);
    CheckedParts(env, q);
    NestedRecordsFixed(env, r, q);
    InputsFixed(env, r, q);
  }

  // ------------------------------------------------------ one approval, one subject

  /** An approval bound to two requests is bound to one subject. */
  lemma ApprovalBindsSubject(env: Env, a: Attestation, r: Request, q: Request)
    requires BindApproval(env, a, r).Ok? && BindApproval(env, a, q).Ok?
    requires NoCollision(env.hash, {TextOf(SUBJECT, SubjectFields(r)), TextOf(SUBJECT, SubjectFields(q))})
    ensures SameFields(SubjectFields(r), SubjectFields(q))
  {
    hide SubjectFields, UnsplitFields, SameNames, SameFields, TextOf, IsAscii, Strip;
    SubjectUnsplit(r);
    SubjectUnsplit(q);
    NamesNeedNoRequest(r, q);
    assert SubjectDigest(env.hash, r) == Ok(a.subjectDigest) == SubjectDigest(env.hash, q);
    EqualDigestsSameFields(env.hash, SUBJECT, SubjectFields(r), SubjectFields(q));
  }

  lemma NamesNeedNoRequest(r: Request, q: Request)
    ensures SameNames(SubjectFields(r), SubjectFields(q))
  {
    hide S, N;
  }

  /** An approval valid for two requests, at whatever times and under whatever trust policies,
      approves one and the same request. */
  lemma ApprovalBindsRequest(env: Env, a: Attestation, r: Request, q: Request,
                             trust: TrustPolicy, trust': TrustPolicy,
                             revoked: Revocation, revoked': Revocation, now: int, now': int)
    requires Sound(r) && Sound(q)
    requires ValidateApproval(env, a, r, trust, revoked, now).Ok?
    requires ValidateApproval(env, a, q, trust', revoked', now').Ok?
    requires NoCollision(env.hash, StatedTexts(r) + StatedTexts(q)
                                   + {TextOf(SUBJECT, SubjectFields(r)), TextOf(SUBJECT, SubjectFields(q))})
    ensures SameButApproval(r, q) && r.approvalDigest == q.approvalDigest
  {
    hide ValidateRequest, BindApproval, CheckAttestation, CheckedAttestationDigest, StatedTexts, TextOf, SubjectFields,
         SameButApproval, Sound, SameFields, IsAscii;
    ApprovalBindsSubject(env, a, r, q);
    SubjectFixesRequest(env, r, q);
  }

  // --------------------------------------------------- which requests can be approved

  function Attach(r: Request, a: Attestation, digest: string): Request {
    r.(approval := Some(a), approvalDigest := digest)
  }

  /** Attaching an approval changes neither the subject nor any check but the approval's own. */
  lemma AttachKeepsSubject(env: Env, r: Request, a: Attestation, digest: string)
    ensures SubjectFields(Attach(r, a, digest)) == SubjectFields(r)
    ensures Valid(env, r) && r.approval.None? ==>
              (Valid(env, Attach(r, a, digest)) <==> CheckApproval(env, Attach(r, a, digest)).Ok?)
  {
    hide CheckIdentity, CheckInputs, CheckDigests, CheckCrossBindings, CheckApproval, Attach, S, N;
    AttachKeepsIdentity(r, a, digest);
    AttachKeepsDigests(env, r, a, digest);
    AttachKeepsFields(r, a, digest);
  }

  lemma AttachKeepsFields(r: Request, a: Attestation, digest: string)
    ensures SubjectFields(Attach(r, a, digest)) == SubjectFields(r)
  {
    hide S, N;
  }

  lemma AttachKeepsIdentity(r: Request, a: Attestation, digest: string)
    ensures CheckIdentity(Attach(r, a, digest)) == CheckIdentity(r)
    ensures CheckCrossBindings(Attach(r, a, digest)) == CheckCrossBindings(r)
  {
    hide CheckRequestNames, CheckRequestForms, Same;
    AttachKeepsNames(r, a, digest);
    AttachKeepsForms(r, a, digest);
  }

  lemma AttachKeepsNames(r: Request, a: Attestation, digest: string)
    ensures CheckRequestNames(Attach(r, a, digest)) == CheckRequestNames(r)
  {
    hide NonBlank, AtLeastZero;
  }

  lemma AttachKeepsForms(r: Request, a: Attestation, digest: string)
    ensures CheckRequestForms(Attach(r, a, digest)) == CheckRequestForms(r)
  {
    hide Sha;
  }

  lemma AttachKeepsDigests(env: Env, r: Request, a: Attestation, digest: string)
    ensures CheckInputs(env, Attach(r, a, digest)) == CheckInputs(env, r)
    ensures CheckDigests(env, Attach(r, a, digest)) == CheckDigests(env, r)
  {
    hide Same, FactsDigest, ScopeDigest, ScopePolicyDigest, RequirementsDigest, InventoryDigest, Digest, RejectKeys, Bounded;
  }

  ghost predicate Approvable(env: Env, r: Request) {
    exists a: Attestation, d: string :: Valid(env, Attach(r, a, d))
  }

  ghost predicate SafeInt(i: int) {
    -JSON_SAFE_INTEGER_MAX <= i <= JSON_SAFE_INTEGER_MAX
  }

  lemma ScalarsAccepted()
    ensures forall s: string :: Canonicalise(S(s)).Ok?
    ensures forall i: int :: Canonicalise(N(i)).Ok? <==> SafeInt(i)
    ensures forall b: bool :: Canonicalise(Flag(b)).Ok?
  {
  }

  lemma AcceptedMember(f: Fields, i: nat)
    requires Canonicalise(Record(f)).Ok? && i < |f|
    ensures Canonicalise(f[i].1).Ok?
  {
    CanonicalMembers(Record(f).items, Canonicalise(Record(f)).value.items);
    assert Record(f).items[i].value == f[i].1;
  }

  lemma DigestibleIff(h: Hash, recordType: string, f: Fields)
    requires Strip(recordType) != "" && HasPrefix(Strip(recordType), "govengine.")
    ensures Digest(h, recordType, f).Ok? <==> Canonicalise(Record(f)).Ok?
  {
    hide Canonicalise, Strip, HasPrefix, Print;
  }

  /** Record types of the kernel are owned and trimmed. */
  lemma TypesAreOwned()
    ensures Strip(SUBJECT) == SUBJECT && HasPrefix(SUBJECT, "govengine.")
    ensures Strip(ATTESTATION) == ATTESTATION && HasPrefix(ATTESTATION, "govengine.")
  {
    StripTrims(SUBJECT);
    StripTrims(ATTESTATION);
    assert SUBJECT[..10] == "govengine." && ATTESTATION[..10] == "govengine.";
  }

  /** A subject has a digest exactly when its two epochs are exact in a double. */
  lemma SubjectDigestible(h: Hash, r: Request)
    ensures SubjectDigest(h, r).Ok? <==> SafeInt(r.policyEpoch) && SafeInt(r.leaseEpoch)
  {
    hide Canonicalise, S, N, Strip, HasPrefix, Digest, SafeInt;
    var f := SubjectFields(r);
    TypesAreOwned();
    ScalarsAccepted();
    DigestibleIff(h, SUBJECT, f);
    if Canonicalise(Record(f)).Ok? {
      AcceptedMember(f, 5);
      AcceptedMember(f, 16);
    }
    if SafeInt(r.policyEpoch) && SafeInt(r.leaseEpoch) {
      RecordAccepted(f);
    }
  }

  lemma AttestationDigestible(h: Hash, a: Attestation)
    requires SafeInt(a.policyEpoch)
    ensures AttestationDigest(h, a).Ok?
  {
    hide Canonicalise, S, N, Strip, HasPrefix, Digest, SafeInt;
    TypesAreOwned();
    ScalarsAccepted();
    DigestibleIff(h, ATTESTATION, AttestationFields(a));
    RecordAccepted(AttestationFields(a));
  }

  /** The approval anyone could write down for a request. */
  function Endorsement(env: Env, r: Request, subject: string): Attestation {
    Attestation("a", subject, r.operationId, r.stepId, r.attemptId, r.executionSpecDigest, r.executionFactsDigest,
                r.requestedScopeDigest, r.policyPackDigest, r.policyEpoch, r.sideEffectClass, "who", "role", "domain",
                env.stamp(0), env.stamp(0), env.stamp(1), "host:ref", "v1", "")
  }

  lemma EndorsementAccepted(env: Env, r: Request)
    requires HexHash(env.hash) && ClockOk(env) && CheckIdentity(r).Ok?
    requires SubjectDigest(env.hash, r).Ok?
    ensures CheckAttestation(env, Endorsement(env, r, SubjectDigest(env.hash, r).value)).Ok?
  {
    hide IsSha256, SubjectFields, Strip, CheckIdentity;
    DigestHasShape(env.hash, SUBJECT, SubjectFields(r));
    LettersAreVisible();
    IdentityHolds(r);
  }

  /** What the identity checks of a request ensure, as far as an approval repeats it. */
  lemma IdentityHolds(r: Request)
    requires CheckIdentity(r).Ok?
    ensures Strip(r.operationId) != "" && Strip(r.stepId) != "" && Strip(r.attemptId) != ""
    ensures IsSha256(r.executionSpecDigest) && IsSha256(r.executionFactsDigest)
    ensures IsSha256(r.requestedScopeDigest) && IsSha256(r.policyPackDigest) && r.policyEpoch >= 0
    ensures r.sideEffectClass in {"read_only", "mutation"}
  {
    hide IsSha256, Strip;
  }

  lemma LettersAreVisible()
    ensures Strip("a") != "" && Strip("who") != "" && Strip("role") != "" && Strip("domain") != ""
    ensures Strip("host:ref") != "" && Strip("mutation") != "" && Strip("read_only") != ""
  {
    hide Strip;
    FirstLetterShows("a");
    FirstLetterShows("who");
    FirstLetterShows("role");
    FirstLetterShows("domain");
    FirstLetterShows("host:ref");
    FirstLetterShows("mutation");
    FirstLetterShows("read_only");
  }

  lemma FirstLetterShows(s: string)
    requires s != "" && 'a' <= s[0] <= 'z'
    ensures Strip(s) != ""
  {
    assert !IsSpace(s[0]);
    StripLeftStart(s);
    StripKeepsVisible(s);
  }

  /** Validation already demands a policy epoch that is exact in a double: the scope policy is digested with it. */
  lemma PolicyEpochIsSafe(env: Env, r: Request)
    requires Valid(env, r)
    ensures SafeInt(r.policyEpoch)
  {
    hide CheckIdentity, CheckInputs, CheckDigests, CheckCrossBindings, CheckApproval, Digest, SafeInt, ScopePolicyFields,
         PolicyPackFields, RequirementFields, InventoryFields, FactsDigest, ScopeDigest;
    DigestsRecomputed(env, r);
    SameEpoch(r);
    ScopeEpochIsSafe(env.hash, r.scopePolicy);
  }

  lemma SameEpoch(r: Request)
    requires CheckCrossBindings(r).Ok?
    ensures r.scopePolicy.policyEpoch == r.policyEpoch
  {
    hide Same;
  }

  lemma ScopeEpochIsSafe(h: Hash, b: ScopePolicyBinding)
    requires Digest(h, SCOPE_POLICY, ScopePolicyFields(b)).Ok?
    ensures SafeInt(b.policyEpoch)
  {
    hide Canonicalise, Digest, S, N, SafeInt, Record;
    DigestedIsAccepted(h, SCOPE_POLICY, ScopePolicyFields(b));
    AcceptedMember(ScopePolicyFields(b), 1);
    ScalarsAccepted();
  }

  lemma DigestedIsAccepted(h: Hash, recordType: string, f: Fields)
    requires Digest(h, recordType, f).Ok?
    ensures Canonicalise(Record(f)).Ok?
  {
    hide Canonicalise, Strip, HasPrefix, Print, Record;
  }

  /** A valid request can be approved exactly when its three identifiers are ASCII and its lease epoch is exact in a
      double; validation alone demands neither. */
  lemma ApprovableExactly(env: Env, r: Request)
    requires HexHash(env.hash) && ClockOk(env) && Valid(env, r) && r.approval.None?
    ensures Approvable(env, r) <==>
              IsAscii(r.operationId) && IsAscii(r.stepId) && IsAscii(r.attemptId) && SafeInt(r.leaseEpoch)
  {
    hide ValidateRequest, IsAscii, SafeInt, SubjectFields;
    SubjectDigestible(env.hash, r);
    PolicyEpochIsSafe(env, r);
    if Approvable(env, r) {
      var a: Attestation, d: string :| Valid(env, Attach(r, a, d));
      ApprovedIsBound(env, r, a, d);
    }
    if IsAscii(r.operationId) && IsAscii(r.stepId) && IsAscii(r.attemptId) && SafeInt(r.leaseEpoch) {
      EndorsedIsValid(env, r);
    }
  }

  lemma ApprovedIsBound(env: Env, r: Request, a: Attestation, d: string)
    requires Valid(env, Attach(r, a, d))
    ensures IsAscii(r.operationId) && IsAscii(r.stepId) && IsAscii(r.attemptId) && SubjectDigest(env.hash, r).Ok?
  {
    hide CheckIdentity, CheckInputs, CheckDigests, CheckCrossBindings, CheckAttestation, IsAscii, Strip, SubjectFields,
         AttestationFields, Digest, IsSha256;
    AttachKeepsFields(r, a, d);
    assert BindApproval(env, a, Attach(r, a, d)).Ok?;
  }

  /** The endorsement of an approvable request makes it a valid, approved one. */
  lemma EndorsedIsValid(env: Env, r: Request)
    requires HexHash(env.hash) && ClockOk(env) && Valid(env, r) && r.approval.None?
    requires IsAscii(r.operationId) && IsAscii(r.stepId) && IsAscii(r.attemptId)
    requires SubjectDigest(env.hash, r).Ok? && SafeInt(r.policyEpoch)
    ensures Approvable(env, r)
  {
    hide CheckInputs, CheckDigests, CheckCrossBindings, CheckAttestation, IsAscii, IsSha256, Strip, SubjectFields,
         AttestationFields, SafeInt, Digest, CheckIdentity, BindApproval;
    var subject := SubjectDigest(env.hash, r).value;
    var a := Endorsement(env, r, subject);
    DigestHasShape(env.hash, SUBJECT, SubjectFields(r));
    EndorsementAccepted(env, r);
    AttestationDigestible(env.hash, a);
    var d := AttestationDigest(env.hash, a).value;
    DigestHasShape(env.hash, ATTESTATION, AttestationFields(a));
    AttachKeepsSubject(env, r, a, d);
    EndorsementBinds(env, r, d);
    Sha256IsAscii(d);
    assert CheckApproval(env, Attach(r, a, d)).Ok?;
    assert Valid(env, Attach(r, a, d));
  }

  lemma EndorsementBinds(env: Env, r: Request, d: string)
    requires CheckIdentity(r).Ok? && SubjectDigest(env.hash, r).Ok? && IsSha256(SubjectDigest(env.hash, r).value)
    requires IsAscii(r.operationId) && IsAscii(r.stepId) && IsAscii(r.attemptId)
    ensures BindApproval(env, Endorsement(env, r, SubjectDigest(env.hash, r).value),
                         Attach(r, Endorsement(env, r, SubjectDigest(env.hash, r).value), d)).Ok?
  {
    hide IsAscii, IsSha256, Strip, SubjectFields, Digest, CheckIdentity;
    var subject := SubjectDigest(env.hash, r).value;
    IdentityHolds(r);
    AttachKeepsSubject(env, r, Endorsement(env, r, subject), d);
    Sha256IsAscii(subject);
    Sha256IsAscii(r.executionSpecDigest);
    Sha256IsAscii(r.executionFactsDigest);
    Sha256IsAscii(r.requestedScopeDigest);
    Sha256IsAscii(r.policyPackDigest);
    LettersAreVisible();
    SideEffectIsAscii(r.sideEffectClass);
  }

  lemma SideEffectIsAscii(s: string)
    requires s in {"read_only", "mutation"}
    ensures IsAscii(s)
  {
  }
}
