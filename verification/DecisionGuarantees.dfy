/** What one evaluation guarantees: the exact allow condition, monotonicity in the approval, bounded
    authorizations, and a closing validation that rejects nothing. */
module DecisionGuarantees {
  import opened Prelude
  import opened PyStrings
  import opened PyValues
  import opened CanonicalRecord
  import opened RecordText
  import opened GovernanceRecords
  import opened GovernanceRequests
  import opened ApprovalBinding
  import opened GovernanceDecisions

  /** The identifier grammar of reason codes: a lower-case letter, then at most 127 lower-case letters, digits or
      underscores. The policy compiler lets no other reason into a pack, and the kernel's own codes follow it. */
  predicate IsReasonCode(s: string) {
    1 <= |s| <= 128 && 'a' <= s[0] <= 'z'
    && forall i :: 1 <= i < |s| ==> 'a' <= s[i] <= 'z' || '0' <= s[i] <= '9' || s[i] == '_'
  }

  /** What every error code of the kernel starts with. */
  predicate StartsWithLetter(s: string) {
    s != "" && 'a' <= s[0] <= 'z'
  }

  /** What is assumed of the unmodelled parts: hexadecimal hashes, a timestamp round trip, digests in digest form, and
      reason codes that follow the grammar: of verdicts on compiled packs, of gates and, up to their first letter, of
      failing control projections. */
  ghost predicate SoundEngine(e: Engine) {
    && HexHash(e.env.hash) && ClockOk(e.env)
    && (forall v: Verdict :: IsSha256(e.verdictDigest(v)))
    && (forall p: Plan :: IsSha256(e.planDigest(p)))
    && (forall t: string, v: Verdict, p: Plan :: IsSha256(e.traceDigest(t, v, p)))
    && (forall s: Value, b: ScopePolicyBinding :: SoundGate(e.scopeGate(s, b)))
    && (forall q: CapabilityRequirements, i: CapabilityInventory :: SoundGate(e.capabilityGate(q, i)))
    && SoundPolicy(e)
  }

  lemma SoundHash(e: Engine)
    requires SoundEngine(e)
    ensures HexHash(e.env.hash) && ClockOk(e.env)
  {
  }

  ghost predicate SoundGate(g: Result<Gate, GovError>) {
    g.Ok? ==> IsSha256(g.value.digest) && IsReasonCode(g.value.reasonCode)
  }

  ghost predicate SoundPolicy(e: Engine) {
    && (forall facts: Value, pack: PolicyPack :: e.env.compile(pack) == Ok(pack) && e.evaluate(facts, pack).Ok? ==>
          IsReasonCode(e.evaluate(facts, pack).value.reasonCode))
    && (forall v: Verdict :: e.project(v).Err? ==> StartsWithLetter(e.project(v).error))
  }

  // ---------------------------------------------------------- what was found

  /** The approval that was found is the attached one, validated. */
  lemma FoundApproval(e: Engine, r: Request, at: int, f: Findings)
    requires Find(e, r, at) == Ok(f)
    ensures f.approval == r.approval && f.gates.approvalValidated == r.approval.Some?
    ensures r.approval.Some? ==>
              e.trust.Some? && e.revoked.Some?
              && ValidateApproval(e.env, r.approval.value, r, e.trust.value, e.revoked.value, at).Ok?
              && CheckedAttestationDigest(e.env, r.approval.value).Ok?
  {
    hide ActiveUntil, PlanOf, Resolve, CheckedAttestationDigest, ValidateRequest, CheckAttestation, BindApproval,
         Same, ParseTime;
  }

  /** What evaluation takes for the initial verdict, the gates and the plan. */
  lemma FoundGates(e: Engine, r: Request, at: int, f: Findings)
    requires Find(e, r, at) == Ok(f)
    ensures e.evaluate(r.executionFacts, r.policyPack) == Ok(f.gates.initial)
    ensures e.scopeGate(r.requestedScope, r.scopePolicy) == Ok(f.gates.scope)
    ensures e.capabilityGate(r.requirements, r.inventory) == Ok(f.gates.capability)
    ensures Resolve(e.env, f.gates.initial, f.approval) == Ok(f.effective)
    ensures PlanOf(e, r.policyPack, f.effective) == Ok(f.gates.plan)
    ensures ActiveUntil(e, r, at) == Ok(f.activeUntil)
    ensures f.gates.approvalRequired
            == (r.sideEffectClass == "mutation" || f.gates.initial.decision == "approval_required")
  {
    hide ActiveUntil, PlanOf, Resolve, ValidatedApproval;
  }

  /** The decision under construction, part by part. */
  lemma DraftParts(e: Engine, r: Request, call: Call, d: Decision) returns (f: Findings)
    requires Draft(e, r, call) == Ok(d)
    ensures Find(e, r, call.at) == Ok(f)
    ensures Granted(e, r, call, f) == Ok(d.authorization) && RequestDigest(e.env.hash, r) == Ok(d.requestDigest)
    ensures ApprovalDigest(e.env, r.approval) == Ok(d.approvalDigest)
    ensures d == Assemble(e, r, call, f, d.authorization, d.requestDigest, d.approvalDigest)
  {
    hide Find, Granted, RequestDigest, ValidateVerdict, ApprovalDigest, OutcomeOf, DecisionId;
    f := Find(e, r, call.at).value;
    FoundApproval(e, r, call.at, f);
  }

  /** A returned decision is the draft with its digest filled in. */
  lemma DecisionIsDraft(e: Engine, r: Request, call: Call, d: Decision) returns (draft: Decision)
    requires EvaluateGovernance(e, r, call) == Ok(d)
    ensures Valid(e.env, r) && Draft(e, r, call) == Ok(draft)
    ensures DecisionBodyDigest(e.env.hash, draft) == Ok(d.decisionDigest)
    ensures d == draft.(decisionDigest := d.decisionDigest)
    ensures ValidateDecisionFor(e.env, d, r).Ok?
  {
    hide ValidateRequest, Draft, DecisionBodyDigest, CheckDecision, BindDecision;
    draft := Draft(e, r, call).value;
  }

  /** What a returned decision says. */
  lemma DecisionSays(e: Engine, r: Request, call: Call, d: Decision) returns (f: Findings)
    requires EvaluateGovernance(e, r, call) == Ok(d)
    ensures Valid(e.env, r) && Find(e, r, call.at) == Ok(f)
    ensures OutcomeOf(f.gates) == Outcome(d.status, d.reasonCode, d.blockers)
    ensures Granted(e, r, call, f) == Ok(d.authorization)
    ensures ApprovalDigest(e.env, r.approval) == Ok(d.approvalDigest)
    ensures d.controls == f.gates.plan.controls
  {
    hide EvaluateGovernance, Draft, Find, Granted, RequestDigest, ApprovalDigest, OutcomeOf, DecisionId,
         ValidateDecisionFor, DecisionBodyDigest;
    var draft := DecisionIsDraft(e, r, call, d);
    f := DraftParts(e, r, call, draft);
  }

  /** Only an approval requirement is ever resolved, so a plan can be allowed only for a verdict that
      does not deny, and without an approval only for a verdict that allows outright. */
  lemma PlanFollowsVerdict(e: Engine, r: Request, at: int, f: Findings)
    requires Find(e, r, at) == Ok(f)
    ensures f.gates.plan.Allowed() ==> f.gates.initial.decision != "deny"
    ensures f.gates.plan.Allowed() && r.approval.None? ==>
              f.gates.initial.decision in {"allow", "allow_with_obligations"}
    ensures f.gates.initial.decision != "approval_required" ==>
              PlanOf(e, r.policyPack, f.gates.initial) == Ok(f.gates.plan)
  {
    hide Find, PlanOf, ActiveUntil, CheckedAttestationDigest;
    FoundGates(e, r, at, f);
    FoundApproval(e, r, at, f);
    PlanIsConsistent(e, r.policyPack, f.effective);
  }

  // ------------------------------------------------------------ exact outcomes

  /** A decision is allowed exactly when the plan for the resolved verdict, the scope gate and the capability gate
      all pass and any required approval is attached; a denying verdict is then impossible. */
  lemma AllowedExactly(e: Engine, r: Request, call: Call, d: Decision) returns (f: Findings)
    requires EvaluateGovernance(e, r, call) == Ok(d)
    ensures Find(e, r, call.at) == Ok(f)
    ensures d.Allowed() <==> f.gates.plan.Allowed() && f.gates.scope.open && f.gates.capability.open
                             && (f.gates.approvalRequired ==> r.approval.Some?)
    ensures d.Allowed() ==> f.gates.initial.decision != "deny"
    ensures d.status == "approval_required" <==>
              && f.gates.initial.decision != "deny" && f.gates.scope.open && f.gates.capability.open
              && f.gates.approvalRequired && r.approval.None?
              && (f.gates.plan.Allowed() || f.gates.initial.decision == "approval_required")
    ensures d.status in STATUSES
  {
    hide EvaluateGovernance, Find, AllBlockers, Granted, ApprovalDigest;
    f := DecisionSays(e, r, call, d);
    FoundApproval(e, r, call.at, f);
    PlanFollowsVerdict(e, r, call.at, f);
  }

  /** Attaching an approval never rescues a denied decision, never hurts an allowed one, and settles a pending one
      by the plan for the resolved verdict; whatever the two calls' times and nonces. */
  lemma ApprovalNeverRescues(e: Engine, r: Request, a: Attestation, digest: string, before: Call, after: Call,
                             was: Decision, now: Decision) returns (f: Findings)
    requires r.approval.None?
    requires EvaluateGovernance(e, r, before) == Ok(was)
    requires EvaluateGovernance(e, Attach(r, a, digest), after) == Ok(now)
    ensures Find(e, Attach(r, a, digest), after.at) == Ok(f)
    ensures was.status == "denied" ==> now.status == "denied"
    ensures was.status == "allowed" ==> now.status == "allowed"
    ensures was.status == "approval_required" ==> now.status == (if f.gates.plan.Allowed() then "allowed" else "denied")
  {
    hide EvaluateGovernance, Find, PlanOf, Resolve, ActiveUntil;
    var q := Attach(r, a, digest);
    var g := AllowedExactly(e, r, before, was);
    f := AllowedExactly(e, q, after, now);
    FoundGates(e, r, before.at, g);
    FoundGates(e, q, after.at, f);
    PlanFollowsVerdict(e, r, before.at, g);
    PlanFollowsVerdict(e, q, after.at, f);
  }

  /** Every allowed mutation carries the digest of an approval that was valid when it was evaluated. */
  lemma AllowedMutationIsApproved(e: Engine, r: Request, call: Call, d: Decision)
    requires HexHash(e.env.hash)
    requires EvaluateGovernance(e, r, call) == Ok(d) && d.Allowed()
    requires r.sideEffectClass == "mutation"
    ensures r.approval.Some? && e.trust.Some? && e.revoked.Some?
    ensures ValidateApproval(e.env, r.approval.value, r, e.trust.value, e.revoked.value, call.at).Ok?
    ensures AttestationDigest(e.env.hash, r.approval.value) == Ok(d.approvalDigest) && IsSha256(d.approvalDigest)
  {
    hide EvaluateGovernance, Find, OutcomeOf, Granted, IsSha256, AttestationFields, ValidateApproval,
         ValidateRequest, CheckAttestation, Digest;
    var f := AllowedExactly(e, r, call, d);
    var _ := DecisionSays(e, r, call, d);
    FoundGates(e, r, call.at, f);
    FoundApproval(e, r, call.at, f);
    DigestHasShape(e.env.hash, ATTESTATION, AttestationFields(r.approval.value));
  }

  // -------------------------------------------------------- bounded lifetimes

  /** The expiry text parses to an instant no earlier than `earliest`. */
  ghost predicate ExpiresAfter(env: Env, expiresAt: string, earliest: int) {
    env.parse(expiresAt).Some? && earliest <= env.parse(expiresAt).value
  }

  /** Every issued authorization is short, and outlives neither the policy activation, nor a v1 pack's declared window,
      nor the approval. */
  lemma AuthorizationWindow(e: Engine, r: Request, call: Call, d: Decision, g: Authorization) returns (expires: int)
    requires ClockOk(e.env) && EvaluateGovernance(e, r, call) == Ok(d) && d.authorization == Some(g)
    ensures e.env.parse(g.issuedAt) == Some(call.at) && e.env.parse(g.expiresAt) == Some(expires)
    ensures g.expiresAt != ""
    ensures call.at < expires <= call.at + MAX_LIFETIME
    ensures ExpiresAfter(e.env, e.activation(r.policyPack.policyId).expiresAt, expires)
    ensures r.policyPack.schemaVersion == "v1" ==> ExpiresAfter(e.env, r.policyPack.expiresAt, expires)
    ensures r.approval.Some? ==> ExpiresAfter(e.env, r.approval.value.expiresAt, expires)
  {
    hide EvaluateGovernance, Find, OutcomeOf, Authorize, ActiveUntil, ApprovalDigest, ValidateApproval, PlanOf, Resolve;
    var f := DecisionSays(e, r, call, d);
    FoundGates(e, r, call.at, f);
    FoundApproval(e, r, call.at, f);
    ActivationWindow(e, r, call.at, f.activeUntil);
    expires := GrantWindow(e.env, r, "gov-auth:" + DecisionId(r, call), call, f.approval, f.activeUntil, g);
  }

  /** Exactly the allowed decisions carry an authorization. */
  lemma AllowedMeansAuthorized(e: Engine, r: Request, call: Call, d: Decision)
    requires EvaluateGovernance(e, r, call) == Ok(d)
    ensures d.Allowed() <==> d.authorization.Some?
  {
    hide EvaluateGovernance, Find, OutcomeOf, Authorize, ApprovalDigest;
    var _ := DecisionSays(e, r, call, d);
  }

  lemma ActivationWindow(e: Engine, r: Request, at: int, expires: int)
    requires ActiveUntil(e, r, at) == Ok(expires)
    ensures e.env.parse(e.activation(r.policyPack.policyId).expiresAt) == Some(expires)
    ensures r.policyPack.schemaVersion == "v1" ==> ExpiresAfter(e.env, r.policyPack.expiresAt, expires)
  {
    hide Same;
  }

  lemma GrantWindow(env: Env, r: Request, id: string, call: Call, approval: Option<Attestation>, activeUntil: int,
                    a: Authorization) returns (expires: int)
    requires ClockOk(env) && Authorize(env, r, id, call, approval, activeUntil) == Ok(a)
    ensures env.parse(a.issuedAt) == Some(call.at) && env.parse(a.expiresAt) == Some(expires) && a.expiresAt != ""
    ensures call.at < expires <= call.at + MAX_LIFETIME && expires <= activeUntil
    ensures approval.Some? ==> ExpiresAfter(env, approval.value.expiresAt, expires)
  {
    hide CheckAuthorization, Strip;
    BlankStrips();
    expires := call.expiresAt.value;
  }

  lemma BlankStrips()
    ensures Strip(" ") == "" && Strip("") == ""
  {
  }

  // --------------------------------------------------------------- refusals

  /** Every outcome but `allowed` is explained by at least one blocker. */
  lemma RefusalsAreExplained(e: Engine, r: Request, at: int, f: Findings)
    requires SoundEngine(e) && Find(e, r, at) == Ok(f)
    ensures var o := OutcomeOf(f.gates);
            && (o.status == "allowed" <==> o.blockers == [])
            && o.status in STATUSES && o.reasonCode != ""
  {
    hide Find, PlanOf, ActiveUntil, Resolve, IsSha256, Dedup, NonEmpty, AllBlockers, SoundPolicy;
    FoundGates(e, r, at, f);
    PlanFollowsVerdict(e, r, at, f);
    PlanIsConsistent(e, r.policyPack, f.effective);
    assert SoundGate(Ok(f.gates.scope)) && SoundGate(Ok(f.gates.capability));
    BlockersExplain(f.gates);
  }

  /** Blockers are merged from named reasons: there are none exactly when every gate is open. */
  lemma BlockersExplain(g: Gates)
    requires g.plan.reasonCode != "" && forall b :: b in g.plan.blockers ==> b != ""
    requires (!g.scope.open ==> g.scope.reasonCode != "") && (!g.capability.open ==> g.capability.reasonCode != "")
    ensures Dedup(NonEmpty(AllBlockers(g))) == [] <==>
              g.plan.Allowed() && g.scope.open && g.capability.open && !g.MissingApproval()
  {
    var all := AllBlockers(g);
    NonEmptyKeeps(all);
    DedupKeepsElements(NonEmpty(all));
    if all != [] {
      assert all[0] in all && all[0] != "";
      assert all[0] in NonEmpty(all);
    }
  }

  lemma DecisionIdIsNotBlank(r: Request, call: Call)
    ensures Strip(DecisionId(r, call)) != ""
  {
    StripTrims(call.decisionId);
    if Strip(call.decisionId) != "" {
      StripTrims(Strip(call.decisionId));
    } else {
      StripKeepsVisible(DecisionId(r, call));
      StripLeftStart(DecisionId(r, call));
    }
  }

  // ------------------------------------------------------------ reason codes

  /** A plan takes its reason from the verdict, from a failed projection, or from the kernel. */
  lemma PlanIsNamed(e: Engine, pack: PolicyPack, v: Verdict, p: Plan)
    requires SoundPolicy(e) && StartsWithLetter(v.reasonCode) && PlanOf(e, pack, v) == Ok(p)
    ensures StartsWithLetter(p.reasonCode)
  {
    hide Dedup, NonEmpty, PlanBlockers, IsReasonCode;
  }

  lemma CompiledPack(env: Env, r: Request)
    requires Valid(env, r)
    ensures env.compile(r.policyPack) == Ok(r.policyPack)
  {
    hide CheckIdentity, Bounded, RejectKeys, CheckDigests, CheckCrossBindings, CheckApproval;
  }

  /** Whatever the outcome, its reason starts with a letter. */
  lemma OutcomeIsNamed(e: Engine, r: Request, at: int, f: Findings)
    requires SoundEngine(e) && Valid(e.env, r) && Find(e, r, at) == Ok(f)
    ensures StartsWithLetter(OutcomeOf(f.gates).reasonCode)
  {
    hide Find, PlanOf, ActiveUntil, CheckedAttestationDigest, ValidateRequest, IsSha256, Dedup, NonEmpty, AllBlockers;
    FoundGates(e, r, at, f);
    CompiledPack(e.env, r);
    assert SoundGate(Ok(f.gates.scope)) && SoundGate(Ok(f.gates.capability));
    assert IsReasonCode(f.gates.initial.reasonCode);
    PlanIsNamed(e, r.policyPack, f.effective, f.gates.plan);
  }

  // ------------------------------------------------------- closing validation

  /** The closing validation rejects nothing: evaluation returns exactly when the request is valid, a decision can be
      drafted and the draft has a digest, and it then returns that draft with its digest. */
  lemma EvaluationReturnsExactly(e: Engine, r: Request, call: Call)
    requires SoundEngine(e)
    ensures EvaluateGovernance(e, r, call).Ok? <==>
              Valid(e.env, r) && Draft(e, r, call).Ok?
              && DecisionBodyDigest(e.env.hash, Draft(e, r, call).value).Ok?
  {
    hide Draft, ValidateRequest, DecisionBodyDigest, SoundEngine, ValidateDecisionFor;
    if Valid(e.env, r) && Draft(e, r, call).Ok? && DecisionBodyDigest(e.env.hash, Draft(e, r, call).value).Ok? {
      var draft := Draft(e, r, call).value;
      ClosingValidationAccepts(e, r, call, draft, DecisionBodyDigest(e.env.hash, draft).value);
    }
  }

  lemma ClosingValidationAccepts(e: Engine, r: Request, call: Call, draft: Decision, digest: string)
    requires SoundEngine(e) && Valid(e.env, r)
    requires Draft(e, r, call) == Ok(draft) && DecisionBodyDigest(e.env.hash, draft) == Ok(digest)
    ensures EvaluateGovernance(e, r, call) == Ok(draft.(decisionDigest := digest))
  {
    hide Draft, ValidateRequest, CheckDecision, BindDecision, DecisionBodyDigest, SoundEngine;
    DraftPassesChecks(e, r, call, draft, digest);
    DraftIsBound(e, r, call, draft, digest);
    assert EvaluateGovernance(e, r, call) == ValidateDecisionFor(e.env, draft.(decisionDigest := digest), r);
  }

  lemma DraftPassesChecks(e: Engine, r: Request, call: Call, draft: Decision, digest: string)
    requires SoundEngine(e) && Valid(e.env, r)
    requires Draft(e, r, call) == Ok(draft) && DecisionBodyDigest(e.env.hash, draft) == Ok(digest)
    ensures CheckDecision(e.env, draft.(decisionDigest := digest)).Ok?
  {
    hide Draft, OutcomeOf, IsSha256, IsAscii, Strip, Digest, CheckAuthorization, Find, ValidateRequest, CheckPosture,
         DecisionFields, RequestFields, AttestationFields, CheckAttestation, Granted, DecisionId, SoundEngine;
    var f := DraftParts(e, r, call, draft);
    DraftDigests(e, r, call, draft, digest);
    DigestIgnoresItself(draft, digest);
    RefusalsAreExplained(e, r, call.at, f);
    OutcomeIsNamed(e, r, call.at, f);
    FirstLetterShows(draft.reasonCode);
    DecisionIdIsNotBlank(r, call);
    TransactionIsNamed(e.env, r);
    DraftPosture(e, r, call, draft, digest);
  }

  lemma TransactionIsNamed(env: Env, r: Request)
    requires Valid(env, r)
    ensures Strip(r.transactionId) != ""
  {
    hide Strip, IsSha256, CheckInputs, CheckDigests, CheckCrossBindings, CheckApproval;
  }

  lemma DraftPosture(e: Engine, r: Request, call: Call, draft: Decision, digest: string)
    requires SoundEngine(e) && Draft(e, r, call) == Ok(draft)
    ensures CheckPosture(e.env, draft.(decisionDigest := digest)).Ok?
  {
    hide Draft, OutcomeOf, Find, CheckAuthorization, SoundEngine, RequestDigest, ApprovalDigest, DecisionId, Strip;
    var f := DraftParts(e, r, call, draft);
    RefusalsAreExplained(e, r, call.at, f);
  }

  lemma DraftDigests(e: Engine, r: Request, call: Call, d: Decision, digest: string)
    requires SoundEngine(e) && Draft(e, r, call) == Ok(d) && DecisionBodyDigest(e.env.hash, d) == Ok(digest)
    ensures IsSha256(d.requestDigest) && IsSha256(d.policyEvaluationDigest) && IsSha256(d.policyVerdictDigest)
    ensures IsSha256(d.enforcementPlanDigest) && IsSha256(d.governanceTraceDigest)
    ensures IsSha256(d.scopeDecisionDigest) && IsSha256(d.capabilityDigest)
    ensures d.approvalDigest != "" ==> IsSha256(d.approvalDigest)
    ensures IsSha256(digest) && IsAscii(digest) && IsAscii(d.requestDigest)
  {
    hide Draft, Find, OutcomeOf, IsSha256, IsAscii, Digest, DecisionFields, RequestFields, AttestationFields,
         CheckAttestation, Granted, DecisionId;
    var f := DraftParts(e, r, call, d);
    FoundGates(e, r, call.at, f);
    DigestHasShape(e.env.hash, DECISION, DecisionFields(d));
    DigestHasShape(e.env.hash, REQUEST, RequestFields(r));
    if r.approval.Some? {
      DigestHasShape(e.env.hash, ATTESTATION, AttestationFields(r.approval.value));
    }
    Sha256IsAscii(digest);
    Sha256IsAscii(d.requestDigest);
    assert SoundGate(Ok(f.gates.scope)) && SoundGate(Ok(f.gates.capability));
  }

  lemma DigestIgnoresItself(d: Decision, digest: string)
    ensures DecisionFields(d.(decisionDigest := digest)) == DecisionFields(d)
  {
  }

  lemma DraftIsBound(e: Engine, r: Request, call: Call, draft: Decision, digest: string)
    requires SoundEngine(e) && Draft(e, r, call) == Ok(draft) && DecisionBodyDigest(e.env.hash, draft) == Ok(digest)
    ensures BindDecision(e.env, draft.(decisionDigest := digest), r).Ok?
  {
    hide Draft, OutcomeOf, IsSha256, IsAscii, Find, DecisionBodyDigest, RequestDigest, DecisionId, ApprovalDigest,
         BindAuthorization, Authorize, SoundEngine;
    var f := DraftParts(e, r, call, draft);
    DraftDigests(e, r, call, draft, digest);
    if OutcomeOf(f.gates).status == "allowed" {
      GrantIsBound(e.env, r, "gov-auth:" + DecisionId(r, call), call, f.approval, f.activeUntil, draft.authorization.value);
    }
  }

  lemma GrantIsBound(env: Env, r: Request, id: string, call: Call, approval: Option<Attestation>, activeUntil: int,
                     a: Authorization)
    requires Authorize(env, r, id, call, approval, activeUntil) == Ok(a)
    ensures BindAuthorization(a, r).Ok?
  {
    hide CheckAuthorization, Strip, OutlivesNoApproval;
  }
}
