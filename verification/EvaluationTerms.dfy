/** Governance evaluation in plain terms: on the members of the request, the activation, the approval, the trust policy
    and the verdict, what each step of `govengine/governance_decision.py` demands and what it writes down. */
module EvaluationTerms {
  import opened Prelude
  import opened PyStrings
  import opened PyValues
  import opened CanonicalRecord
  import opened RecordText
  import opened GovernanceRecords
  import opened GovernanceRequests
  import opened ApprovalBinding
  import opened GovernanceDecisions
  import opened DecisionGuarantees

  // ------------------------------------------------------- policy activation

  /** The instant a timestamp text stands for is within bounds. */
  ghost predicate Starts(env: Env, text: string, at: int) {
    env.parse(text).Some? && env.parse(text).value <= at
  }

  ghost predicate Ends(env: Env, text: string, at: int) {
    env.parse(text).Some? && at < env.parse(text).value
  }

  /** The activation contains nothing but instants of the window the pack declares. */
  ghost predicate Narrows(env: Env, pack: PolicyPack, c: Activation) {
    && env.parse(pack.notBefore).Some? && env.parse(c.notBefore).Some?
    && env.parse(pack.expiresAt).Some? && env.parse(c.expiresAt).Some?
    && env.parse(pack.notBefore).value <= env.parse(c.notBefore).value
    && env.parse(c.expiresAt).value <= env.parse(pack.expiresAt).value
  }

  /** The activation binding is the active one for the request's policy, and its window is open. */
  ghost predicate InForce(env: Env, c: Activation, r: Request, at: int) {
    && c.status == "active"
    && c.policyId == r.policyPack.policyId && c.policyVersion == r.policyPack.version
    && c.policyPackDigest == r.policyPackDigest && IsAscii(r.policyPackDigest) && c.policyEpoch == r.policyEpoch
    && (r.policyPack.schemaVersion == "v1" ==>
          c.issuerRef == r.policyPack.issuerRef && Narrows(env, r.policyPack, c))
    && Starts(env, c.notBefore, at) && Ends(env, c.expiresAt, at)
  }

  /** The activation check succeeds exactly for a well-formed binding in force, and returns its expiry. */
  lemma ActiveExactly(e: Engine, r: Request, at: int)
    ensures var c := e.activation(r.policyPack.policyId);
            && (ActiveUntil(e, r, at).Ok? <==> e.activationShape(c).Pass? && InForce(e.env, c, r, at))
            && (ActiveUntil(e, r, at).Ok? ==> e.env.parse(c.expiresAt) == Some(ActiveUntil(e, r, at).value))
  {
    hide IsAscii;
  }

  // ---------------------------------------------------------------- approvals

  /** An identifier both sides state, not blank and in ASCII. */
  ghost predicate Stated(x: string, y: string) {
    x == y && Strip(x) != "" && IsAscii(x)
  }

  /** The approval is for this request: its subject, its attempt, its digests, its effect and its policy epoch. */
  ghost predicate ApprovesSubject(env: Env, a: Attestation, r: Request) {
    && RecordDigest(env.hash, SUBJECT, "v1", Record(SubjectFields(r))) == Ok(a.subjectDigest)
    && Stated(a.subjectDigest, a.subjectDigest)
    && Stated(a.operationId, r.operationId) && Stated(a.stepId, r.stepId) && Stated(a.attemptId, r.attemptId)
    && Stated(a.executionSpecDigest, r.executionSpecDigest)
    && Stated(a.executionFactsDigest, r.executionFactsDigest)
    && Stated(a.targetScopeDigest, r.requestedScopeDigest) && Stated(a.policyPackDigest, r.policyPackDigest)
    && Stated(a.sideEffectClass, r.sideEffectClass) && a.policyEpoch == r.policyEpoch
  }

  lemma ApprovesExactly(env: Env, a: Attestation, r: Request)
    ensures BindApproval(env, a, r).Ok? <==> ApprovesSubject(env, a, r)
  {
    hide Strip, IsAscii, SubjectFields, RecordDigest, Record;
  }

  /** Every name is there, every digest has its form, and the approval ends after it is issued and after it starts. */
  ghost predicate AttestationInForm(env: Env, a: Attestation) {
    && a.schemaVersion == "v1" && Strip(a.approvalId) != "" && Strip(a.operationId) != "" && Strip(a.stepId) != ""
    && Strip(a.attemptId) != "" && Strip(a.approverRef) != "" && Strip(a.approverRole) != ""
    && Strip(a.trustDomain) != "" && Strip(a.revocationRef) != ""
    && Strip(a.issuedAt) != "" && Strip(a.notBefore) != "" && Strip(a.expiresAt) != "" && Strip(a.sideEffectClass) != ""
    && IsSha256(a.subjectDigest) && IsSha256(a.executionSpecDigest) && IsSha256(a.executionFactsDigest)
    && IsSha256(a.targetScopeDigest) && IsSha256(a.policyPackDigest)
    && a.policyEpoch >= 0 && (a.sideEffectClass == "read_only" || a.sideEffectClass == "mutation")
    && env.parse(a.issuedAt).Some? && env.parse(a.notBefore).Some? && env.parse(a.expiresAt).Some?
    && env.parse(a.issuedAt).value < env.parse(a.expiresAt).value
    && env.parse(a.notBefore).value < env.parse(a.expiresAt).value
  }

  lemma AttestationExactly(env: Env, a: Attestation)
    ensures CheckAttestation(env, a).Ok? <==> AttestationInForm(env, a)
  {
    hide Strip, IsSha256;
  }

  /** Who approved is trusted to, the approval is open at this instant and has not been revoked. */
  ghost predicate TrustedNow(env: Env, a: Attestation, digest: string, trust: TrustPolicy, revoked: Revocation, now: int) {
    && a.approverRole in trust.roles && a.trustDomain in trust.domains
    && (trust.approvers != [] ==> a.approverRef in trust.approvers)
    && (trust.requireSignature ==> a.signatureRef != "")
    && Starts(env, a.notBefore, now) && Ends(env, a.expiresAt, now)
    && !revoked(a.approvalId, digest, a.revocationRef)
  }

  /** An approval is valid exactly when it is in form, approves the subject of a valid request that states its digest,
      and is trusted at this instant. */
  lemma ApprovalValidExactly(env: Env, a: Attestation, r: Request, trust: TrustPolicy, revoked: Revocation, now: int)
    requires HexHash(env.hash)
    ensures ValidateApproval(env, a, r, trust, revoked, now).Ok? <==>
              && AttestationInForm(env, a) && Valid(env, r) && ApprovesSubject(env, a, r)
              && AttestationDigest(env.hash, a) == Ok(r.approvalDigest)
              && TrustedNow(env, a, r.approvalDigest, trust, revoked, now)
  {
    hide CheckAttestation, AttestationInForm, ApprovesSubject, BindApproval, ValidateRequest, ValidateApproval,
         AttestationFields, TrustedNow, Digest, IsSha256;
    AttestationExactly(env, a);
    ApprovesExactly(env, a, r);
    DigestHasShape(env.hash, ATTESTATION, AttestationFields(a));
    if CheckAttestation(env, a).Ok? && Valid(env, r) && BindApproval(env, a, r).Ok? && AttestationDigest(env.hash, a).Ok? {
      TrustedExactly(env, a, r, trust, revoked, now, AttestationDigest(env.hash, a).value);
    } else {
      ApprovalNeedsAll(env, a, r, trust, revoked, now);
    }
  }

  lemma ApprovalNeedsAll(env: Env, a: Attestation, r: Request, trust: TrustPolicy, revoked: Revocation, now: int)
    ensures ValidateApproval(env, a, r, trust, revoked, now).Ok? ==>
              && CheckAttestation(env, a).Ok? && Valid(env, r) && BindApproval(env, a, r).Ok?
              && AttestationDigest(env.hash, a).Ok?
  {
    hide CheckAttestation, BindApproval, ValidateRequest, AttestationDigest, Same;
  }

  /** What is left to check of an approval in form, with its digest, for a valid request. */
  lemma TrustedExactly(
    env: Env, a: Attestation, r: Request, trust: TrustPolicy, revoked: Revocation, now: int, digest: string)
    requires CheckAttestation(env, a).Ok? && Valid(env, r) && BindApproval(env, a, r).Ok?
    requires AttestationDigest(env.hash, a) == Ok(digest) && IsSha256(digest)
    ensures ValidateApproval(env, a, r, trust, revoked, now).Ok? <==>
              r.approvalDigest == digest && TrustedNow(env, a, digest, trust, revoked, now)
  {
    hide CheckAttestation, BindApproval, ValidateRequest, IsAscii, IsSha256, AttestationDigest;
    Sha256IsAscii(digest);
    ShapeIsNotEmpty(digest);
    StatedApprovalIsAscii(env, r);
  }

  lemma ShapeIsNotEmpty(s: string)
    requires IsSha256(s)
    ensures s != ""
  {
  }

  lemma StatedApprovalIsAscii(env: Env, r: Request)
    requires Valid(env, r)
    ensures IsAscii(r.approvalDigest)
  {
    hide CheckIdentity, CheckInputs, CheckDigests, CheckCrossBindings, CheckedAttestationDigest, BindApproval, IsSha256,
         IsAscii;
    EmptyIsAscii();
    if r.approval.Some? {
      Sha256IsAscii(r.approvalDigest);
    }
  }

  lemma EmptyIsAscii()
    ensures IsAscii("")
  {
  }

  /** An attached approval is used exactly when it is valid under the host's trust policy and revocation lookup, and the
      host's verifier accepts its signature; without one there is nothing to check. */
  lemma ApprovalUsedExactly(e: Engine, r: Request, at: int)
    ensures ValidatedApproval(e, r, at).Ok? ==> ValidatedApproval(e, r, at).value == r.approval
    ensures ValidatedApproval(e, r, at).Ok? <==>
              (r.approval.Some? ==>
                 && e.trust.Some? && e.revoked.Some? && e.verifySignature.Some?
                 && ValidateApproval(e.env, r.approval.value, r, e.trust.value, e.revoked.value, at).Ok?
                 && AttestationDigest(e.env.hash, r.approval.value).Ok?
                 && e.verifySignature.value(r.approval.value, AttestationDigest(e.env.hash, r.approval.value).value,
                                            e.trust.value.policyId))
  {
    hide CheckAttestation, ValidateRequest, BindApproval, IsAscii, AttestationDigest;
  }

  // ---------------------------------------------------------------- verdicts

  /** Only a required approval is resolved, and then into an allowance that names the approval and carries no blockers. */
  lemma ResolvedExactly(env: Env, v: Verdict, approval: Option<Attestation>)
    ensures v.decision != "approval_required" || approval.None? ==> Resolve(env, v, approval) == Ok(v)
    ensures v.decision == "approval_required" && approval.Some? ==>
              var digest := CheckedAttestationDigest(env, approval.value);
              && (Resolve(env, v, approval).Ok? <==> digest.Ok?)
              && (digest.Ok? ==>
                    Resolve(env, v, approval).value
                    == Verdict("allow_with_obligations", "approval_requirement_satisfied", [],
                               v.evidenceRefs + {digest.value}, v.packId, v.packVersion, Some(digest.value), v.rest))
  {
    hide CheckedAttestationDigest;
  }

  /** What blocks a plan: the verdict's own blockers, a verdict for another pack or version, controls that cannot be
      projected, and the reason of a verdict that does not allow. */
  ghost predicate BlocksPlan(e: Engine, pack: PolicyPack, v: Verdict, b: string) {
    || b in v.blockers
    || (v.packId != Some(pack.policyId) && b == "policy_verdict_pack_mismatch")
    || (v.packVersion != Some(pack.version) && b == "policy_verdict_version_mismatch")
    || (v.decision in {"allow", "allow_with_obligations"} && e.project(v) == Err(b))
    || (v.decision !in {"allow", "allow_with_obligations"}
        && b == (if v.reasonCode == "" then v.decision else v.reasonCode))
  }

  lemma PlanBlockersExactly(e: Engine, pack: PolicyPack, v: Verdict, p: Plan)
    requires PlanOf(e, pack, v) == Ok(p)
    ensures forall b :: b in p.blockers <==> b != "" && BlocksPlan(e, pack, v, b)
    ensures p.Allowed() <==> p.blockers == []
    ensures v.decision in VERDICTS
  {
    hide Dedup, NonEmpty, BlocksPlan, PlanBlockers;
    NonEmptyKeeps(PlanBlockers(e, pack, v));
    DedupKeepsElements(NonEmpty(PlanBlockers(e, pack, v)));
    PlanBlockersAre(e, pack, v);
  }

  /** A plan is allowed exactly when the verdict allows under this very pack, names no blocker, and its controls can be
      projected; it then carries the projected controls. */
  lemma PlanAllowedExactly(e: Engine, pack: PolicyPack, v: Verdict, p: Plan)
    requires PlanOf(e, pack, v) == Ok(p) && forall x :: e.project(v) == Err(x) ==> x != ""
    ensures p.Allowed() <==>
              && (v.decision == "allow" || v.decision == "allow_with_obligations")
              && v.packId == Some(pack.policyId) && v.packVersion == Some(pack.version)
              && (forall b :: b in v.blockers ==> b == "") && e.project(v).Ok?
    ensures p.Allowed() ==> p.controls == e.project(v).value && p.reasonCode == "policy_controls_projected"
  {
    hide Dedup, NonEmpty, PlanBlockers, ValidateVerdict;
    PlanBlockersExactly(e, pack, v, p);
    KernelBlockersAreNamed();
    if p.blockers == [] {
      NothingBlocks(e, pack, v, p);
      PlanIsConsistent(e, pack, v);
    } else {
      assert p.blockers[0] in p.blockers;
    }
  }

  /** The other plans project no controls of their own unless the verdict's could be, and name the verdict's reason, or
      that of the failing projection. */
  lemma BlockedPlanExactly(e: Engine, pack: PolicyPack, v: Verdict, p: Plan)
    requires PlanOf(e, pack, v) == Ok(p) && !p.Allowed()
    ensures v.decision in {"allow", "allow_with_obligations"} && e.project(v).Ok? ==>
              p.controls == e.project(v).value && p.reasonCode == (if v.reasonCode == "" then v.decision else v.reasonCode)
    ensures v.decision in {"allow", "allow_with_obligations"} && e.project(v).Err? ==> p.reasonCode == e.project(v).error
    ensures v.decision !in {"allow", "allow_with_obligations"} ==>
              p.reasonCode == if v.reasonCode == "" then v.decision else v.reasonCode
    ensures v.decision !in {"allow", "allow_with_obligations"} || e.project(v).Err? ==>
              p.controls == Controls(Finite("0.0"), 0, 0, true, false, false, false, false, [], [], [], [])
  {
    hide Dedup, NonEmpty, PlanBlockers, ValidateVerdict;
  }

  lemma NothingBlocks(e: Engine, pack: PolicyPack, v: Verdict, p: Plan)
    requires forall b :: b in p.blockers <==> b != "" && BlocksPlan(e, pack, v, b)
    requires p.blockers == [] && v.decision in VERDICTS && forall x :: e.project(v) == Err(x) ==> x != ""
    ensures v.decision in {"allow", "allow_with_obligations"} && e.project(v).Ok?
    ensures v.packId == Some(pack.policyId) && v.packVersion == Some(pack.version)
    ensures forall b :: b in v.blockers ==> b == ""
  {
    KernelBlockersAreNamed();
    assert BlocksPlan(e, pack, v, "policy_verdict_pack_mismatch") ==> "policy_verdict_pack_mismatch" in p.blockers;
    assert BlocksPlan(e, pack, v, "policy_verdict_version_mismatch") ==> "policy_verdict_version_mismatch" in p.blockers;
    var own := if v.reasonCode == "" then v.decision else v.reasonCode;
    assert own != "" && (BlocksPlan(e, pack, v, own) ==> own in p.blockers);
    ProjectionBlocks(e, pack, v);
    forall b | b in v.blockers
      ensures b == ""
    {
      assert BlocksPlan(e, pack, v, b);
    }
  }

  lemma ProjectionBlocks(e: Engine, pack: PolicyPack, v: Verdict)
    ensures v.decision in {"allow", "allow_with_obligations"} && e.project(v).Err? ==>
              BlocksPlan(e, pack, v, e.project(v).error)
  {
  }

  lemma KernelBlockersAreNamed()
    ensures "policy_verdict_pack_mismatch" != "" && "policy_verdict_version_mismatch" != ""
    ensures "deny" != "" && "approval_required" != ""
  {
  }

  lemma PlanBlockersAre(e: Engine, pack: PolicyPack, v: Verdict)
    ensures forall b :: b in PlanBlockers(e, pack, v) <==> BlocksPlan(e, pack, v, b)
  {
  }

  // ------------------------------------------------------------------ outcomes

  /** Which gate gives the outcome and its reason: a denied or blocked plan, then the scope, then the capability, then a
      missing approval, then the plan for a verdict that asks for one. */
  lemma OutcomeExactly(g: Gates)
    ensures var o := OutcomeOf(g);
            var planFirst := g.initial.decision == "deny" || (!g.plan.Allowed() && g.initial.decision != "approval_required");
            var missing := g.approvalRequired && !g.approvalValidated;
            && (planFirst ==> o.status == "denied" && o.reasonCode == g.plan.reasonCode)
            && (!planFirst && !g.scope.open ==> o.status == "denied" && o.reasonCode == g.scope.reasonCode)
            && (!planFirst && g.scope.open && !g.capability.open ==>
                  o.status == "denied" && o.reasonCode == g.capability.reasonCode)
            && (!planFirst && g.scope.open && g.capability.open && missing ==>
                  o.status == "approval_required" && o.reasonCode == "approval_attestation_required")
            && (!planFirst && g.scope.open && g.capability.open && !missing ==>
                  if g.plan.Allowed() then o == Outcome("allowed", "all_governance_gates_passed", [])
                  else o.status == "denied" && o.reasonCode == g.plan.reasonCode)
  {
    hide Dedup, NonEmpty, AllBlockers;
  }

  // ------------------------------------------------------------ authorizations

  /** What the caller must pass for an allowed decision: a nonce of at most 256 characters and an expiry after the
      evaluation, at most 60 seconds later, and no later than the activation and the approval. */
  ghost predicate GrantAsked(env: Env, call: Call, approval: Option<Attestation>, activeUntil: int) {
    && Strip(call.nonce) != "" && |Strip(call.nonce)| <= 256
    && call.expiresAt.Some? && call.at < call.expiresAt.value <= call.at + 60_000_000
    && call.expiresAt.value <= activeUntil
    && (approval.Some? ==> env.parse(approval.value.expiresAt).Some?
                           && call.expiresAt.value <= env.parse(approval.value.expiresAt).value)
  }

  /** For a valid request an authorization is issued exactly when the call asks for it properly. */
  lemma GrantedExactly(env: Env, r: Request, id: string, call: Call, approval: Option<Attestation>, activeUntil: int)
    requires ClockOk(env) && Valid(env, r) && Strip(id) != ""
    ensures Authorize(env, r, id, call, approval, activeUntil).Ok? <==> GrantAsked(env, call, approval, activeUntil)
    ensures Authorize(env, r, id, call, approval, activeUntil).Ok? ==>
              var a := Authorize(env, r, id, call, approval, activeUntil).value;
              a.authorizationId == id && a.nonce == Strip(call.nonce) && a.consumeOnce && a.schemaVersion == "v1"
  {
    hide Strip, CheckAuthorization, ValidateRequest;
    if GrantAsked(env, call, approval, activeUntil) {
      GrantIsInForm(env, r, id, call);
    }
  }

  function Grant(env: Env, r: Request, id: string, call: Call): Authorization
    requires call.expiresAt.Some?
  {
    Authorization(
      id, r.operationId, r.stepId, r.attemptId, r.runtimeInstanceId, r.leaseId, r.leaseEpoch,
      r.fencingTokenDigest, r.executionSpecDigest, r.payloadDigest, r.requestedScopeDigest, r.inventoryDigest,
      r.inventory.inventoryEpoch, r.policyPackDigest, r.policyEpoch, env.stamp(call.at), env.stamp(call.expiresAt.value),
      Strip(call.nonce), true, "v1")
  }

  lemma GrantIsInForm(env: Env, r: Request, id: string, call: Call)
    requires ClockOk(env) && Valid(env, r) && Strip(id) != "" && Strip(call.nonce) != ""
    requires call.expiresAt.Some? && call.at < call.expiresAt.value <= call.at + 60_000_000
    ensures CheckAuthorization(env, Grant(env, r, id, call)).Ok?
  {
    hide Strip, IsSha256, CheckInputs, CheckDigests, CheckCrossBindings, CheckApproval, CheckGrantNames, CheckGrantForms,
         CheckGrantWindow, CheckRequestNames, CheckRequestForms;
    StripTrims(call.nonce);
    StripTrims(Strip(call.nonce));
    InventoryCounted(env, r);
    GrantNamesHold(env, r, id, call);
    GrantFormsHold(env, r, id, call);
    GrantWindowHolds(env, r, id, call);
  }

  lemma InventoryCounted(env: Env, r: Request)
    requires CheckDigests(env, r).Ok?
    ensures r.inventory.inventoryEpoch >= 0
  {
    DigestsRecomputed(env, r);
  }

  lemma GrantNamesHold(env: Env, r: Request, id: string, call: Call)
    requires CheckRequestNames(r).Ok? && call.expiresAt.Some? && Strip(id) != ""
    requires Strip(Strip(call.nonce)) != ""
    ensures CheckGrantNames(Grant(env, r, id, call)).Ok?
  {
    hide Strip;
  }

  lemma GrantFormsHold(env: Env, r: Request, id: string, call: Call)
    requires CheckRequestForms(r).Ok? && call.expiresAt.Some?
    ensures CheckGrantForms(Grant(env, r, id, call)).Ok?
  {
    hide IsSha256, Strip;
  }

  lemma GrantWindowHolds(env: Env, r: Request, id: string, call: Call)
    requires ClockOk(env) && CheckRequestNames(r).Ok? && r.inventory.inventoryEpoch >= 0
    requires call.expiresAt.Some? && call.at < call.expiresAt.value <= call.at + 60_000_000
    ensures CheckGrantWindow(env, Grant(env, r, id, call)).Ok?
  {
    hide Strip;
  }

  // -------------------------------------------------- what evaluation writes down

  /** A decision exists only under a policy in force, and for a request whose facts name its own transaction and
      attempt. */
  lemma EvaluatedInForce(e: Engine, r: Request, call: Call, d: Decision)
    requires EvaluateGovernance(e, r, call) == Ok(d)
    ensures InForce(e.env, e.activation(r.policyPack.policyId), r, call.at)
    ensures e.policyRequest(r.executionFacts)
            == Ok((r.transactionId, "governance:" + r.operationId + ":" + r.stepId + ":" + r.attemptId))
  {
    hide *;
    var f := DecisionSays(e, r, call, d);
    FoundUnder(e, r, call.at, f);
    ActiveExactly(e, r, call.at);
  }

  /** An attached approval is in form, for this very subject, trusted now, and signed. */
  ghost predicate ApprovalInOrder(e: Engine, r: Request, at: int) {
    hide AttestationInForm, ApprovesSubject, AttestationDigest, TrustedNow;
    r.approval.Some? ==>
      && e.trust.Some? && e.revoked.Some? && e.verifySignature.Some?
      && AttestationInForm(e.env, r.approval.value) && ApprovesSubject(e.env, r.approval.value, r)
      && AttestationDigest(e.env.hash, r.approval.value) == Ok(r.approvalDigest)
      && TrustedNow(e.env, r.approval.value, r.approvalDigest, e.trust.value, e.revoked.value, at)
      && e.verifySignature.value(r.approval.value, r.approvalDigest, e.trust.value.policyId)
  }

  /** A decision on a request with an approval exists only if that approval is in order, and it names its digest. */
  lemma EvaluatedApproval(e: Engine, r: Request, call: Call, d: Decision, a: Attestation)
    requires HexHash(e.env.hash) && EvaluateGovernance(e, r, call) == Ok(d) && r.approval == Some(a)
    ensures ApprovalInOrder(e, r, call.at) && d.approvalDigest == r.approvalDigest
  {
    hide EvaluateGovernance, Find, Granted, OutcomeOf, ApprovalDigest, ValidatedApproval, ValidateApproval, ValidateRequest,
         AttestationInForm, ApprovesSubject, AttestationDigest, TrustedNow;
    var f := DecisionSays(e, r, call, d);
    FoundUnder(e, r, call.at, f);
    ApprovalUsedExactly(e, r, call.at);
    ApprovalValidExactly(e.env, a, r, e.trust.value, e.revoked.value, call.at);
    ApprovalDigestOf(e.env, a);
  }

  lemma ApprovalDigestOf(env: Env, a: Attestation)
    ensures ApprovalDigest(env, Some(a)).Ok? ==> ApprovalDigest(env, Some(a)) == AttestationDigest(env.hash, a)
  {
    hide CheckAttestation, AttestationDigest;
  }

  lemma FoundUnder(e: Engine, r: Request, at: int, f: Findings)
    requires Find(e, r, at) == Ok(f)
    ensures ActiveUntil(e, r, at).Ok? && ValidatedApproval(e, r, at).Ok?
    ensures e.policyRequest(r.executionFacts)
            == Ok((r.transactionId, "governance:" + r.operationId + ":" + r.stepId + ":" + r.attemptId))
  {
    hide ActiveUntil, ValidatedApproval, PlanOf, Resolve;
    var named := e.policyRequest(r.executionFacts).value;
    assert named == (named.0, named.1);
  }

  /** Every member of a returned decision: which verdict, plan, gate and trace each digest belongs to. */
  lemma DecisionMembers(e: Engine, r: Request, call: Call, d: Decision) returns (f: Findings)
    requires EvaluateGovernance(e, r, call) == Ok(d)
    ensures Find(e, r, call.at) == Ok(f) && e.evaluate(r.executionFacts, r.policyPack) == Ok(f.gates.initial)
    ensures d.decisionId == (if Strip(call.decisionId) == "" then "gov-decision:" + r.transactionId
                             else Strip(call.decisionId))
    ensures d.transactionId == r.transactionId && RequestDigest(e.env.hash, r) == Ok(d.requestDigest)
    ensures d.policyEvaluationDigest == e.verdictDigest(f.gates.initial)
    ensures d.policyVerdictDigest == e.verdictDigest(f.effective) && d.enforcementPlanDigest == e.planDigest(f.gates.plan)
    ensures d.governanceTraceDigest == e.traceDigest(r.transactionId, f.effective, f.gates.plan)
    ensures d.scopeDecisionDigest == f.gates.scope.digest && d.capabilityDigest == f.gates.capability.digest
    ensures d.controls == f.gates.plan.controls && d.requiredControls == e.requiredControls(f.gates.plan)
    ensures d.schemaVersion == "v1"
    ensures d.authorization.Some? ==>
              d.authorization.value.authorizationId == "gov-auth:" + d.decisionId
              && d.authorization.value.nonce == Strip(call.nonce) && d.authorization.value.consumeOnce
  {
    hide EvaluateGovernance, Draft, Find, RequestDigest, ApprovalDigest, OutcomeOf, Strip, ValidateDecisionFor,
         DecisionBodyDigest, Authorize;
    var draft := DecisionIsDraft(e, r, call, d);
    f := DraftParts(e, r, call, draft);
    FoundGates(e, r, call.at, f);
    if d.authorization.Some? {
      GrantMembers(e.env, r, "gov-auth:" + DecisionId(r, call), call, f.approval, f.activeUntil, d.authorization.value);
    }
  }

  lemma GrantMembers(env: Env, r: Request, id: string, call: Call, approval: Option<Attestation>, activeUntil: int,
                     a: Authorization)
    requires Authorize(env, r, id, call, approval, activeUntil) == Ok(a)
    ensures a.authorizationId == id && a.nonce == Strip(call.nonce) && a.consumeOnce
  {
    hide CheckAuthorization, Strip, OutlivesNoApproval;
  }
}
