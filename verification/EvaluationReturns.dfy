/** When an evaluation finds what it needs and when it returns a decision, in plain terms. */
module EvaluationReturns {
  import opened Prelude
  import opened PyStrings
  import opened PyValues
  import opened CanonicalRecord
  import opened RecordText
  import opened GovernanceRecords
  import opened GovernanceRequests
  import opened GovernanceDecisions
  import opened DecisionGuarantees
  import opened DraftDigests
  import opened EvaluationTerms

  /** A verdict the kernel knows; one that refuses or asks names a blocker. */
  ghost predicate VerdictInForm(v: Verdict) {
    || v.decision == "allow" || v.decision == "allow_with_obligations"
    || ((v.decision == "deny" || v.decision == "approval_required") && v.blockers != [])
  }

  lemma VerdictExactly(v: Verdict)
    ensures ValidateVerdict(v).Ok? <==> VerdictInForm(v)
  {
  }

  /** The facts are those of this transaction and attempt, and the policy engine has an answer on them. */
  ghost predicate Judged(e: Engine, r: Request) {
    && e.policyRequest(r.executionFacts)
       == Ok((r.transactionId, "governance:" + r.operationId + ":" + r.stepId + ":" + r.attemptId))
    && e.evaluate(r.executionFacts, r.policyPack).Ok?
  }

  ghost predicate GatesAnswer(e: Engine, r: Request) {
    e.scopeGate(r.requestedScope, r.scopePolicy).Ok? && e.capabilityGate(r.requirements, r.inventory).Ok?
  }

  lemma ApprovalOrderExactly(e: Engine, r: Request, at: int)
    requires HexHash(e.env.hash) && Valid(e.env, r)
    ensures ValidatedApproval(e, r, at).Ok? <==> ApprovalInOrder(e, r, at)
    ensures ValidatedApproval(e, r, at).Ok? ==> ValidatedApproval(e, r, at).value == r.approval
    ensures ValidatedApproval(e, r, at).Ok? ==> ApprovalDigest(e.env, r.approval).Ok?
  {
    hide ValidatedApproval, ValidateRequest, ValidateApproval, AttestationInForm, ApprovesSubject, AttestationDigest,
         TrustedNow, ApprovalDigest;
    ApprovalUsedExactly(e, r, at);
    if r.approval.Some? {
      if e.trust.Some? && e.revoked.Some? {
        ApprovalValidExactly(e.env, r.approval.value, r, e.trust.value, e.revoked.value, at);
      }
      if AttestationInForm(e.env, r.approval.value) && AttestationDigest(e.env.hash, r.approval.value).Ok? {
        ApprovalDigestExists(e.env, r.approval.value);
      }
    }
    NoApprovalDigest(e.env);
  }

  lemma ApprovalDigestExists(env: Env, a: Attestation)
    requires AttestationInForm(env, a) && AttestationDigest(env.hash, a).Ok?
    ensures ApprovalDigest(env, Some(a)) == AttestationDigest(env.hash, a)
    ensures CheckedAttestationDigest(env, a) == AttestationDigest(env.hash, a)
  {
    hide CheckAttestation, AttestationInForm, AttestationDigest;
    AttestationExactly(env, a);
  }

  lemma NoApprovalDigest(env: Env)
    ensures ApprovalDigest(env, None) == Ok("")
  {
  }

  /** With the engine's parts in order, a verdict in form always has a plan. */
  lemma PlanExactly(e: Engine, pack: PolicyPack, v: Verdict)
    requires SoundPolicy(e)
    ensures PlanOf(e, pack, v).Ok? <==> VerdictInForm(v)
  {
    hide Dedup, NonEmpty, PlanBlockers, IsReasonCode, ValidateVerdict, VerdictInForm;
    VerdictExactly(v);
    KnownVerdictIsNamed(v);
  }

  lemma KnownVerdictIsNamed(v: Verdict)
    ensures VerdictInForm(v) ==> v.decision != ""
  {
  }

  /** An approval turns a verdict that asks for one into one in form. */
  lemma ResolvedInForm(env: Env, v: Verdict, approval: Option<Attestation>, effective: Verdict)
    requires Resolve(env, v, approval) == Ok(effective)
    ensures if v.decision == "approval_required" && approval.Some? then VerdictInForm(effective) else effective == v
  {
    hide CheckedAttestationDigest;
    ResolvedExactly(env, v, approval);
  }

  /** An evaluation finds all it needs exactly under a policy in force, on facts of its own transaction, with a verdict
      in form (or one the attached approval settles), an approval in order, and gates that answer. */
  lemma FoundExactly(e: Engine, r: Request, at: int)
    requires SoundEngine(e) && Valid(e.env, r)
    ensures Find(e, r, at).Ok? <==>
              && e.activationShape(e.activation(r.policyPack.policyId)).Pass?
              && InForce(e.env, e.activation(r.policyPack.policyId), r, at)
              && Judged(e, r) && ApprovalInOrder(e, r, at) && GatesAnswer(e, r)
              && var v := e.evaluate(r.executionFacts, r.policyPack).value;
                 VerdictInForm(v) || (v.decision == "approval_required" && r.approval.Some?)
  {
    hide ActiveUntil, InForce, ValidatedApproval, ApprovalInOrder, Resolve, PlanOf, ValidateRequest, VerdictInForm,
         IsSha256, IsReasonCode, SoundPolicy, ApprovalDigest, SoundGate;
    ActiveExactly(e, r, at);
    ApprovalOrderExactly(e, r, at);
    if Judged(e, r) && ApprovalInOrder(e, r, at) {
      var v := e.evaluate(r.executionFacts, r.policyPack).value;
      EffectiveExists(e, r, at, v);
      ResolvedInForm(e.env, v, r.approval, Resolve(e.env, v, r.approval).value);
      PlanExactly(e, r.policyPack, Resolve(e.env, v, r.approval).value);
      PolicyPair(e, r);
    }
    FindIsJudged(e, r, at);
  }

  lemma EffectiveExists(e: Engine, r: Request, at: int, v: Verdict)
    requires HexHash(e.env.hash) && Valid(e.env, r) && ApprovalInOrder(e, r, at)
    ensures Resolve(e.env, v, r.approval).Ok?
  {
    hide CheckedAttestationDigest, ValidateRequest, AttestationInForm, ApprovesSubject, AttestationDigest, TrustedNow;
    ResolvedExactly(e.env, v, r.approval);
    if r.approval.Some? {
      ApprovalDigestExists(e.env, r.approval.value);
    }
  }

  lemma PolicyPair(e: Engine, r: Request)
    requires Judged(e, r)
    ensures e.policyRequest(r.executionFacts).value.0 == r.transactionId
    ensures e.policyRequest(r.executionFacts).value.1
            == "governance:" + r.operationId + ":" + r.stepId + ":" + r.attemptId
  {
  }

  lemma FindIsJudged(e: Engine, r: Request, at: int)
    ensures Find(e, r, at).Ok? ==> Judged(e, r)
  {
    hide ActiveUntil, ValidatedApproval, Resolve, PlanOf;
    if Find(e, r, at).Ok? {
      FoundUnder(e, r, at, Find(e, r, at).value);
    }
  }

  // ------------------------------------------------------------------ returns

  lemma GrantedWhenAsked(e: Engine, r: Request, call: Call, f: Findings)
    requires ClockOk(e.env) && Valid(e.env, r)
    ensures Granted(e, r, call, f).Ok? <==>
              (OutcomeOf(f.gates).status == "allowed" ==> GrantAsked(e.env, call, f.approval, f.activeUntil))
  {
    hide ValidateRequest, OutcomeOf, Authorize, GrantAsked, Strip;
    GrantIdIsNotBlank("gov-auth:", DecisionId(r, call));
    GrantedExactly(e.env, r, "gov-auth:" + DecisionId(r, call), call, f.approval, f.activeUntil);
  }

  lemma GrantIdIsNotBlank(kind: string, id: string)
    requires kind != "" && !IsSpace(kind[0])
    ensures Strip(kind + id) != ""
  {
    StripKeepsVisible(kind + id);
    StripLeftStart(kind + id);
  }

  lemma DraftExactly(e: Engine, r: Request, call: Call, f: Findings)
    requires SoundEngine(e) && Valid(e.env, r) && Find(e, r, call.at) == Ok(f)
    ensures Draft(e, r, call).Ok? <==>
              && RequestDigest(e.env.hash, r).Ok? && VerdictInForm(f.gates.initial)
              && (OutcomeOf(f.gates).status == "allowed" ==> GrantAsked(e.env, call, f.approval, f.activeUntil))
    ensures Draft(e, r, call).Ok? ==> Draft(e, r, call).value.controls == f.gates.plan.controls
  {
    hide Find, ValidateRequest, OutcomeOf, Granted, GrantAsked, RequestDigest, ValidateVerdict, VerdictInForm, SoundEngine,
         ApprovalDigest, DecisionId, ValidatedApproval;
    SoundHash(e);
    GrantedWhenAsked(e, r, call, f);
    VerdictExactly(f.gates.initial);
    FoundIsApproved(e, r, call.at, f);
  }

  lemma FoundIsApproved(e: Engine, r: Request, at: int, f: Findings)
    requires HexHash(e.env.hash) && Valid(e.env, r) && Find(e, r, at) == Ok(f)
    ensures ApprovalDigest(e.env, f.approval).Ok?
  {
    hide Find, ValidateRequest, ValidatedApproval, ApprovalDigest, ApprovalInOrder, ValidateApproval;
    FoundApproval(e, r, at, f);
    FoundUnder(e, r, at, f);
    ApprovalOrderExactly(e, r, at);
  }

  /** An evaluation returns a decision exactly when the request is valid and digestible, it finds all it needs, the verdict
      is in form, an authorization is asked for properly where the gates are open, and the controls are digestible. */
  lemma ReturnsExactly(e: Engine, r: Request, call: Call)
    requires SoundEngine(e)
    ensures EvaluateGovernance(e, r, call).Ok? <==>
              && Valid(e.env, r) && RequestDigest(e.env.hash, r).Ok? && Find(e, r, call.at).Ok?
              && var f := Find(e, r, call.at).value;
                 && VerdictInForm(f.gates.initial) && DigestibleControls(f.gates.plan.controls)
                 && (OutcomeOf(f.gates).status == "allowed" ==> GrantAsked(e.env, call, r.approval, f.activeUntil))
  {
    hide EvaluateGovernance, Draft, Find, ValidateRequest, DecisionBodyDigest, SoundEngine, DigestibleControls, RequestDigest,
         VerdictInForm, OutcomeOf, GrantAsked;
    EvaluationReturnsWhen(e, r, call);
    if Valid(e.env, r) && Find(e, r, call.at).Ok? {
      DraftExactly(e, r, call, Find(e, r, call.at).value);
      FoundApproval(e, r, call.at, Find(e, r, call.at).value);
    }
    DraftIsFound(e, r, call);
  }

  lemma DraftIsFound(e: Engine, r: Request, call: Call)
    ensures Draft(e, r, call).Ok? ==> Find(e, r, call.at).Ok?
  {
    hide Find, Granted, RequestDigest, ValidateVerdict, ApprovalDigest;
  }
}
