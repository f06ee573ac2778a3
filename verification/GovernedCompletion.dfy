/** The closing validation of a governed evaluation accepts what the evaluation built, in both versions. */
module GovernedCompletion {
  import opened Prelude
  import opened PyStrings
  import opened PyValues
  import opened CanonicalRecord
  import opened RecordText
  import opened GovernanceRecords
  import opened GovernanceRequests
  import opened ApprovalBinding
  import opened GovernanceDecisions
  import opened DecisionGuarantees
  import opened TypedExecution
  import opened GovernedAdmission

  /** What is assumed of the unmodelled typed-execution parts: digests in digest form, a shape check that demands
      non-blank names, and control projections whose allow-lists are sorted sets. */
  ghost predicate SoundTyped(te: TypedEnv, e: Engine) {
    && (forall t: TypedRequest :: IsSha256(te.requestDigest(t)))
    && (forall t: TypedRequest :: IsSha256(te.projectionDigest(t)))
    && (forall t: TypedRequest :: IsSha256(te.reportDigest(t)))
    && (forall t: TypedRequest :: IsSha256(te.bundleDigest(t)))
    && (forall a: Admission :: IsSha256(te.admissionDigest(a)))
    && (forall t: TypedRequest :: te.shape(t).Pass? ==> Strip(t.requestId) != "" && t.backendClass != "")
    && (forall v: Verdict :: e.project(v).Ok? ==> SortedControls(e.project(v).value))
  }

  ghost predicate SortedControls(c: Controls) {
    SortedSet(c.allowedBackendClasses) && SortedSet(c.allowedNetworkEgress)
  }

  // ------------------------------------------------- what the decision supplies

  lemma DecisionControls(te: TypedEnv, e: Engine, r: Request, call: Call, d: Decision)
    requires SoundTyped(te, e) && EvaluateGovernance(e, r, call) == Ok(d)
    ensures SortedControls(d.controls)
  {
    hide EvaluateGovernance, Find, Granted, ApprovalDigest, OutcomeOf, SoundTyped, PlanOf, SortedControls;
    var f := DecisionSays(e, r, call, d);
    FoundGates(e, r, call.at, f);
    PlanControls(te, e, r.policyPack, f.effective, f.gates.plan);
  }

  lemma PlanControls(te: TypedEnv, e: Engine, pack: PolicyPack, v: Verdict, p: Plan)
    requires SoundTyped(te, e) && PlanOf(e, pack, v) == Ok(p)
    ensures SortedControls(p.controls)
  {
    hide Dedup, NonEmpty, PlanBlockers, ValidateVerdict, GovernanceDecisions.Reason, IsSha256;
  }

  lemma RequestFactsOf(env: Env, r: Request)
    requires Valid(env, r)
    ensures CheckIdentity(r).Ok? && CheckDigests(env, r).Ok? && r.inventory.inventoryEpoch >= 0
    ensures RequirementsDigest(env, r.requirements) == Ok(r.requirementsDigest)
  {
    hide CheckIdentity, CheckInputs, CheckCrossBindings, CheckApproval, FactsDigest, ScopeDigest, ScopePolicyDigest,
         InventoryDigest, RequirementsDigest, Digest, IsAscii;
    InventoryIsCounted(env, r);
  }

  lemma InventoryIsCounted(env: Env, r: Request)
    requires CheckDigests(env, r).Ok?
    ensures r.inventory.inventoryEpoch >= 0
  {
    DigestsRecomputed(env, r);
  }

  // ---------------------------------------------------------- the built record

  lemma BoundIdsPass(te: TypedEnv, env: Env, t: TypedRequest, r: Request, d: Decision, b: Bound)
    requires BoundTo(te, env, t, r, d) == Ok(b) && CheckIdentity(r).Ok? && r.inventory.inventoryEpoch >= 0
    requires Strip(t.requestId) != "" && Strip(d.decisionId) != ""
    ensures CheckBoundIds(b).Ok?
  {
    hide Strip, IsSha256, RequestDigest, ApprovalDigest;
  }

  lemma BoundDigestsPass(te: TypedEnv, e: Engine, t: TypedRequest, r: Request, d: Decision, b: Bound)
    requires SoundTyped(te, e) && HexHash(e.env.hash)
    requires BoundTo(te, e.env, t, r, d) == Ok(b) && CheckIdentity(r).Ok? && IsSha256(d.decisionDigest)
    ensures CheckBoundDigests(b).Ok?
  {
    hide Strip, IsSha256, ApprovalDigest, RequestFields, Digest, SortedControls, CheckIdentity;
    DigestHasShape(e.env.hash, REQUEST, RequestFields(r));
    IdentityDigests(r);
  }

  lemma IdentityDigests(r: Request)
    requires CheckIdentity(r).Ok?
    ensures IsSha256(r.policyPackDigest) && IsSha256(r.executionFactsDigest) && IsSha256(r.executionSpecDigest)
    ensures IsSha256(r.payloadDigest) && IsSha256(r.requestedScopeDigest) && IsSha256(r.inventoryDigest)
    ensures IsSha256(r.fencingTokenDigest) && IsSha256(r.requirementsDigest)
  {
    hide Strip, IsSha256;
  }

  predicate PluginDiscount(t: TypedRequest, discounted: seq<Blocker>) {
    || discounted == [ApprovalBlocker(t), UnsupportedBackendClass]
    || discounted == [UnsupportedBackendClass, ApprovalBlocker(t)]
  }

  lemma PrecheckPosture(t: TypedRequest, r: Request)
    ensures Precheck(t).Ok? ==> MutationPosture(t).Ok?
    ensures PluginPrecheck(t, r).Ok? ==>
              MutationPosture(t).Ok? && PluginPosture(t).Ok? && PluginRequirements(t, r).Ok?
  {
    hide MutationPosture, PluginPosture, PluginRequirements, MergedBlockers, Keep;
  }

  /** What a precheck by version leads to. */
  lemma PrecheckBehind(
    version: Version, env: Env, t: TypedRequest, r: Request, d: Decision, discounted: seq<Blocker>, plugin: Option<Plugin>)
    requires PrecheckFor(version, env, t, r, d) == Ok((discounted, plugin))
    ensures plugin.None? <==> version == V01
    ensures if version == V01 then Precheck(t) == Ok(discounted) else PluginPrecheck(t, r) == Ok(discounted)
  {
    hide Precheck, PluginPrecheck, RequirementsDigest;
  }

  /** The precheck's discounted blockers, by version. */
  lemma DiscountedByVersion(
    version: Version, env: Env, t: TypedRequest, r: Request, d: Decision, discounted: seq<Blocker>, plugin: Option<Plugin>)
    requires PrecheckFor(version, env, t, r, d) == Ok((discounted, plugin))
    ensures plugin.None? <==> version == V01
    ensures if plugin.None? then discounted == [ApprovalBlocker(t)] else PluginDiscount(t, discounted)
    ensures t.operationMode == "apply" && t.sideEffectClass == "mutation"
  {
    hide PrecheckFor, Precheck, PluginPrecheck, MutationPosture, PluginPosture, PluginRequirements, ApprovalBlocker,
         PlainControlsPass, BackendSupported, NeedsReceipt, DestinationPasses, IsRawShell;
    PrecheckBehind(version, env, t, r, d, discounted, plugin);
    PrecheckPosture(t, r);
    ApplyMode(t);
    if version == V01 {
      PrecheckExactly(t);
    } else {
      PluginPrecheckExactly(t, r);
    }
  }

  lemma ApplyMode(t: TypedRequest)
    requires MutationPosture(t).Ok?
    ensures t.operationMode == "apply" && t.sideEffectClass == "mutation"
  {
  }

  lemma DiscountShape(a: Admission, t: TypedRequest)
    requires if a.plugin.None? then a.discounted == [ApprovalBlocker(t)] else PluginDiscount(t, a.discounted)
    ensures CheckDiscounted(a).Ok?
  {
    hide ApprovalBlocker, Keep, IsApproval, PluginDiscount;
    ApprovalBlockerIsApproval(t);
    if a.plugin.Some? {
      OneApprovalDiscounted(t, a.discounted);
    }
  }

  lemma OneApprovalDiscounted(t: TypedRequest, discounted: seq<Blocker>)
    requires PluginDiscount(t, discounted)
    ensures |discounted| == 2 && UnsupportedBackendClass in discounted
    ensures Keep(IsApproval, discounted) == [ApprovalBlocker(t)]
  {
    hide ApprovalBlocker, Keep;
    var b := ApprovalBlocker(t);
    ApprovalBlockerIsApproval(t);
    assert b in discounted && UnsupportedBackendClass in discounted;
    KeepOne(IsApproval, discounted, b);
  }

  lemma PostureForm(t: TypedRequest)
    requires PluginPosture(t).Ok?
    ensures var x := t.descriptor;
            && t.backendClass == x.backendClass && !IsBuiltin(x.backendClass) && !IsRawShell(x.backendClass)
            && IsPluginIdentity(x.identityClass) && x.declared != [] && SortedSet(x.declared) && IsContained(x.egressClass)
  {
    hide IsBuiltin, IsRawShell, IsContained, IsPluginIdentity, SortedSet, Strip;
  }

  lemma PluginRepeats(
    version: Version, env: Env, t: TypedRequest, r: Request, d: Decision, discounted: seq<Blocker>, p: Plugin)
    requires PrecheckFor(version, env, t, r, d) == Ok((discounted, Some(p)))
    ensures var x := t.descriptor;
            && p.backend == x.backendClass && p.egress == x.egressClass && p.identity == x.identityClass
            && p.capabilities == x.declared && RequirementsDigest(env, r.requirements) == Ok(p.requirementsDigest)
            && p.allowedBackends == d.controls.allowedBackendClasses
            && p.allowedEgress == d.controls.allowedNetworkEgress
  {
    hide Precheck, PluginPrecheck, RequirementsDigest;
  }

  lemma PluginForm(
    version: Version, env: Env, t: TypedRequest, r: Request, d: Decision, discounted: seq<Blocker>, p: Plugin)
    requires PrecheckFor(version, env, t, r, d) == Ok((discounted, Some(p)))
    requires t.backendClass != "" && SortedControls(d.controls)
    requires RequirementsDigest(env, r.requirements) == Ok(r.requirementsDigest) && IsSha256(r.requirementsDigest)
    ensures p.backend != "" && !IsBuiltin(p.backend) && !IsRawShell(p.backend) && IsContained(p.egress)
    ensures IsPluginIdentity(p.identity) && p.capabilities != [] && SortedSet(p.capabilities)
    ensures IsSha256(p.requirementsDigest) && SortedSet(p.allowedBackends) && SortedSet(p.allowedEgress)
    ensures p.allowedBackends == d.controls.allowedBackendClasses && p.allowedEgress == d.controls.allowedNetworkEgress
  {
    hide PrecheckFor, Precheck, PluginPrecheck, PluginPosture, MutationPosture, PluginRequirements, IsBuiltin, IsRawShell,
         IsContained, IsPluginIdentity, SortedSet, IsSha256, RequirementsDigest;
    PrecheckBehind(version, env, t, r, d, discounted, Some(p));
    PrecheckPosture(t, r);
    PostureForm(t);
    PluginRepeats(version, env, t, r, d, discounted, p);
  }

  /** Blockers come out empty only for an allowed decision whose controls name the plugin, before its expiry. */
  lemma NoBlockers(d: Decision, plugin: Option<Plugin>, expiry: Option<int>, at: int)
    ensures BlockersAt(d, plugin, expiry, at) == [] <==>
              && d.Allowed() && !Expired(expiry, at)
              && (plugin.Some? ==> d.controls.allowedBackendClasses == [plugin.value.backend]
                                   && d.controls.allowedNetworkEgress == [plugin.value.egress])
  {
    hide Dedup;
    DedupKeepsElements(RawBlockers(d, plugin, Expired(expiry, at)));
  }

  /** The seal survives the shape check. */
  lemma SealedDigest(te: TypedEnv, a: Admission)
    requires a.digest == "" && IsSha256(te.admissionDigest(a))
    ensures var s := Sealed(te, a);
            Same(te.admissionDigest(s.(digest := "")), s.digest, "typed_execution_governed_admission_digest_mismatch").Pass?
  {
    hide IsSha256, IsAscii;
    var s := Sealed(te, a);
    assert a.(digest := "") == a && s.(digest := "") == a;
    Sha256IsAscii(te.admissionDigest(a));
  }

  // ------------------------------------------------------ what was projected

  /** Everything the closing validation reads from a projection and its decision. */
  ghost predicate Projected(
    version: Version, te: TypedEnv, e: Engine, t: TypedRequest, r: Request, d: Decision, mode: string,
    admittedAt: int, a: Admission, expiry: Option<int>)
  {
    hide PrecheckFor, BoundTo, Expiry, BlockersAt, Passed, Sealed;
    && PrecheckFor(version, e.env, t, r, d) == Ok((a.discounted, a.plugin))
    && BoundTo(te, e.env, t, r, d) == Ok(a.bound) && Expiry(e.env, d) == Ok(expiry)
    && a.blockers == BlockersAt(d, a.plugin, expiry, admittedAt)
    && a.status == (if a.blockers == [] then "passed" else "blocked")
    && a.reasonCode == (if a.blockers == [] then Passed(version) else a.blockers[0])
    && a.actualMode == mode && e.env.parse(a.admittedAt) == Some(admittedAt)
    && a.decisionExpiresAt == (if d.authorization.None? then "" else d.authorization.value.expiresAt)
    && a == Sealed(te, a.(digest := ""))
  }

  lemma ProjectGives(
    version: Version, te: TypedEnv, e: Engine, t: TypedRequest, r: Request, d: Decision, mode: string,
    admittedAt: int, a: Admission) returns (expiry: Option<int>)
    requires ClockOk(e.env) && Project(version, te, e.env, t, r, d, mode, admittedAt) == Ok(a)
    ensures Projected(version, te, e, t, r, d, mode, admittedAt, a, expiry)
  {
    hide PrecheckFor, Expiry, BoundTo, BlockersAt, Passed;
    expiry := Expiry(e.env, d).value;
    var unsealed := a.(digest := "");
    assert unsealed.(digest := "") == unsealed;
    var checked := PrecheckFor(version, e.env, t, r, d).value;
    assert checked == (checked.0, checked.1);
    assert a.digest == te.admissionDigest(unsealed);
  }

  /** What a finished governance evaluation gives the admission. */
  ghost predicate Supplied(e: Engine, r: Request, call: Call, d: Decision) {
    && ValidateDecisionFor(e.env, d, r).Ok? && Valid(e.env, r)
    && ApprovalDigest(e.env, r.approval) == Ok(d.approvalDigest) && IsAscii(d.approvalDigest)
    && (d.approvalDigest != "" ==> IsSha256(d.approvalDigest))
    && (d.Allowed() <==> d.authorization.Some?)
    && (d.authorization.Some? ==> e.env.parse(d.authorization.value.issuedAt) == Some(call.at)
                                  && e.env.parse(d.authorization.value.expiresAt).Some?
                                  && d.authorization.value.expiresAt != "")
    && (d.Allowed() && r.sideEffectClass == "mutation" ==> d.approvalDigest != "")
    && Strip(d.decisionId) != "" && IsSha256(d.decisionDigest) && RequestDigest(e.env.hash, r).Ok?
  }

  lemma DecisionSupplies(e: Engine, r: Request, call: Call, d: Decision)
    requires ClockOk(e.env) && HexHash(e.env.hash) && EvaluateGovernance(e, r, call) == Ok(d)
    ensures Supplied(e, r, call, d)
  {
    hide EvaluateGovernance, Find, Granted, OutcomeOf, ValidateDecisionFor, ValidateRequest, IsSha256, IsAscii, Strip,
         ApprovalDigest, RequestDigest, ValidateApproval, AttestationDigest, ExpiresAfter;
    var _ := DecisionSays(e, r, call, d);
    var _ := DecisionIsDraft(e, r, call, d);
    AllowedMeansAuthorized(e, r, call, d);
    if d.authorization.Some? {
      var _ := AuthorizationWindow(e, r, call, d, d.authorization.value);
    }
    if d.Allowed() && r.sideEffectClass == "mutation" {
      AllowedMutationIsApproved(e, r, call, d);
      EmptyIsNoDigest();
    }
    DecisionForms(e.env, d, r);
  }

  lemma EmptyIsNoDigest()
    ensures !IsSha256("") && IsAscii("")
  {
  }

  lemma DecisionForms(env: Env, d: Decision, r: Request)
    requires ValidateDecisionFor(env, d, r).Ok?
    ensures Strip(d.decisionId) != "" && IsSha256(d.decisionDigest) && RequestDigest(env.hash, r).Ok?
    ensures d.approvalDigest != "" ==> IsSha256(d.approvalDigest)
    ensures IsAscii(d.approvalDigest)
  {
    hide ValidateRequest, IsSha256, IsAscii, Strip, CheckPosture, DecisionBodyDigest, RequestDigest, BindAuthorization;
    EmptyIsNoDigest();
    if d.approvalDigest != "" {
      Sha256IsAscii(d.approvalDigest);
    }
  }

  // ---------------------------------------------------------- closing checks

  lemma VerdictHolds(
    version: Version, te: TypedEnv, e: Engine, t: TypedRequest, r: Request, call: Call, d: Decision, mode: string,
    admittedAt: int, a: Admission, expiry: Option<int>)
    requires Projected(version, te, e, t, r, d, mode, admittedAt, a, expiry) && Supplied(e, r, call, d)
    requires r.sideEffectClass == "mutation"
    ensures CheckVerdict(e.env, a).Ok?
  {
    hide PrecheckFor, BlockersAt, ValidateDecisionFor, ValidateRequest, IsSha256, IsAscii, Strip, RequestDigest, Passed,
         ApprovalDigest, Sealed;
    DiscountedByVersion(version, e.env, t, r, d, a.discounted, a.plugin);
    NoBlockers(d, a.plugin, expiry, admittedAt);
    StatusesDiffer();
  }

  lemma StatusesDiffer()
    ensures "passed" != "blocked"
  {
  }

  lemma PluginHolds(
    version: Version, te: TypedEnv, e: Engine, t: TypedRequest, r: Request, call: Call, d: Decision, mode: string,
    admittedAt: int, a: Admission, expiry: Option<int>)
    requires Projected(version, te, e, t, r, d, mode, admittedAt, a, expiry)
    requires t.backendClass != "" && SortedControls(d.controls)
    requires RequirementsDigest(e.env, r.requirements) == Ok(r.requirementsDigest) && IsSha256(r.requirementsDigest)
    ensures CheckPlugin(a).Ok?
  {
    hide PrecheckFor, BlockersAt, IsSha256, BoundTo, Passed, RequirementsDigest, IsBuiltin, IsRawShell, IsContained,
         IsPluginIdentity, SortedSet, Sealed, Expiry, CheckPlugin;
    NoBlockers(d, a.plugin, expiry, admittedAt);
    StatusesDiffer();
    if a.plugin.Some? {
      PluginForm(version, e.env, t, r, d, a.discounted, a.plugin.value);
    }
    PluginFromParts(a);
  }

  /** The plugin check, put together from its parts. */
  lemma PluginFromParts(a: Admission)
    requires a.plugin.Some? ==>
               var p := a.plugin.value;
               && p.backend != "" && !IsBuiltin(p.backend) && !IsRawShell(p.backend) && IsContained(p.egress)
               && IsPluginIdentity(p.identity) && p.capabilities != [] && SortedSet(p.capabilities)
               && IsSha256(p.requirementsDigest) && SortedSet(p.allowedBackends) && SortedSet(p.allowedEgress)
               && (a.Allowed() ==> p.allowedBackends == [p.backend] && p.allowedEgress == [p.egress])
    ensures CheckPlugin(a).Ok?
  {
    hide IsBuiltin, IsRawShell, IsContained, IsPluginIdentity, SortedSet, IsSha256;
  }

  /** The shape check, put together from its parts. */
  lemma ShapeFromParts(te: TypedEnv, env: Env, a: Admission)
    requires a.status in {"passed", "blocked"} && a.actualMode in {"apply", "recovery"}
    requires a.bound.typedMode == "apply" && a.bound.sideEffectClass == "mutation"
    requires CheckDiscounted(a).Ok? && CheckBoundIds(a.bound).Ok? && CheckBoundDigests(a.bound).Ok?
    requires a.bound.approvalDigest != "" ==> IsSha256(a.bound.approvalDigest)
    requires CheckVerdict(env, a).Ok? && CheckPlugin(a).Ok?
    requires Same(te.admissionDigest(a.(digest := "")), a.digest, "typed_execution_governed_admission_digest_mismatch").Pass?
    ensures CheckShape(te, env, a).Ok?
  {
    hide CheckDiscounted, CheckBoundIds, CheckBoundDigests, CheckVerdict, CheckPlugin, IsSha256, Same;
  }

  lemma BoundRepeats(te: TypedEnv, env: Env, t: TypedRequest, r: Request, d: Decision, b: Bound)
    requires BoundTo(te, env, t, r, d) == Ok(b)
    ensures b.typedMode == t.operationMode && b.sideEffectClass == r.sideEffectClass
    ensures ApprovalDigest(env, r.approval) == Ok(b.approvalDigest)
  {
    hide RequestDigest, ApprovalDigest;
  }

  /** The projection passes the shape check. */
  lemma ProjectionIsInShape(
    version: Version, te: TypedEnv, e: Engine, t: TypedRequest, r: Request, call: Call, d: Decision, mode: string,
    admittedAt: int, a: Admission, expiry: Option<int>)
    requires HexHash(e.env.hash) && SoundTyped(te, e) && te.shape(t).Pass?
    requires Projected(version, te, e, t, r, d, mode, admittedAt, a, expiry) && Supplied(e, r, call, d)
    requires SortedControls(d.controls) && mode in {"apply", "recovery"} && t.sideEffectClass == r.sideEffectClass
    ensures CheckShape(te, e.env, a).Ok?
  {
    hide PrecheckFor, CheckDiscounted, CheckBoundIds, CheckBoundDigests, CheckVerdict, CheckPlugin, BlockersAt, Expiry,
         ValidateDecisionFor, ValidateRequest, IsSha256, IsAscii, Strip, RequestDigest, CheckIdentity, CheckDigests,
         RequirementsDigest, Passed, Same, SortedControls, ApprovalBlocker, PluginDiscount, Sealed, CheckShape, BoundTo,
         ApprovalDigest;
    RequestFactsOf(e.env, r);
    IdentityDigests(r);
    DiscountedByVersion(version, e.env, t, r, d, a.discounted, a.plugin);
    DiscountShape(a, t);
    BoundRepeats(te, e.env, t, r, d, a.bound);
    BoundIdsPass(te, e.env, t, r, d, a.bound);
    BoundDigestsPass(te, e, t, r, d, a.bound);
    VerdictHolds(version, te, e, t, r, call, d, mode, admittedAt, a, expiry);
    PluginHolds(version, te, e, t, r, call, d, mode, admittedAt, a, expiry);
    SealedDigest(te, a.(digest := ""));
    ShapeFromParts(te, e.env, a);
  }

  lemma BindingsHold(
    version: Version, te: TypedEnv, e: Engine, t: TypedRequest, r: Request, call: Call, d: Decision, mode: string,
    admittedAt: int, a: Admission, expiry: Option<int>)
    requires Projected(version, te, e, t, r, d, mode, admittedAt, a, expiry) && Supplied(e, r, call, d)
    ensures CheckBindings(te, e.env, a, t, r, d, a.discounted, a.plugin).Ok?
  {
    hide PrecheckFor, BlockersAt, Expiry, ValidateDecisionFor, ValidateRequest, IsSha256, IsAscii, Strip, RequestDigest,
         ApprovalDigest, Passed, BoundTo, Sealed;
  }

  /** The closing validation accepts the projection. */
  lemma ProjectionValidates(
    version: Version, te: TypedEnv, e: Engine, t: TypedRequest, r: Request, call: Call, d: Decision, mode: string,
    admittedAt: int, a: Admission, expiry: Option<int>)
    requires HexHash(e.env.hash) && SoundTyped(te, e) && te.shape(t).Pass?
    requires Projected(version, te, e, t, r, d, mode, admittedAt, a, expiry) && Supplied(e, r, call, d)
    requires SortedControls(d.controls) && mode in {"apply", "recovery"} && BindTyped(te, t, r, mode).Ok?
    requires admittedAt >= call.at
    ensures Validate(version, te, e.env, a, t, r, d, admittedAt).Ok?
  {
    hide PrecheckFor, CheckShape, CheckBindings, BindTyped, SoundTyped, ValidateRequest, ValidateDecisionFor, BlockersAt,
         IsSha256, IsAscii, Strip, RequestDigest, ApprovalDigest, SortedControls, Passed, BoundTo, Sealed, CheckRecords,
         CheckOwners, NotBeforeIssue, Expiry;
    TypedIsGoverned(te, t, r, mode);
    DiscountedByVersion(version, e.env, t, r, d, a.discounted, a.plugin);
    ProjectionIsInShape(version, te, e, t, r, call, d, mode, admittedAt, a, expiry);
    BindingsHold(version, te, e, t, r, call, d, mode, admittedAt, a, expiry);
    OwnersFromParts(version, te, e.env, a, t, r, d);
    IssuedBefore(e.env, d, call.at, admittedAt);
    RecordsFromParts(version, te, e.env, a, t, r, d, admittedAt, expiry);
    NoBlockers(d, a.plugin, expiry, admittedAt);
    StatusesDiffer();
  }

  lemma OwnersFromParts(version: Version, te: TypedEnv, env: Env, a: Admission, t: TypedRequest, r: Request, d: Decision)
    requires (a.plugin.None? <==> version == V01) && CheckShape(te, env, a).Ok? && te.shape(t).Pass?
    requires ValidateRequest(env, r).Ok? && ValidateDecisionFor(env, d, r).Ok?
    ensures CheckOwners(version, te, env, a, t, r, d).Ok?
  {
    hide CheckShape, ValidateRequest, ValidateDecisionFor;
  }

  lemma IssuedBefore(env: Env, d: Decision, at: int, admittedAt: int)
    requires d.authorization.Some? ==> env.parse(d.authorization.value.issuedAt) == Some(at)
    requires admittedAt >= at
    ensures NotBeforeIssue(env, d, admittedAt).Ok?
  {
  }

  lemma RecordsFromParts(version: Version, te: TypedEnv, env: Env, a: Admission, t: TypedRequest, r: Request, d: Decision,
                         admittedAt: int, expiry: Option<int>)
    requires CheckOwners(version, te, env, a, t, r, d).Ok? && env.parse(a.admittedAt) == Some(admittedAt)
    requires PrecheckFor(version, env, t, r, d) == Ok((a.discounted, a.plugin)) && BindTyped(te, t, r, a.actualMode).Ok?
    requires CheckBindings(te, env, a, t, r, d, a.discounted, a.plugin).Ok?
    requires Expiry(env, d) == Ok(expiry) && NotBeforeIssue(env, d, admittedAt).Ok?
    ensures CheckRecords(version, te, env, a, t, r, d) == Ok((admittedAt, expiry, a.plugin))
  {
    hide CheckOwners, PrecheckFor, BindTyped, CheckBindings, Expiry, NotBeforeIssue;
  }

  lemma TypedIsGoverned(te: TypedEnv, t: TypedRequest, r: Request, mode: string)
    requires BindTyped(te, t, r, mode).Ok?
    ensures t.sideEffectClass == r.sideEffectClass
  {
    hide Mode, Member;
  }

  // --------------------------------------------------------------- completion

  lemma ModeIsStable(text: string)
    requires Mode(text).Ok?
    ensures Mode(Mode(text).value) == Mode(text) && Mode(text).value in {"apply", "recovery"}
  {
    hide Strip;
    StripTrims(text);
    StripTrims(Strip(text));
  }

  lemma ProjectionExists(
    version: Version, te: TypedEnv, e: Engine, t: TypedRequest, r: Request, call: Call, d: Decision, mode: string,
    admittedAt: int) returns (a: Admission)
    requires Supplied(e, r, call, d) && PrecheckAlone(version, t, r).Ok?
    ensures Project(version, te, e.env, t, r, d, mode, admittedAt) == Ok(a)
  {
    hide Precheck, PluginPrecheck, RequirementsDigest, ValidateDecisionFor, ValidateRequest, IsSha256, IsAscii, Strip,
         ApprovalDigest, RequestDigest, Built, LiftPrecheck;
    RequestFactsOf(e.env, r);
    a := Project(version, te, e.env, t, r, d, mode, admittedAt).value;
  }

  /** Once its checks pass and the governance decision is made, a governed evaluation returns its admission: the closing
      validation rejects nothing, neither a passed nor a blocked admission, in either version. */
  lemma EvaluationCompletes(
    version: Version, te: TypedEnv, e: Engine, t: TypedRequest, r: Request, actualMode: string, mode: string, call: Call,
    admittedAt: int, d: Decision) returns (a: Admission)
    requires ClockOk(e.env) && HexHash(e.env.hash) && SoundTyped(te, e)
    requires te.shape(t).Pass? && Mode(actualMode) == Ok(mode) && admittedAt >= call.at
    requires PrecheckAlone(version, t, r).Ok? && BindTyped(te, t, r, mode).Ok?
    requires EvaluateGovernance(e, r, call) == Ok(d)
    ensures Evaluate(version, te, e, t, r, actualMode, call, admittedAt) == Ok((a, d))
  {
    hide EvaluateGovernance, Validate, BindTyped, Project, PrecheckAlone, Mode, SoundTyped, ValidateRequest,
         ValidateDecisionFor, Projected, SortedControls, ApprovalDigest, RequestDigest, IsSha256, IsAscii, Strip;
    ModeIsStable(actualMode);
    DecisionSupplies(e, r, call, d);
    DecisionControls(te, e, r, call, d);
    a := ProjectionExists(version, te, e, t, r, call, d, mode, admittedAt);
    var expiry := ProjectGives(version, te, e, t, r, d, mode, admittedAt, a);
    ProjectionValidates(version, te, e, t, r, call, d, mode, admittedAt, a, expiry);
    ValidateReturns(version, te, e.env, a, t, r, d, admittedAt);
  }
}
