/** Governed admissions in plain terms: which facts they need, what they repeat, which blockers they carry, and that
    validation leaves no choice (`govengine/typed_execution_governed_admission.py`). */
module AdmissionTerms {
  import opened Prelude
  import opened PyStrings
  import opened PyValues
  import opened CanonicalRecord
  import opened RecordText
  import opened GovernanceRecords
  import opened GovernanceRequests
  import opened GovernanceDecisions
  import opened TypedExecution
  import opened TypedTerms
  import opened GovernedAdmission
  import opened GovernedCompletion

  // ---------------------------------------------------------------- the facts

  /** The first item of that name has the value. */
  ghost predicate Holds(items: seq<Item>, name: string, x: Value) {
    exists i :: 0 <= i < |items| && items[i].key == TextKey(U(name)) && items[i].value == x
                && forall j :: 0 <= j < i ==> items[j].key != TextKey(U(name))
  }

  lemma {:induction false} LookupExactly(items: seq<Item>, name: string, x: Value)
    ensures Lookup(items, name) == Some(x) <==> Holds(items, name, x)
  {
    if items != [] {
      var rest := items[1..];
      LookupExactly(rest, name, x);
      if Holds(items, name, x) {
        var i :| 0 <= i < |items| && items[i].key == TextKey(U(name)) && items[i].value == x
                 && forall j :: 0 <= j < i ==> items[j].key != TextKey(U(name));
        if i > 0 {
          assert rest[i - 1] == items[i] && forall j :: 0 <= j < i - 1 ==> rest[j] == items[j + 1];
        }
      }
      if items[0].key != TextKey(U(name)) && Holds(rest, name, x) {
        var i :| 0 <= i < |rest| && rest[i].key == TextKey(U(name)) && rest[i].value == x
                 && forall j :: 0 <= j < i ==> rest[j].key != TextKey(U(name));
        assert items[i + 1] == rest[i] && forall j :: 1 <= j < i + 1 ==> items[j] == rest[j - 1];
      }
    }
  }

  /** The facts carry metadata that names the typed request by its digest, and the mode. */
  ghost predicate FactsName(r: Request, digest: string, mode: string) {
    && r.executionFacts.Dict?
    && exists items :: Holds(r.executionFacts.items, "metadata", Dict(items))
                       && Holds(items, "typed_execution_governance_request_digest", S(digest))
                       && Holds(items, "actual_operation_mode", S(mode))
  }

  lemma NamesTyped(r: Request, items: seq<Item>, digest: string, mode: string)
    requires Member(r.executionFacts, "metadata") == Some(Dict(items))
    ensures FactsName(r, digest, mode) <==>
              && Member(Dict(items), "typed_execution_governance_request_digest") == Some(S(digest))
              && Member(Dict(items), "actual_operation_mode") == Some(S(mode))
  {
    hide Lookup, Holds, S;
    LookupExactly(items, "typed_execution_governance_request_digest", S(digest));
    LookupExactly(items, "actual_operation_mode", S(mode));
    forall x {
      LookupExactly(r.executionFacts.items, "metadata", x);
    }
  }

  lemma NamelessFacts(r: Request, digest: string, mode: string)
    requires FactsName(r, digest, mode)
    ensures Member(r.executionFacts, "metadata").Some? && Member(r.executionFacts, "metadata").value.Dict?
  {
    hide Lookup, Holds, S;
    var items :| Holds(r.executionFacts.items, "metadata", Dict(items))
                 && Holds(items, "typed_execution_governance_request_digest", S(digest))
                 && Holds(items, "actual_operation_mode", S(mode));
    LookupExactly(r.executionFacts.items, "metadata", Dict(items));
  }

  /** The typed and the governance request are of the same operation, step, specification, payload and effect. */
  ghost predicate SameExecution(t: TypedRequest, r: Request) {
    && t.operationId == r.operationId && t.stepId == r.stepId && t.specDigest == r.executionSpecDigest
    && t.payloadDigest == r.payloadDigest && t.sideEffectClass == r.sideEffectClass
  }

  ghost predicate KnownMode(mode: string) {
    mode == "apply" || mode == "recovery"
  }

  lemma ModeExactly(text: string)
    ensures Mode(text).Ok? <==> KnownMode(Strip(text))
    ensures Mode(text).Ok? ==> Mode(text).value == Strip(text)
  {
    hide Strip;
  }

  lemma BindingExactly(te: TypedEnv, t: TypedRequest, r: Request, text: string)
    ensures BindTyped(te, t, r, text).Ok? <==>
              KnownMode(Strip(text)) && SameExecution(t, r) && FactsName(r, te.requestDigest(t), Strip(text))
  {
    hide Lookup, Holds, S, Strip, FactsName, Mode, KnownMode, Member;
    ModeExactly(text);
    var metadata := Member(r.executionFacts, "metadata");
    if metadata.Some? && metadata.value.Dict? {
      NamesTyped(r, metadata.value.items, te.requestDigest(t), Strip(text));
    } else if FactsName(r, te.requestDigest(t), Strip(text)) {
      NamelessFacts(r, te.requestDigest(t), Strip(text));
    }
  }

  // -------------------------------------------------------------- the blockers

  /** What blocks an admission: a decision that is not allowed, with its own blockers; for a plugin, controls that do not
      name exactly its backend and egress; and an authorization that has expired. */
  ghost predicate BlocksAdmission(d: Decision, version: Version, t: TypedRequest, expired: bool, b: string) {
    || (d.status != "allowed" && (b == "governance_decision_not_allowed" || b in d.blockers))
    || (version == V02 && d.controls.allowedBackendClasses != [t.descriptor.backendClass]
        && b == "plugin_backend_policy_control_mismatch")
    || (version == V02 && d.controls.allowedNetworkEgress != [t.descriptor.egressClass]
        && b == "plugin_egress_policy_control_mismatch")
    || (expired && b == "governance_decision_expired")
  }

  /** The authorization has run out at that instant. */
  ghost predicate RunOut(env: Env, d: Decision, at: int) {
    d.authorization.Some? && exists end :: env.parse(d.authorization.value.expiresAt) == Some(end) && end <= at
  }

  lemma RunOutExactly(env: Env, d: Decision, expiry: Option<int>, at: int)
    requires Expiry(env, d) == Ok(expiry)
    ensures Expired(expiry, at) <==> RunOut(env, d, at)
  {
  }

  lemma BlockersListed(d: Decision, version: Version, t: TypedRequest, plugin: Option<Plugin>, expiry: Option<int>, at: int)
    requires plugin.None? <==> version == V01
    requires plugin.Some? ==> plugin.value.backend == t.descriptor.backendClass
                              && plugin.value.egress == t.descriptor.egressClass
    ensures forall b :: b in BlockersAt(d, plugin, expiry, at) <==>
                          BlocksAdmission(d, version, t, Expired(expiry, at), b)
    ensures Distinct(BlockersAt(d, plugin, expiry, at))
  {
    hide Dedup;
    DedupKeepsElements(RawBlockers(d, plugin, Expired(expiry, at)));
  }

  /** The first blocker gives the reason: a refused decision before controls and expiry. */
  lemma FirstBlocker(d: Decision, plugin: Option<Plugin>, expiry: Option<int>, at: int)
    ensures d.status != "allowed" ==>
              BlockersAt(d, plugin, expiry, at) != []
              && BlockersAt(d, plugin, expiry, at)[0] == "governance_decision_not_allowed"
  {
    hide Dedup;
    DedupKeepsElements(RawBlockers(d, plugin, Expired(expiry, at)));
  }

  // ------------------------------------------------------ what evaluation gives

  /** The admission repeats its records: twenty-seven values. */
  ghost predicate Repeats(te: TypedEnv, env: Env, b: Bound, t: TypedRequest, r: Request, d: Decision) {
    && b.typedMode == t.operationMode && b.requestId == t.requestId && b.transactionId == r.transactionId
    && b.decisionId == d.decisionId && b.operationId == r.operationId && b.stepId == r.stepId
    && b.attemptId == r.attemptId && b.runtimeInstanceId == r.runtimeInstanceId && b.leaseId == r.leaseId
    && b.leaseEpoch == r.leaseEpoch && b.fencingTokenDigest == r.fencingTokenDigest
    && b.typedRequestDigest == te.requestDigest(t) && b.projectionDigest == te.projectionDigest(t)
    && b.reportDigest == te.reportDigest(t) && b.bundleDigest == te.bundleDigest(t)
    && RequestDigest(env.hash, r) == Ok(b.governanceRequestDigest) && b.decisionDigest == d.decisionDigest
    && ApprovalDigest(env, r.approval) == Ok(b.approvalDigest) && b.executionSpecDigest == r.executionSpecDigest
    && b.executionFactsDigest == r.executionFactsDigest && b.payloadDigest == r.payloadDigest
    && b.requestedScopeDigest == r.requestedScopeDigest && b.inventoryDigest == r.inventoryDigest
    && b.inventoryEpoch == r.inventory.inventoryEpoch && b.policyPackDigest == r.policyPackDigest
    && b.policyEpoch == r.policyEpoch && b.sideEffectClass == r.sideEffectClass
  }

  lemma BoundExactly(te: TypedEnv, env: Env, t: TypedRequest, r: Request, d: Decision, b: Bound)
    ensures BoundTo(te, env, t, r, d) == Ok(b) <==> Repeats(te, env, b, t, r, d)
  {
    hide RequestDigest, ApprovalDigest;
  }

  /** When the decision's authorization ends, as text; empty without one. */
  ghost function EndText(d: Decision): string {
    match d.authorization
    case None => ""
    case Some(g) => g.expiresAt
  }

  /** The reason: the first blocker, or the name of the passing. */
  ghost function ReasonOf(blockers: seq<string>, passed: string): string {
    if blockers == [] then passed else blockers[0]
  }

  ghost function StatusOf(blockers: seq<string>): string {
    if blockers == [] then "passed" else "blocked"
  }

  /** The typed precheck of the version. */
  ghost predicate Prechecked(version: Version, t: TypedRequest, r: Request) {
    match version
    case V01 => Precheck(t).Ok?
    case V02 => PluginPrecheck(t, r).Ok?
  }

  lemma PrecheckedIs(version: Version, t: TypedRequest, r: Request)
    ensures PrecheckAlone(version, t, r).Ok? <==> Prechecked(version, t, r)
  {
    hide Precheck, PluginPrecheck;
  }

  /** What an evaluation demands besides a governance decision. */
  ghost predicate Demands(
    version: Version, te: TypedEnv, t: TypedRequest, r: Request, actualMode: string, call: Call, admittedAt: int)
  {
    && te.shape(t).Pass? && KnownMode(Strip(actualMode)) && call.at <= admittedAt && Prechecked(version, t, r)
    && SameExecution(t, r) && FactsName(r, te.requestDigest(t), Strip(actualMode))
  }

  /** An evaluation returns exactly when its demands are met and there is a governance decision, and returns that
      decision. */
  lemma EvaluatedExactly(
    version: Version, te: TypedEnv, e: Engine, t: TypedRequest, r: Request, actualMode: string, call: Call,
    admittedAt: int)
    requires ClockOk(e.env) && HexHash(e.env.hash) && SoundTyped(te, e)
    ensures Evaluate(version, te, e, t, r, actualMode, call, admittedAt).Ok? <==>
              Demands(version, te, t, r, actualMode, call, admittedAt) && EvaluateGovernance(e, r, call).Ok?
    ensures forall a, d ::
              Evaluate(version, te, e, t, r, actualMode, call, admittedAt) == Ok((a, d)) ==>
                EvaluateGovernance(e, r, call) == Ok(d)
  {
    hide EvaluateGovernance, Evaluate, BindTyped, PrecheckAlone, Mode, SoundTyped, Prechecked, SameExecution, FactsName,
         KnownMode, Strip;
    ModeExactly(actualMode);
    PrecheckedIs(version, t, r);
    BindingExactly(te, t, r, Strip(actualMode));
    StripIsStable(actualMode);
    if Evaluate(version, te, e, t, r, actualMode, call, admittedAt).Ok? {
      var _ := EvaluatedDemands(version, te, e, t, r, actualMode, call, admittedAt);
    }
    if Demands(version, te, t, r, actualMode, call, admittedAt) && EvaluateGovernance(e, r, call).Ok? {
      var d := EvaluateGovernance(e, r, call).value;
      var a := EvaluationCompletes(version, te, e, t, r, actualMode, Strip(actualMode), call, admittedAt, d);
    }
  }

  lemma StripIsStable(text: string)
    ensures Strip(Strip(text)) == Strip(text)
  {
    StripTrims(text);
    StripTrims(Strip(text));
  }

  lemma EvaluatedDemands(
    version: Version, te: TypedEnv, e: Engine, t: TypedRequest, r: Request, actualMode: string, call: Call,
    admittedAt: int) returns (mode: string)
    requires Evaluate(version, te, e, t, r, actualMode, call, admittedAt).Ok?
    ensures te.shape(t).Pass? && Mode(actualMode) == Ok(mode) && admittedAt >= call.at
    ensures PrecheckAlone(version, t, r).Ok? && BindTyped(te, t, r, mode).Ok? && EvaluateGovernance(e, r, call).Ok?
    ensures forall a, d ::
              Evaluate(version, te, e, t, r, actualMode, call, admittedAt) == Ok((a, d)) ==>
                EvaluateGovernance(e, r, call) == Ok(d)
  {
    hide EvaluateGovernance, BindTyped, PrecheckAlone, Mode, ValidateRequest, Project, Validate;
    mode := Mode(actualMode).value;
  }

  /** A returned admission, member by member: its mode, what it repeats, its time and the decision's expiry, which
      blockers it carries, and when it passed. */
  lemma AdmissionMembers(
    version: Version, te: TypedEnv, e: Engine, t: TypedRequest, r: Request, actualMode: string, call: Call,
    admittedAt: int, a: Admission, d: Decision)
    requires ClockOk(e.env) && Evaluate(version, te, e, t, r, actualMode, call, admittedAt) == Ok((a, d))
    ensures KnownMode(a.actualMode) && a.actualMode == Strip(actualMode)
    ensures SameExecution(t, r) && FactsName(r, te.requestDigest(t), a.actualMode)
    ensures Repeats(te, e.env, a.bound, t, r, d)
    ensures e.env.parse(a.admittedAt) == Some(admittedAt)
    ensures a.decisionExpiresAt == EndText(d)
    ensures forall b :: b in a.blockers <==> BlocksAdmission(d, version, t, RunOut(e.env, d, admittedAt), b)
    ensures Distinct(a.blockers)
    ensures a.status == StatusOf(a.blockers)
    ensures a.reasonCode == ReasonOf(a.blockers, if version == V01 then "typed_execution_governed_admission_passed"
                                                 else "typed_execution_governed_admission_v02_passed")
    ensures d.status != "allowed" ==> a.reasonCode == "governance_decision_not_allowed"
  {
    hide EvaluateGovernance, Evaluate, BindTyped, PrecheckAlone, Mode, SameExecution, FactsName, KnownMode, Strip, Repeats,
         BoundTo, PrecheckFor, BlockersAt, Expiry, Expired, RunOut, BlocksAdmission, Sealed;
    var mode := EvaluatedDemands(version, te, e, t, r, actualMode, call, admittedAt);
    ModeExactly(actualMode);
    StripIsStable(actualMode);
    BindingExactly(te, t, r, Strip(actualMode));
    var expiry := EvaluatedProjects(version, te, e, t, r, actualMode, mode, call, admittedAt, a, d);
    BoundExactly(te, e.env, t, r, d, a.bound);
    PluginOf(version, e.env, t, r, d, a.discounted, a.plugin);
    BlockersListed(d, version, t, a.plugin, expiry, admittedAt);
    RunOutExactly(e.env, d, expiry, admittedAt);
    FirstBlocker(d, a.plugin, expiry, admittedAt);
  }

  lemma EvaluatedProjects(
    version: Version, te: TypedEnv, e: Engine, t: TypedRequest, r: Request, actualMode: string, mode: string, call: Call,
    admittedAt: int, a: Admission, d: Decision) returns (expiry: Option<int>)
    requires ClockOk(e.env) && Evaluate(version, te, e, t, r, actualMode, call, admittedAt) == Ok((a, d))
    requires Mode(actualMode) == Ok(mode)
    ensures Projected(version, te, e, t, r, d, mode, admittedAt, a, expiry)
  {
    hide EvaluateGovernance, BindTyped, PrecheckAlone, Mode, ValidateRequest, Project, Validate, Projected;
    var built := Project(version, te, e.env, t, r, d, mode, admittedAt).value;
    ValidateReturns(version, te, e.env, built, t, r, d, admittedAt);
    expiry := ProjectGives(version, te, e, t, r, d, mode, admittedAt, a);
  }

  /** A v0.2 admission repeats the plugin's members and the decision's two lists. */
  lemma PluginOf(
    version: Version, env: Env, t: TypedRequest, r: Request, d: Decision, discounted: seq<Blocker>, plugin: Option<Plugin>)
    requires PrecheckFor(version, env, t, r, d) == Ok((discounted, plugin))
    ensures plugin.None? <==> version == V01
    ensures plugin.Some? ==>
              var p := plugin.value;
              && p.backend == t.descriptor.backendClass && p.egress == t.descriptor.egressClass
              && p.identity == t.descriptor.identityClass && p.capabilities == t.descriptor.declared
              && RequirementsDigest(env, r.requirements) == Ok(p.requirementsDigest)
              && p.allowedBackends == d.controls.allowedBackendClasses
              && p.allowedEgress == d.controls.allowedNetworkEgress
  {
    hide PrecheckFor, Precheck, PluginPrecheck, RequirementsDigest;
    PrecheckBehind(version, env, t, r, d, discounted, plugin);
    if plugin.Some? {
      PluginRepeats(version, env, t, r, d, discounted, plugin.value);
    }
  }

  // ------------------------------------------------------ validation has no choice

  /** Two admissions that validate at one instant against the same records and state the same time are equal. */
  lemma ValidatedIsUnique(
    version: Version, te: TypedEnv, env: Env, a: Admission, b: Admission, t: TypedRequest, r: Request, d: Decision,
    now: int)
    requires Validate(version, te, env, a, t, r, d, now).Ok? && Validate(version, te, env, b, t, r, d, now).Ok?
    requires a.admittedAt == b.admittedAt
    ensures a == b
  {
    hide *;
    var x := ValidatedSays(version, te, env, a, t, r, d, now);
    var y := ValidatedSays(version, te, env, b, t, r, d, now);
    OneMode(r, te.requestDigest(t), a.actualMode, b.actualMode);
    assert a.(digest := "") == b.(digest := "");
  }

  lemma HeldOnce(items: seq<Item>, name: string, x: Value, y: Value)
    requires Holds(items, name, x) && Holds(items, name, y)
    ensures x == y
  {
    hide Holds, Lookup;
    LookupExactly(items, name, x);
    LookupExactly(items, name, y);
  }

  /** Facts name one mode. */
  lemma OneMode(r: Request, digest: string, mode: string, other: string)
    requires FactsName(r, digest, mode) && FactsName(r, digest, other)
    ensures mode == other
  {
    hide Holds, U;
    var items :| Holds(r.executionFacts.items, "metadata", Dict(items))
                 && Holds(items, "typed_execution_governance_request_digest", S(digest))
                 && Holds(items, "actual_operation_mode", S(mode));
    var others :| Holds(r.executionFacts.items, "metadata", Dict(others))
                  && Holds(others, "typed_execution_governance_request_digest", S(digest))
                  && Holds(others, "actual_operation_mode", S(other));
    HeldOnce(r.executionFacts.items, "metadata", Dict(items), Dict(others));
    HeldOnce(items, "actual_operation_mode", S(mode), S(other));
    UInjective(mode, other);
  }

  /** What a validated admission says. */
  lemma ValidatedSays(
    version: Version, te: TypedEnv, env: Env, a: Admission, t: TypedRequest, r: Request, d: Decision, now: int)
    returns (expiry: Option<int>)
    requires Validate(version, te, env, a, t, r, d, now).Ok?
    ensures PrecheckFor(version, env, t, r, d) == Ok((a.discounted, a.plugin))
    ensures BoundTo(te, env, t, r, d) == Ok(a.bound) && Expiry(env, d) == Ok(expiry)
    ensures a.blockers == BlockersAt(d, a.plugin, expiry, now)
    ensures a.status == StatusOf(a.blockers) && a.reasonCode == ReasonOf(a.blockers, Passed(version))
    ensures FactsName(r, te.requestDigest(t), a.actualMode) && a.decisionExpiresAt == EndText(d)
    ensures a.digest == te.admissionDigest(a.(digest := ""))
  {
    hide Validate, CheckRecords, PrecheckFor, BindTyped, Expiry, BlockersAt, Expired, FactsName, BoundTo, Passed, CheckShape,
         Strip, KnownMode, SameExecution;
    ValidatesRecords(version, te, env, a, t, r, d, now);
    var made;
    made, expiry := RecordsBind(version, te, env, a, t, r, d);
    ValidatesAt(version, te, env, a, t, r, d, now, made, expiry);
    OwnersInShape(version, te, env, a, t, r, d);
    ShapeSays(te, env, a);
    BindingExactly(te, t, r, a.actualMode);
    KnownModeIsTrimmed(a.actualMode);
  }

  lemma KnownModeIsTrimmed(mode: string)
    requires KnownMode(mode)
    ensures Strip(mode) == mode
  {
    StripTrims(mode);
  }

  lemma RecordsBind(version: Version, te: TypedEnv, env: Env, a: Admission, t: TypedRequest, r: Request, d: Decision)
    returns (admittedAt: int, expiry: Option<int>)
    requires CheckRecords(version, te, env, a, t, r, d).Ok?
    ensures CheckOwners(version, te, env, a, t, r, d).Ok? && BindTyped(te, t, r, a.actualMode).Ok?
    ensures PrecheckFor(version, env, t, r, d) == Ok((a.discounted, a.plugin)) && BoundTo(te, env, t, r, d) == Ok(a.bound)
    ensures CheckBindings(te, env, a, t, r, d, a.discounted, a.plugin).Ok? && a.decisionExpiresAt == EndText(d)
    ensures env.parse(a.admittedAt) == Some(admittedAt) && Expiry(env, d) == Ok(expiry)
    ensures NotBeforeIssue(env, d, admittedAt).Ok?
    ensures CheckRecords(version, te, env, a, t, r, d) == Ok((admittedAt, expiry, a.plugin))
  {
    hide CheckOwners, PrecheckFor, BindTyped, Expiry, NotBeforeIssue, CheckBindings, BoundTo;
    admittedAt, expiry := env.parse(a.admittedAt).value, Expiry(env, d).value;
    var checked := PrecheckFor(version, env, t, r, d).value;
    assert checked == (checked.0, checked.1);
    BindingsSay(te, env, a, t, r, d, checked.0, checked.1);
  }

  lemma BindingsSay(te: TypedEnv, env: Env, a: Admission, t: TypedRequest, r: Request, d: Decision,
                    discounted: seq<Blocker>, plugin: Option<Plugin>)
    requires CheckBindings(te, env, a, t, r, d, discounted, plugin).Ok?
    ensures a.discounted == discounted && a.plugin == plugin && BoundTo(te, env, t, r, d) == Ok(a.bound)
    ensures a.decisionExpiresAt == EndText(d)
  {
    hide ApprovalDigest, BoundTo, IsAscii;
  }

  lemma OwnersInShape(version: Version, te: TypedEnv, env: Env, a: Admission, t: TypedRequest, r: Request, d: Decision)
    requires CheckOwners(version, te, env, a, t, r, d).Ok?
    ensures CheckShape(te, env, a).Ok? && VersionOf(a) == version
  {
    hide CheckShape, ValidateRequest, ValidateDecisionFor;
  }

  lemma ShapeSays(te: TypedEnv, env: Env, a: Admission)
    requires CheckShape(te, env, a).Ok?
    ensures a.status == StatusOf(a.blockers) && KnownMode(a.actualMode)
    ensures a.reasonCode == ReasonOf(a.blockers, Passed(VersionOf(a)))
    ensures a.digest == te.admissionDigest(a.(digest := ""))
  {
    hide CheckShape, CheckVerdict, Passed, Same;
    ShapeGivesParts(te, env, a);
    PassedSeal(te.admissionDigest(a.(digest := "")), a.digest, "typed_execution_governed_admission_digest_mismatch");
    VerdictSays(env, a);
  }

  lemma PassedSeal(actual: string, expected: string, reason: string)
    ensures Same(actual, expected, reason).Pass? ==> actual == expected
  {
    hide IsAscii;
  }

  lemma VerdictSays(env: Env, a: Admission)
    requires CheckVerdict(env, a).Ok? && a.status in {"passed", "blocked"}
    ensures a.status == StatusOf(a.blockers) && a.reasonCode == ReasonOf(a.blockers, Passed(VersionOf(a)))
  {
    hide Passed;
    StatusesDiffer();
  }

  // ----------------------------------------------------------------- the shape

  ghost predicate IdsGiven(b: Bound) {
    && Strip(b.requestId) != "" && Strip(b.transactionId) != "" && Strip(b.decisionId) != "" && Strip(b.operationId) != ""
    && Strip(b.stepId) != "" && Strip(b.attemptId) != "" && Strip(b.runtimeInstanceId) != "" && Strip(b.leaseId) != ""
    && b.leaseEpoch >= 0 && b.inventoryEpoch >= 0 && b.policyEpoch >= 0
  }

  ghost predicate BoundDigestsGiven(b: Bound) {
    && IsSha256(b.fencingTokenDigest) && IsSha256(b.typedRequestDigest) && IsSha256(b.projectionDigest)
    && IsSha256(b.reportDigest) && IsSha256(b.bundleDigest) && IsSha256(b.governanceRequestDigest)
    && IsSha256(b.decisionDigest) && IsSha256(b.executionSpecDigest) && IsSha256(b.executionFactsDigest)
    && IsSha256(b.payloadDigest) && IsSha256(b.requestedScopeDigest) && IsSha256(b.inventoryDigest)
    && IsSha256(b.policyPackDigest)
  }

  lemma IdsExactly(b: Bound)
    ensures CheckBoundIds(b).Ok? <==> IdsGiven(b)
  {
    hide Strip;
  }

  lemma BoundDigestsExactly(b: Bound)
    ensures CheckBoundDigests(b).Ok? <==> BoundDigestsGiven(b)
  {
    hide IsSha256;
  }

  /** Discounted are one approval blocker and, for a plugin, the unsupported backend with it. */
  ghost predicate DiscountsInForm(a: Admission) {
    if a.plugin.None? then
      a.discounted != []
      && forall b :: b in a.discounted ==> b == ApprovalEvidenceMissing || b == ApprovalAttestationMissing
    else
      exists b :: (b == ApprovalEvidenceMissing || b == ApprovalAttestationMissing)
                  && (a.discounted == [b, UnsupportedBackendClass] || a.discounted == [UnsupportedBackendClass, b])
  }

  lemma DiscountsExactly(a: Admission)
    ensures CheckDiscounted(a).Ok? <==> DiscountsInForm(a)
  {
    hide Keep;
    if a.plugin.Some? {
      hide CheckDiscounted, DiscountsInForm;
      PluginDiscountsExactly(a);
    }
  }

  lemma PluginDiscountsExactly(a: Admission)
    requires a.plugin.Some?
    ensures CheckDiscounted(a).Ok? <==> DiscountsInForm(a)
  {
    hide Keep, IsApproval;
    if |a.discounted| == 2 {
      var x, y := a.discounted[0], a.discounted[1];
      assert a.discounted == [x, y];
      TwoDiscounts(x, y);
    }
  }

  lemma TwoDiscounts(x: Blocker, y: Blocker)
    ensures |Keep(IsApproval, [x, y])| == 1 && UnsupportedBackendClass in [x, y] <==>
              || (y == UnsupportedBackendClass && (x == ApprovalEvidenceMissing || x == ApprovalAttestationMissing))
              || (x == UnsupportedBackendClass && (y == ApprovalEvidenceMissing || y == ApprovalAttestationMissing))
  {
    hide Keep;
    KeptOfTwo(x, y);
  }

  lemma KeptOfTwo(x: Blocker, y: Blocker)
    ensures |Keep(IsApproval, [x, y])| == (if IsApproval(x) then 1 else 0) + (if IsApproval(y) then 1 else 0)
  {
    assert [x, y][1..] == [y] && [y][1..] == [];
  }

  /** A plugin that stays inside, with ascending lists; a passed admission's two lists name exactly the plugin. */
  ghost predicate PluginInForm(a: Admission, p: Plugin) {
    && p.backend != "" && !BuiltIn(p.backend) && !RawShell(p.backend)
    && (p.egress == "no_network" || p.egress == "local_subprocess")
    && (p.identity == "none" || p.identity == "plugin_declared")
    && p.capabilities != [] && Ascending(p.capabilities) && IsSha256(p.requirementsDigest)
    && Ascending(p.allowedBackends) && Ascending(p.allowedEgress)
    && (a.status == "passed" ==> p.allowedBackends == [p.backend] && p.allowedEgress == [p.egress])
  }

  lemma PluginExactly(a: Admission, p: Plugin)
    requires a.plugin == Some(p)
    ensures CheckPlugin(a).Ok? <==> PluginInForm(a, p)
  {
    hide IsSha256, SortedSet, Ascending, IsBuiltin, BuiltIn, IsRawShell, RawShell;
    BackendNames(p.backend);
    AscendingIs(p.capabilities);
    AscendingIs(p.allowedBackends);
    AscendingIs(p.allowedEgress);
  }

  /** A passed admission has no blockers, an approval, and was made before the decision expires; a blocked one has blockers,
      and its reason is the first. */
  ghost predicate VerdictInTime(env: Env, a: Admission) {
    && env.parse(a.admittedAt).Some? && (a.decisionExpiresAt != "" ==> env.parse(a.decisionExpiresAt).Some?)
    && (a.status == "passed" ==>
          && a.blockers == [] && a.bound.approvalDigest != "" && a.decisionExpiresAt != ""
          && a.reasonCode == (if a.plugin.None? then "typed_execution_governed_admission_passed"
                              else "typed_execution_governed_admission_v02_passed")
          && env.parse(a.admittedAt).value < env.parse(a.decisionExpiresAt).value)
    && (a.status != "passed" ==> a.blockers != [] && a.reasonCode == a.blockers[0])
  }

  lemma VerdictExactly(env: Env, a: Admission)
    ensures CheckVerdict(env, a).Ok? <==> VerdictInTime(env, a)
  {
  }

  /** The shape of an admission on its own. */
  lemma ShapeExactly(te: TypedEnv, env: Env, a: Admission)
    requires IsSha256(te.admissionDigest(a.(digest := "")))
    ensures CheckShape(te, env, a).Ok? <==>
              && (a.status == "passed" || a.status == "blocked") && KnownMode(a.actualMode)
              && a.bound.typedMode == "apply" && a.bound.sideEffectClass == "mutation"
              && DiscountsInForm(a) && IdsGiven(a.bound) && BoundDigestsGiven(a.bound)
              && (a.bound.approvalDigest != "" ==> IsSha256(a.bound.approvalDigest))
              && VerdictInTime(env, a) && (forall p :: a.plugin == Some(p) ==> PluginInForm(a, p))
              && a.digest == te.admissionDigest(a.(digest := ""))
  {
    hide CheckShape, CheckDiscounted, CheckBoundIds, CheckBoundDigests, CheckVerdict, CheckPlugin, IsSha256, DiscountsInForm,
         IdsGiven, BoundDigestsGiven, VerdictInTime, PluginInForm, Same;
    DiscountsExactly(a);
    IdsExactly(a.bound);
    BoundDigestsExactly(a.bound);
    VerdictExactly(env, a);
    PluginCase(a);
    SealedExactly(te, a);
    if CheckShape(te, env, a).Ok? {
      ShapeGivesParts(te, env, a);
    }
    if && (a.status == "passed" || a.status == "blocked") && KnownMode(a.actualMode)
       && a.bound.typedMode == "apply" && a.bound.sideEffectClass == "mutation"
       && CheckDiscounted(a).Ok? && CheckBoundIds(a.bound).Ok? && CheckBoundDigests(a.bound).Ok?
       && (a.bound.approvalDigest != "" ==> IsSha256(a.bound.approvalDigest))
       && CheckVerdict(env, a).Ok? && CheckPlugin(a).Ok? && a.digest == te.admissionDigest(a.(digest := ""))
    {
      ShapeFromParts(te, env, a);
    }
  }

  lemma SealedExactly(te: TypedEnv, a: Admission)
    requires IsSha256(te.admissionDigest(a.(digest := "")))
    ensures Same(te.admissionDigest(a.(digest := "")), a.digest, "typed_execution_governed_admission_digest_mismatch").Pass?
            <==> a.digest == te.admissionDigest(a.(digest := ""))
  {
    hide IsSha256, IsAscii;
    Sha256IsAscii(te.admissionDigest(a.(digest := "")));
  }

  lemma ShapeGivesParts(te: TypedEnv, env: Env, a: Admission)
    requires CheckShape(te, env, a).Ok?
    ensures a.status in {"passed", "blocked"} && a.actualMode in {"apply", "recovery"}
    ensures a.bound.typedMode == "apply" && a.bound.sideEffectClass == "mutation"
    ensures CheckDiscounted(a).Ok? && CheckBoundIds(a.bound).Ok? && CheckBoundDigests(a.bound).Ok?
    ensures a.bound.approvalDigest != "" ==> IsSha256(a.bound.approvalDigest)
    ensures CheckVerdict(env, a).Ok? && CheckPlugin(a).Ok?
    ensures Same(te.admissionDigest(a.(digest := "")), a.digest, "typed_execution_governed_admission_digest_mismatch").Pass?
  {
    hide CheckDiscounted, CheckBoundIds, CheckBoundDigests, CheckVerdict, CheckPlugin, IsSha256, Same;
  }

  lemma PluginCase(a: Admission)
    ensures CheckPlugin(a).Ok? <==> forall p :: a.plugin == Some(p) ==> PluginInForm(a, p)
  {
    hide PluginInForm, IsSha256, IsBuiltin, IsRawShell, IsContained, IsPluginIdentity, SortedSet;
    if a.plugin.Some? {
      PluginExactly(a, a.plugin.value);
    }
  }

  // ------------------------------------------------------------- validation

  /** The admission was not made before the authorization was issued, and both instants can be read. */
  ghost predicate IssuedInTime(env: Env, d: Decision, admittedAt: int) {
    d.authorization.Some? ==>
      && env.parse(d.authorization.value.issuedAt).Some? && env.parse(d.authorization.value.expiresAt).Some?
      && (d.status == "allowed" ==> env.parse(d.authorization.value.issuedAt).value <= admittedAt)
  }

  lemma IssueExactly(env: Env, d: Decision, admittedAt: int)
    ensures Expiry(env, d).Ok? && NotBeforeIssue(env, d, admittedAt).Ok? <==> IssuedInTime(env, d, admittedAt)
  {
  }

  /** What ties an admission to its records, whatever the time. */
  ghost predicate Tied(
    version: Version, te: TypedEnv, env: Env, a: Admission, t: TypedRequest, r: Request, d: Decision)
  {
    && (a.plugin.None? <==> version == V01) && CheckShape(te, env, a).Ok? && te.shape(t).Pass?
    && ValidateDecisionFor(env, d, r).Ok? && PrecheckFor(version, env, t, r, d) == Ok((a.discounted, a.plugin))
    && KnownMode(Strip(a.actualMode)) && SameExecution(t, r) && FactsName(r, te.requestDigest(t), Strip(a.actualMode))
    && ApprovalDigest(env, r.approval) == Ok(d.approvalDigest) && IsAscii(d.approvalDigest)
    && Repeats(te, env, a.bound, t, r, d)
    && a.decisionExpiresAt == EndText(d)
  }

  /** An admission validates exactly when it is tied to its records, was made between the issue of the authorization and
      now, carries the blockers of now, and, in v0.1, has not outlived the authorization as a passed one. */
  lemma ValidatedExactly(
    version: Version, te: TypedEnv, env: Env, a: Admission, t: TypedRequest, r: Request, d: Decision, now: int)
    ensures Validate(version, te, env, a, t, r, d, now).Ok? <==>
              && Tied(version, te, env, a, t, r, d)
              && (version == V01 && RunOut(env, d, now) ==> a.status != "passed")
              && exists admittedAt, expiry ::
                   && env.parse(a.admittedAt) == Some(admittedAt) && Expiry(env, d) == Ok(expiry)
                   && admittedAt <= now && IssuedInTime(env, d, admittedAt)
                   && a.blockers == BlockersAt(d, a.plugin, expiry, now)
  {
    hide *;
    ValidatesRecords(version, te, env, a, t, r, d, now);
    if CheckRecords(version, te, env, a, t, r, d).Ok? {
      var admittedAt, expiry := RecordsBind(version, te, env, a, t, r, d);
      ValidatesAt(version, te, env, a, t, r, d, now, admittedAt, expiry);
      TiedByChecks(version, te, env, a, t, r, d);
      IssueExactly(env, d, admittedAt);
      RunOutExactly(env, d, expiry, now);
    } else if Tied(version, te, env, a, t, r, d) && env.parse(a.admittedAt).Some? && Expiry(env, d).Ok? {
      var admittedAt, expiry := env.parse(a.admittedAt).value, Expiry(env, d).value;
      IssueExactly(env, d, admittedAt);
      RecordsByTie(version, te, env, a, t, r, d, admittedAt, expiry);
    }
  }

  lemma ValidatesRecords(
    version: Version, te: TypedEnv, env: Env, a: Admission, t: TypedRequest, r: Request, d: Decision, now: int)
    ensures Validate(version, te, env, a, t, r, d, now).Ok? ==> CheckRecords(version, te, env, a, t, r, d).Ok?
  {
    hide CheckRecords, BlockersAt, Expired;
  }

  lemma ValidatesAt(
    version: Version, te: TypedEnv, env: Env, a: Admission, t: TypedRequest, r: Request, d: Decision, now: int,
    admittedAt: int, expiry: Option<int>)
    requires CheckRecords(version, te, env, a, t, r, d) == Ok((admittedAt, expiry, a.plugin))
    ensures Validate(version, te, env, a, t, r, d, now).Ok? <==>
              && admittedAt <= now && (version == V01 && Expired(expiry, now) ==> a.status != "passed")
              && a.blockers == BlockersAt(d, a.plugin, expiry, now)
  {
    hide CheckRecords, BlockersAt, Expired;
  }

  lemma RecordsByTie(version: Version, te: TypedEnv, env: Env, a: Admission, t: TypedRequest, r: Request, d: Decision,
                     admittedAt: int, expiry: Option<int>)
    requires Tied(version, te, env, a, t, r, d)
    requires env.parse(a.admittedAt) == Some(admittedAt) && Expiry(env, d) == Ok(expiry)
    ensures NotBeforeIssue(env, d, admittedAt).Ok? ==>
              CheckRecords(version, te, env, a, t, r, d) == Ok((admittedAt, expiry, a.plugin))
  {
    hide Tied, CheckOwners, PrecheckFor, BindTyped, CheckBindings, Expiry, NotBeforeIssue;
    ChecksByTie(version, te, env, a, t, r, d);
  }

  lemma TiedByChecks(version: Version, te: TypedEnv, env: Env, a: Admission, t: TypedRequest, r: Request, d: Decision)
    requires CheckOwners(version, te, env, a, t, r, d).Ok? && BindTyped(te, t, r, a.actualMode).Ok?
    requires PrecheckFor(version, env, t, r, d) == Ok((a.discounted, a.plugin))
    requires CheckBindings(te, env, a, t, r, d, a.discounted, a.plugin).Ok?
    ensures Tied(version, te, env, a, t, r, d)
  {
    hide CheckShape, ValidateRequest, ValidateDecisionFor, PrecheckFor, BindTyped, BoundTo, Repeats, FactsName, KnownMode,
         SameExecution, Strip, ApprovalDigest, IsAscii, CheckBindings;
    BindingExactly(te, t, r, a.actualMode);
    BoundExactly(te, env, t, r, d, a.bound);
    BindingsSay(te, env, a, t, r, d, a.discounted, a.plugin);
    BindingsName(te, env, a, t, r, d, a.discounted, a.plugin);
  }

  lemma BindingsName(te: TypedEnv, env: Env, a: Admission, t: TypedRequest, r: Request, d: Decision,
                     discounted: seq<Blocker>, plugin: Option<Plugin>)
    requires CheckBindings(te, env, a, t, r, d, discounted, plugin).Ok?
    ensures ApprovalDigest(env, r.approval) == Ok(d.approvalDigest) && IsAscii(d.approvalDigest)
  {
    hide ApprovalDigest, BoundTo, IsAscii;
  }

  lemma ChecksByTie(version: Version, te: TypedEnv, env: Env, a: Admission, t: TypedRequest, r: Request, d: Decision)
    requires Tied(version, te, env, a, t, r, d)
    ensures CheckOwners(version, te, env, a, t, r, d).Ok? && BindTyped(te, t, r, a.actualMode).Ok?
    ensures PrecheckFor(version, env, t, r, d) == Ok((a.discounted, a.plugin))
    ensures CheckBindings(te, env, a, t, r, d, a.discounted, a.plugin).Ok?
  {
    hide CheckShape, ValidateRequest, PrecheckFor, BindTyped, BoundTo, Repeats, FactsName, KnownMode, SameExecution, Strip,
         ApprovalDigest, IsAscii, CheckDecision, BindDecision;
    BindingExactly(te, t, r, a.actualMode);
    BoundExactly(te, env, t, r, d, a.bound);
  }
}
