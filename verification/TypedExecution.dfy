/** Typed-execution projections (`govengine/typed_execution_governance.py`) and the two mutation prechecks over
    them (`govengine/typed_execution_governed_admission.py`). */
module TypedExecution {
  import opened Prelude
  import opened PyStrings
  import opened PyValues
  import opened CanonicalRecord
  import opened GovernanceRecords
  import opened GovernanceRequests

  /** The names a control or check can fail under. */
  datatype Blocker =
    | MissingDigestBinding | ReadOnlySideEffectRequired
    | BackendClassSupported | UnsupportedBackendClass | NoRawShell | RawShellBackendBlocked | ReadOnlyPosture
    | DescriptorDigestPresent | SpecDigestPresent | PayloadDigestPresent | ReceiptRequired | OutputDigestRequired
    | NetworkBoundaryMatch | NetworkPolicyBindingMissing | NetworkBoundaryMismatch
    | DestinationBindingMatch | DestinationBindingMismatch | SecretRefRequirementsMet
    | MutationRequiresApproval | ApprovalEvidenceMissing | ApprovalAttestationMissing
    | CapabilityCoverage | CapabilityRequirementsMissing | MissingCapabilities

  datatype Control = Control(blocker: Blocker, passed: bool)

  datatype SecretRef = SecretRef(path: string, required: bool, present: bool)

  datatype Destination = Destination(scheme: string, addressClass: string, originDigest: string, rest: Value)

  datatype NetworkPolicy = NetworkPolicy(
    egress: seq<string>, schemes: seq<string>, addressClasses: seq<string>, originDigest: string, rest: Value)

  datatype Descriptor = Descriptor(
    mode: string, backendClass: string, certificationTier: string, identityClass: string, egressClass: string,
    boundaryEgress: string, boundaryDestination: Option<Destination>, secretRefs: seq<SecretRef>,
    declared: seq<string>)

  /** Members of free-form mappings are given as they are read; an absent mapping is `None`. */
  datatype TypedRequest = TypedRequest(
    schemaVersion: string, requestId: string, operationId: string, stepId: string, operationMode: string,
    readOnly: bool, sideEffectClass: string, backendClass: string, descriptor: Descriptor,
    specDigest: string, descriptorDigest: string, payloadDigest: string, required: seq<string>,
    receiptRequired: Option<bool>, approvalRef: string,
    allowedEgress: seq<string>, networkPolicy: Option<NetworkPolicy>, destination: Option<Destination>,
    requireDestination: bool, allowedBackends: seq<string>)

  predicate IsReadOnlyMode(mode: string) {
    mode in {"dry_run", "observe", "emergency_readonly", "read_only"}
  }

  predicate IsBuiltin(backend: string) {
    backend in {"http_api", "local_shell_readonly", "mock", "ssh_readonly", "static_fixture"}
  }

  predicate IsRawShell(backend: string) {
    backend in {"local_shell", "raw_shell", "shell", "ssh", "subprocess"}
  }

  /** Egress that needs no independent network policy; the only kind a governed plugin may declare. */
  predicate IsContained(egress: string) {
    egress == "local_subprocess" || egress == "no_network"
  }

  predicate IsPluginIdentity(identity: string) {
    identity in {"none", "plugin_declared"}
  }

  // ---------------------------------------------------------------- single checks

  predicate Posture(t: TypedRequest) {
    IsReadOnlyMode(t.operationMode) ==> t.sideEffectClass == "read_only" && t.readOnly
  }

  predicate BackendSupported(t: TypedRequest) {
    IsBuiltin(t.backendClass) && (t.allowedBackends == [] || t.backendClass in t.allowedBackends)
  }

  predicate NeedsReceipt(t: TypedRequest) {
    t.receiptRequired != Some(false)
  }

  function Egress(d: Descriptor): string {
    Strip(if d.boundaryEgress == "" then d.egressClass else d.boundaryEgress)
  }

  predicate IndependentPolicyRequired(t: TypedRequest) {
    Egress(t.descriptor) in {"outbound_http", "outbound_ssh", "plugin_undeclared"}
  }

  predicate NetworkPasses(t: TypedRequest) {
    var egress := Egress(t.descriptor);
    if IndependentPolicyRequired(t) then t.networkPolicy.Some? && egress in t.networkPolicy.value.egress
    else IsContained(egress) && (t.allowedEgress == [] || egress in t.allowedEgress)
  }

  predicate DestinationPasses(t: TypedRequest) {
    match t.destination
    case None => !t.requireDestination
    case Some(d) =>
      && t.networkPolicy.Some? && t.descriptor.boundaryDestination == Some(d)
      && (t.networkPolicy.value.schemes == [] || Strip(d.scheme) in t.networkPolicy.value.schemes)
      && (t.networkPolicy.value.addressClasses == [] || Strip(d.addressClass) in t.networkPolicy.value.addressClasses)
      && (Strip(t.networkPolicy.value.originDigest) == ""
          || Strip(d.originDigest) == Strip(t.networkPolicy.value.originDigest))
  }

  function DestinationControl(t: TypedRequest): Blocker {
    if t.destination.None? then DestinationBindingMatch
    else if t.networkPolicy.None? then NetworkPolicyBindingMissing
    else if DestinationPasses(t) then DestinationBindingMatch
    else DestinationBindingMismatch
  }

  predicate SecretsPresent(t: TypedRequest) {
    forall s :: s in t.descriptor.secretRefs ==> s.required ==> s.present
  }

  function Aliases(capability: string): seq<string> {
    if capability == "http_api" then ["connector.http.rest.read", "connector.http.rest.mutate"]
    else if capability == "local_shell_readonly" then ["connector.shell.readonly"]
    else if capability == "ssh_readonly" then ["connector.ssh.readonly"]
    else if capability == "static_fixture" then ["connector.fixture.static"]
    else if capability == "mock" then ["connector.mock.invoke"]
    else []
  }

  predicate Provided(d: Descriptor, capability: string) {
    || capability in d.declared || capability == d.backendClass || capability == "connector." + d.backendClass
    || exists a :: a in Aliases(capability) && a in d.declared
  }

  function Missing(t: TypedRequest): seq<string> {
    Keep(c => !Provided(t.descriptor, c), t.required)
  }

  /** The blocker a mutation always meets; which one depends only on whether evidence is named. */
  function ApprovalBlocker(t: TypedRequest): Blocker {
    if Strip(t.approvalRef) == "" then ApprovalEvidenceMissing else ApprovalAttestationMissing
  }

  predicate IsApproval(b: Blocker) {
    b == ApprovalEvidenceMissing || b == ApprovalAttestationMissing
  }

  function Keep<T(!new)>(p: T -> bool, s: seq<T>): (r: seq<T>)
    ensures forall x :: x in r <==> x in s && p(x)
    ensures r == [] <==> forall x :: x in s ==> !p(x)
  {
    if s == [] then []
    else
      assert s == [s[0]] + s[1..];
      (if p(s[0]) then [s[0]] else []) + Keep(p, s[1..])
  }

  // ------------------------------------------------------------- control list

  function BackendControls(t: TypedRequest): (r: seq<Control>)
    ensures |r| == 3
  {
    var raw := IsRawShell(t.backendClass);
    [Control(if !BackendSupported(t) && !raw then UnsupportedBackendClass else BackendClassSupported, BackendSupported(t)),
     Control(if raw then RawShellBackendBlocked else NoRawShell, !raw),
     Control(ReadOnlyPosture, Posture(t))]
  }

  function BindingControls(t: TypedRequest): (r: seq<Control>)
    ensures |r| == 5
  {
    [Control(DescriptorDigestPresent, t.descriptorDigest != ""),
     Control(SpecDigestPresent, t.specDigest != ""),
     Control(PayloadDigestPresent, t.payloadDigest != ""),
     Control(ReceiptRequired, NeedsReceipt(t)),
     Control(OutputDigestRequired, true)]
  }

  function BoundaryControls(t: TypedRequest): (r: seq<Control>)
    ensures |r| == 3
  {
    [Control(if NetworkPasses(t) then NetworkBoundaryMatch
             else if IndependentPolicyRequired(t) && t.networkPolicy.None? then NetworkPolicyBindingMissing
             else NetworkBoundaryMismatch, NetworkPasses(t)),
     Control(DestinationControl(t), DestinationPasses(t)),
     Control(SecretRefRequirementsMet, SecretsPresent(t))]
  }

  function ApprovalControls(t: TypedRequest): (r: seq<Control>)
    ensures |r| == 2
  {
    var mutation := t.sideEffectClass == "mutation";
    [Control(if mutation then ApprovalBlocker(t) else MutationRequiresApproval, !mutation),
     Control(if t.required == [] then CapabilityRequirementsMissing else CapabilityCoverage,
             t.required != [] && Missing(t) == [])]
  }

  function PolicyControlsOf(t: TypedRequest): (r: seq<Control>)
    ensures |r| == 13
  {
    BackendControls(t) + BindingControls(t) + BoundaryControls(t) + ApprovalControls(t)
  }

  /** `_typed_execution_policy_controls`: controls are appended one by one and some are renamed afterwards. */
  method PolicyControls(t: TypedRequest) returns (controls: seq<Control>)
    ensures controls == PolicyControlsOf(t)
  {
    hide BindingControls, BoundaryControls, ApprovalControls, Posture, BackendSupported, IsRawShell;
    var supported := BackendSupported(t);
    controls := [Control(BackendClassSupported, supported)];
    var raw := IsRawShell(t.backendClass);
    controls := controls + [Control(NoRawShell, !raw)];
    if raw {
      controls := controls[|controls| - 1 := controls[|controls| - 1].(blocker := RawShellBackendBlocked)];
    }
    controls := controls + [Control(ReadOnlyPosture, Posture(t))];
    ghost var backend := controls;
    assert (if !supported && !raw then backend[0 := Control(UnsupportedBackendClass, supported)] else backend)
           == BackendControls(t);
    controls := AppendBindingControls(t, controls);
    controls := AppendBoundaryControls(t, controls);
    controls := AppendApprovalControls(t, controls);
    ghost var rest := BindingControls(t) + BoundaryControls(t) + ApprovalControls(t);
    assert controls == backend + rest;
    if !supported && !raw {
      controls := controls[0 := controls[0].(blocker := UnsupportedBackendClass)];
      assert controls == backend[0 := Control(UnsupportedBackendClass, supported)] + rest;
    }
  }

  method AppendBindingControls(t: TypedRequest, start: seq<Control>) returns (controls: seq<Control>)
    ensures controls == start + BindingControls(t)
  {
    controls := start + [Control(DescriptorDigestPresent, t.descriptorDigest != "")];
    controls := controls + [Control(SpecDigestPresent, t.specDigest != "")];
    controls := controls + [Control(PayloadDigestPresent, t.payloadDigest != "")];
    controls := controls + [Control(ReceiptRequired, NeedsReceipt(t))];
    controls := controls + [Control(OutputDigestRequired, true)];
  }

  method AppendBoundaryControls(t: TypedRequest, start: seq<Control>) returns (controls: seq<Control>)
    ensures controls == start + BoundaryControls(t)
  {
    hide NetworkPasses, DestinationPasses, DestinationControl, IndependentPolicyRequired, SecretsPresent;
    var network := NetworkPasses(t);
    controls := start + [Control(NetworkBoundaryMatch, network)];
    if !network {
      var renamed := if IndependentPolicyRequired(t) && t.networkPolicy.None? then NetworkPolicyBindingMissing
                     else NetworkBoundaryMismatch;
      controls := controls[|controls| - 1 := controls[|controls| - 1].(blocker := renamed)];
    }
    controls := controls + [Control(DestinationControl(t), DestinationPasses(t))];
    controls := controls + [Control(SecretRefRequirementsMet, SecretsPresent(t))];
  }

  method AppendApprovalControls(t: TypedRequest, start: seq<Control>) returns (controls: seq<Control>)
    ensures controls == start + ApprovalControls(t)
  {
    hide ApprovalBlocker, Missing;
    var mutation := t.sideEffectClass == "mutation";
    controls := start + [Control(if mutation then ApprovalBlocker(t) else MutationRequiresApproval, !mutation)];
    controls := controls + [Control(if t.required == [] then CapabilityRequirementsMissing else CapabilityCoverage,
                                    t.required != [] && Missing(t) == [])];
  }

  function Failing(controls: seq<Control>): (r: seq<Blocker>)
    ensures forall b :: b in r <==> exists i :: 0 <= i < |controls| && !controls[i].passed && controls[i].blocker == b
  {
    if controls == [] then []
    else
      var rest := Failing(controls[1..]);
      assert forall i :: 0 <= i < |controls| - 1 ==> controls[i + 1] == controls[1..][i];
      (if controls[0].passed then [] else [controls[0].blocker]) + rest
  }

  // ------------------------------------------------------ projections and merge

  /** `project_typed_execution_governance`. */
  function GovernanceBlockers(t: TypedRequest): seq<Blocker> {
    (if t.specDigest == "" || t.descriptorDigest == "" || t.payloadDigest == "" then [MissingDigestBinding] else [])
    + (if Posture(t) then [] else [ReadOnlySideEffectRequired])
    + (if NeedsReceipt(t) then [] else [ReceiptRequired])
    + (if t.sideEffectClass == "mutation" then [ApprovalBlocker(t)] else [])
  }

  /** `evaluate_typed_execution_capability_compatibility`. */
  function CompatibilityBlockers(t: TypedRequest): seq<Blocker> {
    Failing(PolicyControlsOf(t)) + (if Missing(t) == [] then [] else [MissingCapabilities])
  }

  function MergedBlockers(t: TypedRequest): seq<Blocker> {
    Dedup(GovernanceBlockers(t) + CompatibilityBlockers(t))
  }

  datatype TypedAdmission = TypedAdmission(allowed: bool, reason: Option<Blocker>, blockers: seq<Blocker>)

  /** `admit_typed_execution`: the outcome and its blockers. */
  function AdmitTyped(t: TypedRequest): TypedAdmission {
    var governance, compatibility := GovernanceBlockers(t), CompatibilityBlockers(t);
    var allowed := Dedup(governance + compatibility) == [];
    TypedAdmission(
      allowed,
      if allowed then None
      else if governance != [] then Some(governance[0])
      else if compatibility != [] then Some(compatibility[0]) else None,
      Dedup(governance + compatibility))
  }

  // -------------------------------------------------------- what blocks, exactly

  /** Every control that concerns neither the backend class nor the approval. */
  predicate PlainControlsPass(t: TypedRequest) {
    && Posture(t) && t.descriptorDigest != "" && t.specDigest != "" && t.payloadDigest != ""
    && NeedsReceipt(t) && NetworkPasses(t) && DestinationPasses(t) && SecretsPresent(t)
    && t.required != [] && Missing(t) == []
  }

  predicate BackendBlocker(b: Blocker) {
    b in {BackendClassSupported, UnsupportedBackendClass, RawShellBackendBlocked}
  }

  /** Which blockers there are: the plain controls all pass exactly when only backend and approval blockers remain,
      and those two follow from the backend class and the side-effect class alone. */
  lemma BlockersExactly(t: TypedRequest)
    ensures PlainControlsPass(t) <==> forall b :: b in MergedBlockers(t) ==> BackendBlocker(b) || IsApproval(b)
    ensures forall b | IsApproval(b) ::
              b in MergedBlockers(t) <==> t.sideEffectClass == "mutation" && b == ApprovalBlocker(t)
    ensures UnsupportedBackendClass in MergedBlockers(t)
            <==> !BackendSupported(t) && !IsRawShell(t.backendClass)
    ensures RawShellBackendBlocked in MergedBlockers(t) <==> IsRawShell(t.backendClass)
    ensures BackendClassSupported in MergedBlockers(t) ==> IsRawShell(t.backendClass)
  {
    hide BackendSupported, IsRawShell, ApprovalBlocker, PlainControlsPass, Dedup, PolicyControlsOf, GovernanceBlockers,
         Failing, Missing;
    var g, f := GovernanceBlockers(t), Failing(PolicyControlsOf(t));
    DedupKeepsElements(g + CompatibilityBlockers(t));
    GovernanceMembers(t);
    FailingControls(t);
    ApprovalBlockerIsApproval(t);
    MissingIsPlain(t);
    assert forall b :: b in MergedBlockers(t) <==> b in g || b in f || (Missing(t) != [] && b == MissingCapabilities);
  }

  lemma MissingIsPlain(t: TypedRequest)
    ensures PlainControlsPass(t) ==> Missing(t) == []
  {
    hide Missing;
  }

  lemma GovernanceMembers(t: TypedRequest)
    ensures forall b :: b in GovernanceBlockers(t) ==>
              if IsApproval(b) then t.sideEffectClass == "mutation" && b == ApprovalBlocker(t)
              else !PlainControlsPass(t) && !BackendBlocker(b)
    ensures t.sideEffectClass == "mutation" ==> ApprovalBlocker(t) in GovernanceBlockers(t)
  {
    hide NetworkPasses, DestinationPasses, Posture, SecretsPresent, NeedsReceipt, Missing, Strip;
  }

  lemma ApprovalBlockerIsApproval(t: TypedRequest)
    ensures IsApproval(ApprovalBlocker(t))
  {
    hide Strip;
  }

  lemma FailingControls(t: TypedRequest)
    ensures var f := Failing(PolicyControlsOf(t));
            && ((forall b :: b in f ==> BackendBlocker(b) || IsApproval(b)) <==> PlainControlsPass(t))
            && (forall b | IsApproval(b) :: b in f <==> t.sideEffectClass == "mutation" && b == ApprovalBlocker(t))
            && (UnsupportedBackendClass in f <==> !BackendSupported(t) && !IsRawShell(t.backendClass))
            && (RawShellBackendBlocked in f <==> IsRawShell(t.backendClass))
            && (BackendClassSupported in f ==> IsRawShell(t.backendClass))
  {
    hide PolicyControlsOf, PlainControlsPass, ApprovalBlocker, BackendSupported, IsRawShell;
    FailingPlain(t);
    FailingApproval(t);
    FailingBackend(t);
  }

  lemma FailingPlain(t: TypedRequest)
    ensures (forall b :: b in Failing(PolicyControlsOf(t)) ==> BackendBlocker(b) || IsApproval(b)) <==> PlainControlsPass(t)
  {
    hide NetworkPasses, DestinationPasses, Posture, BackendSupported, SecretsPresent, NeedsReceipt,
         IndependentPolicyRequired, Missing, Strip, IsRawShell, DestinationControl;
    ApprovalBlockerIsApproval(t);
    var c := PolicyControlsOf(t);
    if !PlainControlsPass(t) {
      var i := FailingPlainControl(t);
      assert c[i].blocker in Failing(c);
    }
  }

  lemma FailingApproval(t: TypedRequest)
    ensures forall b | IsApproval(b) ::
              b in Failing(PolicyControlsOf(t)) <==> t.sideEffectClass == "mutation" && b == ApprovalBlocker(t)
  {
    hide NetworkPasses, DestinationPasses, Posture, BackendSupported, SecretsPresent, NeedsReceipt,
         IndependentPolicyRequired, Missing, Strip, IsRawShell, DestinationControl, ApprovalBlocker;
    var c := PolicyControlsOf(t);
    DestinationIsPlain(t);
    assert c[11] == Control(if t.sideEffectClass == "mutation" then ApprovalBlocker(t) else MutationRequiresApproval,
                            t.sideEffectClass != "mutation");
    assert !c[11].passed ==> c[11].blocker in Failing(c);
  }

  lemma DestinationIsPlain(t: TypedRequest)
    ensures !IsApproval(DestinationControl(t)) && !BackendBlocker(DestinationControl(t))
  {
    hide DestinationPasses;
  }

  lemma FailingBackend(t: TypedRequest)
    ensures var f := Failing(PolicyControlsOf(t));
            && (UnsupportedBackendClass in f <==> !BackendSupported(t) && !IsRawShell(t.backendClass))
            && (RawShellBackendBlocked in f <==> IsRawShell(t.backendClass))
            && (BackendClassSupported in f ==> IsRawShell(t.backendClass))
  {
    hide NetworkPasses, DestinationPasses, Posture, BackendSupported, SecretsPresent, NeedsReceipt,
         IndependentPolicyRequired, Missing, Strip, IsRawShell, DestinationControl, ApprovalBlocker;
    var c := PolicyControlsOf(t);
    DestinationIsPlain(t);
    ApprovalBlockerIsApproval(t);
    assert !c[0].passed ==> c[0].blocker in Failing(c);
    assert !c[1].passed ==> c[1].blocker in Failing(c);
  }

  /** Where the groups of controls lie in the list. */
  lemma ControlsByGroup(t: TypedRequest)
    ensures var c := PolicyControlsOf(t);
            && c[2] == BackendControls(t)[2]
            && c[3] == BindingControls(t)[0] && c[4] == BindingControls(t)[1] && c[5] == BindingControls(t)[2]
            && c[6] == BindingControls(t)[3]
            && c[8] == BoundaryControls(t)[0] && c[9] == BoundaryControls(t)[1] && c[10] == BoundaryControls(t)[2]
            && c[12] == ApprovalControls(t)[1]
  {
    hide BackendControls, BindingControls, BoundaryControls, ApprovalControls;
  }

  /** A failing control other than the backend and approval ones. */
  lemma FailingPlainControl(t: TypedRequest) returns (i: nat)
    requires !PlainControlsPass(t)
    ensures i < 13 && !PolicyControlsOf(t)[i].passed
    ensures !BackendBlocker(PolicyControlsOf(t)[i].blocker) && !IsApproval(PolicyControlsOf(t)[i].blocker)
  {
    hide NetworkPasses, DestinationPasses, Posture, SecretsPresent, NeedsReceipt, Missing, BackendSupported, IsRawShell,
         IndependentPolicyRequired, ApprovalBlocker, PolicyControlsOf, DestinationControl;
    ControlsByGroup(t);
    DestinationIsPlain(t);
    if !Posture(t) {
      i := 2;
    } else if t.descriptorDigest == "" || t.specDigest == "" || t.payloadDigest == "" || !NeedsReceipt(t) {
      i := FailingBinding(t);
    } else if !NetworkPasses(t) {
      i := 8;
    } else if !DestinationPasses(t) {
      i := 9;
    } else if !SecretsPresent(t) {
      i := 10;
    } else {
      i := 12;
    }
  }

  lemma FailingBinding(t: TypedRequest) returns (i: nat)
    requires t.descriptorDigest == "" || t.specDigest == "" || t.payloadDigest == "" || !NeedsReceipt(t)
    ensures 3 <= i < 7 && !PolicyControlsOf(t)[i].passed
    ensures !BackendBlocker(PolicyControlsOf(t)[i].blocker) && !IsApproval(PolicyControlsOf(t)[i].blocker)
  {
    hide NeedsReceipt, PolicyControlsOf, BackendControls, BoundaryControls, ApprovalControls;
    ControlsByGroup(t);
    i := if t.descriptorDigest == "" then 3 else if t.specDigest == "" then 4 else if t.payloadDigest == "" then 5 else 6;
  }

  lemma {:induction false} KeepOne<T(!new)>(p: T -> bool, s: seq<T>, a: T)
    requires Distinct(s) && a in s && p(a) && forall x :: x in s && p(x) ==> x == a
    ensures Keep(p, s) == [a]
  {
    assert s == [s[0]] + s[1..];
    if s[0] == a {
      assert a !in s[1..];
      assert forall x :: x in s[1..] ==> !p(x);
    } else {
      KeepOne(p, s[1..], a);
    }
  }

  lemma {:induction false} KeepTwo<T(!new)>(p: T -> bool, s: seq<T>, a: T, b: T)
    requires Distinct(s) && a in s && b in s && a != b && p(a) && p(b)
    requires forall x :: x in s && p(x) ==> x == a || x == b
    ensures Keep(p, s) == [a, b] || Keep(p, s) == [b, a]
  {
    assert s == [s[0]] + s[1..];
    if s[0] == a {
      KeepOne(p, s[1..], b);
    } else if s[0] == b {
      KeepOne(p, s[1..], a);
    } else {
      KeepTwo(p, s[1..], a, b);
    }
  }

  /** The merged blockers of a mutation contain exactly one approval blocker. */
  lemma OneApprovalBlocker(t: TypedRequest)
    requires t.sideEffectClass == "mutation"
    ensures Keep(IsApproval, MergedBlockers(t)) == [ApprovalBlocker(t)]
  {
    hide GovernanceBlockers, CompatibilityBlockers, PlainControlsPass, BackendSupported, Dedup;
    BlockersExactly(t);
    ApprovalBlockerIsApproval(t);
    DedupKeepsElements(GovernanceBlockers(t) + CompatibilityBlockers(t));
    KeepOne(IsApproval, MergedBlockers(t), ApprovalBlocker(t));
  }

  /** Typed admission alone admits exactly the non-mutations all of whose controls pass: never a mutation. */
  lemma AdmitTypedExactly(t: TypedRequest)
    ensures AdmitTyped(t).allowed <==>
              t.sideEffectClass != "mutation" && BackendSupported(t) && !IsRawShell(t.backendClass)
              && PlainControlsPass(t)
    ensures !AdmitTyped(t).allowed ==> AdmitTyped(t).reason.Some? && AdmitTyped(t).blockers != []
                                       && AdmitTyped(t).blockers[0] == AdmitTyped(t).reason.value
  {
    hide GovernanceBlockers, CompatibilityBlockers, PlainControlsPass, BackendSupported, Dedup;
    BlockersExactly(t);
    ApprovalBlockerIsApproval(t);
    var all := GovernanceBlockers(t) + CompatibilityBlockers(t);
    DedupKeepsElements(all);
    if MergedBlockers(t) != [] {
      assert MergedBlockers(t)[0] in MergedBlockers(t);
    }
  }

  // ----------------------------------------------------------------- prechecks

  /** What keeps a request from being a mutation in apply mode; each precheck has its own reason for it. */
  datatype PostureFault = WrongVersion | WrongMode | WrongEffect | WrongDescriptorMode

  datatype PrecheckError =
    | NotMutating(fault: PostureFault)
    | Posed(reason: string)            // a check before the blockers are looked at
    | NoApprovalBlocker                // typed_execution_mutation_approval_blocker_required
    | NotOneApprovalBlocker            // typed_execution_governed_v02_single_approval_blocker_required
    | NoBackendBlocker                 // typed_execution_governed_v02_unsupported_backend_blocker_required
    | NotTwoDiscounted                 // invalid_discounted_typed_execution_v02_blockers
    | Residual(blockers: seq<Blocker>) // ..._precheck_blocked

  function Ask(condition: bool, reason: string): Check<PrecheckError> {
    Need(condition, Posed(reason))
  }

  function MutationPosture(t: TypedRequest): Result<(), PrecheckError> {
    if t.schemaVersion != "v0.1" then Err(NotMutating(WrongVersion))
    else
      :- Need(t.operationMode == "apply", NotMutating(WrongMode));
      :- Need(!t.readOnly && t.sideEffectClass == "mutation", NotMutating(WrongEffect));
      :- Need(t.descriptor.mode == "apply", NotMutating(WrongDescriptorMode));
      Ok(())
  }

  /** `_validate_typed_mutation_precheck`: the discounted blockers. */
  function Precheck(t: TypedRequest): Result<seq<Blocker>, PrecheckError> {
    var _ :- MutationPosture(t);
    var blockers := MergedBlockers(t);
    var discounted := Keep(IsApproval, blockers);
    :- Need(discounted != [], NoApprovalBlocker);
    var residual := Keep(b => !IsApproval(b), blockers);
    :- Need(residual == [], Residual(residual));
    Ok(discounted)
  }

  /** The v0.1 precheck succeeds exactly when every control but the approval one passes; its missing-blocker error
      cannot be reached. */
  lemma PrecheckExactly(t: TypedRequest)
    requires MutationPosture(t).Ok?
    ensures Precheck(t).Ok? <==> BackendSupported(t) && !IsRawShell(t.backendClass) && PlainControlsPass(t)
    ensures Precheck(t).Ok? ==> Precheck(t).value == [ApprovalBlocker(t)]
    ensures Precheck(t).Err? ==> Precheck(t).error.Residual?
  {
    hide MergedBlockers, PlainControlsPass, BackendSupported, ApprovalBlocker, IsRawShell, MutationPosture, Keep;
    ApplyHasPosture(t);
    OneApprovalBlocker(t);
    BlockersExactly(t);
    var residual := Keep(b => !IsApproval(b), MergedBlockers(t));
    if residual != [] {
      assert residual[0] in residual;
    }
  }

  predicate SortedSet(texts: seq<string>) {
    forall i, j :: 0 <= i < j < |texts| ==> Before(U(texts[i]), U(texts[j]))
  }

  predicate IsDiscountable(b: Blocker) {
    IsApproval(b) || b == UnsupportedBackendClass
  }

  /** The checks of the v0.2 precheck on a plugin descriptor. */
  function PluginPosture(t: TypedRequest): Result<(), PrecheckError> {
    var d := t.descriptor;
    :- Ask(t.backendClass == d.backendClass, "typed_execution_governed_v02_backend_binding_mismatch");
    :- Ask(!IsBuiltin(d.backendClass), "typed_execution_governed_v02_builtin_backend_forbidden");
    :- Ask(!IsRawShell(d.backendClass), "typed_execution_governed_v02_raw_shell_backend_forbidden");
    :- Ask(d.certificationTier == "plugin", "typed_execution_governed_v02_plugin_tier_required");
    :- Ask(IsPluginIdentity(d.identityClass), "typed_execution_governed_v02_plugin_identity_required");
    :- Ask(d.secretRefs == [], "typed_execution_governed_v02_secret_requirements_forbidden");
    :- Ask(d.declared != [], "typed_execution_governed_v02_plugin_capabilities_required");
    :- Ask(SortedSet(d.declared), "invalid_typed_execution_governed_v02_plugin_capabilities");
    :- Ask(IsContained(d.egressClass), "typed_execution_governed_v02_plugin_egress_forbidden");
    :- Ask(Strip(d.boundaryEgress) == d.egressClass, "typed_execution_governed_v02_boundary_egress_mismatch");
    :- Ask(t.allowedEgress == [d.egressClass], "typed_execution_governed_v02_declared_egress_mismatch");
    Ok(())
  }

  /** The checks of the v0.2 precheck against the governance request. */
  function PluginRequirements(t: TypedRequest, r: Request): Result<(), PrecheckError> {
    var d := t.descriptor;
    :- Ask(r.requirements.requiredBackendClass == d.backendClass,
           "typed_execution_governed_v02_requirements_backend_mismatch");
    :- Ask(t.required == r.requirements.requiredCapabilities,
           "typed_execution_governed_v02_required_capabilities_mismatch");
    :- Ask(d.declared == t.required, "typed_execution_governed_v02_declared_capabilities_mismatch");
    :- Ask(d.backendClass in r.inventory.backendClasses, "typed_execution_governed_v02_inventory_backend_mismatch");
    :- Ask(forall c :: c in t.required ==> c in r.inventory.capabilities,
           "typed_execution_governed_v02_inventory_capabilities_mismatch");
    Ok(())
  }

  /** `_validated_typed_plugin_mutation_precheck`: the discounted blockers. */
  function PluginPrecheck(t: TypedRequest, r: Request): Result<seq<Blocker>, PrecheckError> {
    var _ :- MutationPosture(t);
    var _ :- PluginPosture(t);
    var _ :- PluginRequirements(t, r);
    var blockers := MergedBlockers(t);
    :- Need(|Keep(IsApproval, blockers)| == 1, NotOneApprovalBlocker);
    :- Need(UnsupportedBackendClass in blockers, NoBackendBlocker);
    var discounted := Keep(IsDiscountable, blockers);
    :- Need(|discounted| == 2, NotTwoDiscounted);
    var residual := Keep(b => !IsDiscountable(b), blockers);
    :- Need(residual == [], Residual(residual));
    Ok(discounted)
  }

  /** Once its posture checks pass, the v0.2 precheck succeeds exactly when the three digests are present, a receipt is
      required and the destination binding holds: network, secrets and coverage then pass by themselves, and the
      approval-count, backend and discount-count errors cannot be reached. */
  lemma PluginPrecheckExactly(t: TypedRequest, r: Request)
    requires MutationPosture(t).Ok? && PluginPosture(t).Ok? && PluginRequirements(t, r).Ok?
    ensures PluginPrecheck(t, r).Ok? <==>
              && t.specDigest != "" && t.descriptorDigest != "" && t.payloadDigest != ""
              && NeedsReceipt(t) && DestinationPasses(t)
    ensures PluginPrecheck(t, r).Ok? ==>
              PluginPrecheck(t, r).value in {[ApprovalBlocker(t), UnsupportedBackendClass],
                                             [UnsupportedBackendClass, ApprovalBlocker(t)]}
    ensures PluginPrecheck(t, r).Err? ==> PluginPrecheck(t, r).error.Residual?
  {
    hide MergedBlockers, PlainControlsPass, ApprovalBlocker, DestinationPasses, NeedsReceipt, PluginPosture,
         PluginRequirements, MutationPosture;
    ApplyHasPosture(t);
    PluginPassesPlainControls(t, r);
    OneApprovalBlocker(t);
    PluginBackend(t);
    PluginBlockers(t);
    var residual := Keep(b => !IsDiscountable(b), MergedBlockers(t));
    if residual != [] {
      assert residual[0] in residual;
    }
  }

  /** For a plugin mutation the discountable blockers are exactly two, and nothing else remains exactly when the plain
      controls pass. */
  lemma PluginBlockers(t: TypedRequest)
    requires t.sideEffectClass == "mutation" && !BackendSupported(t) && !IsRawShell(t.backendClass)
    ensures UnsupportedBackendClass in MergedBlockers(t)
    ensures Keep(IsDiscountable, MergedBlockers(t)) == [ApprovalBlocker(t), UnsupportedBackendClass]
            || Keep(IsDiscountable, MergedBlockers(t)) == [UnsupportedBackendClass, ApprovalBlocker(t)]
    ensures PlainControlsPass(t) <==> forall b :: b in MergedBlockers(t) ==> IsDiscountable(b)
  {
    hide MergedBlockers, PlainControlsPass, ApprovalBlocker, BackendSupported, IsRawShell;
    BlockersExactly(t);
    ApprovalBlockerIsApproval(t);
    MergedAreDistinct(t);
    KeepTwo(IsDiscountable, MergedBlockers(t), ApprovalBlocker(t), UnsupportedBackendClass);
  }

  lemma MergedAreDistinct(t: TypedRequest)
    ensures Distinct(MergedBlockers(t))
  {
    hide GovernanceBlockers, CompatibilityBlockers, Dedup;
    DedupKeepsElements(GovernanceBlockers(t) + CompatibilityBlockers(t));
  }

  lemma PluginBackend(t: TypedRequest)
    requires PluginPosture(t).Ok?
    ensures !BackendSupported(t) && !IsRawShell(t.backendClass)
  {
    hide IsBuiltin, IsRawShell, IsPluginIdentity, IsContained, SortedSet, Strip;
  }

  lemma PluginPassesPlainControls(t: TypedRequest, r: Request)
    requires MutationPosture(t).Ok? && PluginPosture(t).Ok? && PluginRequirements(t, r).Ok?
    ensures PlainControlsPass(t) <==>
              && t.specDigest != "" && t.descriptorDigest != "" && t.payloadDigest != ""
              && NeedsReceipt(t) && DestinationPasses(t)
  {
    hide DestinationPasses, NeedsReceipt, NetworkPasses, SecretsPresent, Missing, PluginPosture, PluginRequirements,
         Posture;
    PluginNetwork(t);
    PluginCoverage(t, r);
    ApplyHasPosture(t);
  }

  lemma ApplyHasPosture(t: TypedRequest)
    requires MutationPosture(t).Ok?
    ensures Posture(t) && t.sideEffectClass == "mutation"
  {
  }

  lemma PluginCoverage(t: TypedRequest, r: Request)
    requires PluginPosture(t).Ok? && PluginRequirements(t, r).Ok?
    ensures SecretsPresent(t) && t.required != [] && Missing(t) == []
  {
    hide IsBuiltin, IsRawShell, IsPluginIdentity, IsContained, SortedSet, Strip;
    assert forall c :: c in t.required ==> Provided(t.descriptor, c);
  }

  lemma PluginNetwork(t: TypedRequest)
    requires PluginPosture(t).Ok?
    ensures NetworkPasses(t)
  {
    hide PluginPosture, IsContained, Strip;
    var egress := t.descriptor.egressClass;
    PluginEgress(t);
    ContainedIsDeclared(egress);
    assert Egress(t.descriptor) == egress;
  }

  lemma PluginEgress(t: TypedRequest)
    requires PluginPosture(t).Ok?
    ensures var d := t.descriptor;
            IsContained(d.egressClass) && Strip(d.boundaryEgress) == d.egressClass && t.allowedEgress == [d.egressClass]
  {
    hide IsBuiltin, IsRawShell, IsPluginIdentity, IsContained, SortedSet, Strip;
  }

  lemma ContainedIsDeclared(egress: string)
    requires IsContained(egress)
    ensures egress != Strip("") && egress !in {"outbound_http", "outbound_ssh", "plugin_undeclared"}
  {
  }
}
