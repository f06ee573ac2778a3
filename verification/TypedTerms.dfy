/** Typed execution in plain terms: on the members of a typed request, which blockers it meets, when it is admitted, and
    when the two mutation prechecks pass. */
module TypedTerms {
  import opened Prelude
  import opened PyStrings
  import opened PyValues
  import opened CanonicalRecord
  import opened CanonicalTextForm
  import opened GovernanceRecords
  import opened GovernanceRequests
  import opened TypedExecution

  // ------------------------------------------------------- single conditions

  ghost predicate RawShell(name: string) {
    name == "local_shell" || name == "raw_shell" || name == "shell" || name == "ssh" || name == "subprocess"
  }

  ghost predicate BuiltIn(name: string) {
    || name == "http_api" || name == "local_shell_readonly" || name == "mock" || name == "ssh_readonly"
    || name == "static_fixture"
  }

  /** A backend that ships with the engine and that the request's own list, if there is one, allows. */
  ghost predicate BackendInBounds(t: TypedRequest) {
    BuiltIn(t.backendClass) && (t.allowedBackends != [] ==> t.backendClass in t.allowedBackends)
  }

  /** A mode that only looks has no side effects. */
  ghost predicate ReadOnlyKept(t: TypedRequest) {
    t.operationMode == "dry_run" || t.operationMode == "observe" || t.operationMode == "emergency_readonly"
    || t.operationMode == "read_only"
    ==> t.sideEffectClass == "read_only" && t.readOnly
  }

  /** The egress the capability's boundary names, or else the one of its class. */
  ghost function NamedEgress(d: Descriptor): string {
    Strip(if d.boundaryEgress != "" then d.boundaryEgress else d.egressClass)
  }

  ghost predicate Outbound(egress: string) {
    egress == "outbound_http" || egress == "outbound_ssh" || egress == "plugin_undeclared"
  }

  /** Outbound traffic needs a network policy that lists this very egress; any other has to stay inside, and on the
      request's own list if there is one. */
  ghost predicate NetworkInBounds(t: TypedRequest) {
    var egress := NamedEgress(t.descriptor);
    if Outbound(egress) then exists policy :: t.networkPolicy == Some(policy) && egress in policy.egress
    else (egress == "no_network" || egress == "local_subprocess") && (t.allowedEgress != [] ==> egress in t.allowedEgress)
  }

  /** The destination is the one the capability declares, and the policy's scheme, address-class and origin lists admit
      it; a list that is empty admits everything. */
  ghost predicate Reachable(d: Destination, declared: Option<Destination>, policy: NetworkPolicy) {
    && declared == Some(d)
    && (policy.schemes != [] ==> Strip(d.scheme) in policy.schemes)
    && (policy.addressClasses != [] ==> Strip(d.addressClass) in policy.addressClasses)
    && (Strip(policy.originDigest) != "" ==> Strip(d.originDigest) == Strip(policy.originDigest))
  }

  ghost predicate DestinationInBounds(t: TypedRequest) {
    && (t.requireDestination ==> t.destination.Some?)
    && (t.destination.Some? ==>
          t.networkPolicy.Some?
          && Reachable(t.destination.value, t.descriptor.boundaryDestination, t.networkPolicy.value))
  }

  /** A capability is covered if it is declared, is the backend, is the backend's connector, or has a declared alias. */
  ghost predicate Covered(d: Descriptor, c: string) {
    || c in d.declared || c == d.backendClass || c == "connector." + d.backendClass
    || (c == "http_api"
        && ("connector.http.rest.read" in d.declared || "connector.http.rest.mutate" in d.declared))
    || (c == "local_shell_readonly" && "connector.shell.readonly" in d.declared)
    || (c == "ssh_readonly" && "connector.ssh.readonly" in d.declared)
    || (c == "static_fixture" && "connector.fixture.static" in d.declared)
    || (c == "mock" && "connector.mock.invoke" in d.declared)
  }

  ghost predicate Lacks(t: TypedRequest) {
    exists i :: 0 <= i < |t.required| && !Covered(t.descriptor, t.required[i])
  }

  ghost predicate SecretMissing(d: Descriptor) {
    exists i :: 0 <= i < |d.secretRefs| && d.secretRefs[i].required && !d.secretRefs[i].present
  }

  // --------------------------------------------------------------- blockers

  /** When a request meets each blocker. */
  ghost predicate Meets(t: TypedRequest, b: Blocker) {
    match b
    case MissingDigestBinding => t.specDigest == "" || t.descriptorDigest == "" || t.payloadDigest == ""
    case SpecDigestPresent => t.specDigest == ""
    case DescriptorDigestPresent => t.descriptorDigest == ""
    case PayloadDigestPresent => t.payloadDigest == ""
    case ReadOnlySideEffectRequired => !ReadOnlyKept(t)
    case ReadOnlyPosture => !ReadOnlyKept(t)
    case UnsupportedBackendClass => !BackendInBounds(t) && !RawShell(t.backendClass)
    case RawShellBackendBlocked => RawShell(t.backendClass)
    case BackendClassSupported => RawShell(t.backendClass)
    case ReceiptRequired => t.receiptRequired == Some(false)
    case NetworkPolicyBindingMissing =>
      t.networkPolicy.None? && (Outbound(NamedEgress(t.descriptor)) || t.destination.Some?)
    case NetworkBoundaryMismatch =>
      !NetworkInBounds(t) && (Outbound(NamedEgress(t.descriptor)) ==> t.networkPolicy.Some?)
    case DestinationBindingMatch => t.requireDestination && t.destination.None?
    case DestinationBindingMismatch =>
      && t.destination.Some? && t.networkPolicy.Some?
      && !Reachable(t.destination.value, t.descriptor.boundaryDestination, t.networkPolicy.value)
    case SecretRefRequirementsMet => SecretMissing(t.descriptor)
    case ApprovalEvidenceMissing => t.sideEffectClass == "mutation" && Strip(t.approvalRef) == ""
    case ApprovalAttestationMissing => t.sideEffectClass == "mutation" && Strip(t.approvalRef) != ""
    case CapabilityRequirementsMissing => t.required == []
    case CapabilityCoverage => Lacks(t)
    case MissingCapabilities => Lacks(t)
    case NoRawShell => false
    case OutputDigestRequired => false
    case NetworkBoundaryMatch => false
    case MutationRequiresApproval => false
  }

  ghost predicate Fails(c: Control, b: Blocker) {
    !c.passed && c.blocker == b
  }

  lemma FailingJoin(a: seq<Control>, b: seq<Control>, x: Blocker)
    ensures x in Failing(a + b) <==> x in Failing(a) || x in Failing(b)
  {
    var c := a + b;
    if x in Failing(c) {
      var i :| 0 <= i < |c| && !c[i].passed && c[i].blocker == x;
      assert i < |a| ==> a[i] == c[i];
      assert i >= |a| ==> b[i - |a|] == c[i];
    }
    if x in Failing(a) {
      var i :| 0 <= i < |a| && !a[i].passed && a[i].blocker == x;
      assert c[i] == a[i];
    }
    if x in Failing(b) {
      var i :| 0 <= i < |b| && !b[i].passed && b[i].blocker == x;
      assert c[|a| + i] == b[i];
    }
  }

  lemma FailingByGroup(t: TypedRequest, x: Blocker)
    ensures x in Failing(PolicyControlsOf(t)) <==>
              x in Failing(BackendControls(t)) || x in Failing(BindingControls(t))
              || x in Failing(BoundaryControls(t)) || x in Failing(ApprovalControls(t))
  {
    hide BackendControls, BindingControls, BoundaryControls, ApprovalControls, Failing;
    var a, b, c, d := BackendControls(t), BindingControls(t), BoundaryControls(t), ApprovalControls(t);
    FailingJoin(a + b + c, d, x);
    FailingJoin(a + b, c, x);
    FailingJoin(a, b, x);
  }

  lemma FailingFirst(c: Control, rest: seq<Control>, x: Blocker)
    ensures x in Failing([c] + rest) <==> Fails(c, x) || x in Failing(rest)
  {
    FailingJoin([c], rest, x);
    assert [c][0] == c;
  }

  lemma FailingOf(c: seq<Control>, x: Blocker)
    requires 2 <= |c| <= 5
    ensures x in Failing(c) <==>
              || Fails(c[0], x) || Fails(c[1], x) || (|c| > 2 && Fails(c[2], x))
              || (|c| > 3 && Fails(c[3], x)) || (|c| > 4 && Fails(c[4], x))
  {
    hide Fails;
    FailingFirstOf(c, x);
    FailingFirstOf(c[1..], x);
    FailingFirstOf(c[2..], x);
    FailingFirstOf(c[if |c| > 3 then 3 else 2..], x);
    FailingFirstOf(c[if |c| > 4 then 4 else 2..], x);
  }

  lemma FailingFirstOf(c: seq<Control>, x: Blocker)
    ensures x in Failing(c) <==> c != [] && (Fails(c[0], x) || x in Failing(c[1..]))
  {
    hide Fails;
    if c != [] {
      FailingFirst(c[0], c[1..], x);
      assert c == [c[0]] + c[1..];
    }
  }

  lemma ConditionsAre(t: TypedRequest)
    ensures Posture(t) <==> ReadOnlyKept(t)
    ensures BackendSupported(t) <==> BackendInBounds(t)
    ensures IsRawShell(t.backendClass) <==> RawShell(t.backendClass)
    ensures BackendInBounds(t) ==> !RawShell(t.backendClass)
    ensures NeedsReceipt(t) <==> t.receiptRequired != Some(false)
  {
  }

  lemma NetworkIs(t: TypedRequest)
    ensures NetworkPasses(t) <==> NetworkInBounds(t)
    ensures IndependentPolicyRequired(t) <==> Outbound(NamedEgress(t.descriptor))
  {
    hide Strip;
  }

  lemma DestinationIs(t: TypedRequest)
    ensures DestinationPasses(t) <==> DestinationInBounds(t)
  {
    hide Strip;
  }

  lemma CoveredIs(d: Descriptor, c: string)
    ensures Provided(d, c) <==> Covered(d, c)
  {
    var aliases := Aliases(c);
    assert forall a :: a in aliases <==>
      || (c == "http_api" && (a == "connector.http.rest.read" || a == "connector.http.rest.mutate"))
      || (c == "local_shell_readonly" && a == "connector.shell.readonly")
      || (c == "ssh_readonly" && a == "connector.ssh.readonly")
      || (c == "static_fixture" && a == "connector.fixture.static")
      || (c == "mock" && a == "connector.mock.invoke");
  }

  lemma MissingIs(t: TypedRequest)
    ensures Missing(t) != [] <==> Lacks(t)
    ensures SecretsPresent(t) <==> !SecretMissing(t.descriptor)
  {
    hide Covered, Provided;
    forall c
      ensures Provided(t.descriptor, c) <==> Covered(t.descriptor, c)
    {
      CoveredIs(t.descriptor, c);
    }
    if exists c :: c in t.required && !Provided(t.descriptor, c) {
      var c :| c in t.required && !Provided(t.descriptor, c);
      assert c in Missing(t);
      var i :| 0 <= i < |t.required| && t.required[i] == c;
    } else {
      assert forall i :: 0 <= i < |t.required| ==> t.required[i] in t.required;
    }
    SecretsAre(t.descriptor.secretRefs);
  }

  lemma SecretsAre(s: seq<SecretRef>)
    ensures (forall x :: x in s ==> x.required ==> x.present) <==>
              !exists i :: 0 <= i < |s| && s[i].required && !s[i].present
  {
    if !(forall x :: x in s ==> x.required ==> x.present) {
      var x :| x in s && x.required && !x.present;
      var i :| 0 <= i < |s| && s[i] == x;
    }
  }

  lemma BackendFails(t: TypedRequest, b: Blocker)
    ensures b in Failing(BackendControls(t)) <==>
              b in {UnsupportedBackendClass, RawShellBackendBlocked, BackendClassSupported, ReadOnlyPosture} && Meets(t, b)
  {
    hide Failing, Posture, BackendSupported, IsRawShell, ReadOnlyKept, BackendInBounds, RawShell;
    FailingOf(BackendControls(t), b);
    ConditionsAre(t);
  }

  lemma BindingFails(t: TypedRequest, b: Blocker)
    ensures b in Failing(BindingControls(t)) <==>
              b in {DescriptorDigestPresent, SpecDigestPresent, PayloadDigestPresent, ReceiptRequired} && Meets(t, b)
  {
    hide Failing, NeedsReceipt;
    FailingOf(BindingControls(t), b);
    ConditionsAre(t);
  }

  lemma BoundaryFails(t: TypedRequest, b: Blocker)
    ensures b in Failing(BoundaryControls(t)) <==>
              b in {NetworkPolicyBindingMissing, NetworkBoundaryMismatch, DestinationBindingMatch,
                    DestinationBindingMismatch, SecretRefRequirementsMet} && Meets(t, b)
  {
    hide Failing, NetworkPasses, IndependentPolicyRequired, DestinationPasses, SecretsPresent, NamedEgress,
         Outbound, SecretMissing, Reachable;
    FailingOf(BoundaryControls(t), b);
    NetworkIs(t);
    DestinationIs(t);
    MissingIs(t);
  }

  lemma ApprovalFails(t: TypedRequest, b: Blocker)
    ensures b in Failing(ApprovalControls(t)) <==>
              b in {ApprovalEvidenceMissing, ApprovalAttestationMissing, CapabilityRequirementsMissing,
                    CapabilityCoverage} && Meets(t, b)
  {
    hide Failing, Strip, Lacks, Missing;
    FailingOf(ApprovalControls(t), b);
    MissingIs(t);
    NothingLacks(t);
  }

  lemma NothingLacks(t: TypedRequest)
    ensures t.required == [] ==> !Lacks(t)
  {
  }

  lemma GovernanceFails(t: TypedRequest, b: Blocker)
    ensures b in GovernanceBlockers(t) <==>
              b in {MissingDigestBinding, ReadOnlySideEffectRequired, ReceiptRequired, ApprovalEvidenceMissing,
                    ApprovalAttestationMissing} && Meets(t, b)
  {
    hide Posture, ReadOnlyKept, Strip, NeedsReceipt;
    ConditionsAre(t);
  }

  /** Each blocker is reported exactly when the members of the request call for it. */
  lemma ReportedExactly(t: TypedRequest, b: Blocker)
    ensures b in MergedBlockers(t) <==> Meets(t, b)
    ensures AdmitTyped(t).blockers == MergedBlockers(t)
  {
    hide Failing, PolicyControlsOf, GovernanceBlockers, Dedup, Missing, Lacks, Strip, ReadOnlyKept, BackendInBounds,
         NetworkInBounds, Reachable, SecretMissing, RawShell, Outbound, NamedEgress;
    DedupKeepsElements(GovernanceBlockers(t) + CompatibilityBlockers(t));
    GovernanceFails(t, b);
    FailingByGroup(t, b);
    BackendFails(t, b);
    BindingFails(t, b);
    BoundaryFails(t, b);
    ApprovalFails(t, b);
    MissingIs(t);
  }

  /** All that has to hold besides the backend class and the side-effect class. */
  ghost predicate InBounds(t: TypedRequest) {
    && t.specDigest != "" && t.descriptorDigest != "" && t.payloadDigest != "" && t.receiptRequired != Some(false)
    && ReadOnlyKept(t) && NetworkInBounds(t) && DestinationInBounds(t) && !SecretMissing(t.descriptor)
    && t.required != [] && !Lacks(t)
  }

  lemma PlainIsInBounds(t: TypedRequest)
    ensures PlainControlsPass(t) <==> InBounds(t)
  {
    hide Posture, NetworkPasses, DestinationPasses, SecretsPresent, Missing, ReadOnlyKept, NetworkInBounds,
         DestinationInBounds, SecretMissing, Lacks, RawShell, BackendInBounds, BackendSupported, IsRawShell;
    ConditionsAre(t);
    NetworkIs(t);
    DestinationIs(t);
    MissingIs(t);
  }

  /** A typed request is admitted exactly when it is no mutation, runs on a backend within bounds, and all else is. */
  lemma AdmittedExactly(t: TypedRequest)
    ensures AdmitTyped(t).allowed <==> t.sideEffectClass != "mutation" && BackendInBounds(t) && InBounds(t)
  {
    hide AdmitTyped, PlainControlsPass, InBounds, BackendSupported, BackendInBounds, IsRawShell, RawShell, Posture,
         ReadOnlyKept;
    AdmitTypedExactly(t);
    PlainIsInBounds(t);
    ConditionsAre(t);
  }

  /** Which blocker gives the reason: a missing digest before a broken posture, a waived receipt and a missing
      approval. */
  lemma ReasonExactly(t: TypedRequest)
    ensures Meets(t, MissingDigestBinding) ==> AdmitTyped(t).reason == Some(MissingDigestBinding)
    ensures !Meets(t, MissingDigestBinding) && !ReadOnlyKept(t) ==>
              AdmitTyped(t).reason == Some(ReadOnlySideEffectRequired)
    ensures !Meets(t, MissingDigestBinding) && ReadOnlyKept(t) && t.receiptRequired == Some(false) ==>
              AdmitTyped(t).reason == Some(ReceiptRequired)
    ensures !Meets(t, MissingDigestBinding) && ReadOnlyKept(t) && t.receiptRequired != Some(false)
            && t.sideEffectClass == "mutation" ==>
              AdmitTyped(t).reason
              == Some(if Strip(t.approvalRef) == "" then ApprovalEvidenceMissing else ApprovalAttestationMissing)
  {
    hide Posture, ReadOnlyKept, Strip, Dedup, CompatibilityBlockers;
    ConditionsAre(t);
    DedupKeepsElements(GovernanceBlockers(t) + CompatibilityBlockers(t));
    var g := GovernanceBlockers(t);
    if g != [] {
      assert (g + CompatibilityBlockers(t))[0] == g[0];
      assert g[0] in g + CompatibilityBlockers(t);
    }
  }

  // ------------------------------------------------------------- prechecks

  /** A mutation asked for in the one mode that may mutate. */
  ghost predicate AppliesMutation(t: TypedRequest) {
    && t.schemaVersion == "v0.1" && t.operationMode == "apply" && t.descriptor.mode == "apply"
    && t.sideEffectClass == "mutation" && !t.readOnly
  }

  lemma PostureExactly(t: TypedRequest)
    ensures MutationPosture(t).Ok? <==> AppliesMutation(t)
  {
  }

  /** The v0.1 precheck passes exactly for a mutation on a backend within bounds that lacks nothing but its approval. */
  lemma PrecheckedExactly(t: TypedRequest)
    ensures Precheck(t).Ok? <==> AppliesMutation(t) && BackendInBounds(t) && InBounds(t)
    ensures Precheck(t).Ok? ==>
              Precheck(t).value
              == [if Strip(t.approvalRef) == "" then ApprovalEvidenceMissing else ApprovalAttestationMissing]
  {
    hide MergedBlockers, PlainControlsPass, InBounds, BackendSupported, BackendInBounds, IsRawShell, RawShell, Posture,
         ReadOnlyKept, Strip, AppliesMutation, MutationPosture;
    PostureExactly(t);
    PlainIsInBounds(t);
    ConditionsAre(t);
    if MutationPosture(t).Ok? {
      PrecheckExactly(t);
    }
  }

  /** Names in ascending order, so without repetition. */
  ghost predicate Ascending(names: seq<string>) {
    forall i, j :: 0 <= i < j < |names| ==> Precedes(U(names[i]), U(names[j]))
  }

  /** A plugin stays inside, needs no secrets and takes no built-in or shell backend. */
  ghost predicate PluginStaysInside(t: TypedRequest) {
    var d := t.descriptor;
    && t.backendClass == d.backendClass && !BuiltIn(d.backendClass) && !RawShell(d.backendClass)
    && d.certificationTier == "plugin" && (d.identityClass == "none" || d.identityClass == "plugin_declared")
    && d.secretRefs == [] && d.declared != [] && Ascending(d.declared)
    && (d.egressClass == "no_network" || d.egressClass == "local_subprocess")
    && Strip(d.boundaryEgress) == d.egressClass && t.allowedEgress == [d.egressClass]
  }

  /** It requires and declares one list of capabilities, which the request's requirements repeat and the runtime's
      inventory has. */
  ghost predicate PluginIsKnown(t: TypedRequest, r: Request) {
    var d := t.descriptor;
    && r.requirements.requiredBackendClass == d.backendClass && d.backendClass in r.inventory.backendClasses
    && t.required == r.requirements.requiredCapabilities && d.declared == t.required
    && (forall c :: c in t.required ==> c in r.inventory.capabilities)
  }

  lemma AscendingIs(names: seq<string>)
    ensures SortedSet(names) <==> Ascending(names)
  {
    forall i, j | 0 <= i < j < |names|
      ensures Before(U(names[i]), U(names[j])) <==> Precedes(U(names[i]), U(names[j]))
    {
      BeforeIsPrecedes(U(names[i]), U(names[j]));
    }
  }

  lemma PluginPostureExactly(t: TypedRequest)
    ensures PluginPosture(t).Ok? <==> PluginStaysInside(t)
  {
    hide PluginPosture, PluginStaysInside;
    if PluginPosture(t).Ok? {
      PostureStaysInside(t);
    }
    if PluginStaysInside(t) {
      InsideHasPosture(t);
    }
  }

  lemma PostureStaysInside(t: TypedRequest)
    requires PluginPosture(t).Ok?
    ensures PluginStaysInside(t)
  {
    hide SortedSet, Ascending, Strip, IsBuiltin, BuiltIn, IsRawShell, RawShell;
    AscendingIs(t.descriptor.declared);
    BackendNames(t.descriptor.backendClass);
  }

  lemma InsideHasPosture(t: TypedRequest)
    requires PluginStaysInside(t)
    ensures PluginPosture(t).Ok?
  {
    hide SortedSet, Ascending, Strip, IsBuiltin, BuiltIn, IsRawShell, RawShell;
    AscendingIs(t.descriptor.declared);
    BackendNames(t.descriptor.backendClass);
  }

  lemma BackendNames(name: string)
    ensures IsBuiltin(name) <==> BuiltIn(name)
    ensures IsRawShell(name) <==> RawShell(name)
  {
  }

  lemma PluginRequirementsExactly(t: TypedRequest, r: Request)
    ensures PluginRequirements(t, r).Ok? <==> PluginIsKnown(t, r)
  {
  }

  /** The v0.2 precheck passes exactly for such a plugin mutation with its three digests, a receipt and a destination
      within bounds. */
  lemma PluginPrecheckedExactly(t: TypedRequest, r: Request)
    ensures PluginPrecheck(t, r).Ok? <==>
              && AppliesMutation(t) && PluginStaysInside(t) && PluginIsKnown(t, r)
              && t.specDigest != "" && t.descriptorDigest != "" && t.payloadDigest != ""
              && t.receiptRequired != Some(false) && DestinationInBounds(t)
  {
    hide MergedBlockers, PluginStaysInside, PluginIsKnown, PluginPosture, PluginRequirements, DestinationPasses,
         DestinationInBounds, AppliesMutation, MutationPosture;
    PostureExactly(t);
    PluginPostureExactly(t);
    PluginRequirementsExactly(t, r);
    DestinationIs(t);
    if MutationPosture(t).Ok? && PluginPosture(t).Ok? && PluginRequirements(t, r).Ok? {
      PluginPrecheckExactly(t, r);
    }
  }
}
