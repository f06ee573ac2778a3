/** Exactly when a receipt conforms, where each binding is reported, and which decisions can be receipted at all. */
module ReceiptGuarantees {
  import opened Prelude
  import opened PyStrings
  import opened PyValues
  import opened CanonicalRecord
  import opened RecordText
  import opened GovernanceRecords
  import opened GovernanceRequests
  import opened ApprovalBinding
  import opened GovernanceDecisions
  import opened ReceiptConformance

  ghost predicate Admissible(env: Env, d: Decision, r: Receipt, permit: string) {
    CheckDecision(env, d).Ok? && ValidateReceipt(env, r).Ok? && IsSha256(permit)
  }

  /** The receipt names the decision, the permit and the fourteen bindings of the authorization. */
  ghost predicate AllBound(d: Decision, g: Authorization, r: Receipt, permit: string) {
    && r.decisionDigest == d.decisionDigest && r.permitDigest == permit
    && r.operationId == g.operationId && r.stepId == g.stepId && r.attemptId == g.attemptId
    && r.runtimeInstanceId == g.runtimeInstanceId && r.leaseId == g.leaseId && r.leaseEpoch == g.leaseEpoch
    && r.fencingTokenDigest == g.fencingTokenDigest && r.executionSpecDigest == g.executionSpecDigest
    && r.payloadDigest == g.payloadDigest && r.requestedScopeDigest == g.requestedScopeDigest
    && r.inventoryDigest == g.inventoryDigest && r.inventoryEpoch == g.inventoryEpoch
    && r.policyPackDigest == g.policyPackDigest && r.policyEpoch == g.policyEpoch
  }

  /** The identifiers the comparison can raise on are ASCII. */
  ghost predicate AsciiIds(g: Authorization, r: Receipt) {
    && IsAscii(r.operationId) && IsAscii(r.stepId) && IsAscii(r.attemptId) && IsAscii(r.runtimeInstanceId)
    && IsAscii(g.operationId) && IsAscii(g.stepId) && IsAscii(g.attemptId) && IsAscii(g.runtimeInstanceId)
    && IsAscii(g.leaseId)
  }

  // ----------------------------------------------------------- membership

  lemma {:induction false} PassedMembers(s: seq<Binding>, x: string)
    ensures x in PassedOf(s) <==> exists i :: 0 <= i < |s| && s[i].Agrees() && s[i].passed == x
  {
    if s != [] {
      var init := s[..|s| - 1];
      PassedMembers(init, x);
      if i :| 0 <= i < |s| && s[i].Agrees() && s[i].passed == x {
        assert i < |s| - 1 ==> init[i] == s[i];
      }
    }
  }

  lemma {:induction false} FailedMembers(s: seq<Binding>, x: string)
    ensures x in FailedOf(s) <==> exists i :: 0 <= i < |s| && !s[i].Agrees() && s[i].failure == x
  {
    if s != [] {
      var init := s[..|s| - 1];
      FailedMembers(init, x);
      if i :| 0 <= i < |s| && !s[i].Agrees() && s[i].failure == x {
        assert i < |s| - 1 ==> init[i] == s[i];
      }
    }
  }

  lemma {:induction false} NothingFailed(s: seq<Binding>)
    ensures FailedOf(s) == [] <==> forall i :: 0 <= i < |s| ==> s[i].Agrees()
  {
    if s != [] {
      var init := s[..|s| - 1];
      NothingFailed(init);
      assert s == init + [s[|s| - 1]];
    }
  }

  /** The position of a check name among the sixteen, or 16. */
  function PassedSlot(name: string): nat {
    match |name|
    case 22 => 0
    case 28 => if name[8] == 'r' then 1 else 9
    case 23 => if name[8] == 'o' then 2 else 16
    case 18 => 3
    case 21 => if name[8] == 'a' then 4 else 10
    case 30 => if name[8] == 'r' then 5 else 16
    case 19 => 6
    case 25 => if name[8] == 'l' then 7 else 14
    case 27 => if name[8] == 'f' then 8 else 16
    case 29 => if name[8] == 'r' then 11 else 13
    case 34 => 12
    case 26 => 15
    case _ => 16
  }

  function FailedSlot(name: string): nat {
    match |name|
    case 32 => if name[8] == 'd' then 0 else 13
    case 38 => if name[8] == 'r' then 1 else 9
    case 29 => if name[9] == 'p' then 2 else if name[9] == 'o' then 15 else 16
    case 24 => 3
    case 27 => 4
    case 36 => 5
    case 25 => 6
    case 28 => 7
    case 37 => 8
    case 31 => 10
    case 39 => if name[8] == 'r' then 11 else 16
    case 44 => 12
    case 35 => 14
    case _ => 16
  }

  lemma PassedSlots0()
    ensures PassedSlot("receipt_decision_bound") == 0
    ensures PassedSlot("receipt_runtime_permit_bound") == 1
    ensures PassedSlot("receipt_operation_bound") == 2
    ensures PassedSlot("receipt_step_bound") == 3
  {
  }

  lemma PassedSlots1()
    ensures PassedSlot("receipt_attempt_bound") == 4
    ensures PassedSlot("receipt_runtime_instance_bound") == 5
    ensures PassedSlot("receipt_lease_bound") == 6
    ensures PassedSlot("receipt_lease_epoch_bound") == 7
  {
  }

  lemma PassedSlots2()
    ensures PassedSlot("receipt_fencing_token_bound") == 8
    ensures PassedSlot("receipt_execution_spec_bound") == 9
    ensures PassedSlot("receipt_payload_bound") == 10
    ensures PassedSlot("receipt_requested_scope_bound") == 11
  {
  }

  lemma PassedSlots3()
    ensures PassedSlot("receipt_capability_inventory_bound") == 12
    ensures PassedSlot("receipt_inventory_epoch_bound") == 13
    ensures PassedSlot("receipt_policy_pack_bound") == 14
    ensures PassedSlot("receipt_policy_epoch_bound") == 15
  {
  }

  lemma FailedSlots0()
    ensures FailedSlot("receipt_decision_digest_mismatch") == 0
    ensures FailedSlot("receipt_runtime_permit_digest_mismatch") == 1
    ensures FailedSlot("receipt_operation_id_mismatch") == 2
    ensures FailedSlot("receipt_step_id_mismatch") == 3
  {
  }

  lemma FailedSlots1()
    ensures FailedSlot("receipt_attempt_id_mismatch") == 4
    ensures FailedSlot("receipt_runtime_instance_id_mismatch") == 5
    ensures FailedSlot("receipt_lease_id_mismatch") == 6
    ensures FailedSlot("receipt_lease_epoch_mismatch") == 7
  {
  }

  lemma FailedSlots2()
    ensures FailedSlot("receipt_fencing_token_digest_mismatch") == 8
    ensures FailedSlot("receipt_execution_spec_digest_mismatch") == 9
    ensures FailedSlot("receipt_payload_digest_mismatch") == 10
    ensures FailedSlot("receipt_requested_scope_digest_mismatch") == 11
  {
  }

  lemma FailedSlots3()
    ensures FailedSlot("receipt_capability_inventory_digest_mismatch") == 12
    ensures FailedSlot("receipt_inventory_epoch_mismatch") == 13
    ensures FailedSlot("receipt_policy_pack_digest_mismatch") == 14
    ensures FailedSlot("receipt_policy_epoch_mismatch") == 15
  {
  }

  /** The sixteen check names differ, and so do the sixteen failure names. */
  lemma NamesAreSlots(d: Decision, g: Authorization, r: Receipt, permit: string)
    ensures forall i :: 0 <= i < 16 ==> PassedSlot(Bindings(d, g, r, permit)[i].passed) == i
    ensures forall i :: 0 <= i < 16 ==> FailedSlot(Bindings(d, g, r, permit)[i].failure) == i
  {
    hide PassedSlot, FailedSlot;
    PassedSlots0();
    PassedSlots1();
    PassedSlots2();
    PassedSlots3();
    FailedSlots0();
    FailedSlots1();
    FailedSlots2();
    FailedSlots3();
  }

  lemma OtherNames(d: Decision, r: Receipt)
    ensures forall x :: x in ["receipt_digest_verified"] + OutputChecks(d, r) ==> PassedSlot(x) == 16
    ensures forall x :: x in OutputFailures(d, r) ==> FailedSlot(x) == 16
  {
  }

  /** Distinct names keep the bindings apart in both lists. */
  lemma NamesKeepApart(s: seq<Binding>, otherChecks: seq<string>, otherFailures: seq<string>, i: nat)
    requires |s| == 16 && i < 16
    requires forall j :: 0 <= j < 16 ==> PassedSlot(s[j].passed) == j && FailedSlot(s[j].failure) == j
    requires forall x :: x in otherChecks ==> PassedSlot(x) == 16
    requires forall x :: x in otherFailures ==> FailedSlot(x) == 16
    ensures s[i].passed in PassedOf(s) || s[i].passed in otherChecks <==> s[i].Agrees()
    ensures s[i].failure in FailedOf(s) || s[i].failure in otherFailures <==> !s[i].Agrees()
  {
    hide PassedSlot, FailedSlot, PassedOf, FailedOf;
    PassedMembers(s, s[i].passed);
    FailedMembers(s, s[i].failure);
  }

  /** For an allowed decision, every one of the sixteen bindings is reported in exactly one of the two lists: in
      `checks` under its own name when it agrees, in `failures` under its own name when it does not. */
  lemma EachBindingReportedOnce(env: Env, d: Decision, r: Receipt, permit: string, i: nat)
    requires ConformanceOf(env, d, r, permit).Ok? && d.Allowed() && i < 16
    ensures d.authorization.Some?
    ensures var b := Bindings(d, d.authorization.value, r, permit)[i];
            var c := ConformanceOf(env, d, r, permit).value;
            && (b.passed in c.checks <==> b.Agrees())
            && (b.failure in c.failures <==> !b.Agrees())
  {
    hide Bindings, PassedSlot, FailedSlot, PassedOf, FailedOf, OutputChecks, OutputFailures, ConformanceOf,
         CheckDecision, Dedup;
    ReportedLists(env, d, r, permit);
    var s := Bindings(d, d.authorization.value, r, permit);
    NamesAreSlots(d, d.authorization.value, r, permit);
    OtherNames(d, r);
    NamesKeepApart(s, ["receipt_digest_verified"] + OutputChecks(d, r), OutputFailures(d, r), i);
    InBoth(["receipt_digest_verified"], PassedOf(s), OutputChecks(d, r), s[i].passed);
  }

  lemma ReportedLists(env: Env, d: Decision, r: Receipt, permit: string)
    requires ConformanceOf(env, d, r, permit).Ok? && d.Allowed()
    ensures d.authorization.Some?
    ensures var c := ConformanceOf(env, d, r, permit).value;
            var s := Bindings(d, d.authorization.value, r, permit);
            && c.checks == ["receipt_digest_verified"] + PassedOf(s) + OutputChecks(d, r)
            && (forall x :: x in c.failures <==> x in FailedOf(s) || x in OutputFailures(d, r))
  {
    hide Bindings, PassedOf, FailedOf, OutputChecks, OutputFailures, ValidateReceipt, IsSha256, CheckDecision, Raises,
         Dedup, CheckAuthorization, DecisionBodyDigest;
    AllowedHasGrant(env, d);
    DedupKeepsElements(AllFailures(d, r, permit));
  }

  lemma InBoth(a: seq<string>, b: seq<string>, c: seq<string>, x: string)
    ensures x in a + b + c <==> x in b || x in a + c
  {
  }

  lemma AllowedHasGrant(env: Env, d: Decision)
    requires CheckDecision(env, d).Ok? && d.Allowed()
    ensures d.authorization.Some? && CheckAuthorization(env, d.authorization.value).Ok?
    ensures IsSha256(d.decisionDigest) && DecisionBodyDigest(env.hash, d).Ok?
  {
    hide IsSha256, Strip, CheckAuthorization, DecisionBodyDigest, Same;
  }

  // ------------------------------------------------------- exact conformance

  lemma AgreeingIsBound(d: Decision, g: Authorization, r: Receipt, permit: string)
    ensures (forall i :: 0 <= i < 16 ==> Bindings(d, g, r, permit)[i].Agrees()) <==> AllBound(d, g, r, permit)
  {
    var s := Bindings(d, g, r, permit);
    if forall i :: 0 <= i < 16 ==> s[i].Agrees() {
      assert s[0].Agrees() && s[1].Agrees() && s[2].Agrees() && s[3].Agrees() && s[4].Agrees() && s[5].Agrees();
      assert s[6].Agrees() && s[7].Agrees() && s[8].Agrees() && s[9].Agrees() && s[10].Agrees() && s[11].Agrees();
      assert s[12].Agrees() && s[13].Agrees() && s[14].Agrees() && s[15].Agrees();
    }
  }

  lemma RaisesExactly(d: Decision, g: Authorization, r: Receipt, permit: string)
    requires IsAscii(r.decisionDigest) && IsAscii(d.decisionDigest) && IsAscii(r.permitDigest) && IsAscii(permit)
    requires IsAscii(r.leaseId) && IsAscii(r.fencingTokenDigest) && IsAscii(g.fencingTokenDigest)
    requires IsAscii(r.executionSpecDigest) && IsAscii(g.executionSpecDigest)
    requires IsAscii(r.payloadDigest) && IsAscii(g.payloadDigest)
    requires IsAscii(r.requestedScopeDigest) && IsAscii(g.requestedScopeDigest)
    requires IsAscii(r.inventoryDigest) && IsAscii(g.inventoryDigest)
    requires IsAscii(r.policyPackDigest) && IsAscii(g.policyPackDigest)
    ensures Raises(Bindings(d, g, r, permit)) <==> !AsciiIds(g, r)
  {
    hide IsAscii;
    var s := Bindings(d, g, r, permit);
    if !Raises(s) {
      assert s[2].Comparable() && s[3].Comparable() && s[4].Comparable() && s[5].Comparable() && s[6].Comparable();
    }
  }

  lemma DigestsAreAscii(env: Env, d: Decision, r: Receipt, permit: string)
    requires Admissible(env, d, r, permit) && d.Allowed()
    ensures d.authorization.Some? && CheckAuthorization(env, d.authorization.value).Ok?
    ensures Raises(Bindings(d, d.authorization.value, r, permit)) <==> !AsciiIds(d.authorization.value, r)
  {
    hide IsSha256, IsAscii, Bindings, Raises, CheckDecision, CheckAuthorization, ValidateReceipt;
    AllowedHasGrant(env, d);
    var g := d.authorization.value;
    GrantDigests(env, g);
    ReceiptDigests(env, r);
    forall x | IsSha256(x) ensures IsAscii(x) {
      Sha256IsAscii(x);
    }
    RaisesExactly(d, g, r, permit);
  }

  lemma GrantDigests(env: Env, g: Authorization)
    requires CheckAuthorization(env, g).Ok?
    ensures IsSha256(g.fencingTokenDigest) && IsSha256(g.executionSpecDigest) && IsSha256(g.payloadDigest)
    ensures IsSha256(g.requestedScopeDigest) && IsSha256(g.inventoryDigest) && IsSha256(g.policyPackDigest)
  {
    hide IsSha256, Strip;
  }

  lemma GrantNames(env: Env, g: Authorization)
    requires CheckAuthorization(env, g).Ok?
    ensures Strip(g.operationId) != "" && Strip(g.stepId) != "" && Strip(g.attemptId) != ""
    ensures Strip(g.runtimeInstanceId) != "" && g.leaseEpoch >= 0 && g.inventoryEpoch >= 0 && g.policyEpoch >= 0
  {
    hide IsSha256, Strip;
  }

  lemma ReceiptDigests(env: Env, r: Receipt)
    requires ValidateReceipt(env, r).Ok?
    ensures IsSha256(r.decisionDigest) && IsSha256(r.permitDigest) && IsSha256(r.leaseId)
    ensures IsSha256(r.fencingTokenDigest) && IsSha256(r.executionSpecDigest) && IsSha256(r.payloadDigest)
    ensures IsSha256(r.requestedScopeDigest) && IsSha256(r.inventoryDigest) && IsSha256(r.policyPackDigest)
  {
    hide IsSha256, CheckNames, CheckFacts, ReceiptDigest, Same;
  }

  /** The comparison raises exactly when an identifier is not ASCII; otherwise a receipt conforms exactly when the
      decision is allowed, all sixteen bindings agree and the output obligations hold. */
  lemma ConformantExactly(env: Env, d: Decision, r: Receipt, permit: string)
    requires Admissible(env, d, r, permit)
    ensures var c := ConformanceOf(env, d, r, permit);
            && (c.Ok? <==> (d.Allowed() ==> d.authorization.Some? && AsciiIds(d.authorization.value, r)))
            && (c.Err? ==> c.error == NonAsciiComparison)
            && (c.Ok? ==> (c.value.Conformant() <==>
                             && d.Allowed() && AllBound(d, d.authorization.value, r, permit)
                             && OutputsMeetObligations(d, r)))
  {
    hide Bindings, PassedOf, FailedOf, CheckDecision, ValidateReceipt, IsSha256, Raises, AllBound, AsciiIds, Dedup;
    if d.Allowed() {
      DigestsAreAscii(env, d, r, permit);
      AgreeingIsBound(d, d.authorization.value, r, permit);
      NothingFailed(Bindings(d, d.authorization.value, r, permit));
    } else {
      NothingRaises();
    }
    DedupKeepsElements(AllFailures(d, r, permit));
  }

  lemma NothingRaises()
    ensures !Raises([])
  {
  }

  // --------------------------------------- which decisions can be receipted

  ghost predicate Conforms(env: Env, d: Decision, r: Receipt, permit: string) {
    ConformanceOf(env, d, r, permit).Ok? && ConformanceOf(env, d, r, permit).value.Conformant()
  }

  ghost predicate Receiptable(env: Env, d: Decision, permit: string) {
    exists r: Receipt :: Conforms(env, d, r, permit)
  }

  /** The receipt of a run that produced nothing but what the decision obliges it to. */
  function PlainReceipt(d: Decision, g: Authorization, permit: string): Receipt {
    Receipt("r", g.operationId, g.stepId, g.attemptId, g.runtimeInstanceId, d.decisionDigest, permit, g.leaseId,
            g.leaseEpoch, g.fencingTokenDigest, g.executionSpecDigest, g.payloadDigest, g.requestedScopeDigest,
            g.inventoryDigest, g.inventoryEpoch, g.policyPackDigest, g.policyEpoch, "completed",
            if d.controls.outputDigestRequired then [("o", permit)] else [], 0, "v1", "")
  }

  /** The epochs of an authorization inside a digested decision are exact in a double. */
  lemma AuthorizedEpochsAreSafe(env: Env, d: Decision)
    requires DecisionBodyDigest(env.hash, d).Ok? && d.authorization.Some?
    ensures SafeInt(d.authorization.value.leaseEpoch) && SafeInt(d.authorization.value.inventoryEpoch)
    ensures SafeInt(d.authorization.value.policyEpoch)
  {
    hide Canonicalise, SafeInt, AuthorizationFields, ControlFields;
    DigestibleIff(env.hash, DECISION, DecisionFields(d));
    AcceptedMember(DecisionFields(d), 17);
    EpochsOfAccepted(d.authorization.value);
  }

  lemma EpochsOfAccepted(a: Authorization)
    requires Canonicalise(Record(AuthorizationFields(a))).Ok?
    ensures SafeInt(a.leaseEpoch) && SafeInt(a.inventoryEpoch) && SafeInt(a.policyEpoch)
  {
    hide Canonicalise, S, N, Flag, SafeInt, Record;
    var f := AuthorizationFields(a);
    AcceptedMember(f, 7);
    AcceptedMember(f, 13);
    AcceptedMember(f, 15);
    ScalarsAccepted();
  }

  lemma PlainReceiptDigestible(env: Env, d: Decision, permit: string)
    requires DecisionBodyDigest(env.hash, d).Ok? && d.authorization.Some?
    ensures Digest(env.hash, RECEIPT, ReceiptFields(PlainReceipt(d, d.authorization.value, permit))).Ok?
  {
    hide Canonicalise, SafeInt, OutputValue, DecisionBodyDigest, Record, ReceiptFields, Strip, HasPrefix, Digest;
    var r := PlainReceipt(d, d.authorization.value, permit);
    AuthorizedEpochsAreSafe(env, d);
    ZeroIsSafe();
    ReceiptFieldsAccepted(r);
    RecordAccepted(ReceiptFields(r));
    ReceiptTypeIsTrimmed();
    DigestibleIff(env.hash, RECEIPT, ReceiptFields(r));
  }

  lemma ReceiptTypeIsTrimmed()
    ensures Strip(RECEIPT) == RECEIPT && HasPrefix(RECEIPT, "govengine.")
  {
    StripTrims(RECEIPT);
    assert RECEIPT[..10] == "govengine.";
  }

  lemma ReceiptFieldsAccepted(r: Receipt)
    requires SafeInt(r.leaseEpoch) && SafeInt(r.inventoryEpoch) && SafeInt(r.policyEpoch) && SafeInt(r.outputBytes)
    ensures var f := ReceiptFields(r); forall i :: 0 <= i < |f| ==> Canonicalise(f[i].1).Ok?
  {
    hide Canonicalise, S, N, SafeInt, OutputValue;
    ScalarsAccepted();
    OutputsAccepted(r.outputDigests);
  }

  lemma ZeroIsSafe()
    ensures SafeInt(0)
  {
  }

  lemma OutputsAccepted(outputs: seq<(string, string)>)
    ensures Canonicalise(OutputValue(outputs)).Ok?
  {
    hide Canonicalise, S;
    ScalarsAccepted();
    RecordAccepted(seq(|outputs|, i requires 0 <= i < |outputs| => (outputs[i].0, S(outputs[i].1))));
  }

  lemma PlainReceiptShape(env: Env, d: Decision, g: Authorization, permit: string)
    requires CheckAuthorization(env, g).Ok? && IsSha256(d.decisionDigest) && IsSha256(permit) && IsSha256(g.leaseId)
    ensures CheckShape(PlainReceipt(d, g, permit)).Ok?
  {
    hide IsSha256, Strip, CheckAuthorization, CheckOutputs;
    GrantDigests(env, g);
    GrantNames(env, g);
    PlainNames();
    PlainOutputs(permit);
    var r := PlainReceipt(d, g, permit);
    assert CheckNames(r).Ok?;
    assert CheckDigestForms(r).Ok?;
    assert CheckFacts(r).Ok?;
  }

  lemma PlainNames()
    ensures Strip("r") == "r" && Strip("o") == "o"
  {
    StripTrims("r");
    StripTrims("o");
  }

  lemma PlainOutputs(permit: string)
    requires IsSha256(permit)
    ensures CheckOutputs([("o", permit)], {}).Ok? && CheckOutputs([], {}).Ok?
  {
    hide IsSha256, Strip;
    PlainNames();
    assert CheckOutputs([], {"o"}).Ok?;
  }

  /** An allowed decision can be receipted exactly when its lease id has the form of a digest and its four
      identifiers are ASCII: requests accept any lease text, receipts do not. */
  lemma ReceiptableExactly(env: Env, d: Decision, permit: string)
    requires HexHash(env.hash) && CheckDecision(env, d).Ok? && d.Allowed() && IsSha256(permit)
    ensures d.authorization.Some?
    ensures Receiptable(env, d, permit) <==>
              var g := d.authorization.value;
              && IsSha256(g.leaseId) && IsAscii(g.operationId) && IsAscii(g.stepId)
              && IsAscii(g.attemptId) && IsAscii(g.runtimeInstanceId)
  {
    hide IsSha256, IsAscii, ConformanceOf, CheckAuthorization, CheckDecision, DecisionBodyDigest, ValidateReceipt,
         PlainReceipt;
    AllowedHasGrant(env, d);
    var g := d.authorization.value;
    if Receiptable(env, d, permit) {
      var r: Receipt :| Conforms(env, d, r, permit);
      ConformsIsAdmissible(env, d, r, permit);
      ConformantExactly(env, d, r, permit);
      ReceiptDigests(env, r);
    }
    if IsSha256(g.leaseId) && IsAscii(g.operationId) && IsAscii(g.stepId) && IsAscii(g.attemptId)
       && IsAscii(g.runtimeInstanceId)
    {
      PlainReceiptConforms(env, d, permit);
    }
  }

  lemma ConformsIsAdmissible(env: Env, d: Decision, r: Receipt, permit: string)
    requires Conforms(env, d, r, permit)
    ensures Admissible(env, d, r, permit)
  {
    hide CheckDecision, ValidateReceipt, IsSha256, Judged, Raises;
  }

  lemma PlainReceiptConforms(env: Env, d: Decision, permit: string)
    requires HexHash(env.hash) && CheckDecision(env, d).Ok? && d.Allowed() && IsSha256(permit)
    requires d.authorization.Some? && CheckAuthorization(env, d.authorization.value).Ok?
    requires DecisionBodyDigest(env.hash, d).Ok? && IsSha256(d.decisionDigest)
    requires var g := d.authorization.value;
             && IsSha256(g.leaseId) && IsAscii(g.operationId) && IsAscii(g.stepId)
             && IsAscii(g.attemptId) && IsAscii(g.runtimeInstanceId)
    ensures Receiptable(env, d, permit)
  {
    hide IsSha256, IsAscii, CheckDecision, CheckAuthorization, ConformanceOf, DecisionBodyDigest, CheckShape, Digest,
         ReceiptFields, ValidateReceipt;
    var g := d.authorization.value;
    var plain := PlainReceipt(d, g, permit);
    PlainReceiptDigestible(env, d, permit);
    PlainReceiptShape(env, d, g, permit);
    BuiltReceiptIsValid(env, plain);
    var r := BuildReceipt(env, plain).value;
    Sha256IsAscii(g.leaseId);
    ConformantExactly(env, d, r, permit);
    assert Conforms(env, d, r, permit);
  }
}
