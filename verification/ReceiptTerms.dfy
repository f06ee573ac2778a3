/** Receipts in plain terms: on the members of the receipt and of the decision, when a receipt is valid, what each check
    and failure name in `govengine/receipt_conformance.py` reports, and when a receipt conforms. */
module ReceiptTerms {
  import opened Prelude
  import opened PyStrings
  import opened PyValues
  import opened CanonicalRecord
  import opened RecordText
  import opened GovernanceRecords
  import opened GovernanceRequests
  import opened GovernanceDecisions
  import opened ReceiptConformance
  import opened ReceiptGuarantees

  // ------------------------------------------------------------ valid receipts

  /** Output names are short, not blank and differ even without surrounding space; each comes with a digest. */
  ghost predicate OutputsInForm(outputs: seq<(string, string)>) {
    && |outputs| <= 16
    && (forall i :: 0 <= i < |outputs| ==> 0 < |Strip(outputs[i].0)| <= 64 && IsSha256(outputs[i].1))
    && (forall i, j :: 0 <= i < j < |outputs| ==> Strip(outputs[i].0) != Strip(outputs[j].0))
  }

  lemma {:induction false} OutputsExactly(outputs: seq<(string, string)>, seen: set<string>)
    ensures CheckOutputs(outputs, seen).Ok? <==>
              && (forall i :: 0 <= i < |outputs| ==>
                    0 < |Strip(outputs[i].0)| <= 64 && IsSha256(outputs[i].1) && Strip(outputs[i].0) !in seen)
              && (forall i, j :: 0 <= i < j < |outputs| ==> Strip(outputs[i].0) != Strip(outputs[j].0))
  {
    hide Strip, IsSha256;
    if outputs != [] {
      var rest := outputs[1..];
      OutputsExactly(rest, seen + {Strip(outputs[0].0)});
      assert forall i :: 0 <= i < |rest| ==> outputs[i + 1] == rest[i];
      assert forall i :: 1 <= i < |outputs| ==> outputs[i] == rest[i - 1];
    }
  }

  ghost predicate NamesInForm(r: Receipt) {
    && r.schemaVersion == "v1" && Strip(r.receiptId) != "" && Strip(r.operationId) != "" && Strip(r.stepId) != ""
    && Strip(r.attemptId) != "" && Strip(r.runtimeInstanceId) != ""
  }

  ghost predicate DigestsInForm(r: Receipt) {
    && IsSha256(r.decisionDigest) && IsSha256(r.permitDigest) && IsSha256(r.leaseId)
    && IsSha256(r.fencingTokenDigest) && IsSha256(r.executionSpecDigest) && IsSha256(r.payloadDigest)
    && IsSha256(r.requestedScopeDigest) && IsSha256(r.inventoryDigest) && IsSha256(r.policyPackDigest)
  }

  ghost predicate FactsInForm(r: Receipt) {
    && r.leaseEpoch >= 0 && r.inventoryEpoch >= 0 && r.policyEpoch >= 0 && r.outputBytes >= 0
    && (r.terminalStatus == "completed" || r.terminalStatus == "failed" || r.terminalStatus == "indeterminate")
    && OutputsInForm(r.outputDigests)
  }

  ghost predicate ReceiptInForm(r: Receipt) {
    NamesInForm(r) && DigestsInForm(r) && FactsInForm(r)
  }

  lemma ShapeExactly(r: Receipt)
    ensures CheckShape(r).Ok? <==> ReceiptInForm(r)
  {
    hide CheckNames, CheckDigestForms, CheckFacts, NamesInForm, DigestsInForm, FactsInForm;
    NamesExactly(r);
    DigestsExactly(r);
    FactsExactly(r);
  }

  lemma NamesExactly(r: Receipt)
    ensures CheckNames(r).Ok? <==> NamesInForm(r)
  {
    hide Strip;
  }

  lemma DigestsExactly(r: Receipt)
    ensures CheckDigestForms(r).Ok? <==> DigestsInForm(r)
  {
    hide IsSha256;
  }

  lemma FactsExactly(r: Receipt)
    ensures CheckFacts(r).Ok? <==> FactsInForm(r)
  {
    hide Strip, IsSha256, CheckOutputs;
    OutputsExactly(r.outputDigests, {});
  }

  /** A receipt is valid exactly when it is in form and carries the digest of its own record. */
  lemma ValidReceiptExactly(env: Env, r: Receipt)
    requires HexHash(env.hash)
    ensures ValidateReceipt(env, r).Ok? <==>
              ReceiptInForm(r) && RecordDigest(env.hash, RECEIPT, "v1", Record(ReceiptFields(r))) == Ok(r.receiptDigest)
  {
    hide CheckShape, ReceiptInForm, IsSha256, IsAscii, ReceiptFields, Record, RecordDigest;
    ShapeExactly(r);
    DigestHasShape(env.hash, RECEIPT, ReceiptFields(r));
    if Digest(env.hash, RECEIPT, ReceiptFields(r)).Ok? {
      Sha256IsAscii(Digest(env.hash, RECEIPT, ReceiptFields(r)).value);
    }
    if IsSha256(r.receiptDigest) {
      Sha256IsAscii(r.receiptDigest);
    }
  }

  // -------------------------------------------------------- what is reported

  /** A comparison is told under the first name if it holds and under the second if it does not. */
  ghost predicate Told(c: Conformance, passed: string, failure: string, holds: bool) {
    (passed in c.checks <==> holds) && (failure in c.failures <==> !holds)
  }

  ghost predicate ToldAt(c: Conformance, b: Binding) {
    Told(c, b.passed, b.failure, b.actual == b.expected)
  }

  /** What each of the sixteen names in a result for an allowed decision is about. */
  lemma BindingsToldExactly(env: Env, d: Decision, r: Receipt, permit: string, c: Conformance, g: Authorization)
    requires ConformanceOf(env, d, r, permit) == Ok(c) && d.Allowed() && d.authorization == Some(g)
    ensures Told(c, "receipt_decision_bound", "receipt_decision_digest_mismatch", r.decisionDigest == d.decisionDigest)
    ensures Told(c, "receipt_runtime_permit_bound", "receipt_runtime_permit_digest_mismatch", r.permitDigest == permit)
    ensures Told(c, "receipt_operation_bound", "receipt_operation_id_mismatch", r.operationId == g.operationId)
    ensures Told(c, "receipt_step_bound", "receipt_step_id_mismatch", r.stepId == g.stepId)
    ensures Told(c, "receipt_attempt_bound", "receipt_attempt_id_mismatch", r.attemptId == g.attemptId)
    ensures Told(c, "receipt_runtime_instance_bound", "receipt_runtime_instance_id_mismatch",
                 r.runtimeInstanceId == g.runtimeInstanceId)
    ensures Told(c, "receipt_lease_bound", "receipt_lease_id_mismatch", r.leaseId == g.leaseId)
    ensures Told(c, "receipt_lease_epoch_bound", "receipt_lease_epoch_mismatch", r.leaseEpoch == g.leaseEpoch)
    ensures Told(c, "receipt_fencing_token_bound", "receipt_fencing_token_digest_mismatch",
                 r.fencingTokenDigest == g.fencingTokenDigest)
    ensures Told(c, "receipt_execution_spec_bound", "receipt_execution_spec_digest_mismatch",
                 r.executionSpecDigest == g.executionSpecDigest)
    ensures Told(c, "receipt_payload_bound", "receipt_payload_digest_mismatch", r.payloadDigest == g.payloadDigest)
    ensures Told(c, "receipt_requested_scope_bound", "receipt_requested_scope_digest_mismatch",
                 r.requestedScopeDigest == g.requestedScopeDigest)
    ensures Told(c, "receipt_capability_inventory_bound", "receipt_capability_inventory_digest_mismatch",
                 r.inventoryDigest == g.inventoryDigest)
    ensures Told(c, "receipt_inventory_epoch_bound", "receipt_inventory_epoch_mismatch",
                 r.inventoryEpoch == g.inventoryEpoch)
    ensures Told(c, "receipt_policy_pack_bound", "receipt_policy_pack_digest_mismatch",
                 r.policyPackDigest == g.policyPackDigest)
    ensures Told(c, "receipt_policy_epoch_bound", "receipt_policy_epoch_mismatch", r.policyEpoch == g.policyEpoch)
  {
    hide ConformanceOf, Told;
    var s := Bindings(d, g, r, permit);
    forall i | 0 <= i < 16
      ensures ToldAt(c, s[i])
    {
      ToldOnce(env, d, r, permit, c, g, i);
    }
    assert ToldAt(c, s[0]) && ToldAt(c, s[1]) && ToldAt(c, s[2]) && ToldAt(c, s[3]) && ToldAt(c, s[4]);
    assert ToldAt(c, s[5]) && ToldAt(c, s[6]) && ToldAt(c, s[7]) && ToldAt(c, s[8]) && ToldAt(c, s[9]);
    assert ToldAt(c, s[10]) && ToldAt(c, s[11]) && ToldAt(c, s[12]) && ToldAt(c, s[13]) && ToldAt(c, s[14]);
    assert ToldAt(c, s[15]);
  }

  lemma ToldOnce(env: Env, d: Decision, r: Receipt, permit: string, c: Conformance, g: Authorization, i: nat)
    requires ConformanceOf(env, d, r, permit) == Ok(c) && d.Allowed() && d.authorization == Some(g) && i < 16
    ensures ToldAt(c, Bindings(d, g, r, permit)[i])
  {
    hide ConformanceOf, Bindings;
    EachBindingReportedOnce(env, d, r, permit, i);
  }

  /** The limit and the digest obligation, with their numbers, and the outcome. */
  lemma OutputsToldExactly(env: Env, d: Decision, r: Receipt, permit: string, c: Conformance)
    requires ConformanceOf(env, d, r, permit) == Ok(c)
    ensures Told(c, "receipt_output_within_limit", "receipt_output_limit_exceeded",
                 !(0 < d.controls.maxOutputBytes < r.outputBytes))
    ensures "required_output_digest_missing" in c.failures <==> d.controls.outputDigestRequired && r.outputDigests == []
    ensures "required_output_digest_present" in c.checks <==> d.controls.outputDigestRequired && r.outputDigests != []
    ensures "optional_output_digest_present" in c.checks <==> !d.controls.outputDigestRequired && r.outputDigests != []
    ensures "receipt_digest_verified" in c.checks && "terminal_receipt_present" in c.checks
    ensures "receipt_governance_decision_not_allowed" in c.failures <==> d.status != "allowed"
  {
    hide ConformanceOf, PassedOf, FailedOf, Bindings, PassedSlot, FailedSlot, Judged, OutputChecks, OutputFailures;
    ListsAre(env, d, r, permit, c);
    OutputNames(d, r);
    OwnNames();
    JudgedNames(d, r, permit, "receipt_output_within_limit", "receipt_output_limit_exceeded");
    JudgedNames(d, r, permit, "required_output_digest_present", "required_output_digest_missing");
    JudgedNames(d, r, permit, "optional_output_digest_present", "receipt_governance_decision_not_allowed");
  }

  lemma ListsAre(env: Env, d: Decision, r: Receipt, permit: string, c: Conformance)
    requires ConformanceOf(env, d, r, permit) == Ok(c)
    ensures d.Allowed() ==> d.authorization.Some?
    ensures forall x :: x in c.checks <==>
              x == "receipt_digest_verified" || x in PassedOf(Judged(d, r, permit)) || x in OutputChecks(d, r)
    ensures forall x :: x in c.failures <==>
              || (!d.Allowed() && x == "receipt_governance_decision_not_allowed")
              || (d.Allowed() && x in FailedOf(Judged(d, r, permit))) || x in OutputFailures(d, r)
  {
    hide Bindings, PassedOf, FailedOf, OutputChecks, OutputFailures, ValidateReceipt, IsSha256, CheckDecision, Raises,
         Dedup, CheckAuthorization, DecisionBodyDigest, Judged;
    if d.Allowed() {
      AllowedHasGrant(env, d);
    }
    DedupKeepsElements(AllFailures(d, r, permit));
  }

  lemma OutputNames(d: Decision, r: Receipt)
    ensures "receipt_output_within_limit" in OutputChecks(d, r) <==>
              !(0 < d.controls.maxOutputBytes < r.outputBytes)
    ensures "receipt_output_limit_exceeded" in OutputFailures(d, r) <==>
              0 < d.controls.maxOutputBytes < r.outputBytes
    ensures "required_output_digest_missing" in OutputFailures(d, r) <==>
              d.controls.outputDigestRequired && r.outputDigests == []
    ensures "required_output_digest_present" in OutputChecks(d, r) <==>
              d.controls.outputDigestRequired && r.outputDigests != []
    ensures "optional_output_digest_present" in OutputChecks(d, r) <==>
              !d.controls.outputDigestRequired && r.outputDigests != []
    ensures "terminal_receipt_present" in OutputChecks(d, r)
    ensures "receipt_governance_decision_not_allowed" !in OutputFailures(d, r)
  {
    assert "required_output_digest_present"[0] != "optional_output_digest_present"[0];
    assert "terminal_receipt_present"[0] == 't';
    assert |"receipt_output_limit_exceeded"| == 29 && |"required_output_digest_missing"| == 30;
    assert |"receipt_governance_decision_not_allowed"| == 39;
  }

  /** None of these names is one of the sixteen comparisons'. */
  lemma OwnNames()
    ensures PassedSlot("receipt_output_within_limit") == 16 && PassedSlot("required_output_digest_present") == 16
    ensures PassedSlot("optional_output_digest_present") == 16
    ensures FailedSlot("receipt_output_limit_exceeded") == 16 && FailedSlot("required_output_digest_missing") == 16
    ensures FailedSlot("receipt_governance_decision_not_allowed") == 16
    ensures "receipt_digest_verified" != "receipt_output_within_limit"
    ensures "receipt_digest_verified" != "required_output_digest_present"
    ensures "receipt_digest_verified" != "optional_output_digest_present"
  {
    assert |"receipt_digest_verified"| == 23 && |"receipt_output_within_limit"| == 27;
  }

  lemma JudgedNames(d: Decision, r: Receipt, permit: string, passed: string, failure: string)
    requires PassedSlot(passed) == 16 && FailedSlot(failure) == 16
    ensures passed !in PassedOf(Judged(d, r, permit)) && failure !in FailedOf(Judged(d, r, permit))
  {
    hide PassedOf, FailedOf, Bindings, PassedSlot, FailedSlot;
    PassedMembers(Judged(d, r, permit), passed);
    FailedMembers(Judged(d, r, permit), failure);
    if d.Allowed() && d.authorization.Some? {
      NamesAreSlots(d, d.authorization.value, r, permit);
    }
  }

  // ------------------------------------------------------------ conformance

  /** The result names its decision, receipt and permit, and its reason is its first failure. */
  lemma ResultExactly(env: Env, d: Decision, r: Receipt, permit: string, c: Conformance)
    requires ConformanceOf(env, d, r, permit) == Ok(c)
    ensures c.decisionDigest == d.decisionDigest && c.receiptDigest == r.receiptDigest && c.permitDigest == r.permitDigest
    ensures c.status == (if c.failures == [] then "conformant" else "nonconformant")
    ensures c.reasonCode == (if c.failures == [] then "receipt_conforms" else c.failures[0])
    ensures c.Conformant() <==> c.failures == []
  {
    hide Dedup, PassedOf, FailedOf, Judged, CheckDecision, ValidateReceipt, IsSha256, Raises;
  }

  /** A receipt conforms exactly when the decision and it are valid, the decision is allowed and has an ASCII grant, all
      sixteen values are the decision's and the permit's, a digest obligation is met and a limit is not exceeded. */
  lemma ConformsExactly(env: Env, d: Decision, r: Receipt, permit: string)
    ensures Conforms(env, d, r, permit) <==>
              && CheckDecision(env, d).Ok? && ValidateReceipt(env, r).Ok? && IsSha256(permit)
              && d.status == "allowed" && d.authorization.Some? && AsciiIds(d.authorization.value, r)
              && AllBound(d, d.authorization.value, r, permit)
              && (d.controls.outputDigestRequired ==> r.outputDigests != [])
              && (d.controls.maxOutputBytes <= 0 || r.outputBytes <= d.controls.maxOutputBytes)
  {
    hide ConformanceOf, CheckDecision, ValidateReceipt, IsSha256, AllBound, AsciiIds;
    if Conforms(env, d, r, permit) {
      ConformsIsAdmissible(env, d, r, permit);
    }
    if Admissible(env, d, r, permit) {
      ConformantExactly(env, d, r, permit);
    }
  }
}
