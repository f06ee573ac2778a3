/** Terminal receipts checked against one governance decision (`govengine/receipt_conformance.py`). */
module ReceiptConformance {
  import opened Prelude
  import opened PyStrings
  import opened PyValues
  import opened CanonicalRecord
  import opened RecordText
  import opened GovernanceRecords
  import opened GovernanceRequests
  import opened ApprovalBinding
  import opened GovernanceDecisions

  datatype Receipt = Receipt(
    receiptId: string, operationId: string, stepId: string, attemptId: string, runtimeInstanceId: string,
    decisionDigest: string, permitDigest: string, leaseId: string, leaseEpoch: int, fencingTokenDigest: string,
    executionSpecDigest: string, payloadDigest: string, requestedScopeDigest: string, inventoryDigest: string,
    inventoryEpoch: int, policyPackDigest: string, policyEpoch: int, terminalStatus: string,
    outputDigests: seq<(string, string)>, outputBytes: int, schemaVersion: string, receiptDigest: string)

  datatype Conformance = Conformance(
    status: string, reasonCode: string, decisionDigest: string, receiptDigest: string, permitDigest: string,
    checks: seq<string>, failures: seq<string>)
  {
    predicate Conformant() {
      status == "conformant"
    }
  }

  const MAX_OUTPUT_DIGESTS := 16
  const MAX_OUTPUT_DIGEST_NAME_LENGTH := 64

  function OutputValue(outputs: seq<(string, string)>): Value {
    Record(seq(|outputs|, i requires 0 <= i < |outputs| => (outputs[i].0, S(outputs[i].1))))
  }

  /** The digest payload: the receipt's own digest is cleared. */
  function ReceiptFields(r: Receipt): Fields {
    [("schema_version", S(r.schemaVersion)), ("receipt_id", S(r.receiptId)), ("operation_id", S(r.operationId)),
     ("step_id", S(r.stepId)), ("attempt_id", S(r.attemptId)), ("runtime_instance_id", S(r.runtimeInstanceId)),
     ("decision_digest", S(r.decisionDigest)), ("runtime_permit_digest", S(r.permitDigest)),
     ("lease_id", S(r.leaseId)), ("lease_epoch", N(r.leaseEpoch)),
     ("fencing_token_digest", S(r.fencingTokenDigest)), ("execution_spec_digest", S(r.executionSpecDigest)),
     ("payload_digest", S(r.payloadDigest)), ("requested_scope_digest", S(r.requestedScopeDigest)),
     ("capability_inventory_digest", S(r.inventoryDigest)), ("inventory_epoch", N(r.inventoryEpoch)),
     ("policy_pack_digest", S(r.policyPackDigest)), ("policy_epoch", N(r.policyEpoch)),
     ("terminal_status", S(r.terminalStatus)), ("output_digests", OutputValue(r.outputDigests)),
     ("output_bytes", N(r.outputBytes)), ("receipt_digest", S(""))]
  }

  const RECEIPT := "govengine." + "receipt_conformance.RuntimeReceiptBinding"

  // -------------------------------------------------------- receipt validation

  /** `_output_digests`: at most 16 entries, names distinct once stripped. */
  function CheckOutputs(outputs: seq<(string, string)>, seen: set<string>): Result<(), GovError> {
    if outputs == [] then Ok(())
    else
      var name := Strip(outputs[0].0);
      :- Need(name != "" && |name| <= MAX_OUTPUT_DIGEST_NAME_LENGTH,
              Refused("invalid_runtime_receipt_output_digest_name"));
      :- Need(name !in seen, Refused("duplicate_runtime_receipt_output_digest_name"));
      :- Sha(outputs[0].1, "invalid_runtime_receipt_output_digest");
      CheckOutputs(outputs[1..], seen + {name})
  }

  function CheckShape(r: Receipt): Result<(), GovError> {
    var _ :- CheckNames(r);
    var _ :- CheckDigestForms(r);
    CheckFacts(r)
  }

  function CheckNames(r: Receipt): Result<(), GovError> {
    hide Strip;
    :- Need(r.schemaVersion == "v1", Refused("unknown_runtime_receipt_schema_version"));
    :- NonBlank(r.receiptId, "missing_runtime_receipt_id");
    :- NonBlank(r.operationId, "missing_runtime_receipt_operation_id");
    :- NonBlank(r.stepId, "missing_runtime_receipt_step_id");
    :- NonBlank(r.attemptId, "missing_runtime_receipt_attempt_id");
    :- NonBlank(r.runtimeInstanceId, "missing_runtime_receipt_runtime_instance_id");
    Ok(())
  }

  function CheckDigestForms(r: Receipt): Result<(), GovError> {
    hide IsSha256;
    :- Sha(r.decisionDigest, "invalid_runtime_receipt_decision_digest");
    :- Sha(r.permitDigest, "invalid_runtime_receipt_permit_digest");
    :- Sha(r.leaseId, "invalid_runtime_receipt_lease_id");
    :- Sha(r.fencingTokenDigest, "invalid_runtime_receipt_fencing_token_digest");
    :- Sha(r.executionSpecDigest, "invalid_runtime_receipt_execution_spec_digest");
    :- Sha(r.payloadDigest, "invalid_runtime_receipt_payload_digest");
    :- Sha(r.requestedScopeDigest, "invalid_runtime_receipt_requested_scope_digest");
    :- Sha(r.inventoryDigest, "invalid_runtime_receipt_capability_inventory_digest");
    :- Sha(r.policyPackDigest, "invalid_runtime_receipt_policy_pack_digest");
    Ok(())
  }

  function CheckFacts(r: Receipt): Result<(), GovError> {
    hide CheckOutputs;
    :- AtLeastZero(r.leaseEpoch, "invalid_runtime_receipt_lease_epoch");
    :- AtLeastZero(r.inventoryEpoch, "invalid_runtime_receipt_inventory_epoch");
    :- AtLeastZero(r.policyEpoch, "invalid_runtime_receipt_policy_epoch");
    :- AtLeastZero(r.outputBytes, "invalid_runtime_receipt_output_bytes");
    :- Need(r.terminalStatus in {"completed", "failed", "indeterminate"},
            Refused("unknown_runtime_receipt_terminal_status"));
    :- Need(|r.outputDigests| <= MAX_OUTPUT_DIGESTS, Refused("runtime_receipt_output_digests_too_large"));
    CheckOutputs(r.outputDigests, {})
  }

  function ReceiptDigest(env: Env, r: Receipt): Result<string, GovError> {
    var _ :- CheckShape(r);
    Digest(env.hash, RECEIPT, ReceiptFields(r))
  }

  /** `validate_runtime_receipt_binding`. */
  function ValidateReceipt(env: Env, r: Receipt): Result<Receipt, GovError> {
    var _ :- CheckShape(r);
    :- Sha(r.receiptDigest, "invalid_runtime_receipt_digest");
    var expected :- ReceiptDigest(env, r);
    :- Same(expected, r.receiptDigest, "runtime_receipt_digest_mismatch");
    Ok(r)
  }

  /** `build_runtime_receipt_binding`: the digest is filled in and the result validated. */
  function BuildReceipt(env: Env, r: Receipt): Result<Receipt, GovError> {
    var item := r.(schemaVersion := "v1", receiptDigest := "");
    var _ :- CheckShape(item);
    var d :- ReceiptDigest(env, item);
    ValidateReceipt(env, item.(receiptDigest := d))
  }

  /** Building succeeds exactly when the shape is right and the record has a digest, and the result is the given
      receipt with its own digest in place. */
  lemma BuiltReceiptIsValid(env: Env, r: Receipt)
    requires HexHash(env.hash) && r.schemaVersion == "v1"
    ensures BuildReceipt(env, r).Ok? <==> ReceiptDigest(env, r).Ok?
    ensures BuildReceipt(env, r).Ok? ==>
              && ValidateReceipt(env, BuildReceipt(env, r).value).Ok?
              && BuildReceipt(env, r).value == r.(receiptDigest := ReceiptDigest(env, r).value)
  {
    hide IsSha256, IsAscii, Strip, CheckOutputs, Digest, ReceiptFields;
    var item := r.(schemaVersion := "v1", receiptDigest := "");
    ReceiptIgnoresItself(r, "");
    ShapeIgnoresDigest(r, "");
    if ReceiptDigest(env, r).Ok? {
      var d := ReceiptDigest(env, r).value;
      ReceiptIgnoresItself(r, d);
      ShapeIgnoresDigest(r, d);
      DigestHasShape(env.hash, RECEIPT, ReceiptFields(r));
      Sha256IsAscii(d);
    }
  }

  lemma ReceiptIgnoresItself(r: Receipt, digest: string)
    ensures ReceiptFields(r.(receiptDigest := digest)) == ReceiptFields(r)
  {
    hide OutputValue, S, N;
  }

  lemma ShapeIgnoresDigest(r: Receipt, digest: string)
    ensures CheckShape(r.(receiptDigest := digest)) == CheckShape(r)
  {
    hide CheckNames, CheckDigestForms, CheckFacts;
    NamesIgnoreDigest(r, digest);
    FormsIgnoreDigest(r, digest);
  }

  lemma NamesIgnoreDigest(r: Receipt, digest: string)
    ensures CheckNames(r.(receiptDigest := digest)) == CheckNames(r)
    ensures CheckFacts(r.(receiptDigest := digest)) == CheckFacts(r)
  {
    hide NonBlank, AtLeastZero, CheckOutputs;
  }

  lemma FormsIgnoreDigest(r: Receipt, digest: string)
    ensures CheckDigestForms(r.(receiptDigest := digest)) == CheckDigestForms(r)
  {
    hide Sha;
  }

  // ----------------------------------------------------------------- bindings

  datatype Datum = Words(text: string) | Number(n: int)

  datatype Binding = Binding(actual: Datum, expected: Datum, failure: string, passed: string) {
    predicate Agrees() {
      actual == expected
    }

    predicate Comparable() {
      actual.Words? && expected.Words? ==> IsAscii(actual.text) && IsAscii(expected.text)
    }
  }

  function Text(actual: string, expected: string, failure: string, passed: string): Binding {
    Binding(Words(actual), Words(expected), failure, passed)
  }

  function Count(actual: int, expected: int, failure: string, passed: string): Binding {
    Binding(Number(actual), Number(expected), failure, passed)
  }

  /** The sixteen comparisons, in order. */
  function Bindings(d: Decision, g: Authorization, r: Receipt, permit: string): (s: seq<Binding>)
    ensures |s| == 16
  {
    [Text(r.decisionDigest, d.decisionDigest, "receipt_decision_digest_mismatch", "receipt_decision_bound"),
     Text(r.permitDigest, permit, "receipt_runtime_permit_digest_mismatch", "receipt_runtime_permit_bound"),
     Text(r.operationId, g.operationId, "receipt_operation_id_mismatch", "receipt_operation_bound"),
     Text(r.stepId, g.stepId, "receipt_step_id_mismatch", "receipt_step_bound"),
     Text(r.attemptId, g.attemptId, "receipt_attempt_id_mismatch", "receipt_attempt_bound"),
     Text(r.runtimeInstanceId, g.runtimeInstanceId, "receipt_runtime_instance_id_mismatch",
          "receipt_runtime_instance_bound"),
     Text(r.leaseId, g.leaseId, "receipt_lease_id_mismatch", "receipt_lease_bound"),
     Count(r.leaseEpoch, g.leaseEpoch, "receipt_lease_epoch_mismatch", "receipt_lease_epoch_bound"),
     Text(r.fencingTokenDigest, g.fencingTokenDigest, "receipt_fencing_token_digest_mismatch",
          "receipt_fencing_token_bound"),
     Text(r.executionSpecDigest, g.executionSpecDigest, "receipt_execution_spec_digest_mismatch",
          "receipt_execution_spec_bound"),
     Text(r.payloadDigest, g.payloadDigest, "receipt_payload_digest_mismatch", "receipt_payload_bound"),
     Text(r.requestedScopeDigest, g.requestedScopeDigest, "receipt_requested_scope_digest_mismatch",
          "receipt_requested_scope_bound"),
     Text(r.inventoryDigest, g.inventoryDigest, "receipt_capability_inventory_digest_mismatch",
          "receipt_capability_inventory_bound"),
     Count(r.inventoryEpoch, g.inventoryEpoch, "receipt_inventory_epoch_mismatch", "receipt_inventory_epoch_bound"),
     Text(r.policyPackDigest, g.policyPackDigest, "receipt_policy_pack_digest_mismatch", "receipt_policy_pack_bound"),
     Count(r.policyEpoch, g.policyEpoch, "receipt_policy_epoch_mismatch", "receipt_policy_epoch_bound")]
  }

  function PassedOf(s: seq<Binding>): seq<string> {
    if s == [] then []
    else PassedOf(s[..|s| - 1]) + (if s[|s| - 1].Agrees() then [s[|s| - 1].passed] else [])
  }

  function FailedOf(s: seq<Binding>): seq<string> {
    if s == [] then []
    else FailedOf(s[..|s| - 1]) + (if s[|s| - 1].Agrees() then [] else [s[|s| - 1].failure])
  }

  /** `_binding_check`: exactly one of the two lists grows; non-ASCII texts raise a type error. */
  method BindingCheck(b: Binding, checks: seq<string>, failures: seq<string>)
    returns (raised: bool, checks': seq<string>, failures': seq<string>)
    ensures raised <==> !b.Comparable()
    ensures !raised ==> checks' == checks + (if b.Agrees() then [b.passed] else [])
    ensures !raised ==> failures' == failures + (if b.Agrees() then [] else [b.failure])
  {
    if !b.Comparable() {
      return true, checks, failures;
    }
    if b.Agrees() {
      return false, checks + [b.passed], failures;
    }
    return false, checks, failures + [b.failure];
  }

  // -------------------------------------------------------------- evaluation

  function OutputChecks(d: Decision, r: Receipt): seq<string> {
    ["terminal_receipt_present"]
    + (if r.outputDigests == [] then []
       else if d.controls.outputDigestRequired then ["required_output_digest_present"]
       else ["optional_output_digest_present"])
    + (if OverLimit(d, r) then [] else ["receipt_output_within_limit"])
  }

  function OutputFailures(d: Decision, r: Receipt): seq<string> {
    (if d.controls.outputDigestRequired && r.outputDigests == [] then ["required_output_digest_missing"] else [])
    + (if OverLimit(d, r) then ["receipt_output_limit_exceeded"] else [])
  }

  predicate OverLimit(d: Decision, r: Receipt) {
    d.controls.maxOutputBytes > 0 && r.outputBytes > d.controls.maxOutputBytes
  }

  predicate OutputsMeetObligations(d: Decision, r: Receipt) {
    (d.controls.outputDigestRequired ==> r.outputDigests != []) && !OverLimit(d, r)
  }

  function Judged(d: Decision, r: Receipt, permit: string): seq<Binding> {
    if d.Allowed() && d.authorization.Some? then Bindings(d, d.authorization.value, r, permit) else []
  }

  function AllFailures(d: Decision, r: Receipt, permit: string): seq<string> {
    (if d.Allowed() && d.authorization.Some? then FailedOf(Judged(d, r, permit))
     else ["receipt_governance_decision_not_allowed"])
    + OutputFailures(d, r)
  }

  function Verdict(d: Decision, r: Receipt, checks: seq<string>, failures: seq<string>): Conformance {
    Conformance(if failures == [] then "conformant" else "nonconformant",
                if failures == [] then "receipt_conforms" else failures[0],
                d.decisionDigest, r.receiptDigest, r.permitDigest, checks, failures)
  }

  predicate Raises(s: seq<Binding>) {
    exists i :: 0 <= i < |s| && !s[i].Comparable()
  }

  function ConformanceOf(env: Env, d: Decision, r: Receipt, permit: string): Result<Conformance, GovError> {
    var _ :- CheckDecision(env, d);
    var _ :- ValidateReceipt(env, r);
    :- Sha(permit, "invalid_expected_runtime_permit_digest");
    :- Need(!Raises(Judged(d, r, permit)), NonAsciiComparison);
    Ok(Verdict(d, r, ["receipt_digest_verified"] + PassedOf(Judged(d, r, permit)) + OutputChecks(d, r),
               Dedup(AllFailures(d, r, permit))))
  }

  /** The loop over the bindings. */
  method CheckBindings(s: seq<Binding>, start: seq<string>)
    returns (raised: bool, checks: seq<string>, failures: seq<string>)
    ensures raised <==> Raises(s)
    ensures !raised ==> checks == start + PassedOf(s) && failures == FailedOf(s)
  {
    checks, failures := start, [];
    for i := 0 to |s|
      invariant !Raises(s[..i])
      invariant checks == start + PassedOf(s[..i])
      invariant failures == FailedOf(s[..i])
    {
      raised, checks, failures := BindingCheck(s[i], checks, failures);
      if raised {
        return;
      }
      assert s[..i + 1][..i] == s[..i];
    }
    assert s[..|s|] == s;
    raised := false;
  }

  /** `evaluate_receipt_conformance`, filling its two lists. */
  method EvaluateConformance(env: Env, d: Decision, r: Receipt, permit: string)
    returns (result: Result<Conformance, GovError>)
    ensures result == ConformanceOf(env, d, r, permit)
  {
    hide CheckDecision, ValidateReceipt, IsSha256, Bindings, PassedOf, FailedOf, Raises, Dedup;
    var decision := CheckDecision(env, d);
    if decision.Err? {
      return Err(decision.error);
    }
    var receipt := ValidateReceipt(env, r);
    if receipt.Err? {
      return Err(receipt.error);
    }
    if !IsSha256(permit) {
      return Err(Refused("invalid_expected_runtime_permit_digest"));
    }
    var checks := ["receipt_digest_verified"];
    var failures: seq<string> := [];
    if !d.Allowed() || d.authorization.None? {
      failures := ["receipt_governance_decision_not_allowed"];
      NothingJudged();
    } else {
      var raised;
      raised, checks, failures := CheckBindings(Bindings(d, d.authorization.value, r, permit), checks);
      if raised {
        return Err(NonAsciiComparison);
      }
    }
    assert checks == ["receipt_digest_verified"] + PassedOf(Judged(d, r, permit));
    var outputChecks, outputFailures := CheckOutputObligations(d, r);
    assert checks + outputChecks == ["receipt_digest_verified"] + PassedOf(Judged(d, r, permit)) + OutputChecks(d, r);
    assert failures + outputFailures == AllFailures(d, r, permit);
    return Ok(Verdict(d, r, checks + outputChecks, Dedup(failures + outputFailures)));
  }

  lemma NothingJudged()
    ensures PassedOf([]) == [] && !Raises([])
  {
  }

  /** The output obligations, in the order they are checked. */
  method CheckOutputObligations(d: Decision, r: Receipt) returns (checks: seq<string>, failures: seq<string>)
    ensures checks == OutputChecks(d, r) && failures == OutputFailures(d, r)
  {
    checks, failures := ["terminal_receipt_present"], [];
    if d.controls.outputDigestRequired {
      if r.outputDigests != [] {
        checks := checks + ["required_output_digest_present"];
      } else {
        failures := failures + ["required_output_digest_missing"];
      }
    } else if r.outputDigests != [] {
      checks := checks + ["optional_output_digest_present"];
    }
    var limit := d.controls.maxOutputBytes;
    if limit > 0 && r.outputBytes > limit {
      failures := failures + ["receipt_output_limit_exceeded"];
    } else {
      checks := checks + ["receipt_output_within_limit"];
    }
  }
}
