/** Which drafts have a digest: only the projected controls can stand in the way, so evaluation succeeds or fails by
    conditions known before its closing validation. */
module DraftDigests {
  import opened Prelude
  import opened PyStrings
  import opened PyValues
  import opened CanonicalRecord
  import opened RecordText
  import opened GovernanceRecords
  import opened GovernanceRequests
  import opened ApprovalBinding
  import opened GovernanceDecisions
  import opened DecisionGuarantees

  lemma RequestTypeIsOwned()
    ensures Strip(REQUEST) == REQUEST && HasPrefix(REQUEST, "govengine.")
    ensures Strip(DECISION) == DECISION && HasPrefix(DECISION, "govengine.")
  {
    StripTrims(REQUEST);
    StripTrims(DECISION);
    assert REQUEST[..10] == "govengine." && DECISION[..10] == "govengine.";
  }

  lemma EmptyIsUnowned()
    ensures !HasPrefix("", "govengine.")
  {
  }

  /** Numbers a canonical record can hold: a finite timeout and limits that are exact in a double. */
  ghost predicate DigestibleControls(c: Controls) {
    c.timeoutSeconds.Finite? && SafeInt(c.maxSteps) && SafeInt(c.maxOutputBytes)
  }

  lemma TextListsAccepted(texts: seq<string>)
    ensures Canonicalise(Texts(texts)).Ok?
  {
    ElemsAccepted(Texts(texts).elems);
  }

  lemma {:induction false} ElemsAccepted(elems: seq<Value>)
    requires forall i :: 0 <= i < |elems| ==> Canonicalise(elems[i]).Ok?
    ensures CanonicaliseElems(elems).Ok?
  {
    if elems != [] {
      ElemsAccepted(elems[1..]);
    }
  }

  lemma ControlsDigestible(c: Controls)
    ensures Canonicalise(Record(ControlFields(c))).Ok? <==> DigestibleControls(c)
  {
    hide Canonicalise, S, N, Flag, Texts, SafeInt, Record;
    var f := ControlFields(c);
    ScalarsAccepted();
    forall texts: seq<string> ensures Canonicalise(Texts(texts)).Ok? {
      TextListsAccepted(texts);
    }
    FloatAccepted(c.timeoutSeconds);
    if Canonicalise(Record(f)).Ok? {
      AcceptedMember(f, 0);
      AcceptedMember(f, 1);
      AcceptedMember(f, 2);
    }
    if DigestibleControls(c) {
      RecordAccepted(f);
    }
  }

  lemma FloatAccepted(x: Float)
    ensures Canonicalise(Leaf(Real(x))).Ok? <==> x.Finite?
    ensures Canonicalise(Leaf(NoneValue)).Ok?
  {
  }

  /** A digested request has epochs that are exact in a double, its inventory's included. */
  lemma RequestEpochsAreSafe(h: Hash, r: Request)
    requires RequestDigest(h, r).Ok?
    ensures SafeInt(r.policyEpoch) && SafeInt(r.leaseEpoch) && SafeInt(r.inventory.inventoryEpoch)
  {
    hide Canonicalise, Digest, S, N, SafeInt, Record, PolicyPackFields, ScopePolicyFields, RequirementFields,
         InventoryFields, ApprovalValue;
    var f := RequestFields(r);
    DigestedIsAccepted(h, REQUEST, f);
    ScalarsAccepted();
    AcceptedMember(f, 6);
    AcceptedMember(f, 22);
    AcceptedMember(f, 17);
    InventoryEpochIsSafe(r.inventory);
  }

  lemma InventoryEpochIsSafe(i: CapabilityInventory)
    requires Canonicalise(Record(InventoryFields(i))).Ok?
    ensures SafeInt(i.inventoryEpoch)
  {
    hide Canonicalise, S, N, Texts, SafeInt, Record;
    AcceptedMember(InventoryFields(i), 1);
    ScalarsAccepted();
  }

  lemma AuthorizationDigestible(a: Authorization)
    requires SafeInt(a.leaseEpoch) && SafeInt(a.inventoryEpoch) && SafeInt(a.policyEpoch)
    ensures Canonicalise(Record(AuthorizationFields(a))).Ok?
  {
    hide Canonicalise, S, N, Flag, SafeInt, Record;
    ScalarsAccepted();
    RecordAccepted(AuthorizationFields(a));
  }

  /** A decision has a digest exactly when its controls do, given an authorization with exact epochs. */
  lemma DecisionDigestible(h: Hash, d: Decision)
    requires d.authorization.Some? ==> Canonicalise(Record(AuthorizationFields(d.authorization.value))).Ok?
    ensures DecisionBodyDigest(h, d).Ok? <==> DigestibleControls(d.controls)
  {
    hide Canonicalise, Digest, Strip, HasPrefix, S, N, Flag, Texts, Record, ControlFields, AuthorizationFields,
         DigestibleControls;
    var f := DecisionFields(d);
    RequestTypeIsOwned();
    EmptyIsUnowned();
    DigestibleIff(h, DECISION, f);
    ControlsDigestible(d.controls);
    if Canonicalise(Record(f)).Ok? {
      AcceptedMember(f, 14);
    }
    if DigestibleControls(d.controls) {
      ScalarsAccepted();
      TextListsAccepted(d.requiredControls);
      TextListsAccepted(d.blockers);
      FloatAccepted(d.controls.timeoutSeconds);
      RecordAccepted(f);
    }
  }

  lemma GrantEpochs(e: Engine, r: Request, call: Call, f: Findings, g: Authorization)
    requires Granted(e, r, call, f) == Ok(Some(g))
    ensures g.leaseEpoch == r.leaseEpoch && g.inventoryEpoch == r.inventory.inventoryEpoch && g.policyEpoch == r.policyEpoch
  {
    hide OutcomeOf, CheckAuthorization, Strip, OutlivesNoApproval;
  }

  lemma DraftDigestible(e: Engine, r: Request, call: Call, draft: Decision)
    requires Draft(e, r, call) == Ok(draft)
    ensures DecisionBodyDigest(e.env.hash, draft).Ok? <==> DigestibleControls(draft.controls)
  {
    hide Draft, Find, Granted, OutcomeOf, RequestDigest, ApprovalDigest, DecisionId, DecisionBodyDigest,
         DigestibleControls, SafeInt, Canonicalise, AuthorizationFields;
    var f := DraftParts(e, r, call, draft);
    if draft.authorization.Some? {
      var g := draft.authorization.value;
      GrantEpochs(e, r, call, f, g);
      RequestEpochsAreSafe(e.env.hash, r);
      AuthorizationDigestible(g);
    }
    DecisionDigestible(e.env.hash, draft);
  }

  /** Evaluation returns exactly when the request is valid, a decision can be drafted, and the controls the policy
      projects are digestible; no later check can fail. */
  lemma EvaluationReturnsWhen(e: Engine, r: Request, call: Call)
    requires SoundEngine(e)
    ensures EvaluateGovernance(e, r, call).Ok? <==>
              Valid(e.env, r) && Draft(e, r, call).Ok? && DigestibleControls(Draft(e, r, call).value.controls)
  {
    hide EvaluateGovernance, Draft, ValidateRequest, DecisionBodyDigest, SoundEngine, DigestibleControls;
    EvaluationReturnsExactly(e, r, call);
    if Draft(e, r, call).Ok? {
      DraftDigestible(e, r, call, Draft(e, r, call).value);
    }
  }
}
