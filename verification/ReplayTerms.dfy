/** Replay answers in plain terms: on the members of the claimed record and of the records seen before, when
    `evaluate_guard_replay` in `govengine/replay.py` answers fresh, and what it answers otherwise. */
module ReplayTerms {
  import opened Prelude
  import opened PyStrings
  import opened PyValues
  import opened Replay
  import opened ReplayStores

  /** The same guarded payload again: one digest, one key, and one ticket or, without a ticket, one chain. */
  ghost predicate SamePayload(r: ReplayRecord, p: ReplayRecord) {
    && r.rootChainDigest != "" && p.rootChainDigest == r.rootChainDigest && p.keyId == r.keyId
    && (if p.ticketId == "" then p.chainId else p.ticketId) == (if r.ticketId == "" then r.chainId else r.ticketId)
  }

  /** The same guard root again: one root tag, one chain and one key. */
  ghost predicate SameRoot(r: ReplayRecord, p: ReplayRecord) {
    p.rootTag == r.rootTag && p.chainId == r.chainId && p.keyId == r.keyId
  }

  lemma RelatedAre(r: ReplayRecord, p: ReplayRecord)
    ensures Related(r, p) <==> SamePayload(r, p) || SameRoot(r, p)
    ensures SemanticReplay(r, p) <==> SamePayload(r, p)
  {
  }

  /** A claim is fresh exactly when no earlier record has its payload or its root, and is then allowed. */
  lemma FreshExactly(r: ReplayRecord, priors: seq<ReplayRecord>, requireFresh: bool)
    ensures Evaluate(r, priors, requireFresh).replayStatus == Fresh <==>
              forall i :: 0 <= i < |priors| ==> !SamePayload(r, priors[i]) && !SameRoot(r, priors[i])
    ensures Evaluate(r, priors, requireFresh).replayStatus == Fresh ==>
              Evaluate(r, priors, requireFresh) == Decision(true, Fresh, r, None, "")
  {
    hide Related, Evaluate, SamePayload, SameRoot, SemanticReplay;
    EvaluateExact(r, priors, requireFresh);
    forall i | 0 <= i < |priors|
      ensures Related(r, priors[i]) <==> SamePayload(r, priors[i]) || SameRoot(r, priors[i])
    {
      RelatedAre(r, priors[i]);
    }
  }

  /** Any other claim is answered by the earliest record with its payload or its root; where freshness is required it
      is blocked, and the blocker says which of the two it was. */
  lemma RepeatedExactly(r: ReplayRecord, priors: seq<ReplayRecord>, requireFresh: bool) returns (i: nat)
    requires Evaluate(r, priors, requireFresh).replayStatus != Fresh
    ensures i < |priors| && (SamePayload(r, priors[i]) || SameRoot(r, priors[i]))
    ensures forall j :: 0 <= j < i ==> !SamePayload(r, priors[j]) && !SameRoot(r, priors[j])
    ensures !requireFresh ==> Evaluate(r, priors, requireFresh) == Decision(true, Seen, r, Some(priors[i]), "")
    ensures requireFresh && SamePayload(r, priors[i]) ==>
              Evaluate(r, priors, requireFresh)
              == Decision(false, Replayed, r, Some(priors[i]), "replayed_guarded_payload:" + r.rootChainDigest)
    ensures requireFresh && !SamePayload(r, priors[i]) ==>
              Evaluate(r, priors, requireFresh)
              == Decision(false, Replayed, r, Some(priors[i]), "replayed_guard_root:" + r.rootTag)
  {
    hide Related, Evaluate, SamePayload, SameRoot, SemanticReplay;
    EvaluateExact(r, priors, requireFresh);
    i :| 0 <= i < |priors| && Related(r, priors[i]) && (forall j :: 0 <= j < i ==> !Related(r, priors[j]))
         && Evaluate(r, priors, requireFresh) == Hit(r, priors[i], requireFresh);
    forall j | 0 <= j < |priors|
      ensures Related(r, priors[j]) <==> SamePayload(r, priors[j]) || SameRoot(r, priors[j])
    {
      RelatedAre(r, priors[j]);
    }
    RelatedAre(r, priors[i]);
  }

  /** Another key, or both another root and another payload digest, is never a replay. */
  lemma OtherPayloadsAreFresh(r: ReplayRecord, priors: seq<ReplayRecord>, requireFresh: bool)
    requires forall i :: 0 <= i < |priors| ==>
               priors[i].keyId != r.keyId
               || (priors[i].rootTag != r.rootTag && priors[i].rootChainDigest != r.rootChainDigest)
    ensures Evaluate(r, priors, requireFresh) == Decision(true, Fresh, r, None, "")
  {
    hide Evaluate;
    FreshExactly(r, priors, requireFresh);
  }

  /** A payload guarded again under a new root tag is not fresh, nor is a root seen before with any other payload. */
  lemma SeenPayloadIsNotFresh(r: ReplayRecord, priors: seq<ReplayRecord>, i: nat, requireFresh: bool)
    requires i < |priors| && priors[i].keyId == r.keyId
    requires || (priors[i].rootTag == r.rootTag && priors[i].chainId == r.chainId)
             || (priors[i].rootChainDigest == r.rootChainDigest != ""
                 && priors[i].ticketId == r.ticketId && (r.ticketId == "" ==> priors[i].chainId == r.chainId))
    ensures Evaluate(r, priors, requireFresh).replayStatus != Fresh
    ensures Evaluate(r, priors, requireFresh).allowed == !requireFresh
  {
    hide Evaluate;
    FreshExactly(r, priors, requireFresh);
    if Evaluate(r, priors, requireFresh).replayStatus != Fresh {
      var _ := RepeatedExactly(r, priors, requireFresh);
    }
  }

  /** After a record with a payload digest and a ticket, a claim that differs in exactly the members named: which
      changes make it fresh. */
  lemma OneMemberApart(r: ReplayRecord, x: string, y: string)
    requires r.rootChainDigest != "" && r.ticketId != "" && x != ""
    ensures Evaluate(r.(keyId := x), [r], true).replayStatus == Fresh <==> x != r.keyId
    ensures Evaluate(r.(rootTag := x), [r], true).blocker == "replayed_guarded_payload:" + r.rootChainDigest
    ensures x != r.rootChainDigest ==>
              Evaluate(r.(rootChainDigest := x), [r], true).blocker == "replayed_guard_root:" + r.rootTag
    ensures Evaluate(r.(rootTag := y, rootChainDigest := x), [r], true).replayStatus == Fresh <==>
              y != r.rootTag && x != r.rootChainDigest
    ensures Evaluate(r.(rootTag := y, ticketId := x), [r], true).replayStatus == Fresh <==>
              y != r.rootTag && x != r.ticketId
    ensures Evaluate(r.(chainId := x), [r], true).blocker == "replayed_guarded_payload:" + r.rootChainDigest
    ensures x != r.rootChainDigest ==>
              (Evaluate(r.(rootChainDigest := x, chainId := y), [r], true).replayStatus == Fresh <==> y != r.chainId)
  {
  }

  /** Without tickets the chain takes their place. */
  lemma ChainApart(r: ReplayRecord, chain: string, root: string)
    requires r.rootChainDigest != "" && r.ticketId == ""
    ensures Evaluate(r.(rootTag := root, chainId := chain), [r], true).replayStatus == Fresh <==> chain != r.chainId
  {
  }

  /** Without a payload digest only the root counts. */
  lemma DigestlessApart(r: ReplayRecord, root: string)
    requires r.rootChainDigest == ""
    ensures Evaluate(r.(rootTag := root), [r], true).replayStatus == Fresh <==> root != r.rootTag
  {
  }

  // --------------------------------------------------------- stored records

  /** A stored member as text: nothing where it is absent or null, the text itself, or what the value shows as. */
  ghost function Read(raw: RawRecord, m: Member): string {
    if m !in raw || raw[m] == Null then ""
    else if raw[m].StrCell? then raw[m].s
    else raw[m].shown
  }

  /** A stored record is read exactly when root tag, chain and key are not blank; the first blank one gives the reason. */
  lemma RecordReadExactly(raw: RawRecord)
    ensures FromMapping(raw).Ok? <==>
              Strip(Read(raw, RootTag)) != "" && Strip(Read(raw, ChainId)) != "" && Strip(Read(raw, KeyId)) != ""
    ensures Strip(Read(raw, RootTag)) == "" ==> FromMapping(raw) == Err("missing_root_tag")
    ensures Strip(Read(raw, RootTag)) != "" && Strip(Read(raw, ChainId)) == "" ==>
              FromMapping(raw) == Err("missing_chain_id")
    ensures Strip(Read(raw, RootTag)) != "" && Strip(Read(raw, ChainId)) != "" && Strip(Read(raw, KeyId)) == "" ==>
              FromMapping(raw) == Err("missing_key_id")
  {
    hide Strip;
  }

  /** What is read: three members stripped, the version and the profile (with its older name) defaulted, the others as
      they are. */
  lemma RecordReadMembers(raw: RawRecord, r: ReplayRecord)
    requires FromMapping(raw) == Ok(r)
    ensures r.rootTag == Strip(Read(raw, RootTag)) && r.chainId == Strip(Read(raw, ChainId))
    ensures r.keyId == Strip(Read(raw, KeyId)) && r.rootChainDigest == Read(raw, RootChainDigest)
    ensures r.ticketId == Read(raw, TicketId) && r.runId == Read(raw, RunId) && r.observedAt == Read(raw, ObservedAt)
    ensures r.schemaVersion == if Read(raw, SchemaVersion) == "" then "v0.1" else Read(raw, SchemaVersion)
    ensures Read(raw, GuardProfile) != "" ==> r.guardProfile == Read(raw, GuardProfile)
    ensures Read(raw, GuardProfile) == "" && Read(raw, Profile) != "" ==> r.guardProfile == Read(raw, Profile)
    ensures Read(raw, GuardProfile) == "" && Read(raw, Profile) == "" ==> r.guardProfile == "kernel_guard_hmac_v1"
    ensures Metadata in raw && raw[Metadata].Object? ==> r.metadata == raw[Metadata].value
    ensures !(Metadata in raw && raw[Metadata].Object?) ==> r.metadata == Dict([])
  {
    hide Strip;
  }

  /** The items that are records, each read. */
  ghost predicate ReadFrom(items: seq<StoredItem>, records: seq<ReplayRecord>) {
    && (forall i :: 0 <= i < |items| && items[i].StoredRecord? ==>
          FromMapping(items[i].raw).Ok? && FromMapping(items[i].raw).value in records)
    && (forall r :: r in records ==>
          exists i :: 0 <= i < |items| && items[i].StoredRecord? && FromMapping(items[i].raw) == Ok(r))
  }

  lemma {:induction false} ItemsReadExactly(items: seq<StoredItem>)
    ensures ReadItems(items).Ok? <==>
              forall i :: 0 <= i < |items| && items[i].StoredRecord? ==> FromMapping(items[i].raw).Ok?
    ensures ReadItems(items).Ok? ==> ReadFrom(items, ReadItems(items).value)
    ensures ReadItems(items).Ok? && (forall i :: 0 <= i < |items| ==> items[i].StoredRecord?) ==>
              |ReadItems(items).value| == |items|
              && forall i :: 0 <= i < |items| ==> FromMapping(items[i].raw) == Ok(ReadItems(items).value[i])
  {
    hide FromMapping;
    if items != [] {
      var rest := items[1..];
      ItemsReadExactly(rest);
      assert forall i :: 1 <= i < |items| ==> items[i] == rest[i - 1];
      assert forall i :: 0 <= i < |rest| ==> items[i + 1] == rest[i];
      if ReadItems(items).Ok? {
        var records := ReadItems(items).value;
        forall r | r in records
          ensures exists i :: 0 <= i < |items| && items[i].StoredRecord? && FromMapping(items[i].raw) == Ok(r)
        {
          if items[0].StoredRecord? && r == FromMapping(items[0].raw).value {
            assert FromMapping(items[0].raw) == Ok(r);
          } else {
            var i :| 0 <= i < |rest| && rest[i].StoredRecord? && FromMapping(rest[i].raw) == Ok(r);
            assert FromMapping(items[i + 1].raw) == Ok(r);
          }
        }
      }
    }
  }

  /** A file is let through exactly when it is a mapping of the right type and version whose list holds nothing but
      readable records, and its records are these, in order. */
  lemma FileReadExactly(v: Stored)
    ensures NormaliseFileStore(v).Ok? <==>
              && v.Store? && v.artifactType == StrCell("guard_replay_store") && v.schemaVersion == StrCell("v0.1")
              && v.records.Some?
              && forall i :: 0 <= i < |v.records.value| ==>
                   v.records.value[i].StoredRecord? && FromMapping(v.records.value[i].raw).Ok?
    ensures NormaliseFileStore(v).Ok? ==>
              && |NormaliseFileStore(v).value| == |v.records.value|
              && forall i :: 0 <= i < |v.records.value| ==>
                   FromMapping(v.records.value[i].raw) == Ok(NormaliseFileStore(v).value[i])
  {
    hide FromMapping, ReadItems;
    if v.Store? && v.records.Some? {
      ItemsReadExactly(v.records.value);
    }
  }

  /** A state store gives its readable records, or none where it holds no list; other items are passed over. */
  lemma StateReadExactly(v: Stored)
    ensures v.NoMapping? || v.records.None? ==> RecordsFromStore(v) == Ok([])
    ensures v.Store? && v.records.Some? && RecordsFromStore(v).Ok? ==> ReadFrom(v.records.value, RecordsFromStore(v).value)
    ensures v.Store? && v.records.Some? ==>
              (RecordsFromStore(v).Ok? <==>
                 forall i :: 0 <= i < |v.records.value| && v.records.value[i].StoredRecord? ==>
                   FromMapping(v.records.value[i].raw).Ok?)
  {
    hide FromMapping, ReadItems;
    if v.Store? && v.records.Some? {
      ItemsReadExactly(v.records.value);
    }
  }

  /** A file that is no JSON, or not let through, blocks under a name of its own and stays as it is; a missing one is
      empty. */
  lemma UnreadableFileAnswers(f: FileState, r: ReplayRecord, requireFresh: bool)
    ensures f == InvalidJson ==>
              ClaimFile(f, r, requireFresh) == (Decision(false, Unusable, r, None, "guard_replay_store_invalid_json"), f)
    ensures f.Parsed? && NormaliseFileStore(f.value).Err? ==>
              ClaimFile(f, r, requireFresh) == (Decision(false, Unusable, r, None, "guard_replay_store_invalid_shape"), f)
    ensures f == Missing ==>
              ClaimFile(f, r, requireFresh)
              == (Decision(true, Fresh, r, None, ""), Parsed(StoreFromRecords([r])))
    ensures f.Parsed? && NormaliseFileStore(f.value).Ok? ==>
              ClaimFile(f, r, requireFresh).0 == Evaluate(r, NormaliseFileStore(f.value).value, requireFresh)
  {
    hide NormaliseFileStore, StoreFromRecords;
    assert [] + [r] == [r];
  }

  /** What is written: type, version, and every record member under its own name. */
  lemma WrittenExactly(records: seq<ReplayRecord>, i: nat)
    requires i < |records|
    ensures var v := StoreFromRecords(records);
            && v.Store? && v.artifactType == StrCell("guard_replay_store") && v.schemaVersion == StrCell("v0.1")
            && v.records.Some? && |v.records.value| == |records| && v.records.value[i].StoredRecord?
            && var raw, r := v.records.value[i].raw, records[i];
               && Read(raw, RootTag) == r.rootTag && Read(raw, ChainId) == r.chainId && Read(raw, KeyId) == r.keyId
               && Read(raw, SchemaVersion) == r.schemaVersion && Read(raw, RootChainDigest) == r.rootChainDigest
               && Read(raw, TicketId) == r.ticketId && Read(raw, RunId) == r.runId
               && Read(raw, GuardProfile) == r.guardProfile && Read(raw, ObservedAt) == r.observedAt
  {
  }
}
