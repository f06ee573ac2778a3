/** Exactly which appends the development ledger accepts, and a run of accepted appends past the read limit. */
module LedgerAcceptance {
  import opened Prelude
  import opened PyStrings
  import opened PyValues
  import opened CanonicalRecord
  import opened Readback
  import opened RecordText
  import opened BoundedTraversal
  import opened BoundedCopy
  import opened CopiedRecords
  import opened AuditLedger
  import opened LedgerAdapter

  // ------------------------------------------------------- settled records

  /** Reading the record back changes nothing but tuples in its metadata. */
  ghost predicate Settled(host: Host, r: AuditRecord) {
    && r.recordId != "" && Trimmed(r.recordId) && r.subjectRef != "" && Trimmed(r.subjectRef)
    && Trimmed(r.decisionRef) && r.reasonCode != "" && Trimmed(r.reasonCode) && Trimmed(r.recordedAt)
    && r.metadata.Dict? && Copy(DEFAULT_LIMITS, true, r.metadata).Ok? && host.clean(Listed(r.metadata))
  }

  lemma SettledRereads(host: Host, r: AuditRecord)
    requires Settled(host, r) && WellFormed(r.metadata)
    ensures Reread(host, r) == Ok(r.(metadata := Listed(r.metadata))) && host.clean(Listed(r.metadata))
  {
    hide Strip, Trimmed, Copy, Listed, WellFormed;
    CopyExact(DEFAULT_LIMITS, true, r.metadata);
    StripTrims(r.recordId);
    StripTrims(r.subjectRef);
    StripTrims(r.decisionRef);
    StripTrims(r.reasonCode);
    StripTrims(r.recordedAt);
  }

  lemma RereadIsSettled(host: Host, r: AuditRecord, back: AuditRecord)
    requires WellFormed(r.metadata) && Reread(host, r) == Ok(back)
    requires SameRecord(back, r)
    ensures Settled(host, r) && back == r.(metadata := Listed(r.metadata))
  {
    hide Strip, Trimmed, Copy, Listed, WellFormed, Denote;
    CopyExact(DEFAULT_LIMITS, true, r.metadata);
    StripTrims(r.recordId);
    StripTrims(r.subjectRef);
    StripTrims(r.decisionRef);
    StripTrims(r.reasonCode);
    StripTrims(r.recordedAt);
    RecordedIsTrimmed();
  }

  lemma RecordedIsTrimmed()
    ensures Strip("recorded") == "recorded"
  {
    StripTrims("recorded");
  }

  /** What is read back is settled: reading it once more changes nothing. */
  lemma RereadIsStable(host: Host, r: AuditRecord, back: AuditRecord)
    requires WellFormed(r.metadata) && Reread(host, r) == Ok(back)
    ensures Reread(host, back) == Ok(back)
  {
    hide Strip, Trimmed, CopyFrom, Listed, WellFormed;
    StripTrims(r.recordId);
    StripTrims(r.subjectRef);
    StripTrims(r.decisionRef);
    StripTrims(r.reasonCode);
    StripTrims(r.recordedAt);
    StripTrims(Strip(r.recordId));
    StripTrims(Strip(r.subjectRef));
    StripTrims(Strip(r.decisionRef));
    StripTrims(Strip(r.reasonCode));
    StripTrims(Strip(r.recordedAt));
    RecordedIsTrimmed();
    CopyExact(DEFAULT_LIMITS, true, r.metadata);
    CopyIsFixedPoint(DEFAULT_LIMITS, true, true, r.metadata);
    ListedKeepsDict(r.metadata);
  }

  lemma ListedKeepsDict(v: Value)
    ensures Listed(v).Dict? <==> v.Dict?
  {
  }

  /** A settled record and what is read back have the same digest, alone and inside an entry. */
  lemma SettledDigests(host: Host, e: LedgerEntry)
    ensures var back := e.record.(metadata := Listed(e.record.metadata));
            && Canonicalise(Record(RecordFields(back))) == Canonicalise(Record(RecordFields(e.record)))
            && AuditRecordDigest(host, back) == AuditRecordDigest(host, e.record)
            && EntryDigest(host, e.(record := back)) == EntryDigest(host, e)
  {
    hide Canonicalise, S, N, Texts, Record, RecordDigest, Listed;
    var r := e.record;
    var back := r.(metadata := Listed(r.metadata));
    ListedCanonicalises(r.metadata);
    RecordCongruence(RecordFields(back), RecordFields(r));
    SameCanonicalSameDigest(host.hash, RECORD_TYPE, Record(RecordFields(back)), Record(RecordFields(r)));
    SettledEntry(host, e, back);
  }

  lemma SettledEntry(host: Host, e: LedgerEntry, back: AuditRecord)
    requires Canonicalise(Record(RecordFields(back))) == Canonicalise(Record(RecordFields(e.record)))
    ensures EntryDigest(host, e.(record := back)) == EntryDigest(host, e)
  {
    hide Canonicalise, S, N, RecordFields, Record, RecordDigest;
    RecordCongruence(EntryFields(e.(record := back)), EntryFields(e));
    SameCanonicalSameDigest(host.hash, ENTRY_TYPE, Record(EntryFields(e.(record := back))), Record(EntryFields(e)));
  }

  // ---------------------------------------------------------- acceptance

  /** The canonical texts of a record and of what is read back. */
  function RecordTexts(host: Host, r: AuditRecord): set<string> {
    {RecordTextOf(r)} + (if Reread(host, r).Ok? then {RecordTextOf(Reread(host, r).value)} else {})
  }

  function RecordTextOf(r: AuditRecord): string {
    match CanonicalText(RECORD_TYPE, "v1", Record(RecordFields(r)))
    case Ok(text) => text
    case Err(_) => ""
  }

  /** What a caller can check before appending after `seen`. */
  ghost predicate Acceptable(host: Host, seen: seq<LedgerEntry>, q: AppendRequest) {
    && ValidateRecord(host, q.record).Ok? && Settled(host, q.record)
    && AuditRecordDigest(host, q.record) == Ok(Strip(q.recordDigest))
    && (Strip(q.eventDigest) == "" || IsSha256(Strip(q.eventDigest)))
    && (Strip(q.previousDigest) == "" || Strip(q.previousDigest) == HeadDigest(seen))
    && host.clean(ADAPTER_METADATA)
  }

  lemma DigestedIsAccepted(h: Hash, recordType: string, v: Value)
    requires RecordDigest(h, recordType, "v1", v).Ok?
    ensures Canonicalise(v).Ok?
  {
    hide Canonicalise, Strip, HasPrefix, Print;
  }

  lemma MembersAccepted()
    ensures forall s: string :: Canonicalise(S(s)).Ok?
    ensures forall i :: 0 <= i <= DEFAULT_READ_LIMIT ==> Canonicalise(N(i)).Ok?
    ensures Canonicalise(ADAPTER_METADATA).Ok?
  {
    RecordAccepted([("adapter", S("jsonl_hash_chain_dev")), ("storage", S("development_only"))]);
  }

  /** An entry whose record has a digest has one itself. */
  lemma EntryIsDigestible(host: Host, e: LedgerEntry)
    requires AuditRecordDigest(host, e.record).Ok? && 0 <= e.sequence <= DEFAULT_READ_LIMIT
    requires e.metadata == ADAPTER_METADATA
    ensures EntryDigest(host, e).Ok?
  {
    hide Canonicalise, Record, RecordFields, S, N, RecordDigest;
    DigestedIsAccepted(host.hash, RECORD_TYPE, Record(RecordFields(e.record)));
    MembersAccepted();
    RecordAccepted(EntryFields(e));
    EntryTypeIsOwned(host, e);
  }

  lemma EntryTypeIsOwned(host: Host, e: LedgerEntry)
    requires Canonicalise(Record(EntryFields(e))).Ok?
    ensures EntryDigest(host, e).Ok?
  {
    hide Canonicalise, EntryFields, Print, Record;
    StripTrims(ENTRY_TYPE);
    assert ENTRY_TYPE[..10] == "govengine.";
  }

  lemma HeadForm(host: Host, seen: seq<LedgerEntry>)
    requires AllValid(host, seen)
    ensures HeadDigest(seen) == "" || IsSha256(HeadDigest(seen))
  {
    if seen != [] {
      var last := seen[|seen| - 1];
      assert ValidEntry(host, last);
      EntryForm(host, last);
    }
  }

  lemma EntryForm(host: Host, e: LedgerEntry)
    requires ValidEntry(host, e)
    ensures e.entryDigest == "" || IsSha256(e.entryDigest)
  {
    hide IsSha256, AuditRecordDigest, EntryDigest, ValidateRecord;
  }

  /** The unsealed entry is valid exactly when record, digests and adapter metadata are in order. */
  lemma UnsealedExactly(host: Host, seen: seq<LedgerEntry>, q: AppendRequest)
    requires HexHash(host.hash) && (HeadDigest(seen) == "" || IsSha256(HeadDigest(seen)))
    ensures ValidEntry(host, Unsealed(seen, q)) <==>
              && ValidateRecord(host, q.record).Ok?
              && AuditRecordDigest(host, q.record) == Ok(Strip(q.recordDigest))
              && (Strip(q.eventDigest) == "" || IsSha256(Strip(q.eventDigest)))
              && host.clean(ADAPTER_METADATA)
  {
    hide IsSha256, RecordDigest, EntryDigest, ValidateRecord, RecordFields, Strip, PrintInt;
    DigestShape(host.hash, RECORD_TYPE, "v1", Record(RecordFields(q.record)));
    EmptyIsNoForm();
    assert Unsealed(seen, q).entryId[0] == 'a';
  }

  lemma EmptyIsNoForm()
    ensures !IsSha256("")
  {
  }

  /** For a valid unsealed entry, sealing succeeds exactly when the record is settled. */
  lemma SealingExactly(host: Host, seen: seq<LedgerEntry>, q: AppendRequest)
    requires HexHash(host.hash) && |seen| <= DEFAULT_READ_LIMIT && ValidEntry(host, Unsealed(seen, q))
    requires ValidateRecord(host, q.record).Ok? && AuditRecordDigest(host, q.record) == Ok(Strip(q.recordDigest))
    requires WellFormed(q.record.metadata) && Unsplit(q.record.metadata)
    requires NoCollision(host.hash, RecordTexts(host, q.record))
    ensures NewEntry(host, seen, q).Ok? <==> Settled(host, q.record)
  {
    hide ValidateEntry, EntryDigest, Reread, AuditRecordDigest, Settled, ValidateRecord, Strip, RecordTexts, Listed,
         PrintInt;
    var entry := Unsealed(seen, q);
    EntryIsDigestible(host, entry);
    if Settled(host, q.record) {
      SettledRereads(host, q.record);
      SettledDigests(host, entry);
      var digest := EntryDigest(host, entry).value;
      SealedIsValid(host, entry, q.record.(metadata := Listed(q.record.metadata)), digest);
    }
    if NewEntry(host, seen, q).Ok? {
      var back := Reread(host, q.record).value;
      var stored := entry.(record := back, entryDigest := EntryDigest(host, entry).value);
      StoredRecordDigest(host, stored);
      SameDigestSameRecord(host, q.record, back);
      RereadIsSettled(host, q.record, back);
    }
  }

  lemma StoredRecordDigest(host: Host, e: LedgerEntry)
    requires ValidEntry(host, e)
    ensures AuditRecordDigest(host, e.record) == Ok(e.recordDigest)
  {
    hide IsSha256, AuditRecordDigest, EntryDigest, ValidateRecord;
  }

  lemma SameDigestSameRecord(host: Host, r: AuditRecord, back: AuditRecord)
    requires Reread(host, r) == Ok(back) && WellFormed(r.metadata) && Unsplit(r.metadata)
    requires AuditRecordDigest(host, r).Ok? && AuditRecordDigest(host, r) == AuditRecordDigest(host, back)
    requires NoCollision(host.hash, RecordTexts(host, r))
    ensures SameRecord(back, r)
  {
    hide CanonicalText, RecordFields, Canonicalise, Listed, Unsplit, WellFormed, Copy, Strip, Denote;
    CopyExact(DEFAULT_LIMITS, true, r.metadata);
    ListedUnsplit(r.metadata);
    RecordFieldsUnsplit(r);
    RecordFieldsUnsplit(back);
    DigestBinds(host.hash, RECORD_TYPE, "v1", Record(RecordFields(r)), RECORD_TYPE, "v1", Record(RecordFields(back)));
    RecordFieldsBind(back, r);
  }

  lemma SealedIsValid(host: Host, entry: LedgerEntry, back: AuditRecord, digest: string)
    requires HexHash(host.hash) && ValidEntry(host, entry) && entry.entryDigest == ""
    requires back == entry.record.(metadata := back.metadata) && host.clean(back.metadata)
    requires AuditRecordDigest(host, back) == AuditRecordDigest(host, entry.record)
    requires EntryDigest(host, entry) == Ok(digest) && EntryDigest(host, entry.(record := back)) == Ok(digest)
    ensures ValidEntry(host, entry.(record := back, entryDigest := digest))
  {
    hide IsSha256, RecordDigest, RecordFields, S, N, Record;
    DigestShape(host.hash, ENTRY_TYPE, "v1", Record(EntryFields(entry)));
    DigestIgnoresItself(host, entry.(record := back), digest);
    EmptyIsNoForm();
  }

  lemma DigestIgnoresItself(host: Host, e: LedgerEntry, digest: string)
    ensures EntryDigest(host, e.(entryDigest := digest)) == EntryDigest(host, e)
  {
    hide RecordDigest, RecordFields, S, N, Record;
    assert EntryFields(e.(entryDigest := digest)) == EntryFields(e);
  }

  /** Exactly the acceptable requests are appended, on a file of valid entries of any length. */
  lemma AppendAcceptedExactly(host: Host, entries: seq<LedgerEntry>, q: AppendRequest)
    requires HexHash(host.hash) && AllValid(host, entries)
    requires WellFormed(q.record.metadata) && Unsplit(q.record.metadata)
    requires NoCollision(host.hash, RecordTexts(host, q.record))
    ensures AppendOf(host, Rows(entries), q).0.Appended? <==> Acceptable(host, Seen(entries), q)
  {
    hide ValidateEntry, EntryDigest, NewEntry, AuditRecordDigest, Settled, ValidateRecord, Strip, RecordTexts, ReadOf,
         IsSha256;
    var seen := Seen(entries);
    PageExact(host, entries, "", DEFAULT_READ_LIMIT);
    HeadForm(host, seen);
    UnsealedExactly(host, seen, q);
    NewEntryNeedsUnsealed(host, seen, q);
    if ValidEntry(host, Unsealed(seen, q)) {
      SealingExactly(host, seen, q);
    }
  }

  lemma NewEntryNeedsUnsealed(host: Host, seen: seq<LedgerEntry>, q: AppendRequest)
    ensures NewEntry(host, seen, q).Ok? ==> ValidEntry(host, Unsealed(seen, q))
  {
    hide ValidateEntry, EntryDigest, Reread;
  }

  // ------------------------------------------------ a run past the read limit

  function Repeat(q: AppendRequest, n: nat): (r: seq<AppendRequest>)
    ensures |r| == n
  {
    seq(n, _ => q)
  }

  /** Appending one acceptable request, which names no previous digest, again and again is accepted every time. */
  lemma {:induction false} RepeatedAppends(host: Host, q: AppendRequest, n: nat) returns (entries: seq<LedgerEntry>)
    requires HexHash(host.hash) && WellFormed(q.record.metadata) && Unsplit(q.record.metadata)
    requires NoCollision(host.hash, RecordTexts(host, q.record))
    requires Acceptable(host, [], q) && Strip(q.previousDigest) == ""
    ensures RunLines(host, Repeat(q, n)) == Rows(entries) && RunInvariant(host, entries) && |entries| == n
  {
    hide ValidateEntry, EntryDigest, NewEntry, AppendOf, Settled, ValidateRecord, AuditRecordDigest, RecordTexts,
         RunInvariant, Strip;
    if n == 0 {
      entries := [];
      EmptyRun(host);
    } else {
      entries := RepeatedAppends(host, q, n - 1);
      assert Repeat(q, n)[..n - 1] == Repeat(q, n - 1) && Repeat(q, n)[n - 1] == q;
      InvariantValid(host, entries);
      AppendAcceptedExactly(host, entries, q);
      AppendExact(host, entries, q);
      NewEntryFacts(host, Seen(entries), q);
      var e := NewEntry(host, Seen(entries), q).value;
      StepKeepsInvariant(host, entries, e);
      entries := entries + [e];
    }
  }

  /** A plain record and the request that appends it. */
  const PLAIN := AuditRecord("r", "operator_review", "s", "v0.1", "task", "", "recorded", [], "", Dict([]))

  /** For any host whose key check lets empty metadata and the adapter's own through: 102 accepted appends, the first
      101 of which leave a ledger that verifies, the last one a ledger that does not. */
  lemma HundredAndSecondAppend(host: Host) returns (q: AppendRequest, before: seq<LedgerEntry>, after: seq<LedgerEntry>)
    requires HexHash(host.hash) && host.clean(Dict([])) && host.clean(ADAPTER_METADATA)
    ensures RunLines(host, Repeat(q, 101)) == Rows(before) && |before| == 101
    ensures VerificationOf(host, before).Verified?
    ensures RunLines(host, Repeat(q, 102)) == Rows(after) && |after| == 102
    ensures VerificationOf(host, after) == Failed("audit_ledger_sequence_mismatch")
  {
    hide VerificationOf, RunInvariant, Acceptable, RunLines, RecordTexts;
    q := PlainRequest(host);
    before := RepeatedAppends(host, q, 101);
    after := RepeatedAppends(host, q, 102);
    InvariantVerdict(host, before);
    InvariantVerdict(host, after);
  }

  lemma PlainRequest(host: Host) returns (q: AppendRequest)
    requires HexHash(host.hash) && host.clean(Dict([])) && host.clean(ADAPTER_METADATA)
    ensures WellFormed(q.record.metadata) && Unsplit(q.record.metadata)
    ensures NoCollision(host.hash, RecordTexts(host, q.record))
    ensures Acceptable(host, [], q) && Strip(q.previousDigest) == ""
  {
    hide RecordFields, RecordDigest, IsSha256, Strip;
    PlainIsDigestible(host);
    var digest := AuditRecordDigest(host, PLAIN).value;
    q := AppendRequest(PLAIN, digest, "", "");
    DigestShape(host.hash, RECORD_TYPE, "v1", Record(RecordFields(PLAIN)));
    FormIsTrimmed(digest);
    PlainIsSettled(host);
    SettledRereads(host, PLAIN);
    assert Listed(Dict([])) == Dict([]);
    StripTrims("");
  }

  lemma PlainIsSettled(host: Host)
    requires host.clean(Dict([]))
    ensures Settled(host, PLAIN)
  {
    assert Listed(Dict([])) == Dict([]);
  }

  lemma PlainIsDigestible(host: Host)
    ensures AuditRecordDigest(host, PLAIN).Ok?
  {
    hide Canonicalise, S, Print, Record, Texts;
    var f := RecordFields(PLAIN);
    MembersAccepted();
    assert Canonicalise(Texts([])).Ok? && Canonicalise(Dict([])).Ok? by { EmptyAccepted(); }
    RecordAccepted(f);
    StripTrims(RECORD_TYPE);
    assert RECORD_TYPE[..10] == "govengine.";
  }

  lemma EmptyAccepted()
    ensures Canonicalise(Texts([])).Ok? && Canonicalise(Dict([])).Ok?
  {
  }

  lemma FormIsTrimmed(digest: string)
    requires IsSha256(digest)
    ensures Strip(digest) == digest
  {
    StripTrims(digest);
    assert digest[0] == digest[..7][0] && digest[70] == digest[7..][63];
  }
}
