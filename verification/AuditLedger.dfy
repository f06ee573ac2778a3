/** The entries of the development hash-chain ledger (`govengine/admission.py`): validation, chain verification, and why
    the last digest determines the whole chain. */
module AuditLedger {
  import opened Prelude
  import opened PyStrings
  import opened PyValues
  import opened CanonicalRecord
  import opened Readback
  import opened RecordText
  import opened BoundedTraversal

  const DEFAULT_READ_LIMIT := 100

  datatype AuditRecord = AuditRecord(
    recordId: string, recordType: string, subjectRef: string, schemaVersion: string,
    subjectKind: string, decisionRef: string, reasonCode: string, eventRefs: seq<string>,
    recordedAt: string, metadata: Value)

  datatype LedgerEntry = LedgerEntry(
    entryId: string, sequence: int, record: AuditRecord, recordDigest: string,
    schemaVersion: string, eventDigest: string, previousDigest: string, entryDigest: string,
    recordedAt: string, metadata: Value)

  /** The hash, and the forbidden-key check on metadata. */
  datatype Host = Host(hash: Hash, clean: Value -> bool)

  datatype LedgerError = Refused(reason: string) | Undigestible(error: RecordError) | OutOfBounds(breach: Breach)

  function Lift<T>(r: Result<T, RecordError>): Result<T, LedgerError> {
    match r
    case Ok(v) => Ok(v)
    case Err(e) => Err(Undigestible(e))
  }

  // ------------------------------------------------------ records and digests

  function RecordFields(r: AuditRecord): seq<(string, Value)> {
    [("record_id", S(r.recordId)), ("record_type", S(r.recordType)), ("subject_ref", S(r.subjectRef)),
     ("schema_version", S(r.schemaVersion)), ("subject_kind", S(r.subjectKind)),
     ("decision_ref", S(r.decisionRef)), ("reason_code", S(r.reasonCode)),
     ("event_refs", Texts(r.eventRefs)), ("recorded_at", S(r.recordedAt)), ("metadata", r.metadata)]
  }

  /** The digest payload: the entry's own digest is cleared, an empty schema version is dropped. */
  function EntryFields(e: LedgerEntry): seq<(string, Value)> {
    [("entry_id", S(e.entryId)), ("sequence", N(e.sequence)), ("record", Record(RecordFields(e.record))),
     ("record_digest", S(e.recordDigest)), ("event_digest", S(e.eventDigest)),
     ("previous_entry_digest", S(e.previousDigest)), ("entry_digest", S("")),
     ("recorded_at", S(e.recordedAt)), ("metadata", e.metadata)]
    + (if e.schemaVersion == "" then [] else [("schema_version", S(e.schemaVersion))])
  }

  const ENTRY_TYPE := "govengine.admission.AuditLedgerEntry"
  const RECORD_TYPE := "govengine.admission.GovAuditRecord"

  function EntryText(e: LedgerEntry): Result<string, RecordError> {
    CanonicalText(ENTRY_TYPE, "v1", Record(EntryFields(e)))
  }

  function EntryDigest(host: Host, e: LedgerEntry): Result<string, LedgerError> {
    Lift(RecordDigest(host.hash, ENTRY_TYPE, "v1", Record(EntryFields(e))))
  }

  function AuditRecordDigest(host: Host, r: AuditRecord): Result<string, LedgerError> {
    Lift(RecordDigest(host.hash, RECORD_TYPE, "v1", Record(RecordFields(r))))
  }

  const SUBJECT_KINDS := {"task", "run", "host", "artifact", "profile", "operator_action", "generic"}
  const RECORD_TYPES := {"admission_decision", "policy_decision", "approval_request", "operator_review"}

  function ValidateRecord(host: Host, r: AuditRecord): Result<(), LedgerError> {
    if r.subjectKind !in SUBJECT_KINDS then Err(Refused("unknown_audit_subject_kind"))
    else
      :- Need(r.recordType in RECORD_TYPES, Refused("unknown_audit_record_type"));
      :- Need(r.schemaVersion == "v0.1", Refused("unknown_audit_record_schema_version"));
      :- Need(host.clean(r.metadata), Refused("forbidden_admission_metadata"));
      Ok(())
  }

  function ValidateEntry(host: Host, e: LedgerEntry): Result<(), LedgerError> {
    if e.entryId == "" then Err(Refused("missing_audit_ledger_entry_id"))
    else
      :- Need(e.sequence >= 0, Refused("invalid_audit_ledger_sequence"));
      :- Need(e.schemaVersion in {"", "v0.1"}, Refused("unknown_audit_ledger_entry_schema_version"));
      var _ :- ValidateRecord(host, e.record);
      :- Need(e.recordDigest != "", Refused("missing_audit_ledger_record_digest"));
      :- Need(IsSha256(e.recordDigest), Refused("invalid_audit_ledger_record_digest"));
      var recordDigest :- AuditRecordDigest(host, e.record);
      :- Need(e.recordDigest == recordDigest, Refused("audit_ledger_record_digest_mismatch"));
      :- Need(e.eventDigest == "" || IsSha256(e.eventDigest), Refused("invalid_audit_ledger_event_digest"));
      :- Need(e.previousDigest == "" || IsSha256(e.previousDigest), Refused("invalid_audit_ledger_previous_digest"));
      :- Need(e.entryDigest == "" || IsSha256(e.entryDigest), Refused("invalid_audit_ledger_entry_digest"));
      if e.entryDigest == "" then
        :- Need(host.clean(e.metadata), Refused("forbidden_admission_metadata"));
        Ok(())
      else
        var digest :- EntryDigest(host, e);
        :- Need(e.entryDigest == digest, Refused("audit_ledger_entry_digest_mismatch"));
        :- Need(host.clean(e.metadata), Refused("forbidden_admission_metadata"));
        Ok(())
  }

  predicate ValidEntry(host: Host, e: LedgerEntry) {
    ValidateEntry(host, e).Ok?
  }

  predicate AllValid(host: Host, entries: seq<LedgerEntry>) {
    forall i :: 0 <= i < |entries| ==> ValidEntry(host, entries[i])
  }

  // ------------------------------------------------------------- verification

  datatype Verification =
    | Raised(error: LedgerError)
    | Empty
    | Failed(reason: string)
    | Verified(count: nat, lastId: string, lastDigest: string)

  function PreviousDigest(entries: seq<LedgerEntry>, i: nat): string
    requires i <= |entries|
  {
    if i == 0 then "" else entries[i - 1].entryDigest
  }

  /** The check of one position, in the order the three conditions are tested. */
  function LinkFault(host: Host, entries: seq<LedgerEntry>, i: nat): Result<(), Verification>
    requires i < |entries|
  {
    var e := entries[i];
    :- Need(e.sequence == i, Failed("audit_ledger_sequence_mismatch"));
    :- Need(e.previousDigest == PreviousDigest(entries, i), Failed("audit_ledger_previous_digest_mismatch"));
    match EntryDigest(host, e)
    case Err(error) => Err(Raised(error))
    case Ok(digest) =>
      :- Need(e.entryDigest == digest, Failed("audit_ledger_entry_digest_mismatch"));
      Ok(())
  }

  predicate Linked(host: Host, entries: seq<LedgerEntry>, i: nat)
    requires i < |entries|
  {
    LinkFault(host, entries, i).Ok?
  }

  /** A non-empty ledger of valid entries in which every position is linked. */
  ghost predicate IntactChain(host: Host, entries: seq<LedgerEntry>) {
    entries != [] && AllValid(host, entries) && forall i :: 0 <= i < |entries| ==> Linked(host, entries, i)
  }

  function FirstInvalid(host: Host, entries: seq<LedgerEntry>, i: nat): Result<(), LedgerError>
    requires i <= |entries|
    decreases |entries| - i
  {
    if i == |entries| then Ok(())
    else
      var _ :- ValidateEntry(host, entries[i]);
      FirstInvalid(host, entries, i + 1)
  }

  function FirstFault(host: Host, entries: seq<LedgerEntry>, i: nat): Result<(), Verification>
    requires i <= |entries|
    decreases |entries| - i
  {
    if i == |entries| then Ok(())
    else
      var _ :- LinkFault(host, entries, i);
      FirstFault(host, entries, i + 1)
  }

  /** Validation of every entry, then the first faulty link. */
  function VerificationOf(host: Host, entries: seq<LedgerEntry>): Verification {
    match FirstInvalid(host, entries, 0)
    case Err(error) => Raised(error)
    case Ok(_) =>
      if entries == [] then Empty
      else
        match FirstFault(host, entries, 0)
        case Err(fault) => fault
        case Ok(_) =>
          var last := entries[|entries| - 1];
          Verified(|entries|, last.entryId, last.entryDigest)
  }

  method Verify(host: Host, entries: seq<LedgerEntry>) returns (r: Verification)
    ensures r == VerificationOf(host, entries)
  {
    hide ValidateEntry, EntryDigest;
    for i := 0 to |entries|
      invariant FirstInvalid(host, entries, 0) == FirstInvalid(host, entries, i)
    {
      var checked := ValidateEntry(host, entries[i]);
      if checked.Err? {
        return Raised(checked.error);
      }
    }
    if entries == [] {
      return Empty;
    }
    var previousDigest := "";
    for index := 0 to |entries|
      invariant previousDigest == PreviousDigest(entries, index)
      invariant FirstFault(host, entries, 0) == FirstFault(host, entries, index)
    {
      var entry := entries[index];
      if entry.sequence != index {
        return Failed("audit_ledger_sequence_mismatch");
      }
      if entry.previousDigest != previousDigest {
        return Failed("audit_ledger_previous_digest_mismatch");
      }
      var digest := EntryDigest(host, entry);
      if digest.Err? {
        return Raised(digest.error);
      }
      if entry.entryDigest != digest.value {
        return Failed("audit_ledger_entry_digest_mismatch");
      }
      previousDigest := entry.entryDigest;
    }
    var last := entries[|entries| - 1];
    return Verified(|entries|, last.entryId, last.entryDigest);
  }

  lemma {:induction false} FirstInvalidExact(host: Host, entries: seq<LedgerEntry>, i: nat)
    requires i <= |entries|
    ensures FirstInvalid(host, entries, i).Ok? <==> forall k :: i <= k < |entries| ==> ValidEntry(host, entries[k])
    decreases |entries| - i
  {
    hide ValidateEntry;
    if i < |entries| {
      FirstInvalidExact(host, entries, i + 1);
    }
  }

  lemma {:induction false} FirstFaultExact(host: Host, entries: seq<LedgerEntry>, i: nat)
    requires i <= |entries|
    ensures FirstFault(host, entries, i).Ok? <==> forall k :: i <= k < |entries| ==> Linked(host, entries, k)
    ensures FirstFault(host, entries, i).Err? ==> !FirstFault(host, entries, i).error.Verified?
    decreases |entries| - i
  {
    hide EntryDigest;
    if i < |entries| {
      assert Linked(host, entries, i) <==> LinkFault(host, entries, i).Ok?;
      FirstFaultExact(host, entries, i + 1);
    }
  }

  /** `verify` answers "verified" exactly for intact chains. */
  lemma VerifiedIffIntact(host: Host, entries: seq<LedgerEntry>)
    ensures VerificationOf(host, entries).Verified? <==> IntactChain(host, entries)
  {
    FirstInvalidExact(host, entries, 0);
    FirstFaultExact(host, entries, 0);
  }

  /** Every non-empty prefix of an intact chain is intact. */
  lemma PrefixIntact(host: Host, entries: seq<LedgerEntry>, k: nat)
    requires IntactChain(host, entries) && 0 < k <= |entries|
    ensures IntactChain(host, entries[..k])
  {
    var prefix := entries[..k];
    forall i | 0 <= i < k ensures Linked(host, prefix, i) && ValidEntry(host, prefix[i]) {
      assert prefix[i] == entries[i] && Linked(host, entries, i);
      assert PreviousDigest(prefix, i) == PreviousDigest(entries, i);
    }
  }

  // ------------------------------------------------------- unique by head digest

  ghost predicate SameRecord(a: AuditRecord, b: AuditRecord) {
    a == b.(metadata := a.metadata) && Denote(a.metadata) == Denote(b.metadata)
  }

  /** Equal in every field; metadata up to key order and tuple/list. */
  ghost predicate SameEntry(a: LedgerEntry, b: LedgerEntry) {
    && a == b.(metadata := a.metadata, record := a.record)
    && SameRecord(a.record, b.record)
    && Denote(a.metadata) == Denote(b.metadata)
  }

  ghost predicate UnsplitEntry(e: LedgerEntry) {
    Unsplit(e.metadata) && Unsplit(e.record.metadata)
  }

  /** The canonical texts hashed by a ledger's entries. */
  ghost function EntryTexts(entries: seq<LedgerEntry>): set<string> {
    set i | 0 <= i < |entries| && EntryText(entries[i]).Ok? :: EntryText(entries[i]).value
  }

  lemma TextsUnsplit(ts: seq<string>)
    ensures Unsplit(Texts(ts))
  {
    forall i | 0 <= i < |ts| ensures Unsplit(Texts(ts).elems[i]) {
      ScalarTextUnsplit(ts[i]);
    }
  }

  lemma AtomsUnsplit(s: string)
    ensures Unsplit(S(s))
  {
    ScalarTextUnsplit(s);
  }

  lemma RecordFieldsUnsplit(r: AuditRecord)
    requires Unsplit(r.metadata)
    ensures Unsplit(Record(RecordFields(r)))
  {
    var f := RecordFields(r);
    TextsUnsplit(r.eventRefs);
    forall s: string ensures Unsplit(S(s)) {
      AtomsUnsplit(s);
    }
    forall i | 0 <= i < |f| ensures Unsplit(f[i].1) {
    }
    RecordUnsplit(f);
  }

  lemma EntryFieldsUnsplit(e: LedgerEntry)
    requires UnsplitEntry(e)
    ensures Unsplit(Record(EntryFields(e)))
  {
    var f := EntryFields(e);
    RecordFieldsUnsplit(e.record);
    forall s: string ensures Unsplit(S(s)) {
      AtomsUnsplit(s);
    }
    forall i | 0 <= i < |f| ensures Unsplit(f[i].1) {
    }
    RecordUnsplit(f);
  }

  lemma RecordFieldsBind(a: AuditRecord, b: AuditRecord)
    requires Canonicalise(Record(RecordFields(a))).Ok?
    requires Canonicalise(Record(RecordFields(a))) == Canonicalise(Record(RecordFields(b)))
    ensures SameRecord(a, b)
  {
    hide Canonicalise, Denote;
    var f, g := RecordFields(a), RecordFields(b);
    FieldsBind(f, g);
    TextAt(f, g, 0, a.recordId, b.recordId);
    TextAt(f, g, 1, a.recordType, b.recordType);
    TextAt(f, g, 2, a.subjectRef, b.subjectRef);
    TextAt(f, g, 3, a.schemaVersion, b.schemaVersion);
    TextAt(f, g, 4, a.subjectKind, b.subjectKind);
    TextAt(f, g, 5, a.decisionRef, b.decisionRef);
    TextAt(f, g, 6, a.reasonCode, b.reasonCode);
    TextsAt(f, g, 7, a.eventRefs, b.eventRefs);
    TextAt(f, g, 8, a.recordedAt, b.recordedAt);
    ValueAt(f, g, 9);
  }

  lemma {:induction false} AcceptedFieldCount(f: seq<(string, Value)>)
    requires Canonicalise(Record(f)).Ok?
    ensures |Canonicalise(Record(f)).value.items| == |f|
  {
    CanonicalMembers(Record(f).items, Canonicalise(Record(f)).value.items);
  }

  /** An entry digest determines the entry, but for its own digest field. */
  lemma EntryFieldsBind(a: LedgerEntry, b: LedgerEntry)
    requires Canonicalise(Record(EntryFields(a))).Ok?
    requires Canonicalise(Record(EntryFields(a))) == Canonicalise(Record(EntryFields(b)))
    ensures SameEntry(a, b.(entryDigest := a.entryDigest))
  {
    hide RecordFields, Canonicalise, Denote;
    var f, g := EntryFields(a), EntryFields(b);
    AcceptedFieldCount(f);
    AcceptedFieldCount(g);
    FieldsBind(f, g);
    TextAt(f, g, 0, a.entryId, b.entryId);
    IntAt(f, g, 1, a.sequence, b.sequence);
    assert f[2].1 == Record(RecordFields(a.record)) && g[2].1 == Record(RecordFields(b.record));
    RecordFieldsBind(a.record, b.record);
    TextAt(f, g, 3, a.recordDigest, b.recordDigest);
    TextAt(f, g, 4, a.eventDigest, b.eventDigest);
    TextAt(f, g, 5, a.previousDigest, b.previousDigest);
    TextAt(f, g, 7, a.recordedAt, b.recordedAt);
    ValueAt(f, g, 8);
    if a.schemaVersion != "" {
      TextAt(f, g, 9, a.schemaVersion, b.schemaVersion);
    }
  }

  lemma EqualDigestsSameEntry(host: Host, a: LedgerEntry, b: LedgerEntry)
    requires UnsplitEntry(a) && UnsplitEntry(b)
    requires EntryDigest(host, a) == Ok(a.entryDigest) && EntryDigest(host, b) == Ok(b.entryDigest)
    requires a.entryDigest == b.entryDigest
    requires EntryText(a).Ok? && EntryText(b).Ok? ==> NoCollision(host.hash, {EntryText(a).value, EntryText(b).value})
    ensures SameEntry(a, b)
  {
    EntryFieldsUnsplit(a);
    EntryFieldsUnsplit(b);
    DigestBinds(host.hash, ENTRY_TYPE, "v1", Record(EntryFields(a)), ENTRY_TYPE, "v1", Record(EntryFields(b)));
    EntryFieldsBind(a, b);
  }

  lemma PrefixTexts(l: seq<LedgerEntry>, k: nat)
    requires k <= |l|
    ensures EntryTexts(l[..k]) <= EntryTexts(l)
  {
    hide EntryText;
    forall t | t in EntryTexts(l[..k]) ensures t in EntryTexts(l) {
      var i :| 0 <= i < k && EntryText(l[..k][i]).Ok? && t == EntryText(l[..k][i]).value;
      assert l[i] == l[..k][i];
    }
  }

  ghost predicate UnsplitLedger(l: seq<LedgerEntry>) {
    forall i :: 0 <= i < |l| ==> UnsplitEntry(l[i])
  }

  /** Equal last digests: equal last entries at the same position, linked to equal digests. */
  lemma LastEntriesAgree(host: Host, l1: seq<LedgerEntry>, l2: seq<LedgerEntry>)
    requires IntactChain(host, l1) && IntactChain(host, l2) && UnsplitLedger(l1) && UnsplitLedger(l2)
    requires NoCollision(host.hash, EntryTexts(l1) + EntryTexts(l2))
    requires l1[|l1| - 1].entryDigest == l2[|l2| - 1].entryDigest
    ensures |l1| == |l2| && SameEntry(l1[|l1| - 1], l2[|l2| - 1])
    ensures PreviousDigest(l1, |l1| - 1) == PreviousDigest(l2, |l2| - 1)
  {
    hide ValidateEntry, EntryFields, CanonicalText, Denote;
    var a, b := l1[|l1| - 1], l2[|l2| - 1];
    assert Linked(host, l1, |l1| - 1) && Linked(host, l2, |l2| - 1);
    assert EntryText(a).value in EntryTexts(l1) && EntryText(b).value in EntryTexts(l2);
    EqualDigestsSameEntry(host, a, b);
  }

  /** The digest of the last entry determines the whole ledger. */
  lemma {:induction false} HeadDigestDeterminesLedger(host: Host, l1: seq<LedgerEntry>, l2: seq<LedgerEntry>)
    requires IntactChain(host, l1) && IntactChain(host, l2) && UnsplitLedger(l1) && UnsplitLedger(l2)
    requires NoCollision(host.hash, EntryTexts(l1) + EntryTexts(l2))
    requires l1[|l1| - 1].entryDigest == l2[|l2| - 1].entryDigest
    ensures |l1| == |l2| && forall i :: 0 <= i < |l1| ==> SameEntry(l1[i], l2[i])
    decreases |l1|
  {
    hide EntryText, UnsplitEntry, ValidEntry, Linked, SameEntry;
    LastEntriesAgree(host, l1, l2);
    var i := |l1| - 1;
    if i > 0 {
      var p1, p2 := l1[..i], l2[..i];
      PrefixIntact(host, l1, i);
      PrefixIntact(host, l2, i);
      PrefixTexts(l1, i);
      PrefixTexts(l2, i);
      HeadDigestDeterminesLedger(host, p1, p2);
      assert forall k :: 0 <= k < i ==> l1[k] == p1[k] && l2[k] == p2[k];
    }
  }

  /** Two ledgers that verify with the same last digest are the same, entry for entry. */
  lemma SameHeadSameLedger(host: Host, l1: seq<LedgerEntry>, l2: seq<LedgerEntry>)
    requires VerificationOf(host, l1).Verified? && VerificationOf(host, l2).Verified?
    requires VerificationOf(host, l1).lastDigest == VerificationOf(host, l2).lastDigest
    requires UnsplitLedger(l1) && UnsplitLedger(l2)
    requires NoCollision(host.hash, EntryTexts(l1) + EntryTexts(l2))
    ensures |l1| == |l2| && forall i :: 0 <= i < |l1| ==> SameEntry(l1[i], l2[i])
  {
    hide EntryText, UnsplitEntry, ValidateEntry, EntryDigest, SameEntry;
    VerifiedIffIntact(host, l1);
    VerifiedIffIntact(host, l2);
    FirstFaultExact(host, l1, 0);
    FirstFaultExact(host, l2, 0);
    HeadDigestDeterminesLedger(host, l1, l2);
  }
}
