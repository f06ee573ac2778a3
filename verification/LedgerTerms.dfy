/** The ledger in plain terms: on the members of its entries, when an entry is valid, what verification answers, what a
    read of any file gives, and what an append stores (`govengine/admission.py`). */
module LedgerTerms {
  import opened Prelude
  import opened PyStrings
  import opened PyValues
  import opened CanonicalRecord
  import opened Readback
  import opened RecordText
  import opened AuditLedger
  import opened LedgerAdapter

  // ------------------------------------------------------------- valid entries

  ghost predicate KnownKind(kind: string) {
    || kind == "task" || kind == "run" || kind == "host" || kind == "artifact" || kind == "profile"
    || kind == "operator_action" || kind == "generic"
  }

  ghost predicate KnownType(recordType: string) {
    || recordType == "admission_decision" || recordType == "policy_decision" || recordType == "approval_request"
    || recordType == "operator_review"
  }

  ghost predicate RecordInForm(host: Host, r: AuditRecord) {
    KnownKind(r.subjectKind) && KnownType(r.recordType) && r.schemaVersion == "v0.1" && host.clean(r.metadata)
  }

  lemma RecordExactly(host: Host, r: AuditRecord)
    ensures ValidateRecord(host, r).Ok? <==> RecordInForm(host, r)
  {
  }

  /** Numbered from zero, with a valid record and its digest, and with links that are empty or digests. */
  ghost predicate EntryInForm(host: Host, e: LedgerEntry) {
    && e.entryId != "" && e.sequence >= 0 && (e.schemaVersion == "" || e.schemaVersion == "v0.1")
    && RecordInForm(host, e.record) && IsSha256(e.recordDigest)
    && RecordDigest(host.hash, "govengine.admission.GovAuditRecord", "v1", Record(RecordFields(e.record)))
       == Ok(e.recordDigest)
    && (e.eventDigest != "" ==> IsSha256(e.eventDigest)) && (e.previousDigest != "" ==> IsSha256(e.previousDigest))
    && (e.entryDigest != "" ==> IsSha256(e.entryDigest) && HasDigest(host, e, e.entryDigest))
    && host.clean(e.metadata)
  }

  /** The digest of an entry: that of its record with its own digest cleared. */
  ghost predicate HasDigest(host: Host, e: LedgerEntry, digest: string) {
    RecordDigest(host.hash, "govengine.admission.AuditLedgerEntry", "v1", Record(EntryFields(e))) == Ok(digest)
  }

  lemma DigestsAre(host: Host, e: LedgerEntry, digest: string)
    ensures EntryDigest(host, e) == Ok(digest) <==> HasDigest(host, e, digest)
    ensures AuditRecordDigest(host, e.record) == Ok(digest) <==>
              RecordDigest(host.hash, "govengine.admission.GovAuditRecord", "v1", Record(RecordFields(e.record)))
              == Ok(digest)
  {
    hide RecordDigest, RecordFields, EntryFields;
  }

  lemma EntryExactly(host: Host, e: LedgerEntry)
    ensures ValidEntry(host, e) <==> EntryInForm(host, e)
  {
    hide ValidateRecord, RecordInForm, IsSha256, EntryDigest, AuditRecordDigest, HasDigest, RecordDigest;
    RecordExactly(host, e.record);
    DigestsAre(host, e, e.entryDigest);
    DigestsAre(host, e, e.recordDigest);
    EmptyIsNoDigest();
  }

  lemma EmptyIsNoDigest()
    ensures !IsSha256("")
  {
  }

  // -------------------------------------------------------------- verification

  /** In place `i`, behind the entry before it, with its own digest. */
  ghost predicate Chained(host: Host, entries: seq<LedgerEntry>, i: nat)
    requires i < |entries|
  {
    && entries[i].sequence == i
    && entries[i].previousDigest == (if i == 0 then "" else entries[i - 1].entryDigest)
    && HasDigest(host, entries[i], entries[i].entryDigest)
  }

  lemma ChainedExactly(host: Host, entries: seq<LedgerEntry>, i: nat)
    requires i < |entries|
    ensures Linked(host, entries, i) <==> Chained(host, entries, i)
  {
    hide EntryDigest, HasDigest;
    DigestsAre(host, entries[i], entries[i].entryDigest);
  }

  ghost predicate AllInForm(host: Host, entries: seq<LedgerEntry>) {
    forall i :: 0 <= i < |entries| ==> EntryInForm(host, entries[i])
  }

  lemma AllInFormExactly(host: Host, entries: seq<LedgerEntry>)
    ensures AllValid(host, entries) <==> AllInForm(host, entries)
  {
    hide ValidEntry, EntryInForm;
    forall i | 0 <= i < |entries|
      ensures ValidEntry(host, entries[i]) <==> EntryInForm(host, entries[i])
    {
      EntryExactly(host, entries[i]);
    }
  }

  /** Verification answers with the number of entries and the last name and digest exactly for a chain of valid entries,
      and "empty" exactly without entries. */
  lemma VerifiedExactly(host: Host, entries: seq<LedgerEntry>, count: nat, lastId: string, lastDigest: string)
    ensures VerificationOf(host, entries) == Verified(count, lastId, lastDigest) <==>
              && entries != [] && AllInForm(host, entries)
              && (forall i :: 0 <= i < |entries| ==> Chained(host, entries, i))
              && count == |entries| && lastId == entries[|entries| - 1].entryId
              && lastDigest == entries[|entries| - 1].entryDigest
    ensures VerificationOf(host, entries) == Empty <==> entries == []
  {
    hide Linked, Chained, ValidEntry, ValidateEntry, LinkFault, AllInForm;
    VerifiedIffIntact(host, entries);
    AllInFormExactly(host, entries);
    forall i | 0 <= i < |entries|
      ensures Linked(host, entries, i) <==> Chained(host, entries, i)
    {
      ChainedExactly(host, entries, i);
    }
    FirstFaultExact(host, entries, 0);
    FirstFaultSays(host, entries, 0);
  }

  /** What the first entry out of its chain is reported for: its number, then its link, then its digest. */
  ghost predicate FaultAt(host: Host, entries: seq<LedgerEntry>, i: nat, reason: string)
    requires i < |entries|
  {
    var previous := if i == 0 then "" else entries[i - 1].entryDigest;
    if entries[i].sequence != i then reason == "audit_ledger_sequence_mismatch"
    else if entries[i].previousDigest != previous then reason == "audit_ledger_previous_digest_mismatch"
    else reason == "audit_ledger_entry_digest_mismatch" && EntryDigest(host, entries[i]).Ok?
         && !HasDigest(host, entries[i], entries[i].entryDigest)
  }

  lemma FaultExactly(host: Host, entries: seq<LedgerEntry>, i: nat, reason: string)
    requires i < |entries|
    ensures LinkFault(host, entries, i) == Err(Failed(reason)) <==> FaultAt(host, entries, i, reason)
    ensures LinkFault(host, entries, i).Err? ==> LinkFault(host, entries, i).error != Empty
  {
    hide EntryDigest, HasDigest;
    DigestsAre(host, entries[i], entries[i].entryDigest);
  }

  lemma {:induction false} FirstFaultSays(host: Host, entries: seq<LedgerEntry>, i: nat)
    requires i <= |entries|
    ensures FirstFault(host, entries, i).Err? ==>
              exists k :: i <= k < |entries| && LinkFault(host, entries, k) == FirstFault(host, entries, i)
                          && forall j :: i <= j < k ==> Linked(host, entries, j)
    ensures FirstFault(host, entries, i).Err? ==> FirstFault(host, entries, i).error != Empty
    decreases |entries| - i
  {
    hide LinkFault;
    if i < |entries| {
      FaultExactly(host, entries, i, "");
      FirstFaultSays(host, entries, i + 1);
      if FirstFault(host, entries, i).Err? && LinkFault(host, entries, i).Ok? {
        var k :| i + 1 <= k < |entries| && LinkFault(host, entries, k) == FirstFault(host, entries, i + 1)
                 && forall j :: i + 1 <= j < k ==> Linked(host, entries, j);
        assert forall j :: i <= j < k ==> Linked(host, entries, j);
      }
    }
  }

  /** Verification of valid entries fails with a reason exactly when the first entry out of its chain gives it. */
  lemma FailedExactly(host: Host, entries: seq<LedgerEntry>, reason: string)
    ensures VerificationOf(host, entries) == Failed(reason) <==>
              && AllInForm(host, entries)
              && exists i :: 0 <= i < |entries| && FaultAt(host, entries, i, reason)
                             && forall j :: 0 <= j < i ==> Chained(host, entries, j)
  {
    hide Chained, Linked, ValidEntry, ValidateEntry, LinkFault, AllInForm, FaultAt;
    AllInFormExactly(host, entries);
    FirstInvalidExact(host, entries, 0);
    forall i | 0 <= i < |entries|
      ensures Linked(host, entries, i) <==> Chained(host, entries, i)
      ensures LinkFault(host, entries, i) == Err(Failed(reason)) <==> FaultAt(host, entries, i, reason)
      ensures Linked(host, entries, i) <==> LinkFault(host, entries, i).Ok?
    {
      ChainedExactly(host, entries, i);
      FaultExactly(host, entries, i, reason);
      LinkedIs(host, entries, i);
    }
    FirstFaultSays(host, entries, 0);
    if i :| 0 <= i < |entries| && FaultAt(host, entries, i, reason) && forall j :: 0 <= j < i ==> Chained(host, entries, j) {
      FirstFaultIs(host, entries, 0, i);
    }
  }

  lemma LinkedIs(host: Host, entries: seq<LedgerEntry>, i: nat)
    requires i < |entries|
    ensures Linked(host, entries, i) <==> LinkFault(host, entries, i).Ok?
  {
    hide LinkFault;
  }

  lemma {:induction false} FirstFaultIs(host: Host, entries: seq<LedgerEntry>, i: nat, k: nat)
    requires i <= k < |entries| && LinkFault(host, entries, k).Err?
    requires forall j :: i <= j < k ==> Linked(host, entries, j)
    ensures FirstFault(host, entries, i) == LinkFault(host, entries, k)
    decreases k - i
  {
    hide LinkFault;
    if i < k {
      LinkedIs(host, entries, i);
      FirstFaultIs(host, entries, i + 1, k);
    }
  }

  // ----------------------------------------------------------- reading a file

  function WithoutBlanks(lines: seq<Line>): seq<Line> {
    if lines == [] then []
    else (if lines[0].Blank? then [] else [lines[0]]) + WithoutBlanks(lines[1..])
  }

  lemma {:induction false} BlanksSkipped(host: Host, lines: seq<Line>, after: string, limit: int, seen: bool,
                                         read: seq<LedgerEntry>)
    ensures ReadLines(host, lines, after, limit, seen, read)
            == ReadLines(host, WithoutBlanks(lines), after, limit, seen, read)
    decreases |lines|
  {
    hide ValidateEntry;
    if lines != [] {
      var rest, kept := lines[1..], WithoutBlanks(lines);
      match lines[0]
      case Blank =>
        assert kept == WithoutBlanks(rest);
        BlanksSkipped(host, rest, after, limit, seen, read);
      case Garbage =>
        assert kept[0] == Garbage;
      case Row(e) =>
        assert kept == [lines[0]] + WithoutBlanks(rest);
        assert kept[0] == lines[0] && kept[1..] == WithoutBlanks(rest);
        BlanksSkipped(host, rest, after, limit, e.entryId == after, read);
        BlanksSkipped(host, rest, after, limit, true, read + [e]);
    }
  }

  /** Blank lines never matter to a read. */
  lemma BlankLinesAreIgnored(host: Host, lines: seq<Line>, after: string, limit: int)
    ensures ReadOf(host, lines, after, limit) == ReadOf(host, WithoutBlanks(lines), after, limit)
  {
    hide ReadLines;
    BlanksSkipped(host, lines, after, limit, after == "", []);
  }

  /** Some entry has that name. */
  ghost predicate Named(entries: seq<LedgerEntry>, name: string) {
    exists i :: 0 <= i < |entries| && entries[i].entryId == name
  }

  lemma ReadOne(host: Host, e: LedgerEntry, more: seq<Line>, after: string, limit: int, seen: bool, read: seq<LedgerEntry>)
    requires ValidEntry(host, e) && |read| < limit
    ensures ReadLines(host, [Row(e)] + more, after, limit, seen, read)
            == if !seen then ReadLines(host, more, after, limit, e.entryId == after, read)
               else if |read| + 1 >= limit then Ok(read + [e])
               else ReadLines(host, more, after, limit, true, read + [e])
  {
    hide ValidateEntry;
    assert ([Row(e)] + more)[1..] == more;
  }

  lemma {:induction false} ReadOn(host: Host, entries: seq<LedgerEntry>, more: seq<Line>, after: string, limit: int,
                                  seen: bool, read: seq<LedgerEntry>)
    requires AllValid(host, entries) && |read| < limit
    ensures var page := if seen then entries else Behind(entries, after);
            ReadLines(host, Rows(entries) + more, after, limit, seen, read)
            == if |read| + |page| >= limit then Ok(read + page[..limit - |read|])
               else ReadLines(host, more, after, limit, seen || Named(entries, after), read + page)
    decreases |entries|
  {
    hide ReadLines, ValidEntry;
    if entries == [] {
      assert Rows([]) + more == more && read + [] == read;
    } else {
      hide Named;
      var e, rest := entries[0], entries[1..];
      assert Rows(entries) + more == [Row(e)] + (Rows(rest) + more);
      assert AllValid(host, rest);
      ReadOne(host, e, Rows(rest) + more, after, limit, seen, read);
      NamedLater(entries, after);
      if !seen {
        ReadOn(host, rest, more, after, limit, e.entryId == after, read);
      } else if |read| + 1 < limit {
        ReadOn(host, rest, more, after, limit, true, read + [e]);
        assert read + [e] + rest == read + entries;
        if |read| + |entries| >= limit {
          assert read + [e] + rest[..limit - |read| - 1] == read + entries[..limit - |read|];
        }
      } else {
        assert entries[..1] == [e];
      }
    }
  }

  lemma NamedLater(entries: seq<LedgerEntry>, after: string)
    requires entries != []
    ensures Named(entries, after) <==> entries[0].entryId == after || Named(entries[1..], after)
  {
    var rest := entries[1..];
    assert forall i :: 1 <= i < |entries| ==> entries[i] == rest[i - 1];
    if Named(entries, after) {
      var i :| 0 <= i < |entries| && entries[i].entryId == after;
      assert i > 0 ==> rest[i - 1].entryId == after;
    }
    if Named(rest, after) {
      var i :| 0 <= i < |rest| && rest[i].entryId == after;
      assert entries[i + 1].entryId == after;
    }
  }

  /** A read goes no further than its page is full: before that, a line that is no JSON or no valid entry ends it with that
      error; once the page is full, nothing behind it matters. */
  lemma ReadExactly(host: Host, entries: seq<LedgerEntry>, more: seq<Line>, after: string, limit: int)
    requires AllValid(host, entries)
    ensures limit < 1 ==>
              ReadOf(host, Rows(entries) + more, after, limit) == Err(Refused("invalid_audit_ledger_read_limit"))
    ensures limit >= 1 ==>
              var page := if after == "" then entries else Behind(entries, after);
              var r := ReadOf(host, Rows(entries) + more, after, limit);
              && (|page| >= limit ==> r == Ok(page[..limit]))
              && (|page| < limit && more == [] ==> r == Ok(page))
              && (|page| < limit && more != [] && more[0] == Garbage ==> r == Err(Refused("invalid_audit_ledger_jsonl")))
              && (|page| < limit && more != [] && more[0].Row? && ValidateEntry(host, more[0].entry).Err? ==>
                    r == Err(ValidateEntry(host, more[0].entry).error))
  {
    hide ValidateEntry;
    if limit >= 1 {
      var page := if after == "" then entries else Behind(entries, after);
      ReadOn(host, entries, more, after, limit, after == "", []);
      assert [] + page == page;
      if |page| >= limit {
        assert [] + page[..limit] == page[..limit];
      }
    }
  }

  // ------------------------------------------------------------ what is stored

  /** An accepted append stores the next name and number, the links, and the record as it is read back. */
  lemma StoredExactly(host: Host, lines: seq<Line>, q: AppendRequest, seen: seq<LedgerEntry>, e: LedgerEntry)
    requires ReadOf(host, lines, "", 100) == Ok(seen) && NewEntry(host, seen, q) == Ok(e)
    ensures e.entryId == "audit-ledger-entry-" + PrintInt(|seen| + 1) && e.sequence == |seen| && e.schemaVersion == "v0.1"
    ensures e.recordDigest == Strip(q.recordDigest) && e.eventDigest == Strip(q.eventDigest) && e.recordedAt == ""
    ensures e.previousDigest == if seen == [] then "" else seen[|seen| - 1].entryDigest
    ensures e.metadata == Record([("adapter", S("jsonl_hash_chain_dev")), ("storage", S("development_only"))])
    ensures EntryInForm(host, e) && HasDigest(host, e, e.entryDigest) && Reread(host, q.record) == Ok(e.record)
    ensures q.previousDigest == "" || Strip(q.previousDigest) == e.previousDigest ==>
              RecordInForm(host, q.record) ==>
                AppendOf(host, lines, q) == (Appended(e.entryId, e.sequence, e.entryDigest), lines + [Row(e)])
  {
    hide ValidateEntry, EntryDigest, Reread, ReadLines, HasDigest, EntryInForm, Strip, ValidateRecord, RecordInForm,
         Record, S, PrintInt;
    NewEntryFacts(host, seen, q);
    EntryExactly(host, e);
    DigestsAre(host, e, e.entryDigest);
    RecordExactly(host, q.record);
    EmptyStrips();
  }

  lemma EmptyStrips()
    ensures Strip("") == ""
  {
  }

  /** A record is read back with its text stripped, a reason where it has none, and its metadata copied within bounds. */
  lemma RereadExactly(host: Host, r: AuditRecord, back: AuditRecord)
    requires Reread(host, r) == Ok(back)
    ensures Strip(r.recordId) != "" && back.recordId == Strip(r.recordId)
    ensures Strip(r.subjectRef) != "" && back.subjectRef == Strip(r.subjectRef)
    ensures back.decisionRef == Strip(r.decisionRef) && back.recordedAt == Strip(r.recordedAt)
    ensures back.reasonCode == (if Strip(r.reasonCode) == "" then "recorded" else Strip(r.reasonCode))
    ensures back.recordType == r.recordType && back.schemaVersion == r.schemaVersion
    ensures back.subjectKind == r.subjectKind && back.eventRefs == r.eventRefs
    ensures r.metadata.Dict? && RereadMetadata(host, r.metadata) == Ok(back.metadata) && host.clean(back.metadata)
  {
    hide Strip;
  }
}
