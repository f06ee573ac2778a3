/** `JsonlAuditLedgerAdapter`: the ledger file, its paged read, its append, and whole runs of appends. */
module LedgerAdapter {
  import opened Prelude
  import opened PyStrings
  import opened PyValues
  import opened CanonicalRecord
  import opened RecordText
  import opened BoundedTraversal
  import opened BoundedCopy
  import opened AuditLedger

  /** One line of the file: blank, not JSON, or a decoded entry that is yet to be validated. */
  datatype Line = Blank | Garbage | Row(entry: LedgerEntry)

  datatype AppendRequest = AppendRequest(
    record: AuditRecord, recordDigest: string, eventDigest: string, previousDigest: string)

  datatype AppendOutcome =
    | AppendRaised(error: LedgerError)
    | Rejected
    | Appended(entryId: string, sequence: int, entryDigest: string)

  // -------------------------------------------------------------------- read

  function ReadLines(host: Host, lines: seq<Line>, after: string, limit: int, seenAfter: bool, read: seq<LedgerEntry>)
    : Result<seq<LedgerEntry>, LedgerError>
  {
    if lines == [] then Ok(read)
    else
      match lines[0]
      case Blank => ReadLines(host, lines[1..], after, limit, seenAfter, read)
      case Garbage => Err(Refused("invalid_audit_ledger_jsonl"))
      case Row(entry) =>
        var _ :- ValidateEntry(host, entry);
        if !seenAfter then ReadLines(host, lines[1..], after, limit, entry.entryId == after, read)
        else if |read| + 1 >= limit then Ok(read + [entry])
        else ReadLines(host, lines[1..], after, limit, true, read + [entry])
  }

  function ReadOf(host: Host, lines: seq<Line>, after: string, limit: int): Result<seq<LedgerEntry>, LedgerError> {
    if limit < 1 then Err(Refused("invalid_audit_ledger_read_limit"))
    else ReadLines(host, lines, after, limit, after == "", [])
  }

  // ------------------------------------------------------------------ append

  const ADAPTER_METADATA := Record([("adapter", S("jsonl_hash_chain_dev")), ("storage", S("development_only"))])

  function HeadDigest(existing: seq<LedgerEntry>): string {
    if existing == [] then "" else existing[|existing| - 1].entryDigest
  }

  /** `str(reason or "recorded").strip() or "recorded"`. */
  function ReasonOrRecorded(reason: string): string {
    if Strip(reason) == "" then "recorded" else Strip(reason)
  }

  function RereadMetadata(host: Host, metadata: Value): Result<Value, LedgerError> {
    if !metadata.Dict? then Err(Refused("invalid_admission_metadata"))
    else
      match Copy(DEFAULT_LIMITS, true, metadata)
      case Err(breach) => Err(OutOfBounds(breach))
      case Ok(copied) => if host.clean(copied) then Ok(copied) else Err(Refused("forbidden_admission_metadata"))
  }

  /** `GovAuditRecord.from_mapping` on a record's own members, once type, kind and version have been validated. */
  function Reread(host: Host, r: AuditRecord): Result<AuditRecord, LedgerError> {
    if Strip(r.recordId) == "" then Err(Refused("missing_audit_record_id"))
    else if Strip(r.subjectRef) == "" then Err(Refused("missing_audit_subject_ref"))
    else
      var metadata :- RereadMetadata(host, r.metadata);
      Ok(r.(recordId := Strip(r.recordId), subjectRef := Strip(r.subjectRef), decisionRef := Strip(r.decisionRef),
            reasonCode := ReasonOrRecorded(r.reasonCode), recordedAt := Strip(r.recordedAt), metadata := metadata))
  }

  /** The entry before it has a digest. */
  function Unsealed(existing: seq<LedgerEntry>, q: AppendRequest): LedgerEntry {
    LedgerEntry(
      "audit-ledger-entry-" + PrintInt(|existing| + 1), |existing|, q.record, Strip(q.recordDigest), "v0.1",
      Strip(q.eventDigest), HeadDigest(existing), "", "", ADAPTER_METADATA)
  }

  /** The entry that `append` stores after the entries it has read; its record is read back before it is stored. */
  function NewEntry(host: Host, existing: seq<LedgerEntry>, q: AppendRequest): Result<LedgerEntry, LedgerError> {
    hide ValidateEntry, EntryDigest, Reread;
    var entry := Unsealed(existing, q);
    var _ :- ValidateEntry(host, entry);
    var digest :- EntryDigest(host, entry);
    var record :- Reread(host, q.record);
    var stored := entry.(record := record, entryDigest := digest);
    var _ :- ValidateEntry(host, stored);
    Ok(stored)
  }

  function AppendOf(host: Host, lines: seq<Line>, q: AppendRequest): (AppendOutcome, seq<Line>) {
    match ValidateRecord(host, q.record)
    case Err(error) => (AppendRaised(error), lines)
    case Ok(_) =>
      match ReadOf(host, lines, "", DEFAULT_READ_LIMIT)
      case Err(error) => (AppendRaised(error), lines)
      case Ok(existing) =>
        if Strip(q.previousDigest) != "" && Strip(q.previousDigest) != HeadDigest(existing) then (Rejected, lines)
        else
          match NewEntry(host, existing, q)
          case Err(error) => (AppendRaised(error), lines)
          case Ok(stored) => (Appended(stored.entryId, stored.sequence, stored.entryDigest), lines + [Row(stored)])
  }

  class JsonlAuditLedgerAdapter {
    const host: Host
    var lines: seq<Line>

    constructor (host: Host, lines: seq<Line>)
      ensures this.host == host && this.lines == lines
    {
      this.host := host;
      this.lines := lines;
    }

    method Read(after: string, limit: int) returns (r: Result<seq<LedgerEntry>, LedgerError>)
      ensures r == ReadOf(host, lines, after, limit)
    {
      hide ValidateEntry;
      if limit < 1 {
        return Err(Refused("invalid_audit_ledger_read_limit"));
      }
      var entries := [];
      var seenAfter := after == "";
      for i := 0 to |lines|
        invariant ReadOf(host, lines, after, limit) == ReadLines(host, lines[i..], after, limit, seenAfter, entries)
      {
        assert lines[i..][1..] == lines[i + 1..];
        match lines[i]
        case Blank =>
        case Garbage =>
          return Err(Refused("invalid_audit_ledger_jsonl"));
        case Row(entry) =>
          var checked := ValidateEntry(host, entry);
          if checked.Err? {
            return Err(checked.error);
          }
          if !seenAfter {
            seenAfter := entry.entryId == after;
          } else {
            entries := entries + [entry];
            if |entries| >= limit {
              return Ok(entries);
            }
          }
      }
      return Ok(entries);
    }

    method Append(q: AppendRequest) returns (r: AppendOutcome)
      modifies this`lines
      ensures (r, lines) == AppendOf(host, old(lines), q)
      ensures !r.Appended? ==> lines == old(lines)
      ensures r.Appended? ==>
                && ReadOf(host, old(lines), "", DEFAULT_READ_LIMIT).Ok?
                && |lines| == |old(lines)| + 1 && lines[..|old(lines)|] == old(lines) && lines[|old(lines)|].Row?
                && var seen := ReadOf(host, old(lines), "", DEFAULT_READ_LIMIT).value;
                   var e := lines[|old(lines)|].entry;
                   && ValidEntry(host, e) && EntryDigest(host, e) == Ok(e.entryDigest)
                   && e.sequence == |seen| && e.previousDigest == HeadDigest(seen)
                   && r == Appended(e.entryId, e.sequence, e.entryDigest)
    {
      hide ValidateRecord, ValidateEntry, ReadOf, NewEntry, EntryDigest;
      var checked := ValidateRecord(host, q.record);
      if checked.Err? {
        return AppendRaised(checked.error);
      }
      var existing := Read("", DEFAULT_READ_LIMIT);
      if existing.Err? {
        return AppendRaised(existing.error);
      }
      var supplied := Strip(q.previousDigest);
      if supplied != "" && supplied != HeadDigest(existing.value) {
        return Rejected;
      }
      var stored := NewEntry(host, existing.value, q);
      if stored.Err? {
        return AppendRaised(stored.error);
      }
      NewEntryFacts(host, existing.value, q);
      lines := lines + [Row(stored.value)];
      return Appended(stored.value.entryId, stored.value.sequence, stored.value.entryDigest);
    }
  }

  // ------------------------------------------------------------ paged reading

  /** A file holding exactly these entries. */
  function Rows(entries: seq<LedgerEntry>): (r: seq<Line>)
    ensures |r| == |entries|
    ensures forall i :: 0 <= i < |r| ==> r[i] == Row(entries[i])
  {
    seq(|entries|, i requires 0 <= i < |entries| => Row(entries[i]))
  }

  function FirstN(entries: seq<LedgerEntry>, n: int): seq<LedgerEntry> {
    if n < |entries| then (if n < 0 then [] else entries[..n]) else entries
  }

  /** The entries behind the first one named `after`. */
  function Behind(entries: seq<LedgerEntry>, after: string): seq<LedgerEntry> {
    if entries == [] then []
    else if entries[0].entryId == after then entries[1..]
    else Behind(entries[1..], after)
  }

  lemma {:induction false} ReadRows(host: Host, entries: seq<LedgerEntry>, after: string, limit: int, seen: bool,
                                    read: seq<LedgerEntry>)
    requires AllValid(host, entries) && |read| < limit
    ensures ReadLines(host, Rows(entries), after, limit, seen, read)
            == Ok(read + FirstN(if seen then entries else Behind(entries, after), limit - |read|))
    decreases |entries|
  {
    hide ValidateEntry, FirstN;
    if entries == [] {
      FirstOfNone(limit - |read|);
      assert read + [] == read;
    } else {
      var rest := entries[1..];
      assert Rows(entries)[0] == Row(entries[0]) && Rows(entries)[1..] == Rows(rest);
      assert ValidEntry(host, entries[0]) && AllValid(host, rest);
      if !seen {
        ReadRows(host, rest, after, limit, entries[0].entryId == after, read);
      } else {
        FirstOfCons(entries, limit - |read|);
        if |read| + 1 < limit {
          ReadRows(host, rest, after, limit, true, read + [entries[0]]);
          var more := FirstN(rest, limit - |read| - 1);
          assert read + ([entries[0]] + more) == read + [entries[0]] + more;
        } else {
          assert [entries[0]] + [] == [entries[0]];
        }
      }
    }
  }

  lemma FirstOfNone(n: int)
    ensures FirstN([], n) == []
  {
  }

  lemma FirstOfCons(entries: seq<LedgerEntry>, n: int)
    requires entries != [] && n >= 1
    ensures FirstN(entries, n) == [entries[0]] + (if n == 1 then [] else FirstN(entries[1..], n - 1))
  {
  }

  /** A page of a file of valid entries: the first `limit` entries behind `after`. */
  lemma PageExact(host: Host, entries: seq<LedgerEntry>, after: string, limit: int)
    requires AllValid(host, entries) && limit >= 1
    ensures ReadOf(host, Rows(entries), after, limit)
            == Ok(FirstN(if after == "" then entries else Behind(entries, after), limit))
  {
    hide ReadLines, ValidateEntry;
    ReadRows(host, entries, after, limit, after == "", []);
    var page := FirstN(if after == "" then entries else Behind(entries, after), limit);
    assert [] + page == page;
  }

  lemma {:induction false} BehindNamed(entries: seq<LedgerEntry>, k: nat)
    requires k < |entries|
    requires forall i :: 0 <= i < k ==> entries[i].entryId != entries[k].entryId
    ensures Behind(entries, entries[k].entryId) == entries[k + 1..]
  {
    if k > 0 {
      BehindNamed(entries[1..], k - 1);
    }
  }

  /** With distinct names, asking for what follows the last entry of a page continues exactly there:
      no entry is skipped and none is repeated. */
  lemma PagesContinue(host: Host, entries: seq<LedgerEntry>, k: nat, limit: int)
    requires AllValid(host, entries) && limit >= 1 && k < |entries|
    requires forall i, j :: 0 <= i < j < |entries| ==> entries[i].entryId != entries[j].entryId
    ensures ReadOf(host, Rows(entries), entries[k].entryId, limit) == Ok(FirstN(entries[k + 1..], limit))
  {
    hide ValidateEntry, ReadOf;
    assert ValidEntry(host, entries[k]);
    EntryNamed(host, entries[k]);
    PageExact(host, entries, entries[k].entryId, limit);
    BehindNamed(entries, k);
  }

  lemma EntryNamed(host: Host, e: LedgerEntry)
    requires ValidEntry(host, e)
    ensures e.entryId != ""
  {
  }

  // -------------------------------------------------------------- whole runs

  /** What an append adds to a file of valid entries. */
  lemma NewEntryFacts(host: Host, existing: seq<LedgerEntry>, q: AppendRequest)
    requires NewEntry(host, existing, q).Ok?
    ensures var e := NewEntry(host, existing, q).value;
            && ValidEntry(host, e) && e.sequence == |existing|
            && e.previousDigest == HeadDigest(existing) && EntryDigest(host, e) == Ok(e.entryDigest)
  {
    hide ValidateEntry, EntryDigest, Reread;
    var e := NewEntry(host, existing, q).value;
    EntryDigestIsText(host, Unsealed(existing, q));
    SealedEntry(host, e);
  }

  lemma EntryDigestIsText(host: Host, e: LedgerEntry)
    ensures EntryDigest(host, e).Ok? ==> EntryDigest(host, e).value != ""
  {
    hide CanonicalText, EntryFields;
  }

  /** A valid entry with a digest has its own digest. */
  lemma SealedEntry(host: Host, e: LedgerEntry)
    requires ValidEntry(host, e) && e.entryDigest != ""
    ensures EntryDigest(host, e) == Ok(e.entryDigest)
  {
    hide EntryDigest, AuditRecordDigest, IsSha256;
  }

  /** The entries `append` sees: never more than the default read limit. */
  function Seen(entries: seq<LedgerEntry>): seq<LedgerEntry> {
    FirstN(entries, DEFAULT_READ_LIMIT)
  }

  /** One append: anything but an acceptance leaves the file as it was; an acceptance adds one valid
      entry, numbered and linked by the first 100 entries only. */
  lemma AppendExact(host: Host, entries: seq<LedgerEntry>, q: AppendRequest)
    requires AllValid(host, entries)
    ensures var (outcome, lines) := AppendOf(host, Rows(entries), q);
            && (!outcome.Appended? ==> lines == Rows(entries))
            && (outcome.Appended? ==>
                  && NewEntry(host, Seen(entries), q).Ok?
                  && var e := NewEntry(host, Seen(entries), q).value;
                     lines == Rows(entries + [e]) && outcome == Appended(e.entryId, e.sequence, e.entryDigest))
  {
    hide ValidateEntry, ValidateRecord, NewEntry, ReadOf;
    PageExact(host, entries, "", DEFAULT_READ_LIMIT);
    var (outcome, lines) := AppendOf(host, Rows(entries), q);
    if outcome.Appended? {
      var e := NewEntry(host, Seen(entries), q).value;
      assert Rows(entries + [e]) == Rows(entries) + [Row(e)];
    }
  }

  /** A file built by appends alone. */
  function RunLines(host: Host, requests: seq<AppendRequest>): seq<Line> {
    if requests == [] then []
    else AppendOf(host, RunLines(host, requests[..|requests| - 1]), requests[|requests| - 1]).1
  }

  /** Every entry has its own digest; every position up to the 101st is linked; every later entry repeats
      sequence 100. */
  ghost predicate RunInvariant(host: Host, entries: seq<LedgerEntry>) {
    && AllValid(host, entries)
    && (forall i :: 0 <= i < |entries| ==> EntryDigest(host, entries[i]) == Ok(entries[i].entryDigest))
    && (forall i :: 0 <= i < |entries| && i <= DEFAULT_READ_LIMIT ==> Linked(host, entries, i))
    && (forall i :: DEFAULT_READ_LIMIT < i < |entries| ==> entries[i].sequence == DEFAULT_READ_LIMIT)
  }

  lemma StepKeepsInvariant(host: Host, entries: seq<LedgerEntry>, e: LedgerEntry)
    requires RunInvariant(host, entries)
    requires ValidEntry(host, e) && EntryDigest(host, e) == Ok(e.entryDigest)
    requires e.sequence == |Seen(entries)| && e.previousDigest == HeadDigest(Seen(entries))
    ensures RunInvariant(host, entries + [e])
  {
    hide ValidateEntry, EntryDigest;
    var longer := entries + [e];
    forall i | 0 <= i < |longer| && i <= DEFAULT_READ_LIMIT ensures Linked(host, longer, i) {
      assert i < |entries| ==> Linked(host, entries, i);
      assert i < |entries| ==> PreviousDigest(longer, i) == PreviousDigest(entries, i);
    }
    assert forall i :: 0 <= i < |entries| ==> ValidEntry(host, longer[i]) by {
      assert forall i :: 0 <= i < |entries| ==> longer[i] == entries[i];
    }
  }

  lemma {:induction false} RunsKeepInvariant(host: Host, requests: seq<AppendRequest>) returns (entries: seq<LedgerEntry>)
    ensures RunLines(host, requests) == Rows(entries) && RunInvariant(host, entries)
  {
    hide ValidateEntry, NewEntry, AppendOf, RunInvariant, EntryDigest;
    if requests == [] {
      entries := [];
      EmptyRun(host);
    } else {
      var q := requests[|requests| - 1];
      entries := RunsKeepInvariant(host, requests[..|requests| - 1]);
      InvariantValid(host, entries);
      AppendExact(host, entries, q);
      if AppendOf(host, Rows(entries), q).0.Appended? {
        NewEntryFacts(host, Seen(entries), q);
        var e := NewEntry(host, Seen(entries), q).value;
        StepKeepsInvariant(host, entries, e);
        entries := entries + [e];
      }
    }
  }

  lemma EmptyRun(host: Host)
    ensures RunInvariant(host, []) && Rows([]) == []
  {
  }

  lemma InvariantValid(host: Host, entries: seq<LedgerEntry>)
    requires RunInvariant(host, entries)
    ensures AllValid(host, entries)
  {
  }

  /** What `verify` says of a file built by appends: verified up to and including 101 entries,
      and a sequence mismatch ever after. */
  lemma InvariantVerdict(host: Host, entries: seq<LedgerEntry>)
    requires RunInvariant(host, entries)
    ensures 1 <= |entries| <= DEFAULT_READ_LIMIT + 1 ==> VerificationOf(host, entries).Verified?
    ensures |entries| > DEFAULT_READ_LIMIT + 1 ==>
              VerificationOf(host, entries) == Failed("audit_ledger_sequence_mismatch")
  {
    hide ValidateEntry, EntryDigest;
    VerifiedIffIntact(host, entries);
    FirstInvalidExact(host, entries, 0);
    if |entries| > DEFAULT_READ_LIMIT + 1 {
      FaultAt(host, entries, 0, DEFAULT_READ_LIMIT + 1);
    }
  }

  lemma {:induction false} FaultAt(host: Host, entries: seq<LedgerEntry>, i: nat, k: nat)
    requires i <= k < |entries|
    requires forall j :: i <= j < k ==> Linked(host, entries, j)
    requires entries[k].sequence != k
    ensures FirstFault(host, entries, i) == Err(Failed("audit_ledger_sequence_mismatch"))
    decreases k - i
  {
    hide EntryDigest;
    if i < k {
      assert Linked(host, entries, i);
      FaultAt(host, entries, i + 1, k);
    }
  }

  /** Over any run of appends from an empty file, the whole file verifies exactly as long as it
      holds between 1 and 101 entries. */
  lemma RunsVerifyUpToTheReadLimit(host: Host, requests: seq<AppendRequest>) returns (entries: seq<LedgerEntry>)
    ensures RunLines(host, requests) == Rows(entries) && AllValid(host, entries)
    ensures VerificationOf(host, entries).Verified? <==> 1 <= |entries| <= DEFAULT_READ_LIMIT + 1
    ensures |entries| > DEFAULT_READ_LIMIT + 1 ==>
              VerificationOf(host, entries) == Failed("audit_ledger_sequence_mismatch")
  {
    hide ValidateEntry, EntryDigest, AppendOf;
    entries := RunsKeepInvariant(host, requests);
    InvariantVerdict(host, entries);
  }

  /** One accepted append on a verified ledger of n entries: the result verifies exactly when n <= 100. */
  lemma AppendVerifiesIff(host: Host, entries: seq<LedgerEntry>, q: AppendRequest)
    requires VerificationOf(host, entries).Verified? && AppendOf(host, Rows(entries), q).0.Appended?
    ensures NewEntry(host, Seen(entries), q).Ok?
    ensures var longer := entries + [NewEntry(host, Seen(entries), q).value];
            && AppendOf(host, Rows(entries), q).1 == Rows(longer)
            && (VerificationOf(host, longer).Verified? <==> |entries| <= DEFAULT_READ_LIMIT)
  {
    hide ValidateEntry, EntryDigest, AppendOf, NewEntry;
    VerifiedIffIntact(host, entries);
    AppendExact(host, entries, q);
    NewEntryFacts(host, Seen(entries), q);
    var e := NewEntry(host, Seen(entries), q).value;
    var longer := entries + [e];
    VerifiedIffIntact(host, longer);
    if |entries| <= DEFAULT_READ_LIMIT {
      forall i | 0 <= i < |longer| ensures Linked(host, longer, i) && ValidEntry(host, longer[i]) {
        assert i < |entries| ==> Linked(host, entries, i) && longer[i] == entries[i];
        assert i < |entries| ==> PreviousDigest(longer, i) == PreviousDigest(entries, i);
      }
    } else {
      assert !Linked(host, longer, |entries|);
    }
  }

  /** A caller that names the true head is turned away as soon as the file holds 101 entries: on every verified ledger,
      and on every file built by appends, though such a file no longer verifies. */
  lemma TrueHeadRejected(host: Host, entries: seq<LedgerEntry>, q: AppendRequest)
    requires VerificationOf(host, entries).Verified? || RunInvariant(host, entries)
    requires |entries| > DEFAULT_READ_LIMIT
    requires UnsplitLedger(entries) && NoCollision(host.hash, EntryTexts(entries))
    requires ValidateRecord(host, q.record).Ok?
    requires Strip(q.previousDigest) == HeadDigest(entries)
    ensures AppendOf(host, Rows(entries), q) == (Rejected, Rows(entries))
  {
    hide ValidateEntry, EntryDigest, ReadOf, NewEntry, ValidateRecord, EntryText, FirstInvalid, FirstFault;
    VerifiedIffIntact(host, entries);
    HeadSequences(host, entries);
    PageExact(host, entries, "", DEFAULT_READ_LIMIT);
    HeadsDiffer(host, entries);
  }

  /** The last entry and the last one that `append` sees differ in their sequence. */
  lemma HeadSequences(host: Host, entries: seq<LedgerEntry>)
    requires IntactChain(host, entries) || RunInvariant(host, entries)
    requires |entries| > DEFAULT_READ_LIMIT
    ensures AllValid(host, entries)
    ensures var a, b := entries[|entries| - 1], entries[DEFAULT_READ_LIMIT - 1];
            && EntryDigest(host, a) == Ok(a.entryDigest) && EntryDigest(host, b) == Ok(b.entryDigest)
            && a.sequence != b.sequence
  {
    hide ValidateEntry, EntryDigest;
    assert Linked(host, entries, DEFAULT_READ_LIMIT - 1);
    if IntactChain(host, entries) || |entries| == DEFAULT_READ_LIMIT + 1 {
      assert Linked(host, entries, |entries| - 1);
    }
  }

  lemma HeadsDiffer(host: Host, entries: seq<LedgerEntry>)
    requires |entries| > DEFAULT_READ_LIMIT
    requires var a, b := entries[|entries| - 1], entries[DEFAULT_READ_LIMIT - 1];
             && EntryDigest(host, a) == Ok(a.entryDigest) && EntryDigest(host, b) == Ok(b.entryDigest)
             && a.sequence != b.sequence
    requires UnsplitLedger(entries) && NoCollision(host.hash, EntryTexts(entries))
    ensures HeadDigest(entries) != "" && HeadDigest(entries) != HeadDigest(Seen(entries))
  {
    hide EntryFields, CanonicalText, Denote;
    var a, b := entries[|entries| - 1], entries[DEFAULT_READ_LIMIT - 1];
    assert EntryText(a).value in EntryTexts(entries) && EntryText(b).value in EntryTexts(entries);
    if a.entryDigest == b.entryDigest {
      EqualDigestsSameEntry(host, a, b);
    }
  }

  /** Over any run of appends that has put 101 entries or more into an empty file, naming the true head is refused. */
  lemma RunHeadRejected(host: Host, requests: seq<AppendRequest>, entries: seq<LedgerEntry>, q: AppendRequest)
    requires RunLines(host, requests) == Rows(entries) && |entries| > DEFAULT_READ_LIMIT
    requires UnsplitLedger(entries) && NoCollision(host.hash, EntryTexts(entries))
    requires ValidateRecord(host, q.record).Ok? && Strip(q.previousDigest) == HeadDigest(entries)
    ensures AppendOf(host, Rows(entries), q) == (Rejected, Rows(entries))
  {
    hide AppendOf, RunInvariant, ValidateRecord, UnsplitLedger;
    var built := RunsKeepInvariant(host, requests);
    RowsInjective(built, entries);
    TrueHeadRejected(host, entries, q);
  }

  lemma RowsInjective(a: seq<LedgerEntry>, b: seq<LedgerEntry>)
    requires Rows(a) == Rows(b)
    ensures a == b
  {
    assert |a| == |Rows(a)| == |b|;
    forall i | 0 <= i < |a| ensures a[i] == b[i] {
      assert Rows(a)[i] == Rows(b)[i];
    }
  }
}
