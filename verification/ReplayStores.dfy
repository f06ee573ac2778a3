/** The state-store and file versions of claim-once (`govengine/replay.py`, `govengine/state_store.py`):
    what is written, what is read back, and when all three versions agree. */
module ReplayStores {
  import opened Prelude
  import opened PyStrings
  import opened PyValues
  import opened Replay

  /** The members `from_mapping` looks at; any other member of a stored record is ignored. */
  datatype Member =
    | RootTag | ChainId | KeyId | SchemaVersion | RootChainDigest | TicketId | RunId
    | GuardProfile | Profile | ObservedAt | Metadata

  /** A stored JSON value: `shown` is `str(value or "")` for values that are not text. */
  datatype Cell = Null | StrCell(s: string) | Object(value: Value, shown: string) | Other(shown: string)

  type RawRecord = map<Member, Cell>

  /** `str(raw.get(member) or "")`. */
  function Shown(raw: RawRecord, m: Member): string {
    if m !in raw then ""
    else
      match raw[m]
      case Null => ""
      case StrCell(s) => s
      case Object(_, shown) => shown
      case Other(shown) => shown
  }

  function OrElse(s: string, default: string): string {
    if s == "" then default else s
  }

  function FromMapping(raw: RawRecord): Result<ReplayRecord, string> {
    var rootTag, chainId, keyId := Strip(Shown(raw, RootTag)), Strip(Shown(raw, ChainId)), Strip(Shown(raw, KeyId));
    :- Need(rootTag != "", "missing_root_tag");
    :- Need(chainId != "", "missing_chain_id");
    :- Need(keyId != "", "missing_key_id");
    Ok(ReplayRecord(
      rootTag, chainId, keyId,
      OrElse(Shown(raw, SchemaVersion), "v0.1"),
      Shown(raw, RootChainDigest), Shown(raw, TicketId), Shown(raw, RunId),
      OrElse(OrElse(Shown(raw, GuardProfile), Shown(raw, Profile)), "kernel_guard_hmac_v1"),
      Shown(raw, ObservedAt),
      if Metadata in raw && raw[Metadata].Object? then raw[Metadata].value else Dict([])))
  }

  function AsDict(r: ReplayRecord): RawRecord {
    map[RootTag := StrCell(r.rootTag), ChainId := StrCell(r.chainId), KeyId := StrCell(r.keyId),
        SchemaVersion := StrCell(r.schemaVersion), RootChainDigest := StrCell(r.rootChainDigest),
        TicketId := StrCell(r.ticketId), RunId := StrCell(r.runId), GuardProfile := StrCell(r.guardProfile),
        ObservedAt := StrCell(r.observedAt), Metadata := Object(r.metadata, "")]
  }

  /** What `from_mapping` guarantees of its result. */
  predicate Normalised(r: ReplayRecord) {
    && r.rootTag != "" && Trimmed(r.rootTag)
    && r.chainId != "" && Trimmed(r.chainId)
    && r.keyId != "" && Trimmed(r.keyId)
    && r.schemaVersion != "" && r.guardProfile != ""
  }

  lemma FromMappingNormalises(raw: RawRecord)
    ensures FromMapping(raw).Ok? ==> Normalised(FromMapping(raw).value)
  {
    hide Trimmed;
    StripTrims(Shown(raw, RootTag));
    StripTrims(Shown(raw, ChainId));
    StripTrims(Shown(raw, KeyId));
  }

  /** Reading back what was written returns the record exactly when it is normalised. */
  lemma RecordRoundTripIff(r: ReplayRecord)
    ensures FromMapping(AsDict(r)) == Ok(r) <==> Normalised(r)
  {
    hide Trimmed, Strip;
    StripTrims(r.rootTag);
    StripTrims(r.chainId);
    StripTrims(r.keyId);
  }

  // ----------------------------------------------------------- stored values

  datatype StoredItem = StoredRecord(raw: RawRecord) | NoRecord

  /** A stored JSON document; `records` is absent when it is not a list. */
  datatype Stored = NoMapping | Store(artifactType: Cell, schemaVersion: Cell, records: Option<seq<StoredItem>>)

  const ARTIFACT_TYPE := StrCell("guard_replay_store")
  const STORE_VERSION := StrCell("v0.1")

  function StoreFromRecords(records: seq<ReplayRecord>): Stored {
    Store(ARTIFACT_TYPE, STORE_VERSION,
          Some(seq(|records|, i requires 0 <= i < |records| => StoredRecord(AsDict(records[i])))))
  }

  function ReadItems(items: seq<StoredItem>): Result<seq<ReplayRecord>, string> {
    if items == [] then Ok([])
    else
      match items[0]
      case NoRecord => ReadItems(items[1..])
      case StoredRecord(raw) =>
        var head :- FromMapping(raw);
        var tail :- ReadItems(items[1..]);
        Ok([head] + tail)
  }

  /** `_records_from_store`. */
  function RecordsFromStore(v: Stored): Result<seq<ReplayRecord>, string> {
    if v.NoMapping? || v.records.None? then Ok([]) else ReadItems(v.records.value)
  }

  /** `_normalize_file_store`, as the records it lets through. */
  function NormaliseFileStore(v: Stored): Result<seq<ReplayRecord>, string> {
    if !v.Store? then Err("invalid_guard_replay_store")
    else
      :- Need(v.artifactType == ARTIFACT_TYPE, "invalid_guard_replay_store_artifact_type");
      :- Need(v.schemaVersion == STORE_VERSION, "invalid_guard_replay_store_schema_version");
      :- Need(v.records.Some?, "invalid_guard_replay_store_records");
      :- Need(forall i :: 0 <= i < |v.records.value| ==> v.records.value[i].StoredRecord?, "invalid_guard_replay_store_record");
      ReadItems(v.records.value)
  }

  // -------------------------------------------------------------- the stores

  function ClaimStored(v: Stored, r: ReplayRecord, requireFresh: bool): (Result<Decision, string>, Stored) {
    match RecordsFromStore(v)
    case Err(reason) => (Err(reason), v)
    case Ok(records) =>
      var d := Evaluate(r, records, requireFresh);
      (Ok(d), if d.replayStatus == Fresh then StoreFromRecords(records + [r]) else v)
  }

  /** A host's state store, seen through one key. */
  class GovStateStore {
    var json: Stored

    constructor (json: Stored)
      ensures this.json == json
    {
      this.json := json;
    }

    method RecordGuardReplay(r: ReplayRecord, requireFresh: bool) returns (d: Result<Decision, string>)
      modifies this
      ensures (d, json) == ClaimStored(old(json), r, requireFresh)
      ensures d.Err? <==> RecordsFromStore(old(json)).Err?
      ensures d.Err? ==> json == old(json)
      ensures d.Ok? ==>
                var stored := RecordsFromStore(old(json)).value;
                && (d.value.replayStatus == Fresh <==> forall i :: 0 <= i < |stored| ==> !Related(r, stored[i]))
                && (d.value.replayStatus == Fresh && AllNormalised(stored + [r]) ==> RecordsFromStore(json) == Ok(stored + [r]))
                && (d.value.replayStatus != Fresh ==> json == old(json))
    {
      hide Evaluate, Related, RecordsFromStore, StoreFromRecords;
      var current := json;
      var records := RecordsFromStore(current);
      if records.Err? {
        return Err(records.error);
      }
      var decision := Evaluate(r, records.value, requireFresh);
      EvaluateExact(r, records.value, requireFresh);
      if AllNormalised(records.value + [r]) {
        StoreRoundTrip(records.value + [r]);
      }
      if decision.replayStatus == Fresh {
        json := StoreFromRecords(records.value + [r]);
      }
      return Ok(decision);
    }
  }

  datatype FileState = Missing | InvalidJson | Parsed(value: Stored)

  datatype LoadStatus = StatusMissing | StatusOk | StatusInvalidJson | StatusInvalidShape

  /** `safe_load_json_object` followed by `_records_from_store`. */
  function Load(f: FileState): (LoadStatus, seq<ReplayRecord>) {
    match f
    case Missing => (StatusMissing, [])
    case InvalidJson => (StatusInvalidJson, [])
    case Parsed(v) =>
      match NormaliseFileStore(v)
      case Err(_) => (StatusInvalidShape, [])
      case Ok(records) => (StatusOk, records)
  }

  function Unreadable(status: LoadStatus, r: ReplayRecord): Decision {
    Decision(false, Unusable, r, None,
             if status == StatusInvalidJson then "guard_replay_store_invalid_json" else "guard_replay_store_invalid_shape")
  }

  function ClaimFile(f: FileState, r: ReplayRecord, requireFresh: bool): (Decision, FileState) {
    var (status, records) := Load(f);
    if status != StatusMissing && status != StatusOk then (Unreadable(status, r), f)
    else
      var d := Evaluate(r, records, requireFresh);
      (d, if d.replayStatus == Fresh then Parsed(StoreFromRecords(records + [r])) else f)
  }

  class ReplayFile {
    var content: FileState

    constructor (content: FileState)
      ensures this.content == content
    {
      this.content := content;
    }

    method RecordGuardReplay(r: ReplayRecord, requireFresh: bool) returns (d: Decision)
      modifies this
      ensures (d, content) == ClaimFile(old(content), r, requireFresh)
      ensures var (status, stored) := Load(old(content));
              if status == StatusMissing || status == StatusOk then
                && (d.replayStatus == Fresh <==> forall i :: 0 <= i < |stored| ==> !Related(r, stored[i]))
                && (d.replayStatus == Fresh && AllNormalised(stored + [r]) ==> Load(content) == (StatusOk, stored + [r]))
                && (d.replayStatus != Fresh ==> content == old(content))
              else d.replayStatus == Unusable && !d.allowed && content == old(content)
    {
      hide Evaluate, Related, NormaliseFileStore, StoreFromRecords;
      var (status, records) := Load(content);
      if status != StatusMissing && status != StatusOk {
        return Unreadable(status, r);
      }
      d := Evaluate(r, records, requireFresh);
      EvaluateExact(r, records, requireFresh);
      if AllNormalised(records + [r]) {
        StoreRoundTrip(records + [r]);
      }
      if d.replayStatus == Fresh {
        content := Parsed(StoreFromRecords(records + [r]));
      }
    }
  }

  // --------------------------------------------------------------- agreement

  ghost predicate AllNormalised(records: seq<ReplayRecord>) {
    forall i :: 0 <= i < |records| ==> Normalised(records[i])
  }

  lemma {:induction false} ReadItemsBack(items: seq<StoredItem>, records: seq<ReplayRecord>)
    requires |items| == |records| && forall i :: 0 <= i < |items| ==> items[i] == StoredRecord(AsDict(records[i]))
    requires AllNormalised(records)
    ensures ReadItems(items) == Ok(records)
  {
    hide FromMapping, AsDict, Normalised;
    if items != [] {
      RecordRoundTripIff(records[0]);
      ReadItemsBack(items[1..], records[1..]);
      assert items[0] == StoredRecord(AsDict(records[0]));
      assert records == [records[0]] + records[1..];
    }
  }

  /** Writing normalised records and loading them again returns the same records. */
  lemma StoreRoundTrip(records: seq<ReplayRecord>)
    requires AllNormalised(records)
    ensures RecordsFromStore(StoreFromRecords(records)) == Ok(records)
    ensures NormaliseFileStore(StoreFromRecords(records)) == Ok(records)
  {
    hide FromMapping, AsDict, Normalised, ReadItems;
    ReadItemsBack(StoreFromRecords(records).records.value, records);
  }

  function RunStored(v: Stored, claims: seq<Claim>): (seq<Result<Decision, string>>, Stored)
    decreases |claims|
  {
    if claims == [] then ([], v)
    else
      var (d, v') := ClaimStored(v, claims[0].record, claims[0].requireFresh);
      var (ds, final) := RunStored(v', claims[1..]);
      ([d] + ds, final)
  }

  function RunFile(f: FileState, claims: seq<Claim>): (seq<Decision>, FileState)
    decreases |claims|
  {
    if claims == [] then ([], f)
    else
      var (d, f') := ClaimFile(f, claims[0].record, claims[0].requireFresh);
      var (ds, final) := RunFile(f', claims[1..]);
      ([d] + ds, final)
  }

  /** The three stores hold the same normalised records. */
  ghost predicate InStep(records: seq<ReplayRecord>, v: Stored, f: FileState) {
    && AllNormalised(records)
    && RecordsFromStore(v) == Ok(records)
    && Load(f).1 == records && (Load(f).0 == StatusMissing || Load(f).0 == StatusOk)
  }

  lemma ClaimStaysInStep(records: seq<ReplayRecord>, v: Stored, f: FileState, r: ReplayRecord, requireFresh: bool)
    requires InStep(records, v, f) && Normalised(r)
    ensures ClaimStored(v, r, requireFresh).0 == Ok(ClaimMemory(records, r, requireFresh).0)
    ensures ClaimFile(f, r, requireFresh).0 == ClaimMemory(records, r, requireFresh).0
    ensures InStep(ClaimMemory(records, r, requireFresh).1, ClaimStored(v, r, requireFresh).1, ClaimFile(f, r, requireFresh).1)
  {
    hide FromMapping, AsDict, Normalised, ReadItems, Evaluate, NormaliseFileStore, RecordsFromStore;
    StoreRoundTrip(records);
    if Evaluate(r, records, requireFresh).replayStatus == Fresh {
      StoreRoundTrip(records + [r]);
    }
  }

  /** On normalised records the in-memory, state-store and file versions give the same decisions, claim by claim. */
  lemma {:induction false} StoresAgree(records: seq<ReplayRecord>, v: Stored, f: FileState, claims: seq<Claim>)
    requires InStep(records, v, f)
    requires forall i :: 0 <= i < |claims| ==> Normalised(claims[i].record)
    ensures var ds := RunMemory(records, claims).0;
            && RunFile(f, claims).0 == ds
            && |RunStored(v, claims).0| == |ds| && (forall i :: 0 <= i < |ds| ==> RunStored(v, claims).0[i] == Ok(ds[i]))
    ensures InStep(RunMemory(records, claims).1, RunStored(v, claims).1, RunFile(f, claims).1)
    decreases |claims|
  {
    hide InStep, Normalised, ClaimMemory, ClaimStored, ClaimFile;
    if claims != [] {
      var r, q := claims[0].record, claims[0].requireFresh;
      ClaimStaysInStep(records, v, f, r, q);
      StoresAgree(ClaimMemory(records, r, q).1, ClaimStored(v, r, q).1, ClaimFile(f, r, q).1, claims[1..]);
    }
  }

  /** An empty store, a fresh host key and a missing file start in step. */
  lemma StartInStep()
    ensures InStep([], NoMapping, Missing)
  {
  }

  // ------------------------------------------------------------- odd cases

  ghost predicate Corrupt(f: FileState) {
    f.InvalidJson? || (f.Parsed? && NormaliseFileStore(f.value).Err?)
  }

  /** A corrupt file blocks every claim and is never overwritten. */
  lemma {:induction false} CorruptFileBlocks(f: FileState, claims: seq<Claim>)
    requires Corrupt(f)
    ensures RunFile(f, claims).1 == f && |RunFile(f, claims).0| == |claims|
    ensures forall i :: 0 <= i < |claims| ==> RunFile(f, claims).0[i].replayStatus == Unusable && !RunFile(f, claims).0[i].allowed
    decreases |claims|
  {
    hide NormaliseFileStore;
    if claims != [] {
      CorruptFileBlocks(f, claims[1..]);
    }
  }

  /** The state store, by contrast, treats a document that is not a mapping as empty. */
  lemma StateStoreForgivesNonMapping(r: ReplayRecord, requireFresh: bool)
    ensures ClaimStored(NoMapping, r, requireFresh) == (Ok(Decision(true, Fresh, r, None, "")), StoreFromRecords([r]))
  {
    assert [] + [r] == [r];
  }

  /** The padded fields of a record that reach the comparison after a reload. */
  predicate SurvivesReload(r: ReplayRecord) {
    && Trimmed(r.keyId)
    && ((r.rootChainDigest != "" && (r.ticketId != "" || Trimmed(r.chainId)))
        || (Trimmed(r.rootTag) && Trimmed(r.chainId)))
  }

  ghost predicate Loadable(r: ReplayRecord) {
    Strip(r.rootTag) != "" && Strip(r.chainId) != "" && Strip(r.keyId) != ""
  }

  lemma ReloadedRecord(r: ReplayRecord)
    ensures FromMapping(AsDict(r)).Ok? <==> Loadable(r)
    ensures Loadable(r) ==> (Related(r, FromMapping(AsDict(r)).value) <==> SurvivesReload(r))
  {
    hide Strip, Trimmed;
    StripTrims(r.rootTag);
    StripTrims(r.chainId);
    StripTrims(r.keyId);
  }

  /** Whatever a store hands out has been normalised. */
  lemma {:induction false} ItemsAreNormalised(items: seq<StoredItem>)
    ensures ReadItems(items).Ok? ==> AllNormalised(ReadItems(items).value)
  {
    hide FromMapping, Normalised;
    if items != [] {
      ItemsAreNormalised(items[1..]);
      if items[0].StoredRecord? {
        FromMappingNormalises(items[0].raw);
      }
    }
  }

  /** Reading one more item reads it after the others. */
  lemma {:induction false} ReadItemsSnoc(items: seq<StoredItem>, raw: RawRecord)
    requires ReadItems(items).Ok?
    ensures ReadItems(items + [StoredRecord(raw)])
            == match FromMapping(raw) case Ok(back) => Ok(ReadItems(items).value + [back]) case Err(e) => Err(e)
  {
    hide FromMapping;
    var longer := items + [StoredRecord(raw)];
    if items == [] {
      assert longer == [StoredRecord(raw)] && longer[1..] == [];
      assert ReadItems(longer[1..]) == Ok([]);
      if FromMapping(raw).Ok? {
        var back := FromMapping(raw).value;
        assert [back] + [] == [back] == [] + [back];
      }
    } else {
      assert longer[1..] == items[1..] + [StoredRecord(raw)];
      ReadItemsSnoc(items[1..], raw);
      assert longer[0] == items[0];
      if items[0].StoredRecord? && FromMapping(raw).Ok? {
        var head, tail, back := FromMapping(items[0].raw).value, ReadItems(items[1..]).value, FromMapping(raw).value;
        assert [head] + (tail + [back]) == [head] + tail + [back];
      }
    }
  }

  /** Writing normalised records and one more, whatever it is, and loading the file again. */
  lemma OneMoreLoads(records: seq<ReplayRecord>, r: ReplayRecord)
    requires AllNormalised(records)
    ensures NormaliseFileStore(StoreFromRecords(records + [r]))
            == match FromMapping(AsDict(r)) case Ok(back) => Ok(records + [back]) case Err(e) => Err(e)
  {
    hide FromMapping, AsDict, Normalised, ReadItems;
    var items := StoreFromRecords(records).records.value;
    ReadItemsBack(items, records);
    ReadItemsSnoc(items, AsDict(r));
    assert StoreFromRecords(records + [r]).records.value == items + [StoredRecord(AsDict(r))];
  }

  /** The file can be read. */
  predicate Readable(f: FileState) {
    Load(f).0 == StatusMissing || Load(f).0 == StatusOk
  }

  /** Claiming any record a second time, on any readable file that did not know it: the second claim is recognised
      exactly when the record can be reloaded and padding does not reach the compared fields, forgotten exactly when it
      can be reloaded and padding does, and the whole file is blocked exactly when the record cannot be reloaded. */
  lemma SecondFileClaim(f: FileState, r: ReplayRecord)
    requires Readable(f) && ClaimFile(f, r, true).0.replayStatus == Fresh
    ensures var second := ClaimFile(ClaimFile(f, r, true).1, r, true).0;
            && (second.replayStatus == Replayed <==> Loadable(r) && SurvivesReload(r))
            && (second.replayStatus == Fresh <==> Loadable(r) && !SurvivesReload(r))
            && (second.replayStatus == Unusable <==> !Loadable(r))
  {
    hide FromMapping, AsDict, Loadable, SurvivesReload, NormaliseFileStore, StoreFromRecords, Related, Hit;
    var records := Load(f).1;
    LoadedIsNormalised(f);
    OneMoreLoads(records, r);
    ReloadedRecord(r);
    EvaluateExact(r, records, true);
    if Loadable(r) {
      var back := FromMapping(AsDict(r)).value;
      SecondEvaluation(records, r, back);
    }
  }

  lemma LoadedIsNormalised(f: FileState)
    ensures AllNormalised(Load(f).1)
  {
    hide FromMapping, Normalised, ReadItems;
    if f.Parsed? && f.value.Store? && f.value.records.Some? {
      ItemsAreNormalised(f.value.records.value);
    }
  }

  /** Against records that are unrelated to `r`, only the reloaded copy at the end decides. */
  lemma SecondEvaluation(records: seq<ReplayRecord>, r: ReplayRecord, back: ReplayRecord)
    requires Evaluate(r, records, true).replayStatus == Fresh
    ensures Evaluate(r, records + [back], true).replayStatus == if Related(r, back) then Replayed else Fresh
  {
    hide Related, Hit, Evaluate;
    var longer := records + [back];
    EvaluateExact(r, records, true);
    EvaluateExact(r, longer, true);
    forall i | 0 <= i < |longer| ensures Hit(r, longer[i], true).replayStatus == Replayed {
      HitIsNoFresh(r, longer[i], true);
    }
    assert longer[|records|] == back;
    assert forall i :: 0 <= i < |records| ==> longer[i] == records[i];
  }

  /** A padded root tag is forgotten by the file: the second claim of this record is answered fresh again. */
  lemma PaddedRootTagForgotten()
    ensures var r := ReplayRecord(" t", "c", "k", "v0.1", "", "", "", "p", "", Dict([]));
            ClaimFile(ClaimFile(Missing, r, true).1, r, true).0.replayStatus == Fresh
  {
    hide NormaliseFileStore, StoreFromRecords, Related, Hit;
    var r := ReplayRecord(" t", "c", "k", "v0.1", "", "", "", "p", "", Dict([]));
    SecondFileClaim(Missing, r);
    assert StripLeft(" t") == "t" by {
      assert " t"[1..] == "t";
    }
    assert Strip(" t") == "t" && Strip("c") == "c" && Strip("k") == "k";
  }

  /** In memory the same double claim is always recognised. */
  lemma SecondMemoryClaim(r: ReplayRecord)
    ensures var first := ClaimMemory([], r, true);
            first.0.replayStatus == Fresh && ClaimMemory(first.1, r, true).0.replayStatus == Replayed
  {
    EvaluateExact(r, [r], true);
    assert [] + [r] == [r];
  }
}
