/** Claim-once (`govengine/replay.py`): the replay relation, the in-memory store, and what it guarantees over every
    sequence of claims. */
module Replay {
  import opened Prelude
  import opened PyStrings
  import opened PyValues

  datatype ReplayRecord = ReplayRecord(
    rootTag: string, chainId: string, keyId: string, schemaVersion: string, rootChainDigest: string,
    ticketId: string, runId: string, guardProfile: string, observedAt: string, metadata: Value)

  // --------------------------------------------------------------- relation

  /** `ticket_id or chain_id`. */
  function Scope(r: ReplayRecord): string {
    if r.ticketId != "" then r.ticketId else r.chainId
  }

  predicate SemanticReplay(r: ReplayRecord, prior: ReplayRecord) {
    && r.rootChainDigest != "" && prior.rootChainDigest != ""
    && r.rootChainDigest == prior.rootChainDigest
    && Scope(r) == Scope(prior)
    && r.keyId == prior.keyId
  }

  predicate RootTagReplay(r: ReplayRecord, prior: ReplayRecord) {
    prior.rootTag == r.rootTag && prior.chainId == r.chainId && prior.keyId == r.keyId
  }

  predicate Related(r: ReplayRecord, prior: ReplayRecord) {
    SemanticReplay(r, prior) || RootTagReplay(r, prior)
  }

  lemma RelatedNotTransitive() returns (a: ReplayRecord, b: ReplayRecord, c: ReplayRecord)
    ensures Related(a, b) && Related(b, c) && !Related(a, c)
    ensures Related(b, a) && Related(c, b) && Related(a, a)
  {
    a := ReplayRecord("root", "chain", "key", "v0.1", "", "", "", "", "", Dict([]));
    b := a.(rootChainDigest := "d");
    c := b.(rootTag := "other");
    assert "root" != "other" by {
      assert |"root"| != |"other"|;
    }
  }

  // --------------------------------------------------------------- decision

  datatype ReplayStatus = Fresh | Seen | Replayed | Unusable

  datatype Decision = Decision(
    allowed: bool, replayStatus: ReplayStatus, record: ReplayRecord, firstSeen: Option<ReplayRecord>, blocker: string)

  function Hit(r: ReplayRecord, prior: ReplayRecord, requireFresh: bool): Decision {
    if !requireFresh then Decision(true, Seen, r, Some(prior), "")
    else if SemanticReplay(r, prior) then Decision(false, Replayed, r, Some(prior), "replayed_guarded_payload:" + r.rootChainDigest)
    else Decision(false, Replayed, r, Some(prior), "replayed_guard_root:" + r.rootTag)
  }

  /** `evaluate_guard_replay`: the first related prior record decides. */
  function Evaluate(r: ReplayRecord, priors: seq<ReplayRecord>, requireFresh: bool): Decision {
    if priors == [] then Decision(true, Fresh, r, None, "")
    else if Related(r, priors[0]) then Hit(r, priors[0], requireFresh)
    else Evaluate(r, priors[1..], requireFresh)
  }

  lemma {:induction false} EvaluateExact(r: ReplayRecord, priors: seq<ReplayRecord>, requireFresh: bool)
    ensures var d := Evaluate(r, priors, requireFresh);
            && (d.replayStatus == Fresh <==> forall i :: 0 <= i < |priors| ==> !Related(r, priors[i]))
            && (d.replayStatus == Fresh ==> d == Decision(true, Fresh, r, None, ""))
            && (d.replayStatus != Fresh ==>
                  exists i :: 0 <= i < |priors| && Related(r, priors[i])
                              && (forall j :: 0 <= j < i ==> !Related(r, priors[j]))
                              && d == Hit(r, priors[i], requireFresh))
  {
    hide Related, Hit;
    if priors != [] {
      if Related(r, priors[0]) {
        HitIsNoFresh(r, priors[0], requireFresh);
      } else {
        var rest := priors[1..];
        EvaluateExact(r, rest, requireFresh);
        if Evaluate(r, rest, requireFresh).replayStatus != Fresh {
          var i :| 0 <= i < |rest| && Related(r, rest[i]) && (forall j :: 0 <= j < i ==> !Related(r, rest[j]))
                   && Evaluate(r, rest, requireFresh) == Hit(r, rest[i], requireFresh);
          assert Related(r, priors[i + 1]);
          assert forall j :: 0 <= j < i + 1 ==> !Related(r, priors[j]) by {
            assert forall j :: 1 <= j < i + 1 ==> priors[j] == rest[j - 1];
          }
        } else {
          assert forall i :: 1 <= i < |priors| ==> priors[i] == rest[i - 1];
        }
      }
    }
  }

  lemma HitIsNoFresh(r: ReplayRecord, prior: ReplayRecord, requireFresh: bool)
    ensures Hit(r, prior, requireFresh).replayStatus == if requireFresh then Replayed else Seen
    ensures Hit(r, prior, requireFresh).allowed == !requireFresh
    ensures Hit(r, prior, requireFresh).firstSeen == Some(prior)
  {
  }

  // ------------------------------------------------------------ in memory

  function ClaimMemory(records: seq<ReplayRecord>, r: ReplayRecord, requireFresh: bool): (Decision, seq<ReplayRecord>) {
    var d := Evaluate(r, records, requireFresh);
    (d, if d.replayStatus == Fresh then records + [r] else records)
  }

  class InMemoryReplayClaimStore {
    var records: seq<ReplayRecord>

    constructor (records: seq<ReplayRecord>)
      ensures this.records == records
    {
      this.records := records;
    }

    method ClaimOnce(r: ReplayRecord, requireFresh: bool) returns (d: Decision)
      modifies this
      ensures (d, records) == ClaimMemory(old(records), r, requireFresh)
      ensures d.replayStatus == Fresh <==> forall i :: 0 <= i < |old(records)| ==> !Related(r, old(records)[i])
      ensures d.replayStatus == Fresh ==> d.allowed && records == old(records) + [r]
      ensures d.replayStatus != Fresh ==>
                && records == old(records) && d.allowed == !requireFresh
                && exists i :: 0 <= i < |records| && d.firstSeen == Some(records[i]) && Related(r, records[i])
                               && forall j :: 0 <= j < i ==> !Related(r, records[j])
    {
      hide Evaluate, Related, Hit;
      d := Evaluate(r, records, requireFresh);
      EvaluateExact(r, records, requireFresh);
      forall i | 0 <= i < |records|
        ensures Hit(r, records[i], requireFresh).firstSeen == Some(records[i])
                && Hit(r, records[i], requireFresh).allowed == !requireFresh
      {
        HitIsNoFresh(r, records[i], requireFresh);
      }
      if d.replayStatus == Fresh {
        records := records + [r];
      }
    }
  }

  datatype Claim = Claim(record: ReplayRecord, requireFresh: bool)

  /** The decisions and the final store of a sequence of claims. */
  function RunMemory(records: seq<ReplayRecord>, claims: seq<Claim>): (seq<Decision>, seq<ReplayRecord>)
    decreases |claims|
  {
    if claims == [] then ([], records)
    else
      var (d, records') := ClaimMemory(records, claims[0].record, claims[0].requireFresh);
      var (ds, final) := RunMemory(records', claims[1..]);
      ([d] + ds, final)
  }

  ghost predicate PairwiseUnrelated(records: seq<ReplayRecord>) {
    forall i, j :: 0 <= i < j < |records| ==> !Related(records[j], records[i])
  }

  /** The records answered fresh, in order. */
  function FreshRecords(ds: seq<Decision>): seq<ReplayRecord> {
    if ds == [] then []
    else (if ds[0].replayStatus == Fresh then [ds[0].record] else []) + FreshRecords(ds[1..])
  }

  lemma ClaimKeepsUnrelated(records: seq<ReplayRecord>, r: ReplayRecord, requireFresh: bool)
    requires PairwiseUnrelated(records)
    ensures PairwiseUnrelated(ClaimMemory(records, r, requireFresh).1)
  {
    EvaluateExact(r, records, requireFresh);
  }

  /** Over any sequence of claims the store stays pairwise unrelated and grows at its tail by exactly the
      records answered fresh. */
  lemma {:induction false} RunKeepsUnrelated(records: seq<ReplayRecord>, claims: seq<Claim>)
    requires PairwiseUnrelated(records)
    ensures PairwiseUnrelated(RunMemory(records, claims).1)
    ensures RunMemory(records, claims).1 == records + FreshRecords(RunMemory(records, claims).0)
    ensures |RunMemory(records, claims).0| == |claims|
    decreases |claims|
  {
    hide PairwiseUnrelated, Evaluate, FreshRecords, ClaimMemory, Related, Hit;
    if claims == [] {
      NothingFresh();
      assert records + [] == records;
    } else {
      var r, f := claims[0].record, claims[0].requireFresh;
      var (d, records') := ClaimMemory(records, r, f);
      ClaimKeepsUnrelated(records, r, f);
      ClaimGrows(records, r, f);
      RunKeepsUnrelated(records', claims[1..]);
      var ds := RunMemory(records', claims[1..]).0;
      FreshCons(d, ds);
      assert records' + FreshRecords(ds) == records + FreshRecords([d] + ds);
    }
  }

  lemma NothingFresh()
    ensures FreshRecords([]) == []
  {
  }

  lemma FreshCons(d: Decision, ds: seq<Decision>)
    ensures FreshRecords([d] + ds) == (if d.replayStatus == Fresh then [d.record] else []) + FreshRecords(ds)
  {
    assert ([d] + ds)[1..] == ds;
  }

  /** A claim adds its record exactly when it is answered fresh. */
  lemma ClaimGrows(records: seq<ReplayRecord>, r: ReplayRecord, requireFresh: bool)
    ensures var (d, records') := ClaimMemory(records, r, requireFresh);
            records' == records + (if d.replayStatus == Fresh then [d.record] else [])
  {
    hide Evaluate, Related, Hit;
    EvaluateExact(r, records, requireFresh);
  }

  /** The decision on claim `k` is taken against the records answered fresh before it. */
  lemma {:induction false} DecisionAt(records: seq<ReplayRecord>, claims: seq<Claim>, k: nat)
    requires k < |claims|
    ensures |RunMemory(records, claims).0| == |claims|
    ensures RunMemory(records, claims).0[k]
            == Evaluate(claims[k].record, RunMemory(records, claims[..k]).1, claims[k].requireFresh)
    decreases |claims|
  {
    hide Evaluate;
    var (d, records') := ClaimMemory(records, claims[0].record, claims[0].requireFresh);
    if k == 0 {
      assert claims[..0] == [];
      RunLength(records', claims[1..]);
    } else {
      DecisionAt(records', claims[1..], k - 1);
      assert claims[..k][1..] == claims[1..][..k - 1];
    }
  }

  lemma {:induction false} RunLength(records: seq<ReplayRecord>, claims: seq<Claim>)
    ensures |RunMemory(records, claims).0| == |claims|
    decreases |claims|
  {
    if claims != [] {
      RunLength(ClaimMemory(records, claims[0].record, claims[0].requireFresh).1, claims[1..]);
    }
  }

  /** Claim-once from an empty store: any claim that is related to an earlier claim answered fresh is never
      fresh itself, it is blocked if freshness is required, and it reports the earliest related stored record. */
  lemma ClaimOnceGuarantee(claims: seq<Claim>, i: nat, k: nat)
    requires i < k < |claims|
    ensures |RunMemory([], claims).0| == |claims|
    ensures var ds := RunMemory([], claims).0;
            ds[i].replayStatus == Fresh && Related(claims[k].record, claims[i].record) ==>
              && ds[k].replayStatus == (if claims[k].requireFresh then Replayed else Seen)
              && ds[k].allowed == !claims[k].requireFresh
    ensures var ds := RunMemory([], claims).0;
            var stored := RunMemory([], claims[..k]).1;
            ds[k].replayStatus != Fresh ==>
              exists j :: 0 <= j < |stored| && ds[k].firstSeen == Some(stored[j]) && Related(claims[k].record, stored[j])
                          && forall m :: 0 <= m < j ==> !Related(claims[k].record, stored[m])
  {
    hide Related, Evaluate, Hit;
    DecisionAt([], claims, i);
    DecisionAt([], claims, k);
    var stored := RunMemory([], claims[..k]).1;
    var r, f := claims[k].record, claims[k].requireFresh;
    EvaluateExact(r, stored, f);
    forall j | 0 <= j < |stored|
      ensures Hit(r, stored[j], f).replayStatus == if f then Replayed else Seen
      ensures Hit(r, stored[j], f).allowed == !f && Hit(r, stored[j], f).firstSeen == Some(stored[j])
    {
      HitIsNoFresh(r, stored[j], f);
    }
    if RunMemory([], claims).0[i].replayStatus == Fresh {
      FreshIsStored([], claims, i, k);
    }
  }

  /** A record answered fresh is in the store from then on. */
  lemma {:induction false} FreshIsStored(records: seq<ReplayRecord>, claims: seq<Claim>, i: nat, k: nat)
    requires i < k <= |claims|
    requires |RunMemory(records, claims).0| == |claims| && RunMemory(records, claims).0[i].replayStatus == Fresh
    ensures claims[i].record in RunMemory(records, claims[..k]).1
    decreases k - i
  {
    hide Evaluate;
    DecisionAt(records, claims, i);
    RunExtends(records, claims[..k - 1], claims[k - 1]);
    assert claims[..k] == claims[..k - 1] + [claims[k - 1]];
    if i < k - 1 {
      FreshIsStored(records, claims, i, k - 1);
    }
  }

  lemma {:induction false} RunExtends(records: seq<ReplayRecord>, claims: seq<Claim>, last: Claim)
    ensures RunMemory(records, claims + [last]).1
            == ClaimMemory(RunMemory(records, claims).1, last.record, last.requireFresh).1
    decreases |claims|
  {
    hide Evaluate;
    if claims == [] {
      assert ([] + [last])[1..] == [];
    } else {
      assert (claims + [last])[1..] == claims[1..] + [last];
      RunExtends(ClaimMemory(records, claims[0].record, claims[0].requireFresh).1, claims[1..], last);
    }
  }
}
