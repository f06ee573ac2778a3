/** Concurrent claims: the atomic port (`ReplayClaimStore`) against the read-then-write steps of
    `record_guard_replay` (`govengine/replay.py`). */
module ReplayProtocol {
  import opened Prelude
  import opened Replay

  datatype Client = Idle | HasRead(snapshot: seq<ReplayRecord>) | Answered(decision: Decision)

  datatype System = System(store: seq<ReplayRecord>, clients: seq<Client>)

  datatype Step = Atomic(client: nat) | Read(client: nat) | Write(client: nat)

  /** Client `i` makes `claims[i]`. */
  function Start(claims: seq<Claim>): System {
    System([], seq(|claims|, _ => Idle))
  }

  /** One step; a step that is not enabled changes nothing. */
  function Next(claims: seq<Claim>, s: System, step: Step): System
    requires |s.clients| == |claims|
  {
    var i := step.client;
    if i >= |claims| then s
    else
      match (step, s.clients[i])
      case (Atomic(_), Idle) =>
        var (d, store) := ClaimMemory(s.store, claims[i].record, claims[i].requireFresh);
        System(store, s.clients[i := Answered(d)])
      case (Read(_), Idle) => s.(clients := s.clients[i := HasRead(s.store)])
      case (Write(_), HasRead(snapshot)) =>
        var d := Evaluate(claims[i].record, snapshot, claims[i].requireFresh);
        System(if d.replayStatus == Fresh then snapshot + [claims[i].record] else s.store,
               s.clients[i := Answered(d)])
      case _ => s
  }

  /** The state after an interleaving. */
  function Run(claims: seq<Claim>, schedule: seq<Step>): (s: System)
    ensures |s.clients| == |claims|
  {
    if schedule == [] then Start(claims)
    else Next(claims, Run(claims, schedule[..|schedule| - 1]), schedule[|schedule| - 1])
  }

  predicate AnsweredFresh(s: System, i: nat) {
    i < |s.clients| && s.clients[i].Answered? && s.clients[i].decision.replayStatus == Fresh
  }

  /** No two claims answered fresh are for related records. */
  ghost predicate Safe(claims: seq<Claim>, s: System)
    requires |s.clients| == |claims|
  {
    forall i, j :: 0 <= i < |claims| && 0 <= j < |claims| && i != j && AnsweredFresh(s, i) && AnsweredFresh(s, j)
      ==> !Related(claims[i].record, claims[j].record)
  }

  ghost predicate AllAtomic(schedule: seq<Step>) {
    forall k :: 0 <= k < |schedule| ==> schedule[k].Atomic?
  }

  /** Safe, and every record answered fresh is in the store. */
  ghost predicate Invariant(claims: seq<Claim>, s: System)
    requires |s.clients| == |claims|
  {
    && Safe(claims, s)
    && forall i :: 0 <= i < |claims| && AnsweredFresh(s, i) ==> claims[i].record in s.store
  }

  lemma AtomicStepKeepsInvariant(claims: seq<Claim>, s: System, step: Step)
    requires |s.clients| == |claims| && Invariant(claims, s) && step.Atomic?
    ensures Invariant(claims, Next(claims, s, step))
  {
    hide Related, Evaluate;
    var k := step.client;
    if k < |claims| && s.clients[k].Idle? {
      var r, f := claims[k].record, claims[k].requireFresh;
      EvaluateExact(r, s.store, f);
      forall i, j {
        RelatedSymmetric(i, j);
      }
    }
  }

  lemma RelatedSymmetric(a: ReplayRecord, b: ReplayRecord)
    ensures Related(a, b) <==> Related(b, a)
  {
  }

  /** With atomic claims, in every interleaving any two claims answered fresh are for unrelated records. */
  lemma {:induction false} AtomicRunsAreSafe(claims: seq<Claim>, schedule: seq<Step>)
    requires AllAtomic(schedule)
    ensures Safe(claims, Run(claims, schedule)) && Invariant(claims, Run(claims, schedule))
    decreases |schedule|
  {
    if schedule != [] {
      var init := schedule[..|schedule| - 1];
      AtomicRunsAreSafe(claims, init);
      AtomicStepKeepsInvariant(claims, Run(claims, init), schedule[|schedule| - 1]);
    }
  }

  /** Only the read and write steps of `record_guard_replay`. */
  ghost predicate AllSplit(schedule: seq<Step>) {
    forall k :: 0 <= k < |schedule| ==> !schedule[k].Atomic?
  }

  /** Both clients read the empty store before either writes. */
  function Overlap(i: nat, j: nat): seq<Step> {
    [Read(i), Read(j), Write(i), Write(j)]
  }

  lemma RunStep(claims: seq<Claim>, schedule: seq<Step>, step: Step)
    ensures Run(claims, schedule + [step]) == Next(claims, Run(claims, schedule), step)
  {
    assert (schedule + [step])[..|schedule|] == schedule;
  }

  /** Any two clients can both be answered fresh, whatever they claim. */
  lemma OverlapAnswersBothFresh(claims: seq<Claim>, i: nat, j: nat)
    requires i < |claims| && j < |claims| && i != j
    ensures AnsweredFresh(Run(claims, Overlap(i, j)), i) && AnsweredFresh(Run(claims, Overlap(i, j)), j)
  {
    RunStep(claims, [], Read(i));
    RunStep(claims, [Read(i)], Read(j));
    RunStep(claims, [Read(i), Read(j)], Write(i));
    RunStep(claims, [Read(i), Read(j), Write(i)], Write(j));
    assert [] + [Read(i)] == [Read(i)] && [Read(i)] + [Read(j)] == [Read(i), Read(j)];
    assert [Read(i), Read(j)] + [Write(i)] == [Read(i), Read(j), Write(i)];
    assert [Read(i), Read(j), Write(i)] + [Write(j)] == Overlap(i, j);
  }

  /** The two-step protocol is safe for a set of claims exactly when no two of them are related, that is, when there is
      nothing to protect: some interleaving answers any related pair fresh twice. */
  lemma SplitSafeExactly(claims: seq<Claim>)
    ensures (forall schedule | AllSplit(schedule) :: Safe(claims, Run(claims, schedule)))
            <==> (forall i, j | 0 <= i < |claims| && 0 <= j < |claims| && i != j ::
                    !Related(claims[i].record, claims[j].record))
  {
    hide Related, Run, Evaluate;
    if forall schedule | AllSplit(schedule) :: Safe(claims, Run(claims, schedule)) {
      forall i, j | 0 <= i < |claims| && 0 <= j < |claims| && i != j
        ensures !Related(claims[i].record, claims[j].record)
      {
        OverlapAnswersBothFresh(claims, i, j);
        assert AllSplit(Overlap(i, j));
      }
    }
  }

  // ------------------------------------------------------------- refinement

  /** The step writes on the store it read: nobody wrote in between. */
  predicate Undisturbed(s: System, step: Step) {
    (step.Write? && step.client < |s.clients| && s.clients[step.client].HasRead?) ==>
      s.clients[step.client].snapshot == s.store
  }

  ghost predicate UndisturbedRun(claims: seq<Claim>, schedule: seq<Step>) {
    forall k :: 0 <= k < |schedule| ==> Undisturbed(Run(claims, schedule[..k]), schedule[k])
  }

  /** Forget which clients have read but not written yet. */
  function Abstract(s: System): System {
    System(s.store, seq(|s.clients|, i requires 0 <= i < |s.clients| =>
                          if s.clients[i].HasRead? then Idle else s.clients[i]))
  }

  /** Each effective write is one atomic claim; reads do nothing. */
  function Projected(claims: seq<Claim>, schedule: seq<Step>): seq<Step> {
    if schedule == [] then []
    else
      var init := schedule[..|schedule| - 1];
      var last := schedule[|schedule| - 1];
      var before := Run(claims, init);
      Projected(claims, init) + Effect(before, last)
  }

  function Effect(s: System, step: Step): (r: seq<Step>)
    ensures forall k :: 0 <= k < |r| ==> r[k].Atomic?
  {
    if step.client >= |s.clients| then []
    else
      match (step, s.clients[step.client])
      case (Atomic(i), Idle) => [Atomic(i)]
      case (Write(i), HasRead(_)) => [Atomic(i)]
      case _ => []
  }

  lemma StepRefines(claims: seq<Claim>, s: System, step: Step)
    requires |s.clients| == |claims| && Undisturbed(s, step)
    ensures var effect := Effect(s, step);
            && (effect == [] ==> Abstract(Next(claims, s, step)) == Abstract(s))
            && (effect != [] ==> |effect| == 1 && Abstract(Next(claims, s, step)) == Next(claims, Abstract(s), effect[0]))
  {
    hide Evaluate;
  }

  lemma ProjectedIsAtomic(claims: seq<Claim>, schedule: seq<Step>)
    ensures AllAtomic(Projected(claims, schedule))
    decreases |schedule|
  {
    hide Next;
    if schedule != [] {
      ProjectedIsAtomic(claims, schedule[..|schedule| - 1]);
    }
  }

  /** Every run whose writes are undisturbed, serial runs in particular, is an atomic run. */
  lemma {:induction false} UndisturbedRunsRefine(claims: seq<Claim>, schedule: seq<Step>)
    requires UndisturbedRun(claims, schedule)
    ensures Abstract(Run(claims, schedule)) == Run(claims, Projected(claims, schedule))
    decreases |schedule|
  {
    hide Next, Effect;
    if schedule != [] {
      var init, last := schedule[..|schedule| - 1], schedule[|schedule| - 1];
      forall k | 0 <= k < |init| ensures Undisturbed(Run(claims, init[..k]), init[k]) {
        assert init[..k] == schedule[..k] && init[k] == schedule[k];
      }
      UndisturbedRunsRefine(claims, init);
      var before := Run(claims, init);
      assert Undisturbed(before, last);
      StepRefines(claims, before, last);
      var effect := Effect(before, last);
      var atomic := Projected(claims, init);
      if effect == [] {
        assert atomic + [] == atomic;
      } else {
        assert effect == [effect[0]];
        assert (atomic + effect)[..|atomic|] == atomic;
      }
    }
  }

  /** Two related claims are answered fresh only if some client wrote over a store it had not read. */
  lemma UndisturbedRunsAreSafe(claims: seq<Claim>, schedule: seq<Step>)
    requires UndisturbedRun(claims, schedule)
    ensures Safe(claims, Run(claims, schedule))
  {
    hide Next, Effect;
    var s := Run(claims, schedule);
    UndisturbedRunsRefine(claims, schedule);
    ProjectedIsAtomic(claims, schedule);
    AtomicRunsAreSafe(claims, Projected(claims, schedule));
    forall i | 0 <= i < |claims| ensures AnsweredFresh(s, i) ==> AnsweredFresh(Abstract(s), i) {
    }
  }

  /** Each client reads and writes without interruption, in the given order. */
  function Serial(order: seq<nat>): seq<Step> {
    if order == [] then []
    else Serial(order[..|order| - 1]) + [Read(order[|order| - 1]), Write(order[|order| - 1])]
  }

  lemma ReadThenWrite(claims: seq<Claim>, s: System, c: nat, i: nat)
    requires |s.clients| == |claims| && i < |claims| && !s.clients[i].HasRead?
    ensures !Next(claims, Next(claims, s, Read(c)), Write(c)).clients[i].HasRead?
  {
    hide Evaluate;
  }

  lemma {:induction false} NobodyWaits(claims: seq<Claim>, order: seq<nat>, i: nat)
    requires i < |claims|
    ensures !Run(claims, Serial(order)).clients[i].HasRead?
    decreases |order|
  {
    hide Next;
    if order != [] {
      var c := order[|order| - 1];
      var init := Serial(order[..|order| - 1]);
      var schedule := Serial(order);
      NobodyWaits(claims, order[..|order| - 1], i);
      assert schedule[..|schedule| - 1] == init + [Read(c)];
      assert (init + [Read(c)])[..|init|] == init;
      assert Run(claims, init + [Read(c)]) == Next(claims, Run(claims, init), Read(c));
      ReadThenWrite(claims, Run(claims, init), c, i);
    }
  }

  lemma FreshSnapshot(claims: seq<Claim>, s: System, c: nat)
    requires |s.clients| == |claims| && (c < |claims| ==> !s.clients[c].HasRead?)
    ensures Undisturbed(Next(claims, s, Read(c)), Write(c))
  {
    hide Evaluate;
  }

  lemma {:induction false} SerialIsUndisturbed(claims: seq<Claim>, order: seq<nat>)
    ensures UndisturbedRun(claims, Serial(order))
    decreases |order|
  {
    if order != [] {
      hide Next;
      var c := order[|order| - 1];
      var init := Serial(order[..|order| - 1]);
      var schedule := Serial(order);
      SerialIsUndisturbed(claims, order[..|order| - 1]);
      if c < |claims| {
        NobodyWaits(claims, order[..|order| - 1], c);
      }
      FreshSnapshot(claims, Run(claims, init), c);
      assert (init + [Read(c)])[..|init|] == init;
      assert Run(claims, init + [Read(c)]) == Next(claims, Run(claims, init), Read(c));
      forall k | 0 <= k < |schedule| ensures Undisturbed(Run(claims, schedule[..k]), schedule[k]) {
        if k < |init| {
          assert schedule[..k] == init[..k] && schedule[k] == init[k];
        } else if k == |init| + 1 {
          assert schedule[..k] == init + [Read(c)];
        } else {
          assert schedule[k] == Read(c);
        }
      }
    }
  }

  /** One client after another: the two-step protocol is the atomic one. */
  lemma SerialRunsRefine(claims: seq<Claim>, order: seq<nat>)
    ensures Abstract(Run(claims, Serial(order))) == Run(claims, Projected(claims, Serial(order)))
    ensures AllAtomic(Projected(claims, Serial(order))) && Safe(claims, Run(claims, Serial(order)))
  {
    hide Next, Effect, Serial;
    SerialIsUndisturbed(claims, order);
    UndisturbedRunsRefine(claims, Serial(order));
    ProjectedIsAtomic(claims, Serial(order));
    UndisturbedRunsAreSafe(claims, Serial(order));
  }
}
