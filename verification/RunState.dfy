/** The run state machine and its between-step control decisions
    (`govengine/state_machine.py`, `govengine/control.py`). */
module RunState {
  import opened Prelude
  import opened PyValues

  datatype StateName =
    | New | Admitted | PolicyChecked | TrustChecked | Gated | RunningDryRun | ReceiptRecorded
    | Paused | Blocked | Completed
    | UnknownState(text: string)

  function AllowedTransitions(s: StateName): set<StateName> {
    match s
    case New => {Admitted, Blocked}
    case Admitted => {PolicyChecked, Blocked}
    case PolicyChecked => {TrustChecked, Blocked}
    case TrustChecked => {Gated, Blocked}
    case Gated => {RunningDryRun, Paused, Blocked}
    case RunningDryRun => {ReceiptRecorded, Paused, Blocked}
    case ReceiptRecorded => {Completed, Blocked}
    case Paused => {Gated, Blocked}
    case Blocked => {Admitted}
    case Completed => {}
    case UnknownState(_) => {}
  }

  datatype GovRunState = GovRunState(
    runId: string, state: StateName, profile: string, eventRefs: seq<string>,
    artifactRefs: seq<string>, blockers: seq<string>, metadata: Value)
  {
    predicate Flagged() {
      state == Blocked || blockers != []
    }
  }

  datatype StateTransition = StateTransition(
    runId: string, fromState: StateName, toState: StateName, reasonCode: string, eventRef: string,
    requiredDecisions: seq<string>, metadata: Value)

  /** The forbidden-key searches of the two modules, as they answer "nothing found". */
  datatype Guards = Guards(stateClean: Value -> bool, controlClean: Value -> bool)

  const RUNNER_GATE := "runner_gate_decision"

  function ValidateRunState(g: Guards, s: GovRunState): Result<(), string> {
    if s.state.UnknownState? then Err("unknown_run_state")
    else
      :- Need(g.stateClean(s.metadata), "forbidden_state_metadata");
      Ok(())
  }

  function ValidateTransition(g: Guards, t: StateTransition): Result<(), string> {
    if t.fromState.UnknownState? then Err("unknown_run_state")
    else
      :- Need(!t.toState.UnknownState?, "unknown_run_state");
      :- Need(t.toState in AllowedTransitions(t.fromState), "invalid_state_transition");
      :- Need(t.toState == RunningDryRun ==> RUNNER_GATE in t.requiredDecisions, "missing_runner_gate_decision");
      :- Need(g.stateClean(t.metadata), "forbidden_state_metadata");
      Ok(())
  }

  function ApplyTransition(g: Guards, s: GovRunState, t: StateTransition): Result<GovRunState, string> {
    var _ :- ValidateRunState(g, s);
    var _ :- ValidateTransition(g, t);
    :- Need(s.runId == t.runId, "state_transition_run_mismatch");
    :- Need(s.state == t.fromState, "state_transition_from_mismatch");
    Ok(s.(state := t.toState,
          eventRefs := s.eventRefs + (if t.eventRef != "" then [t.eventRef] else []),
          blockers := if t.toState == Blocked && t.reasonCode != "ok" then Dedup(s.blockers + [t.reasonCode]) else s.blockers))
  }

  // ---------------------------------------------------------------- control

  datatype Action = AdvanceState | RecordOnly | Pause | Block | RequestProfileHandoff | UnknownAction(text: string)

  datatype ControlDecision = ControlDecision(
    decisionId: string, runId: string, action: Action, reasonCode: string,
    fromState: Option<StateName>, toState: Option<StateName>,
    eventRefs: seq<string>, requiredDecisions: seq<string>, metadata: Value)
  {
    /** The transition the decision claims, if any. */
    function Transition(): Option<StateTransition> {
      if action !in {AdvanceState, Pause, Block} || fromState.None? || toState.None? then None
      else
        Some(StateTransition(
          runId, fromState.value, toState.value, reasonCode,
          if eventRefs == [] then "" else eventRefs[|eventRefs| - 1], requiredDecisions, metadata))
    }
  }

  function ValidateControl(g: Guards, d: ControlDecision): Result<(), string> {
    if d.action.UnknownAction? then Err("unknown_control_action")
    else
      :- Need(g.controlClean(d.metadata), "forbidden_control_metadata");
      if d.action in {AdvanceState, Pause, Block} then
        :- Need(d.fromState.Some? && d.toState.Some?, "control_decision_missing_state_transition");
        :- Need(d.action == Pause ==> d.toState == Some(Paused), "pause_control_must_target_paused");
        :- Need(d.action == Block ==> d.toState == Some(Blocked), "block_control_must_target_blocked");
        ValidateTransition(g, d.Transition().value)
      else
        :- Need(d.fromState.None? && d.toState.None?, "record_control_must_not_claim_state_transition");
        Ok(())
  }

  function ApplyControl(g: Guards, s: GovRunState, d: ControlDecision): Result<GovRunState, string> {
    var _ :- ValidateControl(g, d);
    match d.Transition()
    case None =>
      :- Need(s.runId == d.runId, "control_decision_run_mismatch");
      Ok(s)
    case Some(t) => ApplyTransition(g, s, t)
  }

  // -------------------------------------------------------------- whole runs

  datatype Operation = Move(transition: StateTransition) | Control(decision: ControlDecision)

  /** The current state and the transitions applied so far. */
  datatype Run = Run(current: GovRunState, applied: seq<StateTransition>)

  /** One call; a call that raises leaves the run as it was. */
  function Step(g: Guards, r: Run, op: Operation): Run {
    match op
    case Move(t) =>
      (match ApplyTransition(g, r.current, t)
       case Ok(s) => Run(s, r.applied + [t])
       case Err(_) => r)
    case Control(d) =>
      (match ApplyControl(g, r.current, d)
       case Ok(s) => if d.Transition().Some? then Run(s, r.applied + [d.Transition().value]) else Run(s, r.applied)
       case Err(_) => r)
  }

  function RunAll(g: Guards, start: GovRunState, ops: seq<Operation>): Run {
    if ops == [] then Run(start, [])
    else Step(g, RunAll(g, start, ops[..|ops| - 1]), ops[|ops| - 1])
  }

  /** Every step is either one applied transition, legal at that state, or no change at all. */
  lemma StepCases(g: Guards, r: Run, op: Operation)
    ensures Step(g, r, op) == r
            || exists t :: ApplyTransition(g, r.current, t).Ok?
                           && Step(g, r, op) == Run(ApplyTransition(g, r.current, t).value, r.applied + [t])
  {
    hide ValidateControl, ApplyTransition;
    match op
    case Move(t) =>
      if ApplyTransition(g, r.current, t).Ok? {
        assert Step(g, r, op) == Run(ApplyTransition(g, r.current, t).value, r.applied + [t]);
      }
    case Control(d) =>
      if ApplyControl(g, r.current, d).Ok? && d.Transition().Some? {
        var t := d.Transition().value;
        assert Step(g, r, op) == Run(ApplyTransition(g, r.current, t).value, r.applied + [t]);
      }
  }

  // ---------------------------------------------------- what a run has passed

  /** The states entered after the last entry to `blocked`. */
  function SinceBlocked(applied: seq<StateTransition>): seq<StateName> {
    if applied == [] then []
    else
      var last := applied[|applied| - 1];
      if last.toState == Blocked then [] else SinceBlocked(applied[..|applied| - 1]) + [last.toState]
  }

  /** `a` is obtained from `b` by leaving elements out. */
  predicate Subsequence<T(==)>(a: seq<T>, b: seq<T>) {
    a == [] ||
    (b != [] &&
     (if a[|a| - 1] == b[|b| - 1] then Subsequence(a[..|a| - 1], b[..|b| - 1]) else Subsequence(a, b[..|b| - 1])))
  }

  /** The milestones behind a run that is now in `s`, in order. */
  function Milestones(s: StateName): seq<StateName> {
    match s
    case Admitted => [Admitted]
    case PolicyChecked => [Admitted, PolicyChecked]
    case TrustChecked => [Admitted, PolicyChecked, TrustChecked]
    case Gated => [Admitted, PolicyChecked, TrustChecked, Gated]
    case Paused => [Admitted, PolicyChecked, TrustChecked, Gated]
    case RunningDryRun => [Admitted, PolicyChecked, TrustChecked, Gated, RunningDryRun]
    case ReceiptRecorded => [Admitted, PolicyChecked, TrustChecked, Gated, RunningDryRun, ReceiptRecorded]
    case Completed => [Admitted, PolicyChecked, TrustChecked, Gated, RunningDryRun, ReceiptRecorded, Completed]
    case _ => []
  }

  lemma {:induction false} SubsequenceDropLast<T>(a: seq<T>, b: seq<T>)
    requires a != [] && Subsequence(a, b)
    ensures Subsequence(a[..|a| - 1], b)
    decreases |b|, 0
  {
    var init := a[..|a| - 1];
    if a[|a| - 1] == b[|b| - 1] {
      SubsequenceExtend(init, b[..|b| - 1], b[|b| - 1]);
      assert b == b[..|b| - 1] + [b[|b| - 1]];
    } else {
      SubsequenceDropLast(a, b[..|b| - 1]);
      SubsequenceExtend(init, b[..|b| - 1], b[|b| - 1]);
      assert b == b[..|b| - 1] + [b[|b| - 1]];
    }
  }

  lemma {:induction false} SubsequenceExtend<T>(a: seq<T>, b: seq<T>, x: T)
    requires Subsequence(a, b)
    ensures Subsequence(a, b + [x])
    decreases |b|, 1
  {
    assert (b + [x])[..|b|] == b;
    if a != [] && a[|a| - 1] == x {
      SubsequenceDropLast(a, b);
    }
  }

  lemma SubsequenceSnoc<T>(a: seq<T>, b: seq<T>, x: T)
    requires Subsequence(a, b)
    ensures Subsequence(a + [x], b + [x])
  {
    assert (a + [x])[..|a|] == a && (b + [x])[..|b|] == b;
  }

  /** A legal transition either adds its target to the milestones, keeps them, or drops back to a prefix. */
  lemma MilestoneStep(s: StateName, t: StateName)
    requires t in AllowedTransitions(s)
    ensures || t == Blocked
            || Milestones(t) == Milestones(s) + [t]
            || Milestones(t) == Milestones(s)
            || (Milestones(s) != [] && Milestones(t) == Milestones(s)[..|Milestones(s)| - 1])
  {
  }

  /** The state before the `k`-th applied transition. */
  function Before(applied: seq<StateTransition>, k: nat): StateName
    requires k <= |applied|
  {
    if k == 0 then New else applied[k - 1].toState
  }

  ghost predicate Legal(applied: seq<StateTransition>) {
    forall k :: 0 <= k < |applied| ==>
      && applied[k].fromState == Before(applied, k)
      && applied[k].toState in AllowedTransitions(applied[k].fromState)
      && (applied[k].toState == RunningDryRun ==> RUNNER_GATE in applied[k].requiredDecisions)
  }

  function EventRefs(applied: seq<StateTransition>): seq<string> {
    if applied == [] then []
    else
      var last := applied[|applied| - 1];
      EventRefs(applied[..|applied| - 1]) + (if last.eventRef != "" then [last.eventRef] else [])
  }

  /** The reasons, other than `ok`, for which the run was blocked. */
  function BlockReasons(applied: seq<StateTransition>): seq<string> {
    if applied == [] then []
    else
      var last := applied[|applied| - 1];
      BlockReasons(applied[..|applied| - 1])
      + (if last.toState == Blocked && last.reasonCode != "ok" then [last.reasonCode] else [])
  }

  /** A run that has not started: state `new`, nothing recorded. */
  predicate Unstarted(s: GovRunState) {
    s.state == New && s.eventRefs == [] && s.blockers == []
  }

  /** The record is a function of the transitions applied. */
  ghost predicate RunInvariant(start: GovRunState, r: Run) {
    && Legal(r.applied)
    && r.current == start.(state := Before(r.applied, |r.applied|),
                           eventRefs := EventRefs(r.applied), blockers := Dedup(BlockReasons(r.applied)))
    && Subsequence(Milestones(r.current.state), SinceBlocked(r.applied))
  }

  lemma {:induction false} DedupStep<T>(s: seq<T>, x: T)
    ensures Dedup(Dedup(s) + [x]) == Dedup(s + [x])
  {
    DedupKeepsElements(s);
    DedupOfDistinct(Dedup(s));
    assert (Dedup(s) + [x])[..|Dedup(s)|] == Dedup(s);
    assert (s + [x])[..|s|] == s;
  }

  lemma RecordingStep(applied: seq<StateTransition>, t: StateTransition)
    ensures Before(applied + [t], |applied| + 1) == t.toState
    ensures EventRefs(applied + [t]) == EventRefs(applied) + (if t.eventRef != "" then [t.eventRef] else [])
    ensures Dedup(BlockReasons(applied + [t]))
            == if t.toState == Blocked && t.reasonCode != "ok" then Dedup(Dedup(BlockReasons(applied)) + [t.reasonCode])
               else Dedup(BlockReasons(applied))
    ensures SinceBlocked(applied + [t]) == if t.toState == Blocked then [] else SinceBlocked(applied) + [t.toState]
  {
    hide Dedup;
    assert (applied + [t])[..|applied|] == applied;
    if t.toState == Blocked && t.reasonCode != "ok" {
      DedupStep(BlockReasons(applied), t.reasonCode);
    } else {
      assert BlockReasons(applied) + [] == BlockReasons(applied);
    }
  }

  /** What an accepted transition changes. */
  lemma AppliedExact(g: Guards, s: GovRunState, t: StateTransition)
    requires ApplyTransition(g, s, t).Ok?
    ensures s.state == t.fromState && t.toState in AllowedTransitions(s.state)
    ensures t.toState == RunningDryRun ==> RUNNER_GATE in t.requiredDecisions
    ensures ApplyTransition(g, s, t).value
            == s.(state := t.toState,
                  eventRefs := s.eventRefs + (if t.eventRef != "" then [t.eventRef] else []),
                  blockers := if t.toState == Blocked && t.reasonCode != "ok" then Dedup(s.blockers + [t.reasonCode]) else s.blockers)
  {
    hide Dedup, AllowedTransitions;
  }

  lemma AppliedKeepsInvariant(g: Guards, start: GovRunState, r: Run, t: StateTransition)
    requires RunInvariant(start, r) && ApplyTransition(g, r.current, t).Ok?
    ensures RunInvariant(start, Run(ApplyTransition(g, r.current, t).value, r.applied + [t]))
  {
    hide Milestones, Subsequence, Dedup, ApplyTransition, EventRefs, BlockReasons, SinceBlocked, AllowedTransitions, Legal;
    AppliedExact(g, r.current, t);
    RecordingStep(r.applied, t);
    LegalStep(r.applied, t);
    MilestonesKept(r.current.state, t.toState, SinceBlocked(r.applied));
  }

  lemma LegalStep(applied: seq<StateTransition>, t: StateTransition)
    requires Legal(applied) && t.fromState == Before(applied, |applied|)
    requires t.toState in AllowedTransitions(t.fromState)
    requires t.toState == RunningDryRun ==> RUNNER_GATE in t.requiredDecisions
    ensures Legal(applied + [t])
  {
    hide AllowedTransitions;
    var longer := applied + [t];
    forall k | 0 <= k < |longer|
      ensures Before(longer, k) == Before(applied, k)
    {
    }
  }

  lemma MilestonesKept(s: StateName, t: StateName, passed: seq<StateName>)
    requires t in AllowedTransitions(s) && Subsequence(Milestones(s), passed)
    ensures Subsequence(Milestones(t), if t == Blocked then [] else passed + [t])
  {
    hide AllowedTransitions;
    MilestoneStep(s, t);
    if t != Blocked {
      hide Milestones;
      SubsequenceSnoc(Milestones(s), passed, t);
      SubsequenceExtend(Milestones(s), passed, t);
      if Milestones(s) != [] {
        SubsequenceDropLast(Milestones(s), passed + [t]);
      }
    }
  }

  lemma {:induction false} RunsKeepInvariant(g: Guards, start: GovRunState, ops: seq<Operation>)
    requires Unstarted(start)
    ensures RunInvariant(start, RunAll(g, start, ops))
    decreases |ops|
  {
    hide ApplyTransition, Step, RunInvariant;
    if ops == [] {
      StartInvariant(start);
    } else {
      var r := RunAll(g, start, ops[..|ops| - 1]);
      RunsKeepInvariant(g, start, ops[..|ops| - 1]);
      StepCases(g, r, ops[|ops| - 1]);
      if Step(g, r, ops[|ops| - 1]) != r {
        var t :| ApplyTransition(g, r.current, t).Ok?
                 && Step(g, r, ops[|ops| - 1]) == Run(ApplyTransition(g, r.current, t).value, r.applied + [t]);
        AppliedKeepsInvariant(g, start, r, t);
      }
    }
  }

  lemma StartInvariant(start: GovRunState)
    requires Unstarted(start)
    ensures RunInvariant(start, Run(start, []))
  {
  }

  /** Reaching `completed`: since the last block, admission, policy, trust, gate, dry run and receipt were
      passed in that order, and the last three steps were gate to dry run (with a runner gate decision),
      dry run to receipt, receipt to completion. */
  lemma CompletionIsEarned(g: Guards, start: GovRunState, ops: seq<Operation>)
    requires Unstarted(start) && RunAll(g, start, ops).current.state == Completed
    ensures var applied := RunAll(g, start, ops).applied;
            && Subsequence([Admitted, PolicyChecked, TrustChecked, Gated, RunningDryRun, ReceiptRecorded, Completed],
                           SinceBlocked(applied))
            && |applied| >= 3
            && applied[|applied| - 3].fromState == Gated && RUNNER_GATE in applied[|applied| - 3].requiredDecisions
            && applied[|applied| - 3].toState == RunningDryRun
            && applied[|applied| - 2].toState == ReceiptRecorded
  {
    hide RunAll, EventRefs, BlockReasons, Dedup, Subsequence, SinceBlocked, Legal;
    RunsKeepInvariant(g, start, ops);
    LegalCompletion(RunAll(g, start, ops).applied);
  }

  lemma LegalCompletion(applied: seq<StateTransition>)
    requires Legal(applied) && Before(applied, |applied|) == Completed
    ensures |applied| >= 3
    ensures applied[|applied| - 3].fromState == Gated && RUNNER_GATE in applied[|applied| - 3].requiredDecisions
    ensures applied[|applied| - 3].toState == RunningDryRun && applied[|applied| - 2].toState == ReceiptRecorded
  {
    var n := |applied|;
    assert applied[n - 1].fromState == ReceiptRecorded;
    assert n >= 2 && applied[n - 2].toState == ReceiptRecorded && applied[n - 2].fromState == RunningDryRun;
    assert n >= 3 && applied[n - 3].toState == RunningDryRun && applied[n - 3].fromState == Gated;
  }

  /** Every entry to the dry run comes straight from the gate and carries a runner gate decision. */
  lemma DryRunsAreGated(g: Guards, start: GovRunState, ops: seq<Operation>, k: nat)
    requires Unstarted(start) && k < |RunAll(g, start, ops).applied|
    requires RunAll(g, start, ops).applied[k].toState == RunningDryRun
    ensures var applied := RunAll(g, start, ops).applied;
            k > 0 && applied[k - 1].toState == Gated && RUNNER_GATE in applied[k].requiredDecisions
  {
    hide RunAll, EventRefs, BlockReasons, Dedup, Subsequence, SinceBlocked;
    RunsKeepInvariant(g, start, ops);
    var applied := RunAll(g, start, ops).applied;
    assert applied[k].fromState == Before(applied, k);
  }

  /** What a run carries is exactly what its transitions recorded; in particular it is flagged as blocked
      exactly when it is blocked now or was once blocked for a reason other than `ok`. */
  lemma RunRecordsExactly(g: Guards, start: GovRunState, ops: seq<Operation>)
    requires Unstarted(start)
    ensures var r := RunAll(g, start, ops);
            && r.current.eventRefs == EventRefs(r.applied)
            && r.current.blockers == Dedup(BlockReasons(r.applied))
            && (r.current.Flagged() <==>
                  r.current.state == Blocked
                  || exists k :: 0 <= k < |r.applied| && r.applied[k].toState == Blocked && r.applied[k].reasonCode != "ok")
  {
    RunsKeepInvariant(g, start, ops);
    var r := RunAll(g, start, ops);
    DedupKeepsElements(BlockReasons(r.applied));
    ReasonsExact(r.applied);
  }

  lemma {:induction false} ReasonsExact(applied: seq<StateTransition>)
    ensures BlockReasons(applied) != [] <==>
              exists k :: 0 <= k < |applied| && applied[k].toState == Blocked && applied[k].reasonCode != "ok"
  {
    if applied != [] {
      var n := |applied| - 1;
      ReasonsExact(applied[..n]);
      if k :| 0 <= k < n && applied[k].toState == Blocked && applied[k].reasonCode != "ok" {
        assert applied[..n][k] == applied[k];
      }
      if BlockReasons(applied[..n]) != [] {
        var k :| 0 <= k < n && applied[..n][k].toState == Blocked && applied[..n][k].reasonCode != "ok";
        assert applied[k] == applied[..n][k];
      }
    }
  }

  /** Later operations only extend: event references grow at the end, blockers are never removed, a flagged run
      with blockers stays flagged, and a completed run no longer changes. */
  lemma {:induction false} RunsOnlyExtend(g: Guards, start: GovRunState, ops: seq<Operation>, more: seq<Operation>)
    requires Unstarted(start)
    ensures var r, r' := RunAll(g, start, ops), RunAll(g, start, ops + more);
            && r.applied <= r'.applied
            && r.current.eventRefs <= r'.current.eventRefs
            && (forall b :: b in r.current.blockers ==> b in r'.current.blockers)
            && (r.current.blockers != [] ==> r'.current.Flagged())
            && (r.current.state == Completed ==> r' == r)
    decreases |more|
  {
    hide ApplyTransition, Step;
    if more == [] {
      assert ops + more == ops;
    } else {
      var init, last := more[..|more| - 1], more[|more| - 1];
      RunsOnlyExtend(g, start, ops, init);
      assert (ops + more)[..|ops + more| - 1] == ops + init;
      var r := RunAll(g, start, ops + init);
      StepCases(g, r, last);
      if Step(g, r, last) != r {
        var t :| ApplyTransition(g, r.current, t).Ok?
                 && Step(g, r, last) == Run(ApplyTransition(g, r.current, t).value, r.applied + [t]);
        AppliedExtends(g, r.current, t);
      }
      var early, late := RunAll(g, start, ops).current, RunAll(g, start, ops + more).current;
      if early.blockers != [] {
        assert early.blockers[0] in late.blockers;
      }
    }
  }

  lemma AppliedExtends(g: Guards, s: GovRunState, t: StateTransition)
    requires ApplyTransition(g, s, t).Ok?
    ensures var s' := ApplyTransition(g, s, t).value;
            && s.eventRefs <= s'.eventRefs
            && (forall b :: b in s.blockers ==> b in s'.blockers)
            && s.state != Completed
  {
    DedupKeepsElements(s.blockers + [t.reasonCode]);
  }

  function Moves(applied: seq<StateTransition>): (ops: seq<Operation>)
    ensures |ops| == |applied|
  {
    seq(|applied|, i requires 0 <= i < |applied| => Move(applied[i]))
  }

  /** Transitions of this run without forbidden metadata. */
  ghost predicate Presentable(g: Guards, start: GovRunState, applied: seq<StateTransition>) {
    forall k :: 0 <= k < |applied| ==> applied[k].runId == start.runId && g.stateClean(applied[k].metadata)
  }

  /** Conversely every legal sequence of presentable transitions is accepted in full, so runs reach exactly the legal
      histories. */
  lemma {:induction false} LegalRunsAreAccepted(g: Guards, start: GovRunState, applied: seq<StateTransition>)
    requires Unstarted(start) && g.stateClean(start.metadata) && Legal(applied) && Presentable(g, start, applied)
    ensures RunAll(g, start, Moves(applied)).applied == applied
  {
    hide RunInvariant, ApplyTransition, Legal, Presentable, AllowedTransitions;
    if applied != [] {
      var n := |applied| - 1;
      var init, t := applied[..n], applied[n];
      LegalSplit(g, start, applied);
      LegalRunsAreAccepted(g, start, init);
      assert Moves(applied)[..n] == Moves(init);
      var r := RunAll(g, start, Moves(init));
      assert Moves(applied)[n] == Move(t);
      NextIsAccepted(g, start, Moves(init), t);
      assert RunAll(g, start, Moves(applied)) == Step(g, r, Move(t));
      assert init + [t] == applied;
    }
  }

  lemma LegalSplit(g: Guards, start: GovRunState, applied: seq<StateTransition>)
    requires applied != [] && Legal(applied) && Presentable(g, start, applied)
    ensures var init, t := applied[..|applied| - 1], applied[|applied| - 1];
            && Legal(init) && Presentable(g, start, init) && g.stateClean(t.metadata) && t.runId == start.runId
            && t.fromState == Before(init, |init|) && t.toState in AllowedTransitions(t.fromState)
            && (t.toState == RunningDryRun ==> RUNNER_GATE in t.requiredDecisions)
  {
    hide AllowedTransitions;
    var n := |applied| - 1;
    var init := applied[..n];
    assert forall k :: 0 <= k < n ==> init[k] == applied[k];
    forall k | 0 <= k <= n ensures Before(init, k) == Before(applied, k) {
      if k > 0 {
        assert init[k - 1] == applied[k - 1];
      }
    }
  }

  lemma NextIsAccepted(g: Guards, start: GovRunState, ops: seq<Operation>, t: StateTransition)
    requires Unstarted(start) && g.stateClean(start.metadata) && g.stateClean(t.metadata) && t.runId == start.runId
    requires var r := RunAll(g, start, ops);
             t.fromState == Before(r.applied, |r.applied|) && t.toState in AllowedTransitions(t.fromState)
    requires t.toState == RunningDryRun ==> RUNNER_GATE in t.requiredDecisions
    ensures ApplyTransition(g, RunAll(g, start, ops).current, t).Ok?
  {
    hide RunAll, Legal;
    RunsKeepInvariant(g, start, ops);
  }
}
