/** Runs in plain terms: the edges a run may take, one by one, and when a transition or a control decision is applied
    (`govengine/state_machine.py`, `govengine/control.py`). */
module RunTerms {
  import opened Prelude
  import opened PyValues
  import opened RunState

  /** The nineteen edges. */
  ghost predicate Edge(from: StateName, to: StateName) {
    || (from == New && to == Admitted) || (from == New && to == Blocked)
    || (from == Admitted && to == PolicyChecked) || (from == Admitted && to == Blocked)
    || (from == PolicyChecked && to == TrustChecked) || (from == PolicyChecked && to == Blocked)
    || (from == TrustChecked && to == Gated) || (from == TrustChecked && to == Blocked)
    || (from == Gated && to == RunningDryRun) || (from == Gated && to == Paused) || (from == Gated && to == Blocked)
    || (from == RunningDryRun && to == ReceiptRecorded) || (from == RunningDryRun && to == Paused)
    || (from == RunningDryRun && to == Blocked)
    || (from == ReceiptRecorded && to == Completed) || (from == ReceiptRecorded && to == Blocked)
    || (from == Paused && to == Gated) || (from == Paused && to == Blocked)
    || (from == Blocked && to == Admitted)
  }

  /** A step along an edge of this run, from where it stands, with a gate decision if it starts a dry run. */
  ghost predicate Takes(g: Guards, s: GovRunState, t: StateTransition) {
    && t.runId == s.runId && t.fromState == s.state && Edge(s.state, t.toState)
    && (t.toState == RunningDryRun ==> "runner_gate_decision" in t.requiredDecisions)
    && g.stateClean(s.metadata) && g.stateClean(t.metadata)
  }

  /** Exactly such a step is applied, and this is what it leaves behind. */
  lemma AppliedExactly(g: Guards, s: GovRunState, t: StateTransition)
    ensures ApplyTransition(g, s, t).Ok? <==> Takes(g, s, t)
    ensures ApplyTransition(g, s, t).Ok? ==>
              var s' := ApplyTransition(g, s, t).value;
              && s'.runId == s.runId && s'.profile == s.profile && s'.artifactRefs == s.artifactRefs
              && s'.metadata == s.metadata && s'.state == t.toState
              && s'.eventRefs == (if t.eventRef == "" then s.eventRefs else s.eventRefs + [t.eventRef])
              && (t.toState != Blocked || t.reasonCode == "ok" ==> s'.blockers == s.blockers)
              && (t.toState == Blocked && t.reasonCode != "ok" ==>
                    Distinct(s'.blockers)
                    && forall b :: b in s'.blockers <==> b in s.blockers || b == t.reasonCode)
  {
    hide Dedup;
    DedupKeepsElements(s.blockers + [t.reasonCode]);
  }

  /** The step a control decision stands for. */
  ghost function Claimed(d: ControlDecision, from: StateName, to: StateName): StateTransition {
    StateTransition(d.runId, from, to, d.reasonCode,
                    if d.eventRefs == [] then "" else d.eventRefs[|d.eventRefs| - 1], d.requiredDecisions, d.metadata)
  }

  /** A decision that moves the run names both ends of the step; a pause ends in `paused`, a block in `blocked`. */
  ghost predicate Moves(g: Guards, s: GovRunState, d: ControlDecision, from: StateName, to: StateName) {
    && (d.action == AdvanceState || (d.action == Pause && to == Paused) || (d.action == Block && to == Blocked))
    && d.fromState == Some(from) && d.toState == Some(to) && g.controlClean(d.metadata)
    && Takes(g, s, Claimed(d, from, to))
  }

  /** A decision that only records names no ends. */
  ghost predicate Records(g: Guards, s: GovRunState, d: ControlDecision) {
    && (d.action == RecordOnly || d.action == RequestProfileHandoff)
    && d.fromState == None && d.toState == None && d.runId == s.runId && g.controlClean(d.metadata)
  }

  /** A control decision is applied exactly when it moves the run, and is then that step, or when it only records, and
      then changes nothing. */
  lemma ControlledExactly(g: Guards, s: GovRunState, d: ControlDecision)
    ensures ApplyControl(g, s, d).Ok? <==>
              Records(g, s, d) || exists from, to :: Moves(g, s, d, from, to)
    ensures Records(g, s, d) ==> ApplyControl(g, s, d) == Ok(s)
    ensures forall from, to :: Moves(g, s, d, from, to) ==>
              ApplyControl(g, s, d) == ApplyTransition(g, s, Claimed(d, from, to))
  {
    hide ApplyControl, Moves, Records;
    RecordedExactly(g, s, d);
    forall from, to
      ensures Moves(g, s, d, from, to) ==> ApplyControl(g, s, d) == ApplyTransition(g, s, Claimed(d, from, to))
                                           && ApplyControl(g, s, d).Ok?
    {
      MovedExactly(g, s, d, from, to);
    }
    if d.fromState.Some? && d.toState.Some? {
      MovedExactly(g, s, d, d.fromState.value, d.toState.value);
    }
  }

  lemma RecordedExactly(g: Guards, s: GovRunState, d: ControlDecision)
    ensures Records(g, s, d) ==> ApplyControl(g, s, d) == Ok(s)
    ensures ApplyControl(g, s, d).Ok? && (d.fromState.None? || d.toState.None?) ==> Records(g, s, d)
  {
    hide AllowedTransitions, ApplyTransition;
  }

  lemma MovedExactly(g: Guards, s: GovRunState, d: ControlDecision, from: StateName, to: StateName)
    ensures Moves(g, s, d, from, to) ==> ApplyControl(g, s, d) == ApplyTransition(g, s, Claimed(d, from, to))
                                         && ApplyControl(g, s, d).Ok?
    ensures ApplyControl(g, s, d).Ok? && d.fromState == Some(from) && d.toState == Some(to) ==> Moves(g, s, d, from, to)
  {
    hide AllowedTransitions, Edge, ApplyTransition, Takes;
    AppliedExactly(g, s, Claimed(d, from, to));
    ValidWhenApplied(g, s, Claimed(d, from, to));
  }

  lemma ValidWhenApplied(g: Guards, s: GovRunState, t: StateTransition)
    ensures ApplyTransition(g, s, t).Ok? ==> ValidateTransition(g, t).Ok?
  {
    hide AllowedTransitions;
  }
}
