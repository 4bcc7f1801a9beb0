/**
 * What the control plane guarantees when its callers keep their part: audit events carry the true
 * statuses, status changes follow the graph, and attempts are completed on their own workflow.
 */
module ControlPlaneLifecycle {
  import opened Common
  import opened WorkflowModel
  import opened ControlPlane
  import opened ControlPlaneSafety

  // ---------------------------------------------------------------- the callers' part

  /** The statuses only claims and completions enter or leave. */
  predicate Managed(s: Status) {
    s in {Staging, Executing, Validating}
  }

  /** The workflow status an attempt's terminal status leads to. */
  function OutcomeStatus(k: Kind, s: AttemptStatus): Option<Status> {
    match (k, s)
    case (Transport, Succeeded) => Some(Staged)
    case (Transport, ConfirmedFailed) => Some(MappingApproved)
    case (Transport, OutcomeUncertain) => Some(StagingRecoveryRequired)
    case (Execution, Succeeded) => Some(Executed)
    case (Execution, ConfirmedFailed) => Some(ExecutionReady)
    case (Execution, OutcomeUncertain) => Some(ExecutionRecoveryRequired)
    case (Validation, Succeeded) => Some(Validated)
    case (Validation, ReviewRequired) => Some(ValidationReviewRequired)
    case (Validation, OutcomeUncertain) => Some(ValidationRecoveryRequired)
    case _ => None
  }

  predicate TrueEvent(e: Event, w: Uuid, from: Status, to: Status) {
    e.workflow == w && e.previous == Some(from) && e.next == Some(to)
  }

  predicate OwnAttempt(t: Tables, k: Kind, id: Uuid, w: Uuid) {
    id in t.Attempts(k) ==> t.Attempts(k)[id].workflow == w
  }

  /** The caller keeps its part of the contract for a command that finds the version it expects. */
  predicate Honest(t: Tables, c: Command) {
    match c
    case CreateWorkflow(w, e, _, _) => w.status == Draft && w.version == 1 && w.latestArtifact == 0 && e.kind == WorkflowCreated
    case Mark(_, _, _) => true
    case _ =>
      c.id in t.workflows && t.workflows[c.id].version == c.expected ==>
        var was := t.workflows[c.id].status;
        match c
        case TransitionStatus(id, _, s, e, _, _, _) =>
          TrueEvent(e, id, was, s) && s in AllowedTransitions(was) && !Managed(was) && !Managed(s)
        case AppendArtifact(id, _, _, e, _, _) => TrueEvent(e, id, was, was)
        case RecordOperation(id, _, _, e, s, te, _, _) =>
          && TrueEvent(e, id, was, was)
          && (s.Some? && te.Some? ==>
                && TrueEvent(te.value, id, was, s.value) && s.value in AllowedTransitions(was)
                && !Managed(was) && !Managed(s.value))
        case ClaimValidation(id, _, _, _, ae, te, _, _) => TrueEvent(ae, id, was, was) && te.workflow == id
        case FinishTransport(id, _, i, _, _, ae, _, _, _, _) =>
          OwnAttempt(t, Transport, i, id) && (ae.Some? ==> TrueEvent(ae.value, id, was, was))
        case FinishExecution(id, _, i, ev, _, ae, s, te) =>
          && OwnAttempt(t, Execution, i, id) && TrueEvent(ae, id, was, was) && TrueEvent(te, id, was, s)
          && OutcomeStatus(Execution, ev.status) == Some(s)
        case FinishValidation(id, _, i, rep, _, ae, s, te, _, _) =>
          && OwnAttempt(t, Validation, i, id)
          && (ae.Some? ==> TrueEvent(ae.value, id, was, was)) && TrueEvent(te, id, was, s)
          && OutcomeStatus(Validation, ValidationOutcome(rep, s)) == Some(s)
        case _ => true
  }

  /** Every command of a run is well formed and honest about the tables it finds. */
  ghost predicate HonestRun(t: Tables, cs: seq<Command>)
    decreases |cs|
  {
    cs != [] ==> WellFormed(cs[0]) && Honest(t, cs[0]) && HonestRun(Apply(t, cs[0]).0, cs[1..])
  }

  // ---------------------------------------------------------------- honest deltas

  /** One or two events that tell of the move from one status to another. */
  predicate Tells(es: seq<Event>, w: Uuid, from: Status, to: Status) {
    || (|es| == 1 && TrueEvent(es[0], w, from, to))
    || (|es| == 2 && TrueEvent(es[0], w, from, from) && TrueEvent(es[1], w, from, to))
  }

  predicate Legal(from: Status, to: Status) {
    from == to || to in AllowedTransitions(from)
  }

  /** How the attempt rows of a delta go with its status change. */
  ghost predicate AttemptMoves(t: Tables, d: Delta, from: Status, to: Status)
    requires d.workflow.Some?
  {
    if d.claimed.Some? then from == ReadyStatus(d.kind) && to == ActiveStatus(d.kind)
    else if d.moved.Some? then
      && from == ActiveStatus(d.kind) && OutcomeStatus(d.kind, d.moved.value.status) == Some(to)
      && d.moved.value.id in t.Attempts(d.kind) && t.Attempts(d.kind)[d.moved.value.id].status == Running
      && d.moved.value.workflow == d.workflow.value.id
    else from == to || (!Managed(from) && !Managed(to))
  }

  ghost predicate HonestDelta(t: Tables, d: Delta) {
    if d.workflow.None? then
      && d.events == [] && d.claimed.None? && d.moved.Some? && d.moved.value.status == Running
      && d.moved.value.id in t.Attempts(d.kind) && t.Attempts(d.kind)[d.moved.value.id].status == Claimed
      && t.Attempts(d.kind)[d.moved.value.id].workflow == d.moved.value.workflow
    else
      var w := d.workflow.value;
      if w.id !in t.workflows then
        && w.status == Draft && w.version == 1 && w.latestArtifact == 0 && d.claimed.None? && d.moved.None?
        && |d.events| == 1 && d.events[0].workflow == w.id
        && d.events[0].previous.None? && d.events[0].next == Some(Draft)
      else
        var from := t.workflows[w.id].status;
        Tells(d.events, w.id, from, w.status) && Legal(from, w.status) && AttemptMoves(t, d, from, w.status)
  }

  lemma {:induction false} CreateHonest(t: Tables, w: Workflow, e: Event, key: string, hash: string)
    requires ValidEvent(e) && Honest(t, CreateWorkflow(w, e, key, hash)) && Create(t, w, e, key, hash).Write?
    ensures HonestDelta(t, Create(t, w, e, key, hash).delta)
  {
  }

  lemma {:induction false} TransitionHonest(t: Tables, c: Command)
    requires c.TransitionStatus? && Keyed(t) && Honest(t, c) && Decide(t, c).Write?
    ensures HonestDelta(t, Decide(t, c).delta)
  {
  }

  lemma {:induction false} RecordHonest(t: Tables, c: Command)
    requires (c.AppendArtifact? || c.RecordOperation?) && Keyed(t) && Honest(t, c) && Decide(t, c).Write?
    ensures HonestDelta(t, Decide(t, c).delta)
  {
  }

  lemma {:induction false} ClaimHonest(t: Tables, c: Command)
    requires (c.ClaimTransport? || c.ClaimExecution?) && Keyed(t) && Honest(t, c) && Decide(t, c).Write?
    ensures HonestDelta(t, Decide(t, c).delta)
  {
    hide HasOpen;
  }

  lemma {:induction false} ClaimRunHonest(t: Tables, c: Command)
    requires c.ClaimValidation? && Keyed(t) && Honest(t, c) && Decide(t, c).Write?
    ensures HonestDelta(t, Decide(t, c).delta)
  {
    hide HasOpen, ArtifactsAt;
  }

  lemma {:induction false} FinishTransportHonest(t: Tables, c: Command)
    requires c.FinishTransport? && Keyed(t) && Honest(t, c) && Decide(t, c).Write?
    ensures HonestDelta(t, Decide(t, c).delta)
  {
    hide EvidenceFits;
    assert t.transports == t.Attempts(Transport);
  }

  lemma {:induction false} FinishExecutionHonest(t: Tables, c: Command)
    requires c.FinishExecution? && Keyed(t) && Honest(t, c) && Decide(t, c).Write?
    ensures HonestDelta(t, Decide(t, c).delta)
  {
    assert t.executions == t.Attempts(Execution);
  }

  lemma {:induction false} FinishValidationHonest(t: Tables, c: Command)
    requires c.FinishValidation? && Keyed(t) && Honest(t, c) && Decide(t, c).Write?
    ensures HonestDelta(t, Decide(t, c).delta)
  {
    hide Milliseconds;
    assert t.validations == t.Attempts(Validation);
  }

  lemma {:induction false} DecideHonest(t: Tables, c: Command)
    requires Keyed(t) && WellFormed(c) && Honest(t, c) && Decide(t, c).Write?
    ensures HonestDelta(t, Decide(t, c).delta)
  {
    hide Keyed, Honest, HonestDelta, ValidWorkflow, ValidArtifact, ValidAttempt, ValidEvent, ValidExecutionEvidence,
         Create, Transition, Record, Claim, ClaimRun, MarkRunning, CompleteTransport, CompleteExecution, CompleteRun;
    match c
    case CreateWorkflow(w, e, key, hash) => CreateHonest(t, w, e, key, hash);
    case TransitionStatus(_, _, _, _, _, _, _) => TransitionHonest(t, c);
    case AppendArtifact(_, _, _, _, _, _) => RecordHonest(t, c);
    case RecordOperation(_, _, _, _, _, _, _, _) => RecordHonest(t, c);
    case ClaimTransport(_, _, _, _, _, _) => ClaimHonest(t, c);
    case ClaimExecution(_, _, _, _, _, _) => ClaimHonest(t, c);
    case ClaimValidation(_, _, _, _, _, _, _, _) => ClaimRunHonest(t, c);
    case Mark(k, id, at) => MarkHonest(t, k, id, at);
    case FinishTransport(_, _, _, _, _, _, _, _, _, _) => FinishTransportHonest(t, c);
    case FinishExecution(_, _, _, _, _, _, _, _) => FinishExecutionHonest(t, c);
    case FinishValidation(_, _, _, _, _, _, _, _, _, _) => FinishValidationHonest(t, c);
  }

  lemma {:induction false} MarkHonest(t: Tables, k: Kind, id: Uuid, at: Time)
    requires Keyed(t) && MarkRunning(t, k, id, at).Write?
    ensures HonestDelta(t, MarkRunning(t, k, id, at).delta)
  {
  }
}
