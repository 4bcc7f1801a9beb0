/**
 * The control-plane tables and, for every repository command, the transaction it runs:
 * a function from the tables and the arguments to the new tables and the reply.
 * A transaction that fails at any point leaves the tables as they were.
 */
module ControlPlane {
  import opened Common
  import opened WorkflowModel

  /** Scope of an idempotency key. */
  datatype Scope =
    | CreateScope
    | StatusScope(workflow: Uuid)
    | ArtifactScope(workflow: Uuid)
    | OperationScope(workflow: Uuid, kind: ArtifactType)
    | AttemptScope(workflow: Uuid, operation: Kind)

  datatype Receipt = Receipt(hash: string, workflow: Uuid, result: Uuid)

  /** `events` is in insertion order; the other tables are keyed by their primary key. */
  datatype Tables = Tables(
    workflows: map<Uuid, Workflow>,
    artifacts: map<Uuid, Artifact>,
    events: seq<Event>,
    idem: map<(Scope, string), Receipt>,
    transports: map<Uuid, Attempt>,
    executions: map<Uuid, Attempt>,
    validations: map<Uuid, Attempt>)
  {
    function Attempts(kind: Kind): map<Uuid, Attempt> {
      match kind
      case Transport => transports
      case Execution => executions
      case Validation => validations
    }

    function WithAttempts(kind: Kind, rows: map<Uuid, Attempt>): Tables {
      match kind
      case Transport => this.(transports := rows)
      case Execution => this.(executions := rows)
      case Validation => this.(validations := rows)
    }
  }

  const EmptyTables := Tables(map[], map[], [], map[], map[], map[], map[])

  datatype Error =
    | NotFound | VersionConflict | InvalidTransition | IdempotencyConflict
    | ArtifactInvalid | AlreadyInProgress | PersistenceFailure

  /** What a command answers. `isNew` is false for a replayed claim. */
  datatype Reply =
    | Refused(error: Error)
    | WorkflowReply(workflow: Workflow)
    | ArtifactReply(workflow: Workflow, artifact: Artifact)
    | ClaimReply(workflow: Workflow, attempt: Attempt, isNew: bool)
    | RunReply(workflow: Workflow, attempt: Attempt, preview: set<Artifact>, isNew: bool)
    | MarkReply(attempt: Attempt, changed: bool)
    | CompleteReply(workflow: Workflow, attempt: Attempt, stored: Option<Artifact>)

  // ---------------------------------------------------------------- rows

  /** The events of one workflow, oldest first. */
  function LogOf(events: seq<Event>, w: Uuid): seq<Event> {
    if events == [] then []
    else
      var earlier := LogOf(events[..|events| - 1], w);
      var e := events[|events| - 1];
      if e.workflow == w then earlier + [e] else earlier
  }

  /** The largest sequence number stored for a workflow, zero if it has no event. */
  function MaxSequence(events: seq<Event>, w: Uuid): int {
    if events == [] then 0
    else
      var m := MaxSequence(events[..|events| - 1], w);
      var e := events[|events| - 1];
      if e.workflow == w && e.sequence > m then e.sequence else m
  }

  predicate ArtifactOf(t: Tables, a: Option<Uuid>, w: Uuid) {
    a.Some? ==> a.value in t.artifacts && t.artifacts[a.value].workflow == w
  }

  /** The row stored for an event: the next sequence number and the given workflow version. */
  function StampedRow(t: Tables, e: Event, version: int): Event {
    e.(sequence := MaxSequence(t.events, e.workflow) + 1, version := version)
  }

  function InsertEvent(t: Tables, e: Event, version: int): Option<Tables> {
    if
      || e.workflow !in t.workflows
      || (exists i :: 0 <= i < |t.events| && t.events[i].id == e.id)
      || !ArtifactOf(t, e.artifact, e.workflow)
    then None
    else Some(t.(events := t.events + [StampedRow(t, e, version)]))
  }

  function InsertEvents(t: Tables, es: seq<Event>, version: int): Option<Tables>
    decreases |es|
  {
    if es == [] then Some(t)
    else
      var t1 :- InsertEvent(t, es[0], version);
      InsertEvents(t1, es[1..], version)
  }

  /** Primary key, foreign key and one artifact per workflow version. */
  predicate CanInsertArtifact(t: Tables, a: Artifact) {
    && a.workflow in t.workflows
    && a.id !in t.artifacts
    && forall i :: i in t.artifacts ==>
         !(t.artifacts[i].workflow == a.workflow && t.artifacts[i].version == a.version)
  }

  predicate CanInsertAttempt(t: Tables, kind: Kind, a: Attempt) {
    && a.workflow in t.workflows
    && a.id !in t.Attempts(kind)
    && (a.binding.ValidationBinding? ==> a.binding.executionAttempt in t.executions)
  }

  /** The update is undone when the row no longer satisfies its constructor. */
  predicate CanUpdateAttempt(t: Tables, kind: Kind, a: Attempt) {
    ValidAttempt(kind, a) && ArtifactOf(t, a.evidence, a.workflow)
  }

  datatype Lookup = Fresh | Known(receipt: Receipt) | Clash

  function Idem(t: Tables, scope: Scope, key: string, hash: string): Lookup {
    if (scope, key) !in t.idem then Fresh
    else if t.idem[(scope, key)].hash != hash then Clash
    else Known(t.idem[(scope, key)])
  }

  predicate IsOpen(s: AttemptStatus) {
    s != ConfirmedFailed
  }

  /** Some attempt of this kind is claimed, running, or ended in a way that forbids another. */
  predicate HasOpen(t: Tables, kind: Kind, w: Uuid) {
    exists i :: i in t.Attempts(kind) && t.Attempts(kind)[i].workflow == w && IsOpen(t.Attempts(kind)[i].status)
  }

  /** The rows one transaction writes. */
  datatype Delta = Delta(
    workflow: Option<Workflow>, artifact: Option<Artifact>, kind: Kind, claimed: Option<Attempt>,
    moved: Option<Attempt>, events: seq<Event>, receipt: Option<((Scope, string), Receipt)>)

  function WithArtifact(t: Tables, a: Option<Artifact>): Tables {
    if a.None? then t else t.(artifacts := t.artifacts[a.value.id := a.value])
  }

  function Upsert(rows: map<Uuid, Attempt>, a: Option<Attempt>): map<Uuid, Attempt> {
    if a.None? then rows else rows[a.value.id := a.value]
  }

  function WithWorkflow(t: Tables, w: Option<Workflow>): Tables {
    if w.None? then t else t.(workflows := t.workflows[w.value.id := w.value])
  }

  function WithReceipt(t: Tables, r: Option<((Scope, string), Receipt)>): Tables {
    if r.None? then t else t.(idem := t.idem[r.value.0 := r.value.1])
  }

  /** Neither the database nor a constructor refuses a row of the transaction. */
  predicate Accepts(t: Tables, d: Delta) {
    && (d.artifact.Some? ==> CanInsertArtifact(t, d.artifact.value))
    && (d.claimed.Some? ==> CanInsertAttempt(t, d.kind, d.claimed.value))
    && (d.moved.Some? ==> CanUpdateAttempt(WithArtifact(t, d.artifact), d.kind, d.moved.value))
    && (d.workflow.Some? ==> ValidWorkflow(d.workflow.value))
  }

  /** Every row but the events and the receipt. */
  function Written(t: Tables, d: Delta): Tables {
    var rows := Upsert(Upsert(t.Attempts(d.kind), d.claimed), d.moved);
    WithWorkflow(WithArtifact(t, d.artifact).WithAttempts(d.kind, rows), d.workflow)
  }

  /** Writes every row, or none. */
  function Commit(t: Tables, d: Delta): Option<Tables> {
    if !Accepts(t, d) then None
    else
      var u :- if d.workflow.None? then Some(Written(t, d))
               else InsertEvents(Written(t, d), d.events, d.workflow.value.version);
      Some(WithReceipt(u, d.receipt))
  }

  /** What a command does once its rows are locked: answer at once, or write and then answer. */
  datatype Decision = Answer(reply: Reply) | Write(delta: Delta, reply: Reply)

  function Refuse(e: Error): Decision {
    Answer(Refused(e))
  }

  // ---------------------------------------------------------------- commands

  function Create(t: Tables, w: Workflow, e: Event, key: string, hash: string): Decision {
    if e.workflow != w.id then Refuse(PersistenceFailure)
    else
      match Idem(t, CreateScope, key, hash)
      case Clash => Refuse(IdempotencyConflict)
      case Known(r) =>
        if r.workflow in t.workflows then Answer(WorkflowReply(t.workflows[r.workflow])) else Refuse(PersistenceFailure)
      case Fresh =>
        if w.id in t.workflows then Refuse(PersistenceFailure)
        else
          Write(Delta(Some(w), None, Transport, None, None, [e],
                      Some(((CreateScope, key), Receipt(hash, w.id, w.id)))),
                WorkflowReply(w))
  }

  /** The row a committed command leaves: one version later, stamped with the command's time. */
  function Bump(current: Workflow, status: Status, at: Time, artifact: Option<Artifact>): Workflow {
    current.(status := status, version := current.version + 1, updatedAt := at,
             latestArtifact := if artifact.Some? then artifact.value.version else current.latestArtifact)
  }

  function Transition(
    t: Tables, id: Uuid, expected: int, status: Status, e: Event, lastError: Option<string>, key: string, hash: string)
    : Decision
  {
    if e.workflow != id then Refuse(PersistenceFailure)
    else
      match Idem(t, StatusScope(id), key, hash)
      case Clash => Refuse(IdempotencyConflict)
      case Known(r) => if id in t.workflows then Answer(WorkflowReply(t.workflows[id])) else Refuse(PersistenceFailure)
      case Fresh =>
        if id !in t.workflows then Refuse(NotFound)
        else if t.workflows[id].version != expected then Refuse(VersionConflict)
        else if t.workflows[id].status == status then Refuse(InvalidTransition)
        else
          var next := Bump(t.workflows[id], status, e.occurredAt, None).(lastError := lastError);
          Write(Delta(Some(next), None, Transport, None, None, [e],
                      Some(((StatusScope(id), key), Receipt(hash, id, id)))),
                WorkflowReply(next))
  }

  /** The two optional events of a command, the artifact event first. */
  function EventList(a: Option<Event>, b: Option<Event>): seq<Event> {
    (if a.Some? then [a.value] else []) + (if b.Some? then [b.value] else [])
  }

  /** Appends an artifact and, when a status is given, changes the status in the same transaction. */
  function Record(
    t: Tables, scope: Scope, id: Uuid, expected: int, a: Artifact, ae: Event,
    status: Option<Status>, te: Option<Event>, key: string, hash: string)
    : Decision
  {
    if a.workflow != id then Refuse(ArtifactInvalid)
    else if ae.workflow != id || ae.artifact != Some(a.id) || ae.artifactKind != Some(a.kind) then
      Refuse(PersistenceFailure)
    else if status.None? != te.None? then Refuse(PersistenceFailure)
    else if te.Some? && te.value.workflow != id then Refuse(PersistenceFailure)
    else
      match Idem(t, scope, key, hash)
      case Clash => Refuse(IdempotencyConflict)
      case Known(r) =>
        if id in t.workflows && r.result in t.artifacts
        then Answer(ArtifactReply(t.workflows[id], t.artifacts[r.result]))
        else Refuse(PersistenceFailure)
      case Fresh =>
        if id !in t.workflows then Refuse(NotFound)
        else if t.workflows[id].version != expected || a.version != t.workflows[id].latestArtifact + 1 then
          Refuse(VersionConflict)
        else
          var current := t.workflows[id];
          var next := Bump(current, if status.Some? then status.value else current.status, a.createdAt, Some(a));
          Write(Delta(Some(next), Some(a), Transport, None, None, EventList(Some(ae), te),
                      Some(((scope, key), Receipt(hash, id, a.id)))),
                ArtifactReply(next, a))
  }

  /** The status a claim starts from and the status it moves the workflow to. */
  function ReadyStatus(kind: Kind): Status {
    match kind
    case Transport => MappingApproved
    case Execution => ExecutionReady
    case Validation => Executed
  }

  function ActiveStatus(kind: Kind): Status {
    match kind
    case Transport => Staging
    case Execution => Executing
    case Validation => Validating
  }

  /** Claims a staging load or a target execution before any remote work. */
  function Claim(
    t: Tables, kind: Kind, id: Uuid, expected: int, a: Attempt, e: Event, key: string, hash: string): Decision
  {
    if a.workflow != id || a.status != Claimed then Refuse(PersistenceFailure)
    else if e.workflow != id || e.previous != Some(ReadyStatus(kind)) || e.next != Some(ActiveStatus(kind)) then
      Refuse(PersistenceFailure)
    else
      match Idem(t, AttemptScope(id, kind), key, hash)
      case Clash => Refuse(IdempotencyConflict)
      case Known(r) =>
        if id in t.workflows && r.result in t.Attempts(kind)
        then Answer(ClaimReply(t.workflows[id], t.Attempts(kind)[r.result], false))
        else Refuse(PersistenceFailure)
      case Fresh =>
        if id !in t.workflows then Refuse(NotFound)
        else if t.workflows[id].version != expected then Refuse(VersionConflict)
        else if t.workflows[id].status != ReadyStatus(kind) then Refuse(InvalidTransition)
        else if HasOpen(t, kind, id) then Refuse(AlreadyInProgress)
        else
          var next := Bump(t.workflows[id], ActiveStatus(kind), a.claimedAt, None);
          Write(Delta(Some(next), None, kind, Some(a), None, [e],
                      Some(((AttemptScope(id, kind), key), Receipt(hash, id, a.id)))),
                ClaimReply(next, a, true))
  }

  /** The artifacts stored for a workflow under one version. */
  function ArtifactsAt(t: Tables, w: Uuid, version: int): set<Artifact> {
    set i | i in t.artifacts && t.artifacts[i].workflow == w && t.artifacts[i].version == version :: t.artifacts[i]
  }

  /** The preview version a validation run is bound to, zero for any other binding. */
  function PreviewOf(run: Attempt): int {
    if run.binding.ValidationBinding? then run.binding.preview else 0
  }

  /** Stores the validation plan and claims its run together. */
  function ClaimRun(
    t: Tables, id: Uuid, expected: int, run: Attempt, a: Artifact, ae: Event, te: Event, key: string, hash: string)
    : Decision
  {
    if run.workflow != id || run.status != Claimed || a.workflow != id || a.kind != ValidationPreview then
      Refuse(PersistenceFailure)
    else if ae.artifact != Some(a.id) || te.previous != Some(Executed) || te.next != Some(Validating) then
      Refuse(PersistenceFailure)
    else
      match Idem(t, AttemptScope(id, Validation), key, hash)
      case Clash => Refuse(IdempotencyConflict)
      case Known(r) =>
        if id !in t.workflows || r.result !in t.validations then Refuse(PersistenceFailure)
        else
          var stored := t.validations[r.result];
          var preview := ArtifactsAt(t, id, PreviewOf(stored));
          if preview != {} then Answer(RunReply(t.workflows[id], stored, preview, false)) else Refuse(PersistenceFailure)
      case Fresh =>
        if id !in t.workflows then Refuse(NotFound)
        else if t.workflows[id].version != expected then Refuse(VersionConflict)
        else if t.workflows[id].status != Executed then Refuse(InvalidTransition)
        else if a.version != t.workflows[id].latestArtifact + 1 || PreviewOf(run) != a.version then
          Refuse(VersionConflict)
        else if HasOpen(t, Validation, id) then Refuse(AlreadyInProgress)
        else
          var next := Bump(t.workflows[id], Validating, run.claimedAt, Some(a));
          Write(Delta(Some(next), Some(a), Validation, Some(run), None, [ae, te],
                      Some(((AttemptScope(id, Validation), key), Receipt(hash, id, run.id)))),
                RunReply(next, run, {a}, true))
  }

  /** Lets one claimant move an attempt from claimed to running. */
  function MarkRunning(t: Tables, kind: Kind, id: Uuid, at: Time): Decision {
    if id !in t.Attempts(kind) then Refuse(NotFound)
    else
      var a := t.Attempts(kind)[id];
      if a.status != Claimed then Answer(MarkReply(a, false))
      else
        var row := a.(status := Running, runningAt := Some(at));
        Write(Delta(None, None, kind, None, Some(row), [], None), MarkReply(row, true))
  }

  datatype TransportEvidence = TransportEvidence(
    attempt: Uuid, workflow: Uuid, fingerprint: string, sourceDiscovery: int, approvedMapping: int, staging: string)

  /** The terminal attempt status a staging outcome stands for, if the arguments agree with it. */
  function StagingOutcome(
    evidence: Option<TransportEvidence>, artifact: Option<Artifact>, status: Status, failure: Option<string>)
    : Option<AttemptStatus>
    requires evidence.None? == artifact.None?
  {
    if status == Staged then
      if evidence.None? || failure.Some? || artifact.value.kind != StagingLoadEvidence then None else Some(Succeeded)
    else if status == MappingApproved then
      if evidence.Some? || failure.None? then None else Some(ConfirmedFailed)
    else if status == StagingRecoveryRequired then
      if evidence.Some? || failure.None? then None else Some(OutcomeUncertain)
    else None
  }

  /** Closes an attempt: terminal status, completion time, evidence and failure category. */
  function Closed(
    a: Attempt, status: AttemptStatus, at: Time, duration: Option<int>, artifact: Option<Artifact>,
    failure: Option<string>): Attempt
  {
    a.(status := status, completedAt := Some(at), duration := duration, failure := failure,
       evidence := if artifact.Some? then Some(artifact.value.id) else None)
  }

  predicate EvidenceFits(ev: TransportEvidence, id: Uuid, attempt: Attempt) {
    && ev.attempt == attempt.id && ev.workflow == id
    && TransportBinding(ev.fingerprint, ev.sourceDiscovery, ev.approvedMapping, ev.staging) == attempt.binding
  }

  function CompleteTransport(
    t: Tables, id: Uuid, expected: int, attemptId: Uuid, evidence: Option<TransportEvidence>,
    artifact: Option<Artifact>, ae: Option<Event>, status: Status, te: Event, at: Time, failure: Option<string>)
    : Decision
  {
    if evidence.None? != artifact.None? || ae.None? != artifact.None? then Refuse(PersistenceFailure)
    else if StagingOutcome(evidence, artifact, status, failure).None? then Refuse(PersistenceFailure)
    else if te.workflow != id || te.previous != Some(Staging) || te.next != Some(status) then
      Refuse(PersistenceFailure)
    else if artifact.Some? && (artifact.value.workflow != id || ae.value.artifact != Some(artifact.value.id)) then
      Refuse(PersistenceFailure)
    else if id !in t.workflows then Refuse(NotFound)
    else if t.workflows[id].version != expected || t.workflows[id].status != Staging then Refuse(VersionConflict)
    else if attemptId !in t.transports then Refuse(NotFound)
    else
      var a := t.transports[attemptId];
      if a.status != Running then Refuse(VersionConflict)
      else if evidence.Some? && !EvidenceFits(evidence.value, id, a) then Refuse(PersistenceFailure)
      else if artifact.Some? && artifact.value.version != t.workflows[id].latestArtifact + 1 then
        Refuse(VersionConflict)
      else
        var terminal := StagingOutcome(evidence, artifact, status, failure).value;
        var row := Closed(a, terminal, at, None, artifact, failure);
        var next := Bump(t.workflows[id], status, at, artifact);
        Write(Delta(Some(next), artifact, Transport, None, Some(row), EventList(ae, Some(te)), None),
              CompleteReply(next, row, artifact))
  }

  datatype ExecutionEvidence = ExecutionEvidence(
    attempt: Uuid, workflow: Uuid, status: AttemptStatus, completedAt: Time, failure: Option<string>)

  predicate ValidExecutionEvidence(ev: ExecutionEvidence) {
    ev.status in {Succeeded, ConfirmedFailed, OutcomeUncertain} && IsOptionalCode(ev.failure)
  }

  function CompleteExecution(
    t: Tables, id: Uuid, expected: int, attemptId: Uuid, ev: ExecutionEvidence,
    artifact: Artifact, ae: Event, status: Status, te: Event)
    : Decision
  {
    if ev.attempt != attemptId || ev.workflow != id || artifact.workflow != id
       || artifact.kind != ArtifactType.ExecutionEvidence then
      Refuse(PersistenceFailure)
    else if ae.artifact != Some(artifact.id) || te.workflow != id then Refuse(PersistenceFailure)
    else if id !in t.workflows then Refuse(NotFound)
    else if
      || t.workflows[id].version != expected || t.workflows[id].status != Executing
      || artifact.version != t.workflows[id].latestArtifact + 1
    then Refuse(VersionConflict)
    else if attemptId !in t.executions then Refuse(NotFound)
    else if t.executions[attemptId].status != Running then Refuse(VersionConflict)
    else
      var row := Closed(t.executions[attemptId], ev.status, ev.completedAt, None, Some(artifact), ev.failure);
      var next := Bump(t.workflows[id], status, ev.completedAt, Some(artifact));
      Write(Delta(Some(next), Some(artifact), Execution, None, Some(row), [ae, te], None),
            CompleteReply(next, row, Some(artifact)))
  }

  /** Whole milliseconds between two times, never negative. */
  function Milliseconds(from: Time, to: Time): int {
    if to < from then 0 else (to - from) / 1000
  }

  /** `hasReport` is false when the validation outcome is unknown. */
  function ValidationOutcome(hasReport: bool, status: Status): AttemptStatus {
    if !hasReport then OutcomeUncertain else if status == Validated then Succeeded else ReviewRequired
  }

  function CompleteRun(
    t: Tables, id: Uuid, expected: int, runId: Uuid, hasReport: bool, artifact: Option<Artifact>, ae: Option<Event>,
    status: Status, te: Event, at: Time, failure: Option<string>)
    : Decision
  {
    if artifact.None? == hasReport || ae.None? != artifact.None? then Refuse(PersistenceFailure)
    else if
      artifact.Some? &&
      (artifact.value.workflow != id || artifact.value.kind != ValidationExecutionReport
       || ae.value.artifact != Some(artifact.value.id))
    then Refuse(PersistenceFailure)
    else if id !in t.workflows then Refuse(NotFound)
    else if t.workflows[id].version != expected || t.workflows[id].status != Validating then
      Refuse(VersionConflict)
    else if runId !in t.validations then Refuse(NotFound)
    else
      var run := t.validations[runId];
      if run.status != Running then Refuse(VersionConflict)
      else if artifact.Some? && artifact.value.version != t.workflows[id].latestArtifact + 1 then
        Refuse(VersionConflict)
      else if run.runningAt.None? then Refuse(PersistenceFailure)
      else
        var row := Closed(run, ValidationOutcome(hasReport, status), at,
                          Some(Milliseconds(run.runningAt.value, at)), artifact, failure);
        var next := Bump(t.workflows[id], status, at, artifact);
        Write(Delta(Some(next), artifact, Validation, None, Some(row), EventList(ae, Some(te)), None),
              CompleteReply(next, row, artifact))
  }

  // ---------------------------------------------------------------- one command

  datatype Command =
    | CreateWorkflow(workflow: Workflow, event: Event, key: string, hash: string)
    | TransitionStatus(id: Uuid, expected: int, status: Status, event: Event, lastError: Option<string>,
                       key: string, hash: string)
    | AppendArtifact(id: Uuid, expected: int, artifact: Artifact, event: Event, key: string, hash: string)
    | RecordOperation(id: Uuid, expected: int, artifact: Artifact, event: Event, change: Option<Status>,
                      transition: Option<Event>, key: string, hash: string)
    | ClaimTransport(id: Uuid, expected: int, attempt: Attempt, event: Event, key: string, hash: string)
    | ClaimExecution(id: Uuid, expected: int, attempt: Attempt, event: Event, key: string, hash: string)
    | ClaimValidation(id: Uuid, expected: int, attempt: Attempt, artifact: Artifact, event: Event, moved: Event,
                      key: string, hash: string)
    | Mark(kind: Kind, attemptId: Uuid, at: Time)
    | FinishTransport(id: Uuid, expected: int, attemptId: Uuid, loaded: Option<TransportEvidence>,
                      stored: Option<Artifact>, storedEvent: Option<Event>, status: Status, moved: Event,
                      at: Time, failure: Option<string>)
    | FinishExecution(id: Uuid, expected: int, attemptId: Uuid, outcome: ExecutionEvidence,
                      artifact: Artifact, event: Event, status: Status, moved: Event)
    | FinishValidation(id: Uuid, expected: int, attemptId: Uuid, hasReport: bool,
                       stored: Option<Artifact>, storedEvent: Option<Event>, status: Status, moved: Event,
                       at: Time, failure: Option<string>)

  /** The checks and the outcome of one command. */
  function Decide(t: Tables, c: Command): Decision {
    match c
    case CreateWorkflow(w, e, key, hash) => Create(t, w, e, key, hash)
    case TransitionStatus(id, v, s, e, err, key, hash) => Transition(t, id, v, s, e, err, key, hash)
    case AppendArtifact(id, v, a, e, key, hash) => Record(t, ArtifactScope(id), id, v, a, e, None, None, key, hash)
    case RecordOperation(id, v, a, e, s, te, key, hash) =>
      Record(t, OperationScope(id, a.kind), id, v, a, e, s, te, key, hash)
    case ClaimTransport(id, v, a, e, key, hash) => Claim(t, Transport, id, v, a, e, key, hash)
    case ClaimExecution(id, v, a, e, key, hash) => Claim(t, Execution, id, v, a, e, key, hash)
    case ClaimValidation(id, v, a, art, ae, te, key, hash) => ClaimRun(t, id, v, a, art, ae, te, key, hash)
    case Mark(kind, id, at) => MarkRunning(t, kind, id, at)
    case FinishTransport(id, v, at, ev, a, ae, s, te, time, f) =>
      CompleteTransport(t, id, v, at, ev, a, ae, s, te, time, f)
    case FinishExecution(id, v, at, ev, a, ae, s, te) => CompleteExecution(t, id, v, at, ev, a, ae, s, te)
    case FinishValidation(id, v, at, rep, a, ae, s, te, time, f) =>
      CompleteRun(t, id, v, at, rep, a, ae, s, te, time, f)
  }

  /** Commit or roll back. */
  function Settle(t: Tables, d: Decision): (Tables, Reply) {
    match d
    case Answer(r) => (t, r)
    case Write(delta, r) =>
      var rows := Commit(t, delta);
      if rows.None? then (t, Refused(PersistenceFailure)) else (rows.value, r)
  }

  /** One transaction. */
  function Apply(t: Tables, c: Command): (Tables, Reply) {
    Settle(t, Decide(t, c))
  }

  /** The tables after a run of transactions, in the order in which they committed or failed. */
  function Run(t: Tables, cs: seq<Command>): Tables
    decreases |cs|
  {
    if cs == [] then t else Run(Apply(t, cs[0]).0, cs[1..])
  }

  /** Every record handed to a command has passed its own constructor. */
  predicate WellFormed(c: Command) {
    match c
    case CreateWorkflow(w, e, _, _) => ValidWorkflow(w) && ValidEvent(e)
    case TransitionStatus(_, _, _, e, _, _, _) => ValidEvent(e)
    case AppendArtifact(_, _, a, e, _, _) => ValidArtifact(a) && ValidEvent(e)
    case RecordOperation(_, _, a, e, _, te, _, _) =>
      ValidArtifact(a) && ValidEvent(e) && (te.Some? ==> ValidEvent(te.value))
    case ClaimTransport(_, _, a, e, _, _) => ValidAttempt(Transport, a) && ValidEvent(e)
    case ClaimExecution(_, _, a, e, _, _) => ValidAttempt(Execution, a) && ValidEvent(e)
    case ClaimValidation(_, _, a, art, ae, te, _, _) =>
      ValidAttempt(Validation, a) && ValidArtifact(art) && ValidEvent(ae) && ValidEvent(te)
    case Mark(_, _, _) => true
    case FinishTransport(_, _, _, _, a, ae, _, te, _, _) =>
      && (a.Some? ==> ValidArtifact(a.value)) && (ae.Some? ==> ValidEvent(ae.value)) && ValidEvent(te)
    case FinishExecution(_, _, _, ev, a, ae, _, te) =>
      ValidExecutionEvidence(ev) && ValidArtifact(a) && ValidEvent(ae) && ValidEvent(te)
    case FinishValidation(_, _, _, _, a, ae, _, te, _, _) =>
      (a.Some? ==> ValidArtifact(a.value)) && (ae.Some? ==> ValidEvent(ae.value)) && ValidEvent(te)
  }

  predicate AllWellFormed(cs: seq<Command>) {
    forall i :: 0 <= i < |cs| ==> WellFormed(cs[i])
  }
}
