/**
 * The repository as an object whose tables its methods update in place. Every method runs one
 * transaction: it checks, writes row after row, and restores the tables when a row is refused.
 * Its contract says that the tables and the reply are those of the transaction as a whole.
 */
module WorkflowRepository {
  import opened Common
  import opened WorkflowModel
  import opened ControlPlane

  class Repository {
    var workflows: map<Uuid, Workflow>
    var artifacts: map<Uuid, Artifact>
    var events: seq<Event>
    var idem: map<(Scope, string), Receipt>
    var transports: map<Uuid, Attempt>
    var executions: map<Uuid, Attempt>
    var validations: map<Uuid, Attempt>

    function Snapshot(): Tables
      reads this
    {
      Tables(workflows, artifacts, events, idem, transports, executions, validations)
    }

    constructor ()
      ensures Snapshot() == EmptyTables
    {
      workflows, artifacts, events, idem := map[], map[], [], map[];
      transports, executions, validations := map[], map[], map[];
    }

    // -------------------------------------------------------------- rows

    /** Undo everything since the snapshot was taken. */
    method Rollback(t: Tables)
      modifies this
      ensures Snapshot() == t
    {
      workflows, artifacts, events, idem := t.workflows, t.artifacts, t.events, t.idem;
      transports, executions, validations := t.transports, t.executions, t.validations;
    }

    method StoreEvent(e: Event, version: int) returns (ok: bool)
      modifies this
      ensures ok == InsertEvent(old(Snapshot()), e, version).Some?
      ensures Snapshot() == if ok then InsertEvent(old(Snapshot()), e, version).value else old(Snapshot())
    {
      var t := Snapshot();
      if e.workflow !in workflows || !ArtifactOf(t, e.artifact, e.workflow) { return false; }
      if exists i :: 0 <= i < |events| && events[i].id == e.id { return false; }
      var sequence := MaxSequence(events, e.workflow) + 1;
      events := events + [e.(sequence := sequence, version := version)];
      ok := true;
    }

    /** Stores events in order and stops at the first one refused. */
    method StoreEvents(es: seq<Event>, version: int) returns (ok: bool)
      modifies this
      ensures ok == InsertEvents(old(Snapshot()), es, version).Some?
      ensures ok ==> Snapshot() == InsertEvents(old(Snapshot()), es, version).value
    {
      ok := true;
      var i := 0;
      while i < |es|
        invariant 0 <= i <= |es| && ok
        invariant InsertEvents(old(Snapshot()), es, version) == InsertEvents(Snapshot(), es[i..], version)
      {
        var now := Snapshot();
        ok := StoreEvent(es[i], version);
        assert es[i..][0] == es[i] && es[i..][1..] == es[i + 1..];
        if !ok { return; }
        i := i + 1;
      }
    }

    method StoreArtifact(a: Artifact) returns (ok: bool)
      modifies this
      ensures ok == CanInsertArtifact(old(Snapshot()), a)
      ensures Snapshot() == if ok then WithArtifact(old(Snapshot()), Some(a)) else old(Snapshot())
    {
      ok := CanInsertArtifact(Snapshot(), a);
      if ok { artifacts := artifacts[a.id := a]; }
    }

    method PutAttempt(kind: Kind, a: Attempt)
      modifies this
      ensures Snapshot() == old(Snapshot()).WithAttempts(kind, Upsert(old(Snapshot()).Attempts(kind), Some(a)))
    {
      match kind {
        case Transport => transports := transports[a.id := a];
        case Execution => executions := executions[a.id := a];
        case Validation => validations := validations[a.id := a];
      }
    }

    /** The artifact row and the attempt row, unless one of them is refused. */
    method StoreRows(d: Delta) returns (ok: bool)
      requires d.claimed.None? || d.moved.None?
      modifies this
      ensures ok == RowsFit(old(Snapshot()), d)
      ensures ok ==> Snapshot() == RowsStored(old(Snapshot()), d)
    {
      hide CanInsertArtifact, CanUpdateAttempt, CanInsertAttempt;
      if d.artifact.Some? {
        ok := StoreArtifact(d.artifact.value);
        if !ok { return; }
      }
      var t := Snapshot();
      if d.claimed.Some? {
        if !CanInsertAttempt(t, d.kind, d.claimed.value) { return false; }
        PutAttempt(d.kind, d.claimed.value);
      }
      if d.moved.Some? {
        if !CanUpdateAttempt(t, d.kind, d.moved.value) { return false; }
        PutAttempt(d.kind, d.moved.value);
      }
      ok := true;
    }

    /** Writes the rows of a transaction in order; a refused row undoes the ones before it. */
    method Store(d: Delta) returns (ok: bool)
      requires d.claimed.None? || d.moved.None?
      modifies this
      ensures ok == Commit(old(Snapshot()), d).Some?
      ensures Snapshot() == if ok then Commit(old(Snapshot()), d).value else old(Snapshot())
    {
      hide RowsFit, RowsStored, ValidWorkflow, InsertEvents, Written, Accepts;
      var before := Snapshot();
      AcceptedInSteps(before, d);
      ok := StoreRows(d);
      if !ok { Rollback(before); return; }
      if d.workflow.Some? {
        if !ValidWorkflow(d.workflow.value) { Rollback(before); return false; }
        workflows := workflows[d.workflow.value.id := d.workflow.value];
      }
      WrittenInSteps(before, d);
      if d.workflow.Some? {
        ok := StoreEvents(d.events, d.workflow.value.version);
        if !ok { Rollback(before); return; }
      }
      if d.receipt.Some? {
        idem := idem[d.receipt.value.0 := d.receipt.value.1];
      }
      ok := true;
    }

    // -------------------------------------------------------------- workflow commands

    method CreateWorkflow(w: Workflow, e: Event, key: string, hash: string) returns (reply: Reply)
      modifies this
      ensures (Snapshot(), reply) == Apply(old(Snapshot()), Command.CreateWorkflow(w, e, key, hash))
    {
      hide Commit;
      if e.workflow != w.id { return Refused(PersistenceFailure); }
      match Idem(Snapshot(), CreateScope, key, hash) {
        case Clash => return Refused(IdempotencyConflict);
        case Known(r) =>
          if r.workflow !in workflows { return Refused(PersistenceFailure); }
          return WorkflowReply(workflows[r.workflow]);
        case Fresh =>
      }
      if w.id in workflows { return Refused(PersistenceFailure); }
      var receipt := ((CreateScope, key), Receipt(hash, w.id, w.id));
      var ok := Store(Delta(Some(w), None, Transport, None, None, [e], Some(receipt)));
      reply := if ok then WorkflowReply(w) else Refused(PersistenceFailure);
    }

    method TransitionStatus(
      id: Uuid, expected: int, status: Status, e: Event, lastError: Option<string>, key: string, hash: string)
      returns (reply: Reply)
      modifies this
      ensures (Snapshot(), reply)
              == Apply(old(Snapshot()), Command.TransitionStatus(id, expected, status, e, lastError, key, hash))
    {
      hide Commit;
      if e.workflow != id { return Refused(PersistenceFailure); }
      var scope := StatusScope(id);
      match Idem(Snapshot(), scope, key, hash) {
        case Clash => return Refused(IdempotencyConflict);
        case Known(_) =>
          if id !in workflows { return Refused(PersistenceFailure); }
          return WorkflowReply(workflows[id]);
        case Fresh =>
      }
      if id !in workflows { return Refused(NotFound); }
      var current := workflows[id];
      if current.version != expected { return Refused(VersionConflict); }
      if current.status == status { return Refused(InvalidTransition); }
      var next := current.(status := status, version := current.version + 1, updatedAt := e.occurredAt, lastError := lastError);
      var ok := Store(Delta(Some(next), None, Transport, None, None, [e], Some(((scope, key), Receipt(hash, id, id)))));
      reply := if ok then WorkflowReply(next) else Refused(PersistenceFailure);
    }

    method MarkFailed(id: Uuid, expected: int, e: Event, lastError: Option<string>, key: string, hash: string)
      returns (reply: Reply)
      modifies this
      ensures (Snapshot(), reply)
              == Apply(old(Snapshot()), Command.TransitionStatus(id, expected, Status.Failed, e, lastError, key, hash))
    {
      reply := TransitionStatus(id, expected, Status.Failed, e, lastError, key, hash);
    }

    method CancelWorkflow(id: Uuid, expected: int, e: Event, lastError: Option<string>, key: string, hash: string)
      returns (reply: Reply)
      modifies this
      ensures (Snapshot(), reply)
              == Apply(old(Snapshot()), Command.TransitionStatus(id, expected, Cancelled, e, lastError, key, hash))
    {
      reply := TransitionStatus(id, expected, Cancelled, e, lastError, key, hash);
    }

    method AppendArtifact(id: Uuid, expected: int, a: Artifact, e: Event, key: string, hash: string)
      returns (reply: Reply)
      modifies this
      ensures (Snapshot(), reply) == Apply(old(Snapshot()), Command.AppendArtifact(id, expected, a, e, key, hash))
    {
      hide Commit;
      if a.workflow != id { return Refused(ArtifactInvalid); }
      if e.workflow != id || e.artifact != Some(a.id) || e.artifactKind != Some(a.kind) {
        return Refused(PersistenceFailure);
      }
      var scope := ArtifactScope(id);
      match Idem(Snapshot(), scope, key, hash) {
        case Clash => return Refused(IdempotencyConflict);
        case Known(r) =>
          if id !in workflows || r.result !in artifacts { return Refused(PersistenceFailure); }
          return ArtifactReply(workflows[id], artifacts[r.result]);
        case Fresh =>
      }
      if id !in workflows { return Refused(NotFound); }
      var current := workflows[id];
      if current.version != expected || a.version != current.latestArtifact + 1 { return Refused(VersionConflict); }
      var next := current.(version := current.version + 1, updatedAt := a.createdAt, latestArtifact := a.version);
      assert EventList(Some(e), None) == [e];
      var ok := Store(Delta(Some(next), Some(a), Transport, None, None, [e], Some(((scope, key), Receipt(hash, id, a.id)))));
      reply := if ok then ArtifactReply(next, a) else Refused(PersistenceFailure);
    }

    method AppendArtifactOperation(
      id: Uuid, expected: int, a: Artifact, ae: Event, status: Option<Status>, te: Option<Event>,
      key: string, hash: string)
      returns (reply: Reply)
      modifies this
      ensures (Snapshot(), reply)
              == Apply(old(Snapshot()), Command.RecordOperation(id, expected, a, ae, status, te, key, hash))
    {
      hide Commit;
      if a.workflow != id { return Refused(ArtifactInvalid); }
      if ae.workflow != id || ae.artifact != Some(a.id) || ae.artifactKind != Some(a.kind) {
        return Refused(PersistenceFailure);
      }
      if status.None? != te.None? { return Refused(PersistenceFailure); }
      if te.Some? && te.value.workflow != id { return Refused(PersistenceFailure); }
      var scope := OperationScope(id, a.kind);
      match Idem(Snapshot(), scope, key, hash) {
        case Clash => return Refused(IdempotencyConflict);
        case Known(r) =>
          if id !in workflows || r.result !in artifacts { return Refused(PersistenceFailure); }
          return ArtifactReply(workflows[id], artifacts[r.result]);
        case Fresh =>
      }
      if id !in workflows { return Refused(NotFound); }
      var current := workflows[id];
      if current.version != expected || a.version != current.latestArtifact + 1 { return Refused(VersionConflict); }
      var next := current.(status := if status.Some? then status.value else current.status,
                           version := current.version + 1, updatedAt := a.createdAt, latestArtifact := a.version);
      var ok := Store(Delta(Some(next), Some(a), Transport, None, None, EventList(Some(ae), te),
                            Some(((scope, key), Receipt(hash, id, a.id)))));
      reply := if ok then ArtifactReply(next, a) else Refused(PersistenceFailure);
    }

    // -------------------------------------------------------------- claims

    /** The part that a transport claim and an execution claim have in common. */
    method ClaimAttempt(
      kind: Kind, id: Uuid, expected: int, a: Attempt, e: Event, key: string, hash: string) returns (reply: Reply)
      requires kind != Validation
      modifies this
      ensures (Snapshot(), reply) == Settle(old(Snapshot()), Claim(old(Snapshot()), kind, id, expected, a, e, key, hash))
    {
      hide Commit, HasOpen;
      if a.workflow != id || a.status != Claimed { return Refused(PersistenceFailure); }
      if e.workflow != id || e.previous != Some(ReadyStatus(kind)) || e.next != Some(ActiveStatus(kind)) {
        return Refused(PersistenceFailure);
      }
      var rows := if kind == Transport then transports else executions;
      var scope := AttemptScope(id, kind);
      match Idem(Snapshot(), scope, key, hash) {
        case Clash => return Refused(IdempotencyConflict);
        case Known(r) =>
          if id !in workflows || r.result !in rows { return Refused(PersistenceFailure); }
          return ClaimReply(workflows[id], rows[r.result], false);
        case Fresh =>
      }
      if id !in workflows { return Refused(NotFound); }
      var current := workflows[id];
      if current.version != expected { return Refused(VersionConflict); }
      if current.status != ReadyStatus(kind) { return Refused(InvalidTransition); }
      if HasOpen(Snapshot(), kind, id) { return Refused(AlreadyInProgress); }
      var next := current.(status := ActiveStatus(kind), version := current.version + 1, updatedAt := a.claimedAt);
      var ok := Store(Delta(Some(next), None, kind, Some(a), None, [e], Some(((scope, key), Receipt(hash, id, a.id)))));
      reply := if ok then ClaimReply(next, a, true) else Refused(PersistenceFailure);
    }

    method ClaimTransportAttempt(id: Uuid, expected: int, a: Attempt, e: Event, key: string, hash: string)
      returns (reply: Reply)
      modifies this
      ensures (Snapshot(), reply) == Apply(old(Snapshot()), Command.ClaimTransport(id, expected, a, e, key, hash))
    {
      hide Commit, Claim;
      reply := ClaimAttempt(Transport, id, expected, a, e, key, hash);
    }

    method ClaimExecutionAttempt(id: Uuid, expected: int, a: Attempt, e: Event, key: string, hash: string)
      returns (reply: Reply)
      modifies this
      ensures (Snapshot(), reply) == Apply(old(Snapshot()), Command.ClaimExecution(id, expected, a, e, key, hash))
    {
      hide Commit, Claim;
      reply := ClaimAttempt(Execution, id, expected, a, e, key, hash);
    }

    method ClaimValidationRun(
      id: Uuid, expected: int, run: Attempt, a: Artifact, ae: Event, te: Event, key: string, hash: string)
      returns (reply: Reply)
      modifies this
      ensures (Snapshot(), reply)
              == Apply(old(Snapshot()), Command.ClaimValidation(id, expected, run, a, ae, te, key, hash))
    {
      hide Commit, ArtifactsAt, HasOpen;
      if run.workflow != id || run.status != Claimed || a.workflow != id || a.kind != ValidationPreview {
        return Refused(PersistenceFailure);
      }
      if ae.artifact != Some(a.id) || te.previous != Some(Executed) || te.next != Some(Validating) {
        return Refused(PersistenceFailure);
      }
      var scope := AttemptScope(id, Validation);
      match Idem(Snapshot(), scope, key, hash) {
        case Clash => return Refused(IdempotencyConflict);
        case Known(r) =>
          if id !in workflows || r.result !in validations { return Refused(PersistenceFailure); }
          var stored := validations[r.result];
          var preview := ArtifactsAt(Snapshot(), id, PreviewOf(stored));
          if preview == {} { return Refused(PersistenceFailure); }
          return RunReply(workflows[id], stored, preview, false);
        case Fresh =>
      }
      if id !in workflows { return Refused(NotFound); }
      var current := workflows[id];
      if current.version != expected { return Refused(VersionConflict); }
      if current.status != Executed { return Refused(InvalidTransition); }
      if a.version != current.latestArtifact + 1 || PreviewOf(run) != a.version { return Refused(VersionConflict); }
      if HasOpen(Snapshot(), Validation, id) { return Refused(AlreadyInProgress); }
      var next := current.(status := Validating, version := current.version + 1, updatedAt := run.claimedAt,
                           latestArtifact := a.version);
      var ok := Store(Delta(Some(next), Some(a), Validation, Some(run), None, [ae, te],
                            Some(((scope, key), Receipt(hash, id, run.id)))));
      reply := if ok then RunReply(next, run, {a}, true) else Refused(PersistenceFailure);
    }

    /** `mark_transport_running`, `mark_execution_running` and `mark_validation_running`. */
    method MarkAttemptRunning(kind: Kind, id: Uuid, at: Time) returns (reply: Reply)
      modifies this
      ensures (Snapshot(), reply) == Apply(old(Snapshot()), Command.Mark(kind, id, at))
    {
      hide Commit;
      var rows := Snapshot().Attempts(kind);
      if id !in rows { return Refused(NotFound); }
      var a := rows[id];
      if a.status != Claimed { return MarkReply(a, false); }
      var row := a.(status := Running, runningAt := Some(at));
      var ok := Store(Delta(None, None, kind, None, Some(row), [], None));
      reply := if ok then MarkReply(row, true) else Refused(PersistenceFailure);
    }

    // -------------------------------------------------------------- completions

    method CompleteTransportAttempt(
      id: Uuid, expected: int, attemptId: Uuid, evidence: Option<TransportEvidence>, artifact: Option<Artifact>,
      ae: Option<Event>, status: Status, te: Event, at: Time, failure: Option<string>)
      returns (reply: Reply)
      modifies this
      ensures (Snapshot(), reply)
              == Apply(old(Snapshot()),
                       FinishTransport(id, expected, attemptId, evidence, artifact, ae, status, te, at, failure))
    {
      hide Commit, EvidenceFits;
      if evidence.None? != artifact.None? || ae.None? != artifact.None? { return Refused(PersistenceFailure); }
      var terminal: AttemptStatus;
      if status == Staged {
        if evidence.None? || failure.Some? || artifact.value.kind != StagingLoadEvidence {
          return Refused(PersistenceFailure);
        }
        terminal := Succeeded;
      } else if status == MappingApproved {
        if evidence.Some? || failure.None? { return Refused(PersistenceFailure); }
        terminal := ConfirmedFailed;
      } else if status == StagingRecoveryRequired {
        if evidence.Some? || failure.None? { return Refused(PersistenceFailure); }
        terminal := OutcomeUncertain;
      } else {
        return Refused(PersistenceFailure);
      }
      if te.workflow != id || te.previous != Some(Staging) || te.next != Some(status) {
        return Refused(PersistenceFailure);
      }
      if artifact.Some? && (artifact.value.workflow != id || ae.value.artifact != Some(artifact.value.id)) {
        return Refused(PersistenceFailure);
      }
      if id !in workflows { return Refused(NotFound); }
      var current := workflows[id];
      if current.version != expected || current.status != Staging { return Refused(VersionConflict); }
      if attemptId !in transports { return Refused(NotFound); }
      var a := transports[attemptId];
      if a.status != Running { return Refused(VersionConflict); }
      if evidence.Some? && !EvidenceFits(evidence.value, id, a) { return Refused(PersistenceFailure); }
      if artifact.Some? && artifact.value.version != current.latestArtifact + 1 { return Refused(VersionConflict); }
      var row := Closed(a, terminal, at, None, artifact, failure);
      var next := Bump(current, status, at, artifact);
      var ok := Store(Delta(Some(next), artifact, Transport, None, Some(row), EventList(ae, Some(te)), None));
      reply := if ok then CompleteReply(next, row, artifact) else Refused(PersistenceFailure);
    }

    method CompleteExecutionAttempt(
      id: Uuid, expected: int, attemptId: Uuid, ev: ExecutionEvidence, artifact: Artifact, ae: Event,
      status: Status, te: Event)
      returns (reply: Reply)
      modifies this
      ensures (Snapshot(), reply)
              == Apply(old(Snapshot()), FinishExecution(id, expected, attemptId, ev, artifact, ae, status, te))
    {
      hide Commit;
      if ev.attempt != attemptId || ev.workflow != id || artifact.workflow != id
         || artifact.kind != ArtifactType.ExecutionEvidence {
        return Refused(PersistenceFailure);
      }
      if ae.artifact != Some(artifact.id) || te.workflow != id { return Refused(PersistenceFailure); }
      if id !in workflows { return Refused(NotFound); }
      var current := workflows[id];
      if current.version != expected || current.status != Executing || artifact.version != current.latestArtifact + 1 {
        return Refused(VersionConflict);
      }
      if attemptId !in executions { return Refused(NotFound); }
      var a := executions[attemptId];
      if a.status != Running { return Refused(VersionConflict); }
      var row := Closed(a, ev.status, ev.completedAt, None, Some(artifact), ev.failure);
      var next := Bump(current, status, ev.completedAt, Some(artifact));
      var ok := Store(Delta(Some(next), Some(artifact), Execution, None, Some(row), [ae, te], None));
      reply := if ok then CompleteReply(next, row, Some(artifact)) else Refused(PersistenceFailure);
    }

    method CompleteValidationRun(
      id: Uuid, expected: int, runId: Uuid, hasReport: bool, artifact: Option<Artifact>, ae: Option<Event>,
      status: Status, te: Event, at: Time, failure: Option<string>)
      returns (reply: Reply)
      modifies this
      ensures (Snapshot(), reply)
              == Apply(old(Snapshot()),
                       FinishValidation(id, expected, runId, hasReport, artifact, ae, status, te, at, failure))
    {
      hide Commit, Milliseconds;
      if artifact.None? == hasReport || ae.None? != artifact.None? { return Refused(PersistenceFailure); }
      if artifact.Some?
         && (artifact.value.workflow != id || artifact.value.kind != ValidationExecutionReport
             || ae.value.artifact != Some(artifact.value.id)) {
        return Refused(PersistenceFailure);
      }
      if id !in workflows { return Refused(NotFound); }
      var current := workflows[id];
      if current.version != expected || current.status != Validating { return Refused(VersionConflict); }
      if runId !in validations { return Refused(NotFound); }
      var run := validations[runId];
      if run.status != Running { return Refused(VersionConflict); }
      if artifact.Some? && artifact.value.version != current.latestArtifact + 1 { return Refused(VersionConflict); }
      if run.runningAt.None? { return Refused(PersistenceFailure); }
      var terminal := if !hasReport then OutcomeUncertain else if status == Validated then Succeeded else ReviewRequired;
      var row := Closed(run, terminal, at, Some(Milliseconds(run.runningAt.value, at)), artifact, failure);
      var next := Bump(current, status, at, artifact);
      var ok := Store(Delta(Some(next), artifact, Validation, None, Some(row), EventList(ae, Some(te)), None));
      reply := if ok then CompleteReply(next, row, artifact) else Refused(PersistenceFailure);
    }
  }

  /** What `StoreRows` checks, in its order. */
  predicate RowsFit(t: Tables, d: Delta) {
    && (d.artifact.Some? ==> CanInsertArtifact(t, d.artifact.value))
    && (d.claimed.Some? ==> CanInsertAttempt(WithArtifact(t, d.artifact), d.kind, d.claimed.value))
    && (d.moved.Some? ==> CanUpdateAttempt(WithArtifact(t, d.artifact), d.kind, d.moved.value))
  }

  /** What `StoreRows` writes, in its order. */
  function RowsStored(t: Tables, d: Delta): Tables {
    var u := WithArtifact(t, d.artifact);
    var row := if d.claimed.Some? then d.claimed else d.moved;
    if row.None? then u else u.WithAttempts(d.kind, Upsert(u.Attempts(d.kind), row))
  }

  lemma {:induction false} AcceptedInSteps(t: Tables, d: Delta)
    ensures Accepts(t, d) == (RowsFit(t, d) && (d.workflow.Some? ==> ValidWorkflow(d.workflow.value)))
  {
    hide CanInsertArtifact, CanUpdateAttempt, ValidWorkflow;
  }

  lemma {:induction false} WrittenInSteps(t: Tables, d: Delta)
    requires d.claimed.None? || d.moved.None?
    ensures WithWorkflow(RowsStored(t, d), d.workflow) == Written(t, d)
  {
    var u := WithArtifact(t, d.artifact);
    assert u.Attempts(d.kind) == t.Attempts(d.kind);
    assert u.WithAttempts(d.kind, u.Attempts(d.kind)) == u;
  }
}
