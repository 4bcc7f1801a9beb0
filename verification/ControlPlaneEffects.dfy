/**
 * Exactly when each command takes effect, in terms of its arguments and the rows it finds, and
 * exactly what it then leaves: every row of every table and the reply.
 */
module ControlPlaneEffects {
  import opened Common
  import opened WorkflowModel
  import opened ControlPlane
  import opened ControlPlaneSafety
  import opened ControlPlaneRuns

  // ---------------------------------------------------------------- what a change looks like

  /** The events are appended in order, each numbered after all events of its workflow. */
  ghost predicate Logged(before: seq<Event>, after: seq<Event>, es: seq<Event>, version: int) {
    && |after| == |before| + |es| && before <= after
    && forall i :: 0 <= i < |es| ==>
         var n := |before| + i;
         after[n] == es[i].(sequence := |LogOf(after[..n], es[i].workflow)| + 1, version := version)
  }

  /** The given rows are stored under their keys, and no other row of any table differs. */
  ghost predicate Stores(
    t: Tables, u: Tables, w: Option<Workflow>, a: Option<Artifact>, k: Kind, row: Option<Attempt>, es: seq<Event>,
    receipt: Option<((Scope, string), Receipt)>)
  {
    && u.workflows == (if w.None? then t.workflows else t.workflows[w.value.id := w.value])
    && u.artifacts == (if a.None? then t.artifacts else t.artifacts[a.value.id := a.value])
    && u.Attempts(k) == (if row.None? then t.Attempts(k) else t.Attempts(k)[row.value.id := row.value])
    && (forall j: Kind :: j != k ==> u.Attempts(j) == t.Attempts(j))
    && Logged(t.events, u.events, es, if w.None? then 0 else w.value.version)
    && u.idem == (if receipt.None? then t.idem else t.idem[receipt.value.0 := receipt.value.1])
  }

  /** The database takes the events: own identifiers, known workflows, known artifacts of the same workflow. */
  ghost predicate EventsFit(workflows: set<Uuid>, artifacts: map<Uuid, Artifact>, log: seq<Event>, es: seq<Event>) {
    forall i :: 0 <= i < |es| ==>
      && es[i].workflow in workflows
      && (es[i].artifact.Some? ==>
            es[i].artifact.value in artifacts && artifacts[es[i].artifact.value].workflow == es[i].workflow)
      && (forall j :: 0 <= j < |log| ==> log[j].id != es[i].id)
      && (forall j :: 0 <= j < i ==> es[j].id != es[i].id)
  }

  // ---------------------------------------------------------------- events of one commit

  lemma {:induction false} InsertEventMeans(t: Tables, e: Event, version: int)
    ensures InsertEvent(t, e, version).Some? <==> EventsFit(t.workflows.Keys, t.artifacts, t.events, [e])
    ensures InsertEvent(t, e, version).Some? ==>
              InsertEvent(t, e, version).value == t.(events := t.events + [StampedRow(t, e, version)])
  {
    assert [e][0] == e;
  }

  lemma {:induction false} EventsFitFirst(
    workflows: set<Uuid>, artifacts: map<Uuid, Artifact>, log: seq<Event>, row: Event, es: seq<Event>)
    requires es != [] && row.id == es[0].id
    ensures EventsFit(workflows, artifacts, log, es)
            <==> EventsFit(workflows, artifacts, log, [es[0]]) && EventsFit(workflows, artifacts, log + [row], es[1..])
  {
    var all := log + [row];
    if EventsFit(workflows, artifacts, log, es) {
      forall i | 0 <= i < |es[1..]|
        ensures forall j :: 0 <= j < |all| ==> all[j].id != es[1..][i].id
        ensures forall j :: 0 <= j < i ==> es[1..][j].id != es[1..][i].id
        ensures es[1..][i].workflow in workflows
      {
        assert es[1..][i] == es[i + 1];
      }
    }
    if EventsFit(workflows, artifacts, log, [es[0]]) && EventsFit(workflows, artifacts, all, es[1..]) {
      assert [es[0]][0] == es[0];
      forall i | 0 < i < |es|
        ensures forall j :: 0 <= j < |log| ==> log[j].id != es[i].id
        ensures forall j :: 0 <= j < i ==> es[j].id != es[i].id
        ensures es[i].workflow in workflows
        ensures es[i].artifact.Some? ==>
                  es[i].artifact.value in artifacts && artifacts[es[i].artifact.value].workflow == es[i].workflow
      {
        var rest := es[1..];
        assert rest[i - 1] == es[i] && all[|log|].id == es[0].id;
        forall j | 0 <= j < |log| ensures log[j].id != es[i].id { assert all[j] == log[j]; }
        forall j | 0 <= j < i ensures es[j].id != es[i].id { if j > 0 { assert rest[j - 1] == es[j]; } }
      }
    }
  }

  /** Exactly which events a commit can store. */
  lemma {:induction false} InsertEventsMeans(t: Tables, es: seq<Event>, version: int)
    ensures InsertEvents(t, es, version).Some? <==> EventsFit(t.workflows.Keys, t.artifacts, t.events, es)
    decreases |es|
  {
    hide EventsFit, InsertEvent;
    if es == [] {
      NoEvents(t);
    } else {
      InsertEventMeans(t, es[0], version);
      EventsFitFirst(t.workflows.Keys, t.artifacts, t.events, StampedRow(t, es[0], version), es);
      if InsertEvent(t, es[0], version).Some? {
        InsertEventsMeans(InsertEvent(t, es[0], version).value, es[1..], version);
      }
    }
  }

  lemma {:induction false} NoEvents(t: Tables)
    ensures EventsFit(t.workflows.Keys, t.artifacts, t.events, [])
  {
  }

  /** In a numbered log every event is numbered after those before it. */
  lemma {:induction false} NumberedAfter(events: seq<Event>, n: nat)
    requires n < |events| && NumberedLog(events, events[n].workflow)
    ensures events[n].sequence == |LogOf(events[..n], events[n].workflow)| + 1
  {
    var w := events[n].workflow;
    var front, rest := events[..n], events[n + 1..];
    assert events == front + [events[n]] + rest;
    LogConcat(front + [events[n]], rest, w);
    LogAppend(front, events[n], w);
    assert LogOf(events, w)[|LogOf(front, w)|] == events[n];
  }

  // ---------------------------------------------------------------- commits

  /** Exactly which deltas commit. */
  lemma {:induction false} CommitMeans(t: Tables, d: Delta)
    ensures Commit(t, d).Some?
            <==> Accepts(t, d)
                 && (d.workflow.Some? ==>
                       EventsFit(t.workflows.Keys + {d.workflow.value.id}, WithArtifact(t, d.artifact).artifacts,
                                 t.events, d.events))
  {
    hide Accepts, InsertEvents, Written, WithArtifact, EventsFit;
    WrittenFrame(t, d);
    if d.workflow.Some? {
      InsertEventsMeans(Written(t, d), d.events, d.workflow.value.version);
      assert WithWorkflow(t, d.workflow).workflows.Keys == t.workflows.Keys + {d.workflow.value.id};
    }
  }

  /** What a commit stores. */
  lemma {:induction false} CommitStores(t: Tables, d: Delta)
    requires LogsOk(t) && Commit(t, d).Some? && (d.claimed.None? || d.moved.None?) && (d.workflow.None? ==> d.events == [])
    ensures Stores(t, Commit(t, d).value, d.workflow, d.artifact, d.kind,
                   if d.claimed.Some? then d.claimed else d.moved, d.events, d.receipt)
  {
    hide Commit, LogsOk, Accepts, Written, LogOf;
    var u := Commit(t, d).value;
    var added := CommitShape(t, d);
    CommittedFields(t, d, u, added);
    CommitNumbers(t, d, u, added);
    forall j: Kind ensures u.Attempts(j) == AttemptsAfter(t, d, j) { }
  }

  lemma {:induction false} CommitNumbers(t: Tables, d: Delta, u: Tables, added: seq<Event>)
    requires Committed(t, d, u, added) && LogsOk(u) && (d.workflow.None? ==> d.events == [])
    requires u.events == t.events + added
    ensures Logged(t.events, u.events, d.events, if d.workflow.None? then 0 else d.workflow.value.version)
  {
    hide Accepts, Written, WithReceipt, LogOf, NumberedLog;
    forall i | 0 <= i < |d.events|
      ensures |added| == |d.events|
      ensures var n := |t.events| + i;
              u.events[n] == d.events[i].(sequence := |LogOf(u.events[..n], d.events[i].workflow)| + 1,
                                          version := d.workflow.value.version)
    {
      assert u.events[|t.events| + i] == added[i];
      NumberedAfter(u.events, |t.events| + i);
    }
  }

  // ---------------------------------------------------------------- when a command takes effect

  /** The command finds the workflow it names at the version it expects. */
  predicate Finds(t: Tables, id: Uuid, version: int) {
    id in t.workflows && t.workflows[id].version == version
  }

  /** The next artifact of a workflow, under an unused identifier. */
  predicate NextArtifact(t: Tables, id: Uuid, a: Artifact)
    requires id in t.workflows
  {
    && a.workflow == id && a.version == t.workflows[id].latestArtifact + 1 && a.id !in t.artifacts
    && a.createdAt >= t.workflows[id].createdAt
  }

  /** Every attempt of this kind is confirmed failed. */
  ghost predicate NoneOpen(t: Tables, k: Kind, id: Uuid) {
    forall i :: i in t.Attempts(k) && t.Attempts(k)[i].workflow == id ==> t.Attempts(k)[i].status == ConfirmedFailed
  }

  /** A running attempt that may end at the given time. */
  predicate MayEnd(t: Tables, k: Kind, attempt: Uuid, at: Time) {
    && attempt in t.Attempts(k) && t.Attempts(k)[attempt].status == Running
    && t.Attempts(k)[attempt].runningAt.Some? && t.Attempts(k)[attempt].runningAt.value <= at
  }

  /** The evidence of a load names the inputs its attempt was claimed with. */
  predicate EvidenceOf(ev: TransportEvidence, id: Uuid, a: Attempt) {
    && ev.attempt == a.id && ev.workflow == id && a.binding.TransportBinding?
    && ev.fingerprint == a.binding.fingerprint && ev.sourceDiscovery == a.binding.sourceDiscovery
    && ev.approvedMapping == a.binding.approvedMapping && ev.staging == a.binding.staging
  }

  predicate Failure(f: Option<string>) {
    f.Some? && IsCode(f.value)
  }

  ghost predicate EventsWith(t: Tables, a: Option<Artifact>, es: seq<Event>) {
    EventsFit(t.workflows.Keys, if a.None? then t.artifacts else t.artifacts[a.value.id := a.value], t.events, es)
  }

  /** Exactly when a command changes the tables. */
  ghost predicate Takes(t: Tables, c: Command) {
    match c
    case CreateWorkflow(w, e, key, _) =>
      && e.workflow == w.id && (CreateScope, key) !in t.idem && w.id !in t.workflows
      && EventsFit(t.workflows.Keys + {w.id}, t.artifacts, t.events, [e])
    case TransitionStatus(id, v, s, e, err, key, _) =>
      && e.workflow == id && (StatusScope(id), key) !in t.idem && Finds(t, id, v) && t.workflows[id].status != s
      && e.occurredAt >= t.workflows[id].createdAt && IsOptionalCode(err) && EventsWith(t, None, [e])
    case AppendArtifact(id, v, a, e, key, _) =>
      && e.workflow == id && e.artifact == Some(a.id) && e.artifactKind == Some(a.kind)
      && (ArtifactScope(id), key) !in t.idem && Finds(t, id, v) && NextArtifact(t, id, a) && EventsWith(t, Some(a), [e])
    case RecordOperation(id, v, a, e, s, te, key, _) =>
      && e.workflow == id && e.artifact == Some(a.id) && e.artifactKind == Some(a.kind)
      && (s.Some? <==> te.Some?) && (te.Some? ==> te.value.workflow == id)
      && (OperationScope(id, a.kind), key) !in t.idem && Finds(t, id, v) && NextArtifact(t, id, a)
      && EventsWith(t, Some(a), if te.Some? then [e, te.value] else [e])
    case ClaimTransport(id, v, a, e, key, _) =>
      && a.workflow == id && a.status == Claimed && a.id !in t.transports
      && e.workflow == id && e.previous == Some(MappingApproved) && e.next == Some(Staging)
      && (AttemptScope(id, Transport), key) !in t.idem && Finds(t, id, v) && t.workflows[id].status == MappingApproved
      && NoneOpen(t, Transport, id) && a.claimedAt >= t.workflows[id].createdAt && EventsWith(t, None, [e])
    case ClaimExecution(id, v, a, e, key, _) =>
      && a.workflow == id && a.status == Claimed && a.id !in t.executions
      && e.workflow == id && e.previous == Some(ExecutionReady) && e.next == Some(Executing)
      && (AttemptScope(id, Execution), key) !in t.idem && Finds(t, id, v) && t.workflows[id].status == ExecutionReady
      && NoneOpen(t, Execution, id) && a.claimedAt >= t.workflows[id].createdAt && EventsWith(t, None, [e])
    case ClaimValidation(id, v, run, a, ae, te, key, _) =>
      && (AttemptScope(id, Validation), key) !in t.idem && Finds(t, id, v) && t.workflows[id].status == Executed
      && run.workflow == id && run.status == Claimed && run.id !in t.validations && run.binding.ValidationBinding?
      && run.binding.executionAttempt in t.executions && run.binding.preview == a.version
      && a.workflow == id && a.kind == ValidationPreview && a.version == t.workflows[id].latestArtifact + 1
      && a.id !in t.artifacts && ae.artifact == Some(a.id) && te.previous == Some(Executed) && te.next == Some(Validating)
      && NoneOpen(t, Validation, id) && run.claimedAt >= t.workflows[id].createdAt && EventsWith(t, Some(a), [ae, te])
    case Mark(k, id, at) =>
      id in t.Attempts(k) && t.Attempts(k)[id].status == Claimed && t.Attempts(k)[id].claimedAt <= at
    case FinishTransport(id, v, i, ev, a, ae, s, te, at, f) =>
      && Finds(t, id, v) && t.workflows[id].status == Staging && at >= t.workflows[id].createdAt && MayEnd(t, Transport, i, at)
      && te.workflow == id && te.previous == Some(Staging) && te.next == Some(s)
      && if s == Staged then
           && ev.Some? && a.Some? && ae.Some? && f.None? && EvidenceOf(ev.value, id, t.transports[i])
           && t.transports[i].workflow == id && a.value.kind == StagingLoadEvidence && a.value.workflow == id
           && a.value.version == t.workflows[id].latestArtifact + 1 && a.value.id !in t.artifacts
           && ae.value.artifact == Some(a.value.id) && EventsWith(t, a, [ae.value, te])
         else
           && (s == MappingApproved || s == StagingRecoveryRequired) && ev.None? && a.None? && ae.None? && Failure(f)
           && EventsWith(t, None, [te])
    case FinishExecution(id, v, i, ev, a, ae, s, te) =>
      && Finds(t, id, v) && t.workflows[id].status == Executing && ev.completedAt >= t.workflows[id].createdAt
      && MayEnd(t, Execution, i, ev.completedAt) && t.executions[i].workflow == id
      && ev.attempt == i && ev.workflow == id && te.workflow == id && a.kind == ArtifactType.ExecutionEvidence
      && a.workflow == id && a.version == t.workflows[id].latestArtifact + 1 && a.id !in t.artifacts
      && ae.artifact == Some(a.id) && EventsWith(t, Some(a), [ae, te])
    case FinishValidation(id, v, i, rep, a, ae, s, te, at, f) =>
      && Finds(t, id, v) && t.workflows[id].status == Validating && at >= t.workflows[id].createdAt && MayEnd(t, Validation, i, at)
      && if rep then
           && a.Some? && ae.Some? && f.None? && t.validations[i].workflow == id
           && a.value.kind == ValidationExecutionReport && a.value.workflow == id
           && a.value.version == t.workflows[id].latestArtifact + 1 && a.value.id !in t.artifacts
           && ae.value.artifact == Some(a.value.id) && EventsWith(t, a, [ae.value, te])
         else a.None? && ae.None? && Failure(f) && EventsWith(t, None, [te])
  }

  // ---------------------------------------------------------------- what it leaves

  /** The workflow one version later, in status `s`, changed last at `at`. */
  function Moved(w: Workflow, s: Status, at: Time): Workflow {
    w.(status := s, version := w.version + 1, updatedAt := at)
  }

  /** The attempt ended in status `s` at `at`. */
  function EndedAs(a: Attempt, s: AttemptStatus, at: Time, evidence: Option<Uuid>, failure: Option<string>): Attempt {
    a.(status := s, completedAt := Some(at), evidence := evidence, failure := failure)
  }

  /** Whole milliseconds, rounded down. */
  predicate Lasts(d: Option<int>, from: Time, to: Time) {
    d.Some? && 0 <= d.value && d.value * 1000 <= to - from < (d.value + 1) * 1000
  }

  /** What a command that takes effect leaves and answers. */
  ghost predicate Leaves(t: Tables, c: Command, u: Tables, r: Reply)
    requires Takes(t, c)
  {
    match c
    case CreateWorkflow(w, e, key, hash) =>
      && Stores(t, u, Some(w), None, Transport, None, [e], Some(((CreateScope, key), Receipt(hash, w.id, w.id))))
      && r == WorkflowReply(w)
    case TransitionStatus(id, _, s, e, err, key, hash) =>
      var w := Moved(t.workflows[id], s, e.occurredAt).(lastError := err);
      && Stores(t, u, Some(w), None, Transport, None, [e], Some(((StatusScope(id), key), Receipt(hash, id, id))))
      && r == WorkflowReply(w)
    case AppendArtifact(id, _, a, e, key, hash) =>
      var w := Moved(t.workflows[id], t.workflows[id].status, a.createdAt).(latestArtifact := a.version);
      && Stores(t, u, Some(w), Some(a), Transport, None, [e], Some(((ArtifactScope(id), key), Receipt(hash, id, a.id))))
      && r == ArtifactReply(w, a)
    case RecordOperation(id, _, a, e, s, te, key, hash) =>
      var w := Moved(t.workflows[id], if s.Some? then s.value else t.workflows[id].status, a.createdAt)
               .(latestArtifact := a.version);
      && Stores(t, u, Some(w), Some(a), Transport, None, if te.Some? then [e, te.value] else [e],
                Some(((OperationScope(id, a.kind), key), Receipt(hash, id, a.id))))
      && r == ArtifactReply(w, a)
    case ClaimTransport(id, _, a, e, key, hash) =>
      var w := Moved(t.workflows[id], Staging, a.claimedAt);
      && Stores(t, u, Some(w), None, Transport, Some(a), [e],
                Some(((AttemptScope(id, Transport), key), Receipt(hash, id, a.id))))
      && r == ClaimReply(w, a, true)
    case ClaimExecution(id, _, a, e, key, hash) =>
      var w := Moved(t.workflows[id], Executing, a.claimedAt);
      && Stores(t, u, Some(w), None, Execution, Some(a), [e],
                Some(((AttemptScope(id, Execution), key), Receipt(hash, id, a.id))))
      && r == ClaimReply(w, a, true)
    case ClaimValidation(id, _, run, a, ae, te, key, hash) =>
      var w := Moved(t.workflows[id], Validating, run.claimedAt).(latestArtifact := a.version);
      && Stores(t, u, Some(w), Some(a), Validation, Some(run), [ae, te],
                Some(((AttemptScope(id, Validation), key), Receipt(hash, id, run.id))))
      && r == RunReply(w, run, {a}, true)
    case Mark(k, id, at) =>
      var row := t.Attempts(k)[id].(status := Running, runningAt := Some(at));
      Stores(t, u, None, None, k, Some(row), [], None) && r == MarkReply(row, true)
    case FinishTransport(id, _, i, _, a, ae, s, te, at, f) =>
      var ended := if s == Staged then Succeeded else if s == MappingApproved then ConfirmedFailed else OutcomeUncertain;
      var row := EndedAs(t.transports[i], ended, at, if s == Staged then Some(a.value.id) else None, f);
      var w := Moved(t.workflows[id], s, at)
               .(latestArtifact := t.workflows[id].latestArtifact + if s == Staged then 1 else 0);
      && Stores(t, u, Some(w), a, Transport, Some(row), if s == Staged then [ae.value, te] else [te], None)
      && r == CompleteReply(w, row, a)
    case FinishExecution(id, _, i, ev, a, ae, s, te) =>
      var row := EndedAs(t.executions[i], ev.status, ev.completedAt, Some(a.id), ev.failure);
      var w := Moved(t.workflows[id], s, ev.completedAt).(latestArtifact := a.version);
      && Stores(t, u, Some(w), Some(a), Execution, Some(row), [ae, te], None)
      && r == CompleteReply(w, row, Some(a))
    case FinishValidation(id, _, i, rep, a, ae, s, te, at, f) =>
      var ended := if !rep then OutcomeUncertain else if s == Validated then Succeeded else ReviewRequired;
      var w := Moved(t.workflows[id], s, at).(latestArtifact := t.workflows[id].latestArtifact + if rep then 1 else 0);
      exists d :: Lasts(d, t.validations[i].runningAt.value, at) &&
        var row := EndedAs(t.validations[i], ended, at, if rep then Some(a.value.id) else None, f).(duration := d);
        && Stores(t, u, Some(w), a, Validation, Some(row), if rep then [ae.value, te] else [te], None)
        && r == CompleteReply(w, row, a)
  }

  // ---------------------------------------------------------------- command by command

  ghost predicate TakesEffect(t: Tables, c: Command) {
    && (Apply(t, c).0 != t <==> Takes(t, c))
    && (Takes(t, c) ==> Leaves(t, c, Apply(t, c).0, Apply(t, c).1))
  }

  /** What the invariant says about the workflow, the artifacts and the attempts a command reads. */
  ghost predicate RowsSound(t: Tables) {
    && LogsOk(t)
    && (forall w :: w in t.workflows ==> t.workflows[w].id == w && ValidWorkflow(t.workflows[w]))
    && (forall a :: a in t.artifacts && t.artifacts[a].workflow in t.workflows ==>
          t.artifacts[a].version <= t.workflows[t.artifacts[a].workflow].latestArtifact)
    && (forall k: Kind, i :: i in t.Attempts(k) ==> t.Attempts(k)[i].id == i && ValidAttempt(k, t.Attempts(k)[i]))
    && (forall a :: a in t.artifacts ==> t.artifacts[a].workflow in t.workflows)
  }

  lemma {:induction false} InvSound(t: Tables)
    requires Inv(t)
    ensures RowsSound(t)
  {
    hide ValidAttempt, ValidWorkflow, OneOpen, VersionsUnique, PreviewsStored, LogsOk, ReceiptsOk, ValidArtifact;
    forall k: Kind, i | i in t.Attempts(k) ensures t.Attempts(k)[i].id == i && ValidAttempt(k, t.Attempts(k)[i]) {
      assert AttemptRowsOk(k, t.Attempts(k), t.workflows.Keys);
    }
  }

  /** Whether the delta of a decision commits, and what it then stores. */
  lemma {:induction false} DeltaStores(t: Tables, d: Delta)
    requires RowsSound(t) && (d.claimed.None? || d.moved.None?) && (d.workflow.None? ==> d.events == [])
    ensures Commit(t, d).Some?
            <==> Accepts(t, d)
                 && (d.workflow.Some? ==>
                       EventsFit(t.workflows.Keys + {d.workflow.value.id}, WithArtifact(t, d.artifact).artifacts,
                                 t.events, d.events))
    ensures Commit(t, d).Some? ==>
              Stores(t, Commit(t, d).value, d.workflow, d.artifact, d.kind,
                     if d.claimed.Some? then d.claimed else d.moved, d.events, d.receipt)
  {
    hide Commit, Stores, Accepts, EventsFit;
    CommitMeans(t, d);
    assert LogsOk(t) by { hide ValidWorkflow, ValidAttempt, LogsOk; }
    if Commit(t, d).Some? { CommitStores(t, d); }
  }

  lemma {:induction false} KnownKeys(t: Tables, id: Uuid)
    requires id in t.workflows
    ensures t.workflows.Keys + {id} == t.workflows.Keys
  {
  }

  lemma {:induction false} WorkflowSound(t: Tables, id: Uuid)
    requires RowsSound(t) && id in t.workflows
    ensures t.workflows[id].id == id && ValidWorkflow(t.workflows[id])
  {
    hide ValidAttempt, ValidWorkflow, LogsOk;
  }

  lemma {:induction false} AttemptSound(t: Tables, k: Kind, i: Uuid)
    requires RowsSound(t) && i in t.Attempts(k)
    ensures t.Attempts(k)[i].id == i && ValidAttempt(k, t.Attempts(k)[i])
  {
    hide ValidAttempt, ValidWorkflow, LogsOk;
  }

  lemma {:induction false} EventLists(a: Event, b: Event)
    ensures EventList(Some(a), Some(b)) == [a, b] && EventList(Some(a), None) == [a] && EventList(None, Some(b)) == [b]
  {
  }

  lemma {:induction false} MarkTakes(t: Tables, c: Command)
    requires RowsSound(t) && WellFormed(c) && c.Mark?
    ensures TakesEffect(t, c)
  {
    hide Commit, Stores, LogsOk, EventsFit;
    if c.attemptId in t.Attempts(c.kind) && t.Attempts(c.kind)[c.attemptId].status == Claimed {
      var d := Decide(t, c).delta;
      DeltaStores(t, d);
      if Commit(t, d).Some? { StoresRow(t, c.kind, d); }
    }
  }

  lemma {:induction false} StoresRow(t: Tables, k: Kind, d: Delta)
    requires d.moved.Some? && d.kind == k && Commit(t, d).Some?
    requires Stores(t, Commit(t, d).value, d.workflow, d.artifact, d.kind, d.moved, d.events, d.receipt)
    ensures d.moved.value.id in t.Attempts(k) && t.Attempts(k)[d.moved.value.id] != d.moved.value ==> Commit(t, d).value != t
  {
    hide Commit, LogOf;
  }

  lemma {:induction false} StoresWorkflow(t: Tables, d: Delta)
    requires d.workflow.Some? && Commit(t, d).Some?
    requires Stores(t, Commit(t, d).value, d.workflow, d.artifact, d.kind,
                    if d.claimed.Some? then d.claimed else d.moved, d.events, d.receipt)
    ensures d.workflow.value.id !in t.workflows || t.workflows[d.workflow.value.id] != d.workflow.value ==>
              Commit(t, d).value != t
  {
    hide Commit, LogOf;
  }

  lemma {:induction false} CreateTakes(t: Tables, c: Command)
    requires RowsSound(t) && WellFormed(c) && c.CreateWorkflow?
    ensures TakesEffect(t, c)
  {
    hide Commit, Stores, RowsSound, EventsFit, ValidEvent;
    if Decide(t, c).Write? {
      DeltaStores(t, Decide(t, c).delta);
      if Commit(t, Decide(t, c).delta).Some? { StoresWorkflow(t, Decide(t, c).delta); }
    }
  }

  lemma {:induction false} TransitionTakes(t: Tables, c: Command)
    requires RowsSound(t) && WellFormed(c) && c.TransitionStatus?
    ensures TakesEffect(t, c)
  {
    hide Commit, Stores, RowsSound, EventsFit, ValidEvent;
    if Decide(t, c).Write? {
      DeltaStores(t, Decide(t, c).delta);
      KnownKeys(t, c.id);
      WorkflowSound(t, c.id);
      if Commit(t, Decide(t, c).delta).Some? { StoresWorkflow(t, Decide(t, c).delta); }
    }
  }

  /** The version after the latest is free, so only the identifier decides. */
  lemma {:induction false} NextFits(t: Tables, id: Uuid, a: Artifact)
    requires RowsSound(t) && id in t.workflows && a.workflow == id && a.version == t.workflows[id].latestArtifact + 1
    ensures CanInsertArtifact(t, a) <==> a.id !in t.artifacts
  {
    hide ValidAttempt, ValidWorkflow, LogsOk;
  }

  lemma {:induction false} OpenMeans(t: Tables, k: Kind, id: Uuid)
    ensures HasOpen(t, k, id) <==> !NoneOpen(t, k, id)
  {
  }

  lemma {:induction false} AppendTakes(t: Tables, c: Command)
    requires RowsSound(t) && WellFormed(c) && c.AppendArtifact?
    ensures TakesEffect(t, c)
  {
    hide Commit, Stores, RowsSound, EventsFit, ValidEvent, CanInsertArtifact, EventList;
    if Decide(t, c).Write? {
      DeltaStores(t, Decide(t, c).delta);
      KnownKeys(t, c.id);
      WorkflowSound(t, c.id);
      NextFits(t, c.id, c.artifact);
      EventLists(c.event, c.event);
      if Commit(t, Decide(t, c).delta).Some? { StoresWorkflow(t, Decide(t, c).delta); }
    }
  }

  lemma {:induction false} OperationTakes(t: Tables, c: Command)
    requires RowsSound(t) && WellFormed(c) && c.RecordOperation?
    ensures TakesEffect(t, c)
  {
    hide Commit, Stores, RowsSound, EventsFit, ValidEvent, CanInsertArtifact, EventList;
    if Decide(t, c).Write? {
      DeltaStores(t, Decide(t, c).delta);
      KnownKeys(t, c.id);
      WorkflowSound(t, c.id);
      NextFits(t, c.id, c.artifact);
      EventLists(c.event, if c.transition.Some? then c.transition.value else c.event);
      if Commit(t, Decide(t, c).delta).Some? { StoresWorkflow(t, Decide(t, c).delta); }
    }
  }

  lemma {:induction false} ClaimTakes(t: Tables, c: Command)
    requires RowsSound(t) && WellFormed(c) && (c.ClaimTransport? || c.ClaimExecution?)
    ensures TakesEffect(t, c)
  {
    hide Commit, Stores, RowsSound, EventsFit, ValidEvent, HasOpen, NoneOpen;
    OpenMeans(t, ClaimTarget(c).value.0, c.id);
    if Decide(t, c).Write? {
      DeltaStores(t, Decide(t, c).delta);
      KnownKeys(t, c.id);
      WorkflowSound(t, c.id);
      if Commit(t, Decide(t, c).delta).Some? { StoresWorkflow(t, Decide(t, c).delta); }
    }
  }

  lemma {:induction false} ClaimRunTakes(t: Tables, c: Command)
    requires RowsSound(t) && WellFormed(c) && c.ClaimValidation?
    ensures TakesEffect(t, c)
  {
    hide Commit, Stores, RowsSound, EventsFit, ValidEvent, HasOpen, NoneOpen, ArtifactsAt, CanInsertArtifact;
    OpenMeans(t, Validation, c.id);
    if Decide(t, c).Write? {
      DeltaStores(t, Decide(t, c).delta);
      KnownKeys(t, c.id);
      WorkflowSound(t, c.id);
      NextFits(t, c.id, c.artifact);
      if Commit(t, Decide(t, c).delta).Some? { StoresWorkflow(t, Decide(t, c).delta); }
    }
  }

  lemma {:induction false} FinishExecutionTakes(t: Tables, c: Command)
    requires RowsSound(t) && WellFormed(c) && c.FinishExecution?
    ensures TakesEffect(t, c)
  {
    hide Commit, Stores, RowsSound, EventsFit, ValidEvent, CanInsertArtifact;
    assert t.Attempts(Execution) == t.executions;
    if Decide(t, c).Write? {
      DeltaStores(t, Decide(t, c).delta);
      KnownKeys(t, c.id);
      WorkflowSound(t, c.id);
      AttemptSound(t, Execution, c.attemptId);
      NextFits(t, c.id, c.artifact);
      if Commit(t, Decide(t, c).delta).Some? { StoresWorkflow(t, Decide(t, c).delta); }
    }
  }

  lemma {:induction false} EvidenceMeans(ev: TransportEvidence, id: Uuid, a: Attempt)
    ensures EvidenceFits(ev, id, a) <==> EvidenceOf(ev, id, a)
  {
  }

  lemma {:induction false} FinishLoadedTakes(t: Tables, c: Command)
    requires RowsSound(t) && WellFormed(c) && c.FinishTransport? && c.status == Staged
    ensures TakesEffect(t, c)
  {
    hide Commit, Stores, RowsSound, EventsFit, ValidEvent, CanInsertArtifact, EventList, EvidenceFits, EvidenceOf;
    assert t.Attempts(Transport) == t.transports;
    if c.loaded.Some? && c.attemptId in t.transports {
      EvidenceMeans(c.loaded.value, c.id, t.transports[c.attemptId]);
    }
    if Decide(t, c).Write? {
      DeltaStores(t, Decide(t, c).delta);
      KnownKeys(t, c.id);
      WorkflowSound(t, c.id);
      AttemptSound(t, Transport, c.attemptId);
      EventLists(c.storedEvent.value, c.moved);
      NextFits(t, c.id, c.stored.value);
      if Commit(t, Decide(t, c).delta).Some? { StoresWorkflow(t, Decide(t, c).delta); }
    }
  }

  lemma {:induction false} FinishFailedTakes(t: Tables, c: Command)
    requires RowsSound(t) && WellFormed(c) && c.FinishTransport? && c.status != Staged
    ensures TakesEffect(t, c)
  {
    hide Commit, Stores, RowsSound, EventsFit, ValidEvent, CanInsertArtifact, EventList, EvidenceFits, EvidenceOf;
    assert t.Attempts(Transport) == t.transports;
    if Decide(t, c).Write? {
      DeltaStores(t, Decide(t, c).delta);
      KnownKeys(t, c.id);
      WorkflowSound(t, c.id);
      AttemptSound(t, Transport, c.attemptId);
      EventLists(c.moved, c.moved);
      if Commit(t, Decide(t, c).delta).Some? { StoresWorkflow(t, Decide(t, c).delta); }
    }
  }

  lemma {:induction false} MillisecondsLast(from: Time, to: Time)
    ensures Milliseconds(from, to) >= 0
    ensures from <= to ==> Lasts(Some(Milliseconds(from, to)), from, to)
  {
  }

  lemma {:induction false} FinishReportedTakes(t: Tables, c: Command)
    requires RowsSound(t) && WellFormed(c) && c.FinishValidation? && c.hasReport
    ensures TakesEffect(t, c)
  {
    hide Commit, Stores, RowsSound, EventsFit, ValidEvent, CanInsertArtifact, EventList, Milliseconds, Lasts;
    assert t.Attempts(Validation) == t.validations;
    if Decide(t, c).Write? {
      DeltaStores(t, Decide(t, c).delta);
      KnownKeys(t, c.id);
      WorkflowSound(t, c.id);
      AttemptSound(t, Validation, c.attemptId);
      EventLists(c.storedEvent.value, c.moved);
      NextFits(t, c.id, c.stored.value);
      MillisecondsLast(t.validations[c.attemptId].runningAt.value, c.at);
      if Commit(t, Decide(t, c).delta).Some? { StoresWorkflow(t, Decide(t, c).delta); }
    }
  }

  lemma {:induction false} FinishUncertainTakes(t: Tables, c: Command)
    requires RowsSound(t) && WellFormed(c) && c.FinishValidation? && !c.hasReport
    ensures TakesEffect(t, c)
  {
    hide Commit, Stores, RowsSound, EventsFit, ValidEvent, CanInsertArtifact, EventList, Milliseconds, Lasts;
    assert t.Attempts(Validation) == t.validations;
    if Decide(t, c).Write? {
      DeltaStores(t, Decide(t, c).delta);
      KnownKeys(t, c.id);
      WorkflowSound(t, c.id);
      AttemptSound(t, Validation, c.attemptId);
      EventLists(c.moved, c.moved);
      MillisecondsLast(t.validations[c.attemptId].runningAt.value, c.at);
      if Commit(t, Decide(t, c).delta).Some? { StoresWorkflow(t, Decide(t, c).delta); }
    }
  }

  /**
   * A command changes the tables exactly when its arguments fit each other and the rows it finds, and
   * then it leaves exactly the rows and the reply that belong to it.
   */
  lemma {:induction false} CommandTakes(t: Tables, c: Command)
    requires Inv(t) && WellFormed(c)
    ensures Apply(t, c).0 != t <==> Takes(t, c)
    ensures Takes(t, c) ==> Leaves(t, c, Apply(t, c).0, Apply(t, c).1)
  {
    hide Inv, RowsSound, WellFormed, Apply, Takes, Leaves;
    InvSound(t);
    match c
    case CreateWorkflow(_, _, _, _) => CreateTakes(t, c);
    case TransitionStatus(_, _, _, _, _, _, _) => TransitionTakes(t, c);
    case AppendArtifact(_, _, _, _, _, _) => AppendTakes(t, c);
    case RecordOperation(_, _, _, _, _, _, _, _) => OperationTakes(t, c);
    case ClaimTransport(_, _, _, _, _, _) => ClaimTakes(t, c);
    case ClaimExecution(_, _, _, _, _, _) => ClaimTakes(t, c);
    case ClaimValidation(_, _, _, _, _, _, _, _) => ClaimRunTakes(t, c);
    case Mark(_, _, _) => MarkTakes(t, c);
    case FinishTransport(_, _, _, _, _, _, _, _, _, _) =>
      if c.status == Staged { FinishLoadedTakes(t, c); } else { FinishFailedTakes(t, c); }
    case FinishExecution(_, _, _, _, _, _, _, _) => FinishExecutionTakes(t, c);
    case FinishValidation(_, _, _, _, _, _, _, _, _, _) =>
      if c.hasReport { FinishReportedTakes(t, c); } else { FinishUncertainTakes(t, c); }
  }

  /** A claimed attempt of any kind can be started, by whoever asks first. */
  lemma {:induction false} ClaimedStarts(t: Tables, k: Kind, id: Uuid, at: Time)
    requires Inv(t) && id in t.Attempts(k) && t.Attempts(k)[id].status == Claimed && t.Attempts(k)[id].claimedAt <= at
    ensures var (u, r) := Apply(t, Mark(k, id, at));
            var row := t.Attempts(k)[id].(status := Running, runningAt := Some(at));
            && r == MarkReply(row, true)
            && u.Attempts(k) == t.Attempts(k)[id := row]
            && (forall j: Kind :: j != k ==> u.Attempts(j) == t.Attempts(j))
            && u.workflows == t.workflows && u.artifacts == t.artifacts && u.events == t.events && u.idem == t.idem
  {
    hide Inv, Apply, LogOf;
    CommandTakes(t, Mark(k, id, at));
    assert t.Attempts(k)[id].id == id by { InvKeyed(t); }
    assert t.events + [] == t.events;
  }

  // ---------------------------------------------------------------- what a refusal means

  /** The command names a workflow or an attempt that is not there. */
  predicate Absent(t: Tables, c: Command) {
    match c
    case CreateWorkflow(_, _, _, _) => false
    case Mark(k, id, _) => id !in t.Attempts(k)
    case FinishTransport(id, v, i, _, _, _, _, _, _, _) =>
      id !in t.workflows || (t.workflows[id].version == v && t.workflows[id].status == Staging && i !in t.transports)
    case FinishExecution(id, v, i, _, a, _, _, _) =>
      || id !in t.workflows
      || (t.workflows[id].version == v && t.workflows[id].status == Executing
          && a.version == t.workflows[id].latestArtifact + 1 && i !in t.executions)
    case FinishValidation(id, v, i, _, _, _, _, _, _, _) =>
      id !in t.workflows || (t.workflows[id].version == v && t.workflows[id].status == Validating && i !in t.validations)
    case _ => c.id !in t.workflows
  }

  /** The workflow is at the expected version but its status forbids the change. */
  predicate OutOfTurn(t: Tables, c: Command) {
    match c
    case TransitionStatus(id, v, s, _, _, _, _) => Finds(t, id, v) && t.workflows[id].status == s
    case ClaimTransport(id, v, _, _, _, _) => Finds(t, id, v) && t.workflows[id].status != MappingApproved
    case ClaimExecution(id, v, _, _, _, _) => Finds(t, id, v) && t.workflows[id].status != ExecutionReady
    case ClaimValidation(id, v, _, _, _, _, _, _) => Finds(t, id, v) && t.workflows[id].status != Executed
    case _ => false
  }

  /** Everything allows a claim but an attempt that is still open. */
  ghost predicate Busy(t: Tables, c: Command) {
    match c
    case ClaimTransport(id, v, _, _, _, _) =>
      Finds(t, id, v) && t.workflows[id].status == MappingApproved && !NoneOpen(t, Transport, id)
    case ClaimExecution(id, v, _, _, _, _) =>
      Finds(t, id, v) && t.workflows[id].status == ExecutionReady && !NoneOpen(t, Execution, id)
    case ClaimValidation(id, v, run, a, _, _, _, _) =>
      && Finds(t, id, v) && t.workflows[id].status == Executed && !NoneOpen(t, Validation, id)
      && a.version == t.workflows[id].latestArtifact + 1 && PreviewOf(run) == a.version
    case _ => false
  }

  ghost predicate Told(t: Tables, c: Command, r: Reply) {
    && (r == Refused(NotFound) <==> Absent(t, c))
    && (r == Refused(InvalidTransition) <==> OutOfTurn(t, c))
    && (r == Refused(AlreadyInProgress) <==> Busy(t, c))
    && r != Refused(IdempotencyConflict) && r != Refused(ArtifactInvalid)
  }

  lemma {:induction false} RequestTold(t: Tables, c: Command)
    requires ArgumentsOk(c) && Request(c).Some? && (Request(c).value.0, Request(c).value.1) !in t.idem
    ensures Told(t, c, Apply(t, c).1)
  {
    hide Commit, HasOpen, NoneOpen, ArtifactsAt;
    if ClaimTarget(c).Some? { OpenMeans(t, ClaimTarget(c).value.0, c.id); }
  }

  lemma {:induction false} ReportTold(t: Tables, c: Command)
    requires ArgumentsOk(c) && Request(c).None?
    ensures Told(t, c, Apply(t, c).1)
  {
    hide Commit, EvidenceFits;
  }

  /** What each refusal of a command that is not a replay tells its caller. */
  lemma {:induction false} RefusalMeans(t: Tables, c: Command)
    requires ArgumentsOk(c)
    requires Request(c).Some? ==> (Request(c).value.0, Request(c).value.1) !in t.idem
    ensures Apply(t, c).1 == Refused(NotFound) <==> Absent(t, c)
    ensures Apply(t, c).1 == Refused(InvalidTransition) <==> OutOfTurn(t, c)
    ensures Apply(t, c).1 == Refused(AlreadyInProgress) <==> Busy(t, c)
    ensures Apply(t, c).1 != Refused(IdempotencyConflict) && Apply(t, c).1 != Refused(ArtifactInvalid)
  {
    hide Apply, ArgumentsOk, Absent, OutOfTurn, Busy, Request;
    if Request(c).Some? { RequestTold(t, c); } else { ReportTold(t, c); }
  }

  /** Arguments that do not fit each other are refused before any table is read. */
  lemma {:induction false} UnfitRefused(t: Tables, c: Command)
    requires !ArgumentsOk(c)
    ensures Apply(t, c).0 == t
    ensures Apply(t, c).1 == Refused(if (c.AppendArtifact? || c.RecordOperation?) && c.artifact.workflow != c.id
                                     then ArtifactInvalid else PersistenceFailure)
  {
    hide Commit, HasOpen, ArtifactsAt, EvidenceFits;
  }
}
