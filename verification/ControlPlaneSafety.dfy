/**
 * What every transaction keeps, and what follows over every run: any number of workers,
 * in any interleaving, any of them stopping at any point between two transactions.
 */
module ControlPlaneSafety {
  import opened Common
  import opened WorkflowModel
  import opened ControlPlane

  // ---------------------------------------------------------------- the invariant

  ghost predicate AttemptRowsOk(kind: Kind, rows: map<Uuid, Attempt>, workflows: set<Uuid>) {
    forall i :: i in rows ==> rows[i].id == i && ValidAttempt(kind, rows[i]) && rows[i].workflow in workflows
  }

  ghost predicate WorkflowRowsOk(t: Tables) {
    forall w :: w in t.workflows ==> t.workflows[w].id == w && ValidWorkflow(t.workflows[w])
  }

  ghost predicate ArtifactRowsOk(t: Tables) {
    forall a :: a in t.artifacts ==>
      && t.artifacts[a].id == a && ValidArtifact(t.artifacts[a])
      && t.artifacts[a].workflow in t.workflows
      && t.artifacts[a].version <= t.workflows[t.artifacts[a].workflow].latestArtifact
  }

  /** No two artifacts of a workflow share a version. */
  ghost predicate VersionsUnique(rows: map<Uuid, Artifact>) {
    forall a, b :: a in rows && b in rows && rows[a].workflow == rows[b].workflow && rows[a].version == rows[b].version
                   ==> a == b
  }

  /** At most one attempt per workflow is outside its confirmed-failed status. */
  ghost predicate OneOpen(rows: map<Uuid, Attempt>) {
    forall a, b ::
      && a in rows && b in rows && rows[a].workflow == rows[b].workflow
      && IsOpen(rows[a].status) && IsOpen(rows[b].status)
      ==> a == b
  }

  /** Each validation run's preview is stored under the version the run is bound to. */
  ghost predicate PreviewsStored(t: Tables) {
    forall i :: i in t.validations ==> ArtifactsAt(t, t.validations[i].workflow, PreviewOf(t.validations[i])) != {}
  }

  /** A workflow's events are numbered 1, 2, 3, … in the order in which they were stored. */
  ghost predicate NumberedLog(events: seq<Event>, w: Uuid) {
    forall i :: 0 <= i < |LogOf(events, w)| ==> LogOf(events, w)[i].sequence == i + 1
  }

  ghost predicate LogsOk(t: Tables) {
    && (forall w :: NumberedLog(t.events, w))
    && (forall i :: 0 <= i < |t.events| ==> t.events[i].workflow in t.workflows)
    && (forall i, j :: 0 <= i < j < |t.events| ==> t.events[i].id != t.events[j].id)
  }

  /** A receipt names rows that exist and belong to the workflow of its scope. */
  ghost predicate ReceiptFits(t: Tables, s: Scope, r: Receipt) {
    match s
    case CreateScope => r.workflow in t.workflows
    case StatusScope(w) => w in t.workflows
    case ArtifactScope(w) => w in t.workflows && r.result in t.artifacts && t.artifacts[r.result].workflow == w
    case OperationScope(w, _) => w in t.workflows && r.result in t.artifacts && t.artifacts[r.result].workflow == w
    case AttemptScope(w, k) =>
      w in t.workflows && r.result in t.Attempts(k) && t.Attempts(k)[r.result].workflow == w
  }

  ghost predicate ReceiptsOk(t: Tables) {
    forall k :: k in t.idem ==> ReceiptFits(t, k.0, t.idem[k])
  }

  /** What holds of each of the three attempt tables. */
  ghost predicate AttemptsOk(t: Tables) {
    forall k: Kind :: AttemptRowsOk(k, t.Attempts(k), t.workflows.Keys) && OneOpen(t.Attempts(k))
  }

  ghost predicate Inv(t: Tables) {
    && WorkflowRowsOk(t) && ArtifactRowsOk(t) && VersionsUnique(t.artifacts) && AttemptsOk(t)
    && PreviewsStored(t) && LogsOk(t) && ReceiptsOk(t)
  }

  // ---------------------------------------------------------------- what only grows

  /** How far an attempt has come. */
  function Progress(s: AttemptStatus): nat {
    match s
    case Claimed => 0
    case Running => 1
    case _ => 2
  }

  /** `b` is the same attempt as `a`, at the same point of its life or a later one. */
  ghost predicate Continues(a: Attempt, b: Attempt) {
    && a.id == b.id && a.workflow == b.workflow && a.binding == b.binding && a.claimedAt == b.claimedAt
    && (a == b || Progress(a.status) < Progress(b.status))
  }

  ghost predicate AttemptsLater(rows: map<Uuid, Attempt>, later: map<Uuid, Attempt>) {
    forall i :: i in rows ==> i in later && Continues(rows[i], later[i])
  }

  ghost predicate WorkflowsLater(t: Tables, u: Tables) {
    forall w :: w in t.workflows ==>
      && w in u.workflows
      && t.workflows[w].version <= u.workflows[w].version
      && t.workflows[w].latestArtifact <= u.workflows[w].latestArtifact
      && t.workflows[w].header == u.workflows[w].header && t.workflows[w].createdAt == u.workflows[w].createdAt
  }

  ghost predicate ArtifactsLater(t: Tables, u: Tables) {
    forall a :: a in t.artifacts ==> a in u.artifacts && u.artifacts[a] == t.artifacts[a]
  }

  ghost predicate ReceiptsLater(t: Tables, u: Tables) {
    forall k :: k in t.idem ==> k in u.idem && u.idem[k] == t.idem[k]
  }

  /** `u` may follow `t`: history is kept, versions do not go back, attempts only move forward. */
  ghost predicate Later(t: Tables, u: Tables) {
    && WorkflowsLater(t, u) && ArtifactsLater(t, u) && t.events <= u.events && ReceiptsLater(t, u)
    && forall k: Kind :: AttemptsLater(t.Attempts(k), u.Attempts(k))
  }

  lemma {:induction false} ContinuesReflexive()
    ensures forall a :: Continues(a, a)
  {
  }

  lemma {:induction false} AttemptsLaterTransitive(a: map<Uuid, Attempt>, b: map<Uuid, Attempt>, c: map<Uuid, Attempt>)
    requires AttemptsLater(a, b) && AttemptsLater(b, c)
    ensures AttemptsLater(a, c)
  {
  }

  lemma {:induction false} LaterTransitive(t: Tables, u: Tables, v: Tables)
    requires Later(t, u) && Later(u, v)
    ensures Later(t, v)
  {
    hide AttemptsLater;
    forall k: Kind ensures AttemptsLater(t.Attempts(k), v.Attempts(k)) {
      AttemptsLaterTransitive(t.Attempts(k), u.Attempts(k), v.Attempts(k));
    }
  }

  // ---------------------------------------------------------------- event rows

  lemma {:induction false} LogConcat(a: seq<Event>, b: seq<Event>, w: Uuid)
    ensures LogOf(a + b, w) == LogOf(a, w) + LogOf(b, w)
  {
    if b == [] {
      assert a + b == a;
    } else {
      var init := b[..|b| - 1];
      assert (a + b)[..|a + b| - 1] == a + init;
      LogConcat(a, init, w);
    }
  }

  lemma {:induction false} MaxOfNumbered(events: seq<Event>, w: Uuid)
    requires NumberedLog(events, w)
    ensures MaxSequence(events, w) == |LogOf(events, w)|
  {
    if events != [] {
      var init := events[..|events| - 1];
      assert LogOf(init, w) <= LogOf(events, w);
      forall i | 0 <= i < |LogOf(init, w)| ensures LogOf(init, w)[i].sequence == i + 1 {
        assert LogOf(init, w)[i] == LogOf(events, w)[i];
      }
      MaxOfNumbered(init, w);
      if events[|events| - 1].workflow == w {
        assert LogOf(events, w)[|LogOf(events, w)| - 1] == events[|events| - 1];
      }
    }
  }

  /** `added` are the rows stored for `es`: same events, stamped with one workflow version. */
  ghost predicate Stamped(t: Tables, es: seq<Event>, version: int, added: seq<Event>) {
    && |added| == |es|
    && forall i :: 0 <= i < |es| ==>
         && added[i] == es[i].(sequence := added[i].sequence, version := version)
         && es[i].workflow in t.workflows
         && ArtifactOf(t, es[i].artifact, es[i].workflow)
  }

  lemma {:induction false} LogAppend(events: seq<Event>, row: Event, w: Uuid)
    ensures LogOf(events + [row], w) == LogOf(events, w) + (if row.workflow == w then [row] else [])
  {
    assert (events + [row])[..|events|] == events;
  }

  lemma {:induction false} InsertEventKeepsLogs(t: Tables, e: Event, version: int)
    requires LogsOk(t) && InsertEvent(t, e, version).Some?
    ensures InsertEvent(t, e, version).value == t.(events := t.events + [StampedRow(t, e, version)])
    ensures LogsOk(InsertEvent(t, e, version).value)
  {
    var row := StampedRow(t, e, version);
    forall w ensures NumberedLog(t.events + [row], w) {
      assert NumberedLog(t.events, w);
      LogAppend(t.events, row, w);
      MaxOfNumbered(t.events, w);
    }
  }

  lemma {:induction false} InsertEventsShape(t: Tables, es: seq<Event>, version: int) returns (added: seq<Event>)
    requires LogsOk(t) && InsertEvents(t, es, version).Some?
    ensures InsertEvents(t, es, version).value == t.(events := t.events + added)
    ensures Stamped(t, es, version, added)
    ensures LogsOk(InsertEvents(t, es, version).value)
    decreases |es|
  {
    hide LogsOk;
    if es == [] {
      added := [];
      assert t.events + added == t.events;
    } else {
      InsertEventKeepsLogs(t, es[0], version);
      var t1 := InsertEvent(t, es[0], version).value;
      var rest := InsertEventsShape(t1, es[1..], version);
      added := [StampedRow(t, es[0], version)] + rest;
      assert t1.events + rest == t.events + added;
      forall i | 0 <= i < |es|
        ensures added[i] == es[i].(sequence := added[i].sequence, version := version)
        ensures es[i].workflow in t.workflows && ArtifactOf(t, es[i].artifact, es[i].workflow)
      {
        if i > 0 { assert added[i] == rest[i - 1] && es[i] == es[1..][i - 1]; }
      }
    }
  }

  // ---------------------------------------------------------------- one commit

  lemma {:induction false} LogsOkFrame(t: Tables, u: Tables)
    requires LogsOk(t) && u.events == t.events && t.workflows.Keys <= u.workflows.Keys
    ensures LogsOk(u)
  {
  }

  /** The tables a commit leaves: the rows of the delta, its stamped events and its receipt. */
  ghost predicate Committed(t: Tables, d: Delta, u: Tables, added: seq<Event>) {
    && Accepts(t, d)
    && u == WithReceipt(Written(t, d).(events := t.events + added), d.receipt)
    && (d.workflow.None? ==> added == [])
    && (d.workflow.Some? ==> Stamped(Written(t, d), d.events, d.workflow.value.version, added))
  }

  /** The attempt rows of each kind once the delta is written. */
  function AttemptsAfter(t: Tables, d: Delta, k: Kind): map<Uuid, Attempt> {
    if k == d.kind then Upsert(Upsert(t.Attempts(k), d.claimed), d.moved) else t.Attempts(k)
  }

  lemma {:induction false} WithAttemptsAt(t: Tables, kind: Kind, rows: map<Uuid, Attempt>, k: Kind)
    ensures t.WithAttempts(kind, rows).Attempts(k) == if k == kind then rows else t.Attempts(k)
  {
  }

  lemma {:induction false} WrittenAttempts(t: Tables, d: Delta, k: Kind)
    ensures Written(t, d).Attempts(k) == AttemptsAfter(t, d, k)
  {
    hide Upsert;
    WithAttemptsAt(WithArtifact(t, d.artifact), d.kind, Upsert(Upsert(t.Attempts(d.kind), d.claimed), d.moved), k);
  }

  lemma {:induction false} WithAttemptsFrame(t: Tables, kind: Kind, rows: map<Uuid, Attempt>)
    ensures var u := t.WithAttempts(kind, rows);
            u.workflows == t.workflows && u.artifacts == t.artifacts && u.events == t.events && u.idem == t.idem
  {
  }

  lemma {:induction false} WithWorkflowFrame(t: Tables, w: Option<Workflow>)
    ensures var u := WithWorkflow(t, w);
            && u.artifacts == t.artifacts && u.events == t.events && u.idem == t.idem
            && u.transports == t.transports && u.executions == t.executions && u.validations == t.validations
            && t.workflows.Keys <= u.workflows.Keys
  {
  }

  lemma {:induction false} WithArtifactFrame(t: Tables, a: Option<Artifact>)
    ensures var u := WithArtifact(t, a);
            && u.workflows == t.workflows && u.events == t.events && u.idem == t.idem
            && u.transports == t.transports && u.executions == t.executions && u.validations == t.validations
  {
  }

  lemma {:induction false} WrittenFrame(t: Tables, d: Delta)
    ensures Written(t, d).events == t.events && Written(t, d).idem == t.idem
    ensures Written(t, d).workflows == WithWorkflow(t, d.workflow).workflows
    ensures Written(t, d).artifacts == WithArtifact(t, d.artifact).artifacts
    ensures t.workflows.Keys <= Written(t, d).workflows.Keys
  {
    hide Upsert, WithArtifact, Tables.WithAttempts;
    var t1 := WithArtifact(t, d.artifact);
    var rows := Upsert(Upsert(t.Attempts(d.kind), d.claimed), d.moved);
    WithArtifactFrame(t, d.artifact);
    WithAttemptsFrame(t1, d.kind, rows);
    WithWorkflowFrame(t1.WithAttempts(d.kind, rows), d.workflow);
  }

  lemma {:induction false} ReceiptFrame(t: Tables, r: Option<((Scope, string), Receipt)>)
    requires LogsOk(t)
    ensures LogsOk(WithReceipt(t, r))
  {
  }

  lemma {:induction false} CommitShape(t: Tables, d: Delta) returns (added: seq<Event>)
    requires LogsOk(t) && Commit(t, d).Some?
    ensures Committed(t, d, Commit(t, d).value, added)
    ensures LogsOk(Commit(t, d).value)
  {
    hide LogsOk, Accepts, InsertEvents, Stamped, Written, WithReceipt;
    WrittenFrame(t, d);
    LogsOkFrame(t, Written(t, d));
    added := [];
    if d.workflow.Some? {
      added := InsertEventsShape(Written(t, d), d.events, d.workflow.value.version);
    }
    assert t.events + [] == t.events;
    ReceiptFrame(Written(t, d).(events := t.events + added), d.receipt);
  }

  /** What a command has checked about the workflow row it writes. */
  ghost predicate SoundWorkflow(t: Tables, d: Delta) {
    && (d.workflow.None? ==> d.artifact.None? && d.claimed.None? && d.receipt.None?)
    && (d.workflow.Some? && d.workflow.value.id !in t.workflows ==>
          d.artifact.None? && d.claimed.None? && d.moved.None?)
    && (d.workflow.Some? && d.workflow.value.id in t.workflows ==>
          var w := d.workflow.value;
          var was := t.workflows[w.id];
          && w.version == was.version + 1 && w.header == was.header && w.createdAt == was.createdAt
          && w.latestArtifact == (if d.artifact.Some? then was.latestArtifact + 1 else was.latestArtifact))
  }

  ghost predicate SoundArtifact(d: Delta) {
    d.artifact.Some? ==>
      && d.workflow.Some? && d.artifact.value.workflow == d.workflow.value.id && ValidArtifact(d.artifact.value)
      && d.artifact.value.version == d.workflow.value.latestArtifact
  }

  ghost predicate SoundClaim(t: Tables, d: Delta) {
    d.claimed.Some? ==>
      && d.workflow.Some? && d.moved.None? && d.claimed.value.workflow == d.workflow.value.id
      && ValidAttempt(d.kind, d.claimed.value) && d.claimed.value.status == Claimed
      && !HasOpen(t, d.kind, d.workflow.value.id)
      && (d.kind == Validation ==> d.artifact.Some? && d.artifact.value.version == PreviewOf(d.claimed.value))
  }

  ghost predicate SoundMove(t: Tables, d: Delta) {
    d.moved.Some? ==>
      && d.moved.value.id in t.Attempts(d.kind)
      && Continues(t.Attempts(d.kind)[d.moved.value.id], d.moved.value)
      && IsOpen(t.Attempts(d.kind)[d.moved.value.id].status)
  }

  /** The receipt is new and names the row the transaction writes. */
  ghost predicate SoundReceipt(t: Tables, d: Delta) {
    d.receipt.Some? ==>
      && d.workflow.Some?
      && d.receipt.value.0 !in t.idem
      && match d.receipt.value.0.0
         case CreateScope => d.receipt.value.1.workflow == d.workflow.value.id
         case StatusScope(w) => w == d.workflow.value.id
         case ArtifactScope(w) =>
           w == d.workflow.value.id && d.artifact.Some? && d.receipt.value.1.result == d.artifact.value.id
         case OperationScope(w, _) =>
           w == d.workflow.value.id && d.artifact.Some? && d.receipt.value.1.result == d.artifact.value.id
         case AttemptScope(w, k) =>
           && w == d.workflow.value.id && d.claimed.Some? && k == d.kind
           && d.receipt.value.1.result == d.claimed.value.id
  }

  ghost predicate Sound(t: Tables, d: Delta) {
    SoundWorkflow(t, d) && SoundArtifact(d) && SoundClaim(t, d) && SoundMove(t, d) && SoundReceipt(t, d)
  }

  /** Row keys agree with the rows, as far as a decision reads them. */
  ghost predicate Keyed(t: Tables) {
    && (forall w :: w in t.workflows ==> t.workflows[w].id == w)
    && forall k: Kind, i :: i in t.Attempts(k) ==> t.Attempts(k)[i].id == i
  }

  lemma {:induction false} InvLogs(t: Tables)
    requires Inv(t)
    ensures LogsOk(t)
  {
  }

  lemma {:induction false} LaterReflexive(t: Tables)
    ensures Later(t, t)
  {
    hide Progress;
  }

  lemma {:induction false} InvKeyed(t: Tables)
    requires Inv(t)
    ensures Keyed(t)
  {
    hide ValidAttempt, ValidWorkflow, OneOpen, ArtifactRowsOk, VersionsUnique, PreviewsStored, LogsOk, ReceiptsOk;
    forall k: Kind, i | i in t.Attempts(k) ensures t.Attempts(k)[i].id == i {
      assert AttemptRowsOk(k, t.Attempts(k), t.workflows.Keys);
    }
  }

  lemma {:induction false} CreateSound(t: Tables, w: Workflow, e: Event, key: string, hash: string)
    requires Create(t, w, e, key, hash).Write?
    ensures Sound(t, Create(t, w, e, key, hash).delta)
  {
  }

  lemma {:induction false} TransitionSound(
    t: Tables, id: Uuid, v: int, s: Status, e: Event, err: Option<string>, key: string, hash: string)
    requires Keyed(t) && Transition(t, id, v, s, e, err, key, hash).Write?
    ensures Sound(t, Transition(t, id, v, s, e, err, key, hash).delta)
  {
  }

  lemma {:induction false} RecordSound(
    t: Tables, scope: Scope, id: Uuid, v: int, a: Artifact, ae: Event, s: Option<Status>, te: Option<Event>,
    key: string, hash: string)
    requires Keyed(t) && ValidArtifact(a) && scope in {ArtifactScope(id), OperationScope(id, a.kind)}
    requires Record(t, scope, id, v, a, ae, s, te, key, hash).Write?
    ensures Sound(t, Record(t, scope, id, v, a, ae, s, te, key, hash).delta)
  {
    hide ValidArtifact;
  }

  lemma {:induction false} ClaimSound(t: Tables, k: Kind, id: Uuid, v: int, a: Attempt, e: Event, key: string, hash: string)
    requires Keyed(t) && k != Validation && ValidAttempt(k, a) && Claim(t, k, id, v, a, e, key, hash).Write?
    ensures Sound(t, Claim(t, k, id, v, a, e, key, hash).delta)
  {
    hide ValidAttempt, HasOpen;
  }

  lemma {:induction false} ClaimRunSound(
    t: Tables, id: Uuid, v: int, run: Attempt, a: Artifact, ae: Event, te: Event, key: string, hash: string)
    requires Keyed(t) && ValidAttempt(Validation, run) && ValidArtifact(a)
    requires ClaimRun(t, id, v, run, a, ae, te, key, hash).Write?
    ensures Sound(t, ClaimRun(t, id, v, run, a, ae, te, key, hash).delta)
  {
    hide ValidAttempt, ValidArtifact, HasOpen, ArtifactsAt;
  }

  lemma {:induction false} MarkSound(t: Tables, k: Kind, id: Uuid, at: Time)
    requires Keyed(t) && MarkRunning(t, k, id, at).Write?
    ensures Sound(t, MarkRunning(t, k, id, at).delta)
  {
  }

  lemma {:induction false} CompleteTransportSound(
    t: Tables, id: Uuid, v: int, i: Uuid, ev: Option<TransportEvidence>, a: Option<Artifact>, ae: Option<Event>,
    s: Status, te: Event, at: Time, f: Option<string>)
    requires Keyed(t) && (a.Some? ==> ValidArtifact(a.value))
    requires CompleteTransport(t, id, v, i, ev, a, ae, s, te, at, f).Write?
    ensures Sound(t, CompleteTransport(t, id, v, i, ev, a, ae, s, te, at, f).delta)
  {
    hide ValidArtifact, EvidenceFits;
    assert t.transports == t.Attempts(Transport);
  }

  lemma {:induction false} CompleteExecutionSound(
    t: Tables, id: Uuid, v: int, i: Uuid, ev: ExecutionEvidence, a: Artifact, ae: Event, s: Status, te: Event)
    requires Keyed(t) && ValidArtifact(a) && ValidExecutionEvidence(ev)
    requires CompleteExecution(t, id, v, i, ev, a, ae, s, te).Write?
    ensures Sound(t, CompleteExecution(t, id, v, i, ev, a, ae, s, te).delta)
  {
    hide ValidArtifact;
    assert t.executions == t.Attempts(Execution);
  }

  lemma {:induction false} CompleteRunSound(
    t: Tables, id: Uuid, v: int, i: Uuid, rep: bool, a: Option<Artifact>, ae: Option<Event>,
    s: Status, te: Event, at: Time, f: Option<string>)
    requires Keyed(t) && (a.Some? ==> ValidArtifact(a.value))
    requires CompleteRun(t, id, v, i, rep, a, ae, s, te, at, f).Write?
    ensures Sound(t, CompleteRun(t, id, v, i, rep, a, ae, s, te, at, f).delta)
  {
    hide ValidArtifact, Milliseconds;
    assert t.validations == t.Attempts(Validation);
  }

  lemma {:induction false} DecideSound(t: Tables, c: Command)
    requires Keyed(t) && WellFormed(c) && Decide(t, c).Write?
    ensures Sound(t, Decide(t, c).delta)
  {
    hide Keyed, Sound, ValidAttempt, ValidArtifact, ValidEvent, ValidWorkflow, ValidExecutionEvidence,
         Create, Transition, Record, Claim, ClaimRun, MarkRunning, CompleteTransport, CompleteExecution, CompleteRun;
    match c
    case CreateWorkflow(w, e, key, hash) => CreateSound(t, w, e, key, hash);
    case TransitionStatus(id, v, s, e, err, key, hash) => TransitionSound(t, id, v, s, e, err, key, hash);
    case AppendArtifact(id, v, a, e, key, hash) =>
      RecordSound(t, ArtifactScope(id), id, v, a, e, None, None, key, hash);
    case RecordOperation(id, v, a, e, s, te, key, hash) =>
      RecordSound(t, OperationScope(id, a.kind), id, v, a, e, s, te, key, hash);
    case ClaimTransport(id, v, a, e, key, hash) => ClaimSound(t, Transport, id, v, a, e, key, hash);
    case ClaimExecution(id, v, a, e, key, hash) => ClaimSound(t, Execution, id, v, a, e, key, hash);
    case ClaimValidation(id, v, a, art, ae, te, key, hash) => ClaimRunSound(t, id, v, a, art, ae, te, key, hash);
    case Mark(kind, id, at) => MarkSound(t, kind, id, at);
    case FinishTransport(id, v, i, ev, a, ae, s, te, time, f) =>
      CompleteTransportSound(t, id, v, i, ev, a, ae, s, te, time, f);
    case FinishExecution(id, v, i, ev, a, ae, s, te) => CompleteExecutionSound(t, id, v, i, ev, a, ae, s, te);
    case FinishValidation(id, v, i, rep, a, ae, s, te, time, f) =>
      CompleteRunSound(t, id, v, i, rep, a, ae, s, te, time, f);
  }

  // ---------------------------------------------------------------- what a commit keeps

  /** Where each table of `u` comes from. */
  ghost predicate Sourced(t: Tables, d: Delta, u: Tables, added: seq<Event>) {
    && u.workflows == WithWorkflow(t, d.workflow).workflows
    && u.artifacts == WithArtifact(t, d.artifact).artifacts
    && (forall k: Kind :: u.Attempts(k) == AttemptsAfter(t, d, k))
    && u.events == t.events + added
    && u.idem == WithReceipt(t, d.receipt).idem
  }

  lemma {:induction false} CommittedFields(t: Tables, d: Delta, u: Tables, added: seq<Event>)
    requires Committed(t, d, u, added)
    ensures Sourced(t, d, u, added)
  {
    hide Accepts, Written, Stamped, AttemptsAfter;
    WrittenFrame(t, d);
    forall k: Kind ensures u.Attempts(k) == AttemptsAfter(t, d, k) {
      WrittenAttempts(t, d, k);
    }
  }

  lemma {:induction false} CommitWorkflows(t: Tables, d: Delta, u: Tables)
    requires WorkflowRowsOk(t) && SoundWorkflow(t, d) && Accepts(t, d)
    requires u.workflows == WithWorkflow(t, d.workflow).workflows
    ensures WorkflowRowsOk(u) && WorkflowsLater(t, u) && t.workflows.Keys <= u.workflows.Keys
  {
    hide ValidWorkflow, CanInsertArtifact, CanInsertAttempt, CanUpdateAttempt;
  }

  lemma {:induction false} CommitVersions(t: Tables, a: Option<Artifact>)
    requires VersionsUnique(t.artifacts) && (a.Some? ==> CanInsertArtifact(t, a.value))
    ensures VersionsUnique(WithArtifact(t, a).artifacts)
  {
  }

  lemma {:induction false} CommitArtifacts(t: Tables, d: Delta, u: Tables)
    requires ArtifactRowsOk(t) && WorkflowsLater(t, u) && SoundArtifact(d)
    requires d.artifact.Some? ==> CanInsertArtifact(t, d.artifact.value)
    requires d.workflow.Some? ==>
               d.workflow.value.id in u.workflows && u.workflows[d.workflow.value.id] == d.workflow.value
    requires u.artifacts == WithArtifact(t, d.artifact).artifacts
    ensures ArtifactRowsOk(u) && ArtifactsLater(t, u)
  {
    hide ValidArtifact;
  }

  /** A claim adds a row only where no open one exists. */
  lemma {:induction false} ClaimKeepsRows(kind: Kind, rows: map<Uuid, Attempt>, known: set<Uuid>, a: Attempt)
    requires AttemptRowsOk(kind, rows, known) && OneOpen(rows)
    requires a.id !in rows && ValidAttempt(kind, a) && a.workflow in known
    requires forall i :: i in rows && rows[i].workflow == a.workflow ==> !IsOpen(rows[i].status)
    ensures AttemptRowsOk(kind, rows[a.id := a], known) && OneOpen(rows[a.id := a])
    ensures AttemptsLater(rows, rows[a.id := a])
  {
    hide ValidAttempt, Progress;
  }

  /** Moving an open row forward keeps it the only open one. */
  lemma {:induction false} MoveKeepsRows(kind: Kind, rows: map<Uuid, Attempt>, known: set<Uuid>, a: Attempt)
    requires AttemptRowsOk(kind, rows, known) && OneOpen(rows)
    requires a.id in rows && ValidAttempt(kind, a) && Continues(rows[a.id], a) && IsOpen(rows[a.id].status)
    ensures AttemptRowsOk(kind, rows[a.id := a], known) && OneOpen(rows[a.id := a])
    ensures AttemptsLater(rows, rows[a.id := a])
  {
    hide ValidAttempt, Progress;
  }

  lemma {:induction false} MoreWorkflows(kind: Kind, rows: map<Uuid, Attempt>, known: set<Uuid>, more: set<Uuid>)
    requires AttemptRowsOk(kind, rows, known) && known <= more
    ensures AttemptRowsOk(kind, rows, more)
  {
    hide ValidAttempt;
  }

  lemma {:induction false} CommitAttempts(t: Tables, d: Delta, u: Tables, k: Kind)
    requires AttemptRowsOk(k, t.Attempts(k), t.workflows.Keys) && OneOpen(t.Attempts(k))
    requires t.workflows.Keys <= u.workflows.Keys
    requires SoundClaim(t, d) && SoundMove(t, d)
    requires Accepts(t, d)
    requires u.Attempts(k) == AttemptsAfter(t, d, k)
    ensures AttemptRowsOk(k, u.Attempts(k), u.workflows.Keys) && OneOpen(u.Attempts(k))
    ensures AttemptsLater(t.Attempts(k), u.Attempts(k))
  {
    hide ValidAttempt, AttemptRowsOk, OneOpen, Continues, ValidWorkflow, CanInsertArtifact, ArtifactOf;
    if k == d.kind && d.claimed.Some? {
      ClaimKeepsRows(k, t.Attempts(k), t.workflows.Keys, d.claimed.value);
    } else if k == d.kind && d.moved.Some? {
      MoveKeepsRows(k, t.Attempts(k), t.workflows.Keys, d.moved.value);
    } else {
      assert forall i :: i in t.Attempts(k) ==> Continues(t.Attempts(k)[i], t.Attempts(k)[i]) by {
        ContinuesReflexive();
      }
    }
    MoreWorkflows(k, u.Attempts(k), t.workflows.Keys, u.workflows.Keys);
  }

  /** A receipt that fits still fits later. */
  lemma {:induction false} ReceiptStays(t: Tables, u: Tables, s: Scope, r: Receipt)
    requires ReceiptFits(t, s, r)
    requires WorkflowsLater(t, u) && ArtifactsLater(t, u) && forall k: Kind :: AttemptsLater(t.Attempts(k), u.Attempts(k))
    ensures ReceiptFits(u, s, r)
  {
    hide Progress;
    if s.AttemptScope? { assert AttemptsLater(t.Attempts(s.operation), u.Attempts(s.operation)); }
  }

  /** The receipt a transaction writes fits the rows it writes. */
  lemma {:induction false} ReceiptWritten(t: Tables, d: Delta, u: Tables)
    requires d.receipt.Some? && SoundReceipt(t, d) && SoundArtifact(d) && SoundClaim(t, d)
    requires u.workflows == WithWorkflow(t, d.workflow).workflows
    requires u.artifacts == WithArtifact(t, d.artifact).artifacts
    requires u.Attempts(d.kind) == AttemptsAfter(t, d, d.kind)
    ensures ReceiptFits(u, d.receipt.value.0.0, d.receipt.value.1)
  {
    hide ValidAttempt, ValidArtifact, HasOpen;
  }

  lemma {:induction false} CommitReceipts(t: Tables, d: Delta, u: Tables)
    requires ReceiptsOk(t) && SoundReceipt(t, d)
    requires WorkflowsLater(t, u) && ArtifactsLater(t, u) && forall k: Kind :: AttemptsLater(t.Attempts(k), u.Attempts(k))
    requires d.receipt.Some? ==> ReceiptFits(u, d.receipt.value.0.0, d.receipt.value.1)
    requires u.idem == WithReceipt(t, d.receipt).idem
    ensures ReceiptsOk(u) && ReceiptsLater(t, u)
  {
    hide ReceiptFits, WorkflowsLater, ArtifactsLater, AttemptsLater;
    forall k | k in u.idem ensures ReceiptFits(u, k.0, u.idem[k]) {
      if d.receipt.None? || k != d.receipt.value.0 {
        ReceiptStays(t, u, k.0, t.idem[k]);
      }
    }
  }

  lemma {:induction false} StoredAt(t: Tables, a: Artifact)
    requires a.id in t.artifacts && t.artifacts[a.id] == a
    ensures a in ArtifactsAt(t, a.workflow, a.version)
  {
  }

  /** A preview that is stored stays stored. */
  lemma {:induction false} PreviewStays(t: Tables, u: Tables, w: Uuid, version: int)
    requires ArtifactsLater(t, u) && ArtifactsAt(t, w, version) != {}
    ensures ArtifactsAt(u, w, version) != {}
  {
    var a :| a in t.artifacts && t.artifacts[a].workflow == w && t.artifacts[a].version == version;
    assert u.artifacts[a] in ArtifactsAt(u, w, version);
  }

  lemma {:induction false} CommitPreviews(t: Tables, d: Delta, u: Tables)
    requires PreviewsStored(t) && ArtifactsLater(t, u)
    requires SoundArtifact(d) && SoundClaim(t, d) && SoundMove(t, d)
    requires u.artifacts == WithArtifact(t, d.artifact).artifacts
    requires u.validations == AttemptsAfter(t, d, Validation)
    ensures PreviewsStored(u)
  {
    hide ValidAttempt, ValidArtifact, HasOpen, Progress, ArtifactsAt, ArtifactsLater;
    assert t.Attempts(Validation) == t.validations;
    if d.claimed.Some? && d.kind == Validation {
      var a := d.artifact.value;
      assert ArtifactsAt(u, a.workflow, a.version) != {} by { StoredAt(u, a); }
    }
    forall i | i in u.validations
      ensures ArtifactsAt(u, u.validations[i].workflow, PreviewOf(u.validations[i])) != {}
    {
      if i in t.validations && !(d.claimed.Some? && d.kind == Validation && i == d.claimed.value.id) {
        PreviewStays(t, u, t.validations[i].workflow, PreviewOf(t.validations[i]));
      }
    }
  }

  lemma {:induction false} AcceptedArtifact(t: Tables, d: Delta)
    requires Accepts(t, d)
    ensures d.artifact.Some? ==> CanInsertArtifact(t, d.artifact.value)
  {
  }

  lemma {:induction false} CommitAllAttempts(t: Tables, d: Delta, u: Tables)
    requires AttemptsOk(t) && SoundClaim(t, d) && SoundMove(t, d) && Accepts(t, d)
    requires t.workflows.Keys <= u.workflows.Keys
    requires forall k: Kind :: u.Attempts(k) == AttemptsAfter(t, d, k)
    ensures AttemptsOk(u) && forall k: Kind :: AttemptsLater(t.Attempts(k), u.Attempts(k))
  {
    hide AttemptRowsOk, OneOpen, AttemptsLater, AttemptsAfter, SoundClaim, SoundMove, Accepts;
    forall k: Kind
      ensures AttemptRowsOk(k, u.Attempts(k), u.workflows.Keys) && OneOpen(u.Attempts(k))
      ensures AttemptsLater(t.Attempts(k), u.Attempts(k))
    {
      CommitAttempts(t, d, u, k);
    }
  }

  lemma {:induction false} CommitKeeps(t: Tables, d: Delta, u: Tables, added: seq<Event>)
    requires Inv(t) && Sound(t, d) && Sourced(t, d, u, added) && Accepts(t, d) && LogsOk(u)
    ensures Inv(u) && Later(t, u)
  {
    hide WorkflowRowsOk, ArtifactRowsOk, VersionsUnique, AttemptsOk, PreviewsStored, LogsOk, ReceiptsOk,
         WorkflowsLater, ArtifactsLater, ReceiptsLater, AttemptsLater, Accepts, AttemptsAfter,
         WithArtifact, WithReceipt, ReceiptFits, SoundWorkflow, SoundArtifact, SoundClaim, SoundMove, SoundReceipt;
    CommitWorkflows(t, d, u);
    AcceptedArtifact(t, d);
    CommitArtifacts(t, d, u);
    CommitVersions(t, d.artifact);
    CommitAllAttempts(t, d, u);
    assert u.validations == u.Attempts(Validation);
    CommitPreviews(t, d, u);
    if d.receipt.Some? { ReceiptWritten(t, d, u); }
    CommitReceipts(t, d, u);
  }

  /** Every transaction keeps the invariant and loses nothing that was recorded. */
  lemma {:induction false} ApplyKeeps(t: Tables, c: Command)
    requires Inv(t) && WellFormed(c)
    ensures Inv(Apply(t, c).0) && Later(t, Apply(t, c).0)
  {
    hide Inv, WellFormed, Decide, Commit, Sound;
    LaterReflexive(t);
    match Decide(t, c)
    case Answer(_) =>
    case Write(d, _) =>
      if Commit(t, d).Some? {
        InvKeyed(t);
        DecideSound(t, c);
        var added := CommitShape(t, d) by { InvLogs(t); }
        CommittedFields(t, d, Commit(t, d).value, added);
        CommitKeeps(t, d, Commit(t, d).value, added);
      }
  }

  /** The same over a whole run. */
  lemma {:induction false} RunKeeps(t: Tables, cs: seq<Command>)
    requires Inv(t) && AllWellFormed(cs)
    ensures Inv(Run(t, cs)) && Later(t, Run(t, cs))
    decreases |cs|
  {
    hide Inv, Later, WellFormed, Apply;
    if cs == [] {
      LaterReflexive(t);
    } else {
      var u := Apply(t, cs[0]).0;
      ApplyKeeps(t, cs[0]);
      RunKeeps(u, cs[1..]);
      LaterTransitive(t, u, Run(t, cs));
    }
  }
}
