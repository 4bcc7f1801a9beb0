/**
 * Consequences over whole runs that need nothing from the callers beyond well-formed records:
 * single claims, single starts, replays, key reuse and the optimistic version check.
 */
module ControlPlaneRuns {
  import opened Common
  import opened WorkflowModel
  import opened ControlPlane
  import opened ControlPlaneSafety

  lemma {:induction false} EmptyInv()
    ensures Inv(EmptyTables)
  {
    forall k: Kind ensures AttemptRowsOk(k, EmptyTables.Attempts(k), {}) && OneOpen(EmptyTables.Attempts(k)) {
    }
  }

  lemma {:induction false} RunSplit(t: Tables, a: seq<Command>, b: seq<Command>)
    ensures Run(t, a + b) == Run(Run(t, a), b)
    decreases |a|
  {
    hide Apply;
    if a == [] {
      assert a + b == b;
    } else {
      assert (a + b)[0] == a[0] && (a + b)[1..] == a[1..] + b;
      RunSplit(Apply(t, a[0]).0, a[1..], b);
    }
  }

  /** The tables that command `i` of a run finds, and its reply. */
  function Before(t: Tables, cs: seq<Command>, i: nat): Tables
    requires i <= |cs|
  {
    Run(t, cs[..i])
  }

  function ReplyAt(t: Tables, cs: seq<Command>, i: nat): Reply
    requires i < |cs|
  {
    Apply(Before(t, cs, i), cs[i]).1
  }

  /** Whatever a later command of the run finds may follow what an earlier one left. */
  lemma {:induction false} RunOrder(t: Tables, cs: seq<Command>, i: nat, j: nat)
    requires Inv(t) && AllWellFormed(cs) && i < j <= |cs|
    ensures Inv(Before(t, cs, i)) && Inv(Before(t, cs, j))
    ensures Later(Apply(Before(t, cs, i), cs[i]).0, Before(t, cs, j))
  {
    hide Inv, Later, WellFormed, Apply;
    RunKeeps(t, cs[..i]);
    RunKeeps(t, cs[..j]);
    var u := Before(t, cs, i);
    assert cs[..j] == cs[..i] + cs[i..j];
    RunSplit(t, cs[..i], cs[i..j]);
    assert cs[i..j][0] == cs[i] && cs[i..j][1..] == cs[i + 1..j];
    ApplyKeeps(u, cs[i]);
    RunKeeps(Apply(u, cs[i]).0, cs[i + 1..j]);
  }

  // ---------------------------------------------------------------- what a commit leaves

  lemma {:induction false} InsertEventsOnlyEvents(t: Tables, es: seq<Event>, version: int)
    requires InsertEvents(t, es, version).Some?
    ensures InsertEvents(t, es, version).value == t.(events := InsertEvents(t, es, version).value.events)
    decreases |es|
  {
    if es != [] {
      InsertEventsOnlyEvents(InsertEvent(t, es[0], version).value, es[1..], version);
    }
  }

  /** A commit leaves the tables of `Written`, except for the events and the receipt. */
  lemma {:induction false} CommitWritten(t: Tables, d: Delta) returns (events: seq<Event>)
    requires Commit(t, d).Some?
    ensures Commit(t, d).value == WithReceipt(Written(t, d).(events := events), d.receipt)
  {
    hide Written, Accepts, InsertEvents, WithReceipt;
    events := Written(t, d).events;
    if d.workflow.Some? {
      InsertEventsOnlyEvents(Written(t, d), d.events, d.workflow.value.version);
      events := InsertEvents(Written(t, d), d.events, d.workflow.value.version).value.events;
    }
  }

  lemma {:induction false} CommitWrites(t: Tables, d: Delta)
    requires Commit(t, d).Some?
    ensures var u := Commit(t, d).value;
            && u.workflows == WithWorkflow(t, d.workflow).workflows
            && u.artifacts == WithArtifact(t, d.artifact).artifacts
            && u.idem == WithReceipt(t, d.receipt).idem
            && u.Attempts(d.kind) == AttemptsAfter(t, d, d.kind)
  {
    hide Written, Commit, AttemptsAfter;
    var events := CommitWritten(t, d);
    WrittenFrame(t, d);
    WrittenAttempts(t, d, d.kind);
  }

  // ---------------------------------------------------------------- claims and starts

  lemma {:induction false} InvOneOpen(t: Tables, k: Kind)
    requires Inv(t)
    ensures OneOpen(t.Attempts(k)) && AttemptRowsOk(k, t.Attempts(k), t.workflows.Keys)
  {
  }

  /** Whatever the workers do: one open transport, one open execution, one validation run per workflow. */
  lemma {:induction false} SingleAttempts(cs: seq<Command>)
    requires AllWellFormed(cs)
    ensures var t := Run(EmptyTables, cs);
            && OneOpen(t.transports) && OneOpen(t.executions)
            && forall a, b ::
                 a in t.validations && b in t.validations && t.validations[a].workflow == t.validations[b].workflow
                 ==> a == b
  {
    hide Inv, Later, WellFormed, Run;
    EmptyInv();
    RunKeeps(EmptyTables, cs);
    var t := Run(EmptyTables, cs);
    InvOneOpen(t, Transport);
    InvOneOpen(t, Execution);
    InvOneOpen(t, Validation);
    assert t.transports == t.Attempts(Transport) && t.executions == t.Attempts(Execution);
    assert t.validations == t.Attempts(Validation);
    forall a | a in t.validations ensures IsOpen(t.validations[a].status) {
      assert ValidAttempt(Validation, t.validations[a]);
    }
  }

  lemma {:induction false} MarkChangesOnlyClaimed(t: Tables, k: Kind, id: Uuid, at: Time)
    requires Apply(t, Mark(k, id, at)).1.MarkReply? && Apply(t, Mark(k, id, at)).1.changed
    ensures id in t.Attempts(k) && t.Attempts(k)[id].status == Claimed
    ensures Keyed(t) ==> id in Apply(t, Mark(k, id, at)).0.Attempts(k)
    ensures Keyed(t) ==> Apply(t, Mark(k, id, at)).0.Attempts(k)[id].status == Running
  {
    hide Commit;
    CommitWrites(t, MarkRunning(t, k, id, at).delta);
  }

  /** Of all the workers that try to start an attempt, at most one is ever told to go ahead. */
  lemma {:induction false} StartedOnce(t: Tables, cs: seq<Command>, i: nat, j: nat)
    requires Inv(t) && AllWellFormed(cs) && i < j < |cs|
    requires cs[i].Mark? && cs[j].Mark? && cs[i].kind == cs[j].kind && cs[i].attemptId == cs[j].attemptId
    requires ReplyAt(t, cs, i).MarkReply? && ReplyAt(t, cs, i).changed
    ensures ReplyAt(t, cs, j).MarkReply? ==> !ReplyAt(t, cs, j).changed
  {
    hide Inv, WellFormed, Apply, Run;
    var k, id := cs[i].kind, cs[i].attemptId;
    RunOrder(t, cs, i, j);
    InvKeyed(Before(t, cs, i));
    MarkChangesOnlyClaimed(Before(t, cs, i), k, id, cs[i].at);
    var u := Apply(Before(t, cs, i), cs[i]).0;
    assert AttemptsLater(u.Attempts(k), Before(t, cs, j).Attempts(k));
    if ReplyAt(t, cs, j).MarkReply? && ReplyAt(t, cs, j).changed {
      MarkChangesOnlyClaimed(Before(t, cs, j), k, id, cs[j].at);
    }
  }

  /** The attempt kind and workflow a claim command asks for. */
  function ClaimTarget(c: Command): Option<(Kind, Uuid)> {
    match c
    case ClaimTransport(id, _, _, _, _, _) => Some((Transport, id))
    case ClaimExecution(id, _, _, _, _, _) => Some((Execution, id))
    case ClaimValidation(id, _, _, _, _, _, _, _) => Some((Validation, id))
    case _ => None
  }

  /** The reply hands out a new claim. */
  predicate NewClaim(r: Reply) {
    (r.ClaimReply? && r.isNew) || (r.RunReply? && r.isNew)
  }

  lemma {:induction false} NewClaimNeedsNoOpen(t: Tables, c: Command, k: Kind, w: Uuid)
    requires ClaimTarget(c) == Some((k, w)) && NewClaim(Apply(t, c).1)
    ensures !HasOpen(t, k, w)
  {
    hide HasOpen, Commit, ArtifactsAt;
  }

  /** Once an attempt has succeeded or ended uncertain, no further attempt of its kind is ever claimed. */
  lemma {:induction false} NoClaimAfterOpenEnd(t: Tables, cs: seq<Command>, i: nat, j: nat, k: Kind, id: Uuid)
    requires Inv(t) && AllWellFormed(cs) && i < j < |cs|
    requires id in Before(t, cs, i).Attempts(k)
    requires Before(t, cs, i).Attempts(k)[id].status in {Succeeded, ReviewRequired, OutcomeUncertain}
    requires ClaimTarget(cs[j]) == Some((k, Before(t, cs, i).Attempts(k)[id].workflow))
    ensures !NewClaim(ReplyAt(t, cs, j))
  {
    hide Inv, WellFormed, Apply, Run;
    RunOrder(t, cs, i, j);
    var was := Before(t, cs, i);
    assert WellFormed(cs[i]);
    ApplyKeeps(was, cs[i]);
    var u := Apply(was, cs[i]).0;
    var now := Before(t, cs, j);
    assert AttemptsLater(was.Attempts(k), u.Attempts(k)) && AttemptsLater(u.Attempts(k), now.Attempts(k));
    if NewClaim(ReplyAt(t, cs, j)) {
      assert IsOpen(now.Attempts(k)[id].status);
      NewClaimNeedsNoOpen(now, cs[j], k, was.Attempts(k)[id].workflow);
    }
  }

  // ---------------------------------------------------------------- replays

  /** Scope, key and hash of the commands that carry an idempotency key. */
  function Request(c: Command): Option<(Scope, string, string)> {
    match c
    case CreateWorkflow(_, _, key, hash) => Some((CreateScope, key, hash))
    case TransitionStatus(id, _, _, _, _, key, hash) => Some((StatusScope(id), key, hash))
    case AppendArtifact(id, _, _, _, key, hash) => Some((ArtifactScope(id), key, hash))
    case RecordOperation(id, _, a, _, _, _, key, hash) => Some((OperationScope(id, a.kind), key, hash))
    case ClaimTransport(id, _, _, _, key, hash) => Some((AttemptScope(id, Transport), key, hash))
    case ClaimExecution(id, _, _, _, key, hash) => Some((AttemptScope(id, Execution), key, hash))
    case ClaimValidation(id, _, _, _, _, _, key, hash) => Some((AttemptScope(id, Validation), key, hash))
    case _ => None
  }

  /** The checks a command makes on its own arguments, before it looks at any table. */
  predicate ArgumentsOk(c: Command) {
    match c
    case CreateWorkflow(w, e, _, _) => e.workflow == w.id
    case TransitionStatus(id, _, _, e, _, _, _) => e.workflow == id
    case AppendArtifact(id, _, a, e, _, _) =>
      a.workflow == id && e.workflow == id && e.artifact == Some(a.id) && e.artifactKind == Some(a.kind)
    case RecordOperation(id, _, a, e, s, te, _, _) =>
      && a.workflow == id && e.workflow == id && e.artifact == Some(a.id) && e.artifactKind == Some(a.kind)
      && s.None? == te.None? && (te.Some? ==> te.value.workflow == id)
    case ClaimTransport(id, _, a, e, _, _) =>
      && a.workflow == id && a.status == Claimed && e.workflow == id
      && e.previous == Some(MappingApproved) && e.next == Some(Staging)
    case ClaimExecution(id, _, a, e, _, _) =>
      && a.workflow == id && a.status == Claimed && e.workflow == id
      && e.previous == Some(ExecutionReady) && e.next == Some(Executing)
    case ClaimValidation(id, _, run, a, ae, te, _, _) =>
      && run.workflow == id && run.status == Claimed && a.workflow == id && a.kind == ValidationPreview
      && ae.artifact == Some(a.id) && te.previous == Some(Executed) && te.next == Some(Validating)
    case Mark(_, _, _) => true
    case FinishTransport(id, _, _, ev, a, ae, s, te, _, f) =>
      && ev.None? == a.None? && ae.None? == a.None?
      && StagingOutcome(ev, a, s, f).Some?
      && te.workflow == id && te.previous == Some(Staging) && te.next == Some(s)
      && (a.Some? ==> a.value.workflow == id && ae.value.artifact == Some(a.value.id))
    case FinishExecution(id, _, i, ev, a, ae, _, te) =>
      && ev.attempt == i && ev.workflow == id && a.workflow == id && a.kind == ArtifactType.ExecutionEvidence
      && ae.artifact == Some(a.id) && te.workflow == id
    case FinishValidation(id, _, _, rep, a, ae, _, _, _, _) =>
      && a.None? == !rep && ae.None? == a.None?
      && (a.Some? ==> a.value.workflow == id && a.value.kind == ValidationExecutionReport
                      && ae.value.artifact == Some(a.value.id))
  }

  /** The command writes its rows in these tables. */
  predicate Commits(t: Tables, c: Command) {
    Decide(t, c).Write? && Commit(t, Decide(t, c).delta).Some?
  }

  /** The row a command's receipt refers to. */
  function Reference(c: Command): Uuid
    requires Request(c).Some?
  {
    match c
    case CreateWorkflow(w, _, _, _) => w.id
    case TransitionStatus(id, _, _, _, _, _, _) => id
    case AppendArtifact(_, _, a, _, _, _) => a.id
    case RecordOperation(_, _, a, _, _, _, _, _) => a.id
    case ClaimTransport(_, _, a, _, _, _) => a.id
    case ClaimExecution(_, _, a, _, _, _) => a.id
    case ClaimValidation(_, _, a, _, _, _, _, _) => a.id
  }

  function ScopeWorkflow(c: Command): Uuid
    requires Request(c).Some?
  {
    if c.CreateWorkflow? then c.workflow.id else c.id
  }

  /** The receipt, the artifact and the attempt of a committed command are still there. */
  ghost predicate StillThere(c: Command, u: Tables)
    requires Request(c).Some?
  {
    var r := Request(c).value;
    && (r.0, r.1) in u.idem && u.idem[(r.0, r.1)] == Receipt(r.2, ScopeWorkflow(c), Reference(c))
    && ScopeWorkflow(c) in u.workflows
    && (c.CreateWorkflow? ==> u.workflows[c.workflow.id].header == c.workflow.header)
    && (c.AppendArtifact? || c.RecordOperation? || c.ClaimValidation? ==>
          c.artifact.id in u.artifacts && u.artifacts[c.artifact.id] == c.artifact)
    && (c.ClaimValidation? ==> c.artifact.workflow == c.id && PreviewOf(c.attempt) == c.artifact.version)
    && (ClaimTarget(c).Some? ==>
          && c.attempt.id in u.Attempts(ClaimTarget(c).value.0)
          && Continues(c.attempt, u.Attempts(ClaimTarget(c).value.0)[c.attempt.id]))
  }

  /** What the delta of a keyed command holds. */
  lemma {:induction false} DeltaOf(t: Tables, c: Command)
    requires Keyed(t) && Decide(t, c).Write? && Request(c).Some?
    ensures var d := Decide(t, c).delta;
            var r := Request(c).value;
            && d.receipt == Some(((r.0, r.1), Receipt(r.2, ScopeWorkflow(c), Reference(c))))
            && d.workflow.Some? && d.workflow.value.id == ScopeWorkflow(c)
            && (c.CreateWorkflow? ==> d.workflow.value == c.workflow)
            && (c.AppendArtifact? || c.RecordOperation? || c.ClaimValidation? ==> d.artifact == Some(c.artifact))
            && (c.ClaimValidation? ==> c.artifact.workflow == c.id && PreviewOf(c.attempt) == c.artifact.version)
            && (ClaimTarget(c).Some? ==> d.kind == ClaimTarget(c).value.0 && d.claimed == Some(c.attempt) && d.moved.None?)
  {
    hide HasOpen, ArtifactsAt;
  }

  lemma {:induction false} CommitLeaves(t: Tables, c: Command)
    requires Keyed(t) && Commits(t, c) && Request(c).Some?
    ensures StillThere(c, Apply(t, c).0)
  {
    hide Decide, Commit, Keyed;
    DeltaOf(t, c);
    CommitWrites(t, Decide(t, c).delta);
    ContinuesReflexive();
  }

  lemma {:induction false} StaysThere(c: Command, s: Tables, u: Tables)
    requires Request(c).Some? && StillThere(c, s) && Later(s, u)
    ensures StillThere(c, u)
  {
    hide Progress;
    if ClaimTarget(c).Some? {
      var k := ClaimTarget(c).value.0;
      assert AttemptsLater(s.Attempts(k), u.Attempts(k));
    }
  }

  /** The answer refers to the row the first command wrote: the same artifact, or the same attempt further on. */
  ghost predicate Refers(first: Command, r: Reply) {
    match first
    case CreateWorkflow(w, _, _, _) => r.WorkflowReply? && r.workflow.id == w.id && r.workflow.header == w.header
    case TransitionStatus(id, _, _, _, _, _, _) => r.WorkflowReply? && r.workflow.id == id
    case AppendArtifact(id, _, a, _, _, _) => r.ArtifactReply? && r.workflow.id == id && r.artifact == a
    case RecordOperation(id, _, a, _, _, _, _, _) => r.ArtifactReply? && r.workflow.id == id && r.artifact == a
    case ClaimTransport(id, _, a, _, _, _) => r.ClaimReply? && !r.isNew && r.workflow.id == id && Continues(a, r.attempt)
    case ClaimExecution(id, _, a, _, _, _) => r.ClaimReply? && !r.isNew && r.workflow.id == id && Continues(a, r.attempt)
    case ClaimValidation(id, _, run, a, _, _, _, _) =>
      r.RunReply? && !r.isNew && r.workflow.id == id && Continues(run, r.attempt) && r.preview == {a}
    case _ => true
  }

  /** A known key makes a command answer from the receipt. */
  lemma {:induction false} KnownKey(u: Tables, again: Command)
    requires Request(again).Some? && ArgumentsOk(again)
    requires (Request(again).value.0, Request(again).value.1) in u.idem
    ensures Apply(u, again).0 == u
    ensures u.idem[(Request(again).value.0, Request(again).value.1)].hash != Request(again).value.2 ==>
              Apply(u, again).1 == Refused(IdempotencyConflict)
  {
    hide HasOpen, ArtifactsAt, Commit;
  }

  lemma {:induction false} PreviewIsOne(u: Tables, a: Artifact)
    requires VersionsUnique(u.artifacts) && a.id in u.artifacts && u.artifacts[a.id] == a
    ensures ArtifactsAt(u, a.workflow, a.version) == {a}
  {
    assert a in ArtifactsAt(u, a.workflow, a.version);
  }

  lemma {:induction false} ReplayAnswers(u: Tables, first: Command, again: Command)
    requires Keyed(u) && VersionsUnique(u.artifacts)
    requires Request(first).Some? && StillThere(first, u)
    requires Request(again) == Request(first) && ArgumentsOk(again)
    ensures Refers(first, Decide(u, again).reply) && Decide(u, again).Answer?
  {
    hide HasOpen, ArtifactsAt, Continues, Keyed, VersionsUnique;
    KeyedWorkflow(u, ScopeWorkflow(first));
    if first.ClaimValidation? {
      PreviewIsOne(u, first.artifact);
      PreviewContinues(first.attempt, u.validations[first.attempt.id]);
      assert u.Attempts(Validation) == u.validations;
    }
  }

  lemma {:induction false} KeyedWorkflow(u: Tables, w: Uuid)
    requires Keyed(u) && w in u.workflows
    ensures u.workflows[w].id == w
  {
  }

  lemma {:induction false} PreviewContinues(a: Attempt, b: Attempt)
    requires Continues(a, b)
    ensures PreviewOf(b) == PreviewOf(a)
  {
  }

  lemma {:induction false} InvUnique(t: Tables)
    requires Inv(t)
    ensures VersionsUnique(t.artifacts)
  {
  }

  lemma {:induction false} FirstStays(t: Tables, first: Command, between: seq<Command>)
    requires Inv(t) && WellFormed(first) && AllWellFormed(between)
    requires Commits(t, first) && Request(first).Some?
    ensures var u := Run(Apply(t, first).0, between); Inv(u) && StillThere(first, u)
  {
    hide Inv, Later, WellFormed, Commits, Apply, Run, StillThere;
    var s := Apply(t, first).0;
    ApplyKeeps(t, first);
    RunKeeps(s, between);
    InvKeyed(t);
    CommitLeaves(t, first);
    StaysThere(first, s, Run(s, between));
  }

  /**
   * Replaying a command with the same scope, key and hash, after any run of other commands, changes
   * no table and answers with what the first command wrote. The replay's other arguments do not matter.
   */
  lemma {:induction false} Replay(t: Tables, first: Command, between: seq<Command>, again: Command)
    requires Inv(t) && WellFormed(first) && AllWellFormed(between)
    requires Commits(t, first) && Request(first).Some?
    requires Request(again) == Request(first) && ArgumentsOk(again)
    ensures var u := Run(Apply(t, first).0, between);
            Apply(u, again).0 == u && Refers(first, Apply(u, again).1)
  {
    hide Inv, WellFormed, Commits, Decide, Run, Refers, ArgumentsOk, StillThere;
    var u := Run(Apply(t, first).0, between);
    FirstStays(t, first, between);
    InvKeyed(u);
    InvUnique(u);
    ReplayAnswers(u, first, again);
  }

  /** The same key with another hash is refused for ever. */
  lemma {:induction false} KeyReuse(t: Tables, first: Command, between: seq<Command>, other: Command)
    requires Inv(t) && WellFormed(first) && AllWellFormed(between)
    requires Commits(t, first) && Request(first).Some?
    requires Request(other).Some? && ArgumentsOk(other)
    requires Request(other).value.0 == Request(first).value.0 && Request(other).value.1 == Request(first).value.1
    requires Request(other).value.2 != Request(first).value.2
    ensures var u := Run(Apply(t, first).0, between);
            Apply(u, other) == (u, Refused(IdempotencyConflict))
  {
    hide Inv, WellFormed, Commits, Decide, Apply, Run, ArgumentsOk;
    FirstStays(t, first, between);
    KnownKey(Run(Apply(t, first).0, between), other);
  }

  // ---------------------------------------------------------------- optimistic versions

  /** The workflow a command changes and the version it expects to find. */
  function Expects(c: Command): Option<(Uuid, int)> {
    match c
    case CreateWorkflow(_, _, _, _) => None
    case Mark(_, _, _) => None
    case _ => Some((c.id, c.expected))
  }

  lemma {:induction false} CommitNeedsVersion(t: Tables, c: Command)
    requires Expects(c).Some? && Decide(t, c).Write?
    ensures c.id in t.workflows && t.workflows[c.id].version == c.expected
    ensures Decide(t, c).delta.workflow.Some? && Decide(t, c).delta.workflow.value.version == c.expected + 1
    ensures Decide(t, c).delta.workflow.value.id == t.workflows[c.id].id
  {
    hide HasOpen, ArtifactsAt, StagingOutcome, EvidenceFits;
  }

  /** A command whose expected version has gone by is refused as a conflict unless it is a replay. */
  lemma {:induction false} StaleConflicts(t: Tables, c: Command)
    requires Expects(c).Some? && ArgumentsOk(c)
    requires c.id in t.workflows && t.workflows[c.id].version != c.expected
    requires Request(c).Some? ==> (Request(c).value.0, Request(c).value.1) !in t.idem
    ensures Apply(t, c) == (t, Refused(VersionConflict))
  {
    hide HasOpen, ArtifactsAt, EvidenceFits, Commit;
  }

  /** Of two commands that expect the same version of a workflow, at most one commits, whatever runs between them. */
  lemma {:induction false} OneCommitPerVersion(t: Tables, first: Command, between: seq<Command>, second: Command)
    requires Inv(t) && WellFormed(first) && AllWellFormed(between)
    requires Commits(t, first) && Expects(first).Some? && Expects(second) == Expects(first)
    ensures var u := Run(Apply(t, first).0, between);
            && !Commits(u, second) && Apply(u, second).0 == u
            && (ArgumentsOk(second)
                && (Request(second).Some? ==> (Request(second).value.0, Request(second).value.1) !in u.idem)
                ==> Apply(u, second).1 == Refused(VersionConflict))
  {
    hide Inv, WellFormed, Decide, Run, ArgumentsOk, Commit;
    var s := Apply(t, first).0;
    var u := Run(s, between);
    ApplyKeeps(t, first);
    RunKeeps(s, between);
    CommitNeedsVersion(t, first);
    InvKeyed(t);
    KeyedWorkflow(t, first.id);
    CommitWrites(t, Decide(t, first).delta);
    assert u.workflows[first.id].version > first.expected by { LaterVersion(s, u, first.id); }
    if Decide(u, second).Write? {
      CommitNeedsVersion(u, second);
    } else if ArgumentsOk(second)
              && (Request(second).Some? ==> (Request(second).value.0, Request(second).value.1) !in u.idem) {
      StaleConflicts(u, second);
    }
  }

  lemma {:induction false} LaterVersion(t: Tables, u: Tables, w: Uuid)
    requires Later(t, u) && w in t.workflows
    ensures w in u.workflows && t.workflows[w].version <= u.workflows[w].version
  {
  }
}
