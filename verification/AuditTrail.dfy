/**
 * What a reader of the control plane may conclude from its state: from a workflow's status about its
 * attempts, from its audit log about its whole past, and from the status graph about every run.
 */
module AuditTrail {
  import opened Common
  import opened WorkflowModel
  import opened ControlPlane
  import opened ControlPlaneSafety
  import opened ControlPlaneRuns
  import opened ControlPlaneLifecycle
  import opened ControlPlaneReachable

  // ---------------------------------------------------------------- status and attempts

  /** Exactly one attempt of workflow `w` is claimed or running. */
  ghost predicate ExactlyOneActive(rows: map<Uuid, Attempt>, w: Uuid) {
    exists i ::
      && i in rows && rows[i].workflow == w && rows[i].status in ActiveStatuses
      && forall j :: j in rows && rows[j].workflow == w && rows[j].status in ActiveStatuses ==> j == i
  }

  lemma {:induction false} ReachablePhase(t: Tables, k: Kind, w: Uuid)
    requires Reachable(t) && w in t.workflows
    ensures PhaseOk(k, t.workflows[w].status, t.Attempts(k), w) && OneOpen(t.Attempts(k))
  {
    InvOneOpen(t, k);
    hide Inv, StoriesOk, RetriesOk, VersionsComplete;
  }

  lemma {:induction false} ActiveIsOne(rows: map<Uuid, Attempt>, w: Uuid)
    requires OneOpen(rows)
    ensures Has(rows, w, ActiveStatuses) <==> ExactlyOneActive(rows, w)
  {
    if Has(rows, w, ActiveStatuses) {
      var i :| i in rows && rows[i].workflow == w && rows[i].status in ActiveStatuses;
      forall j | j in rows && rows[j].workflow == w && rows[j].status in ActiveStatuses ensures j == i {
        assert IsOpen(rows[i].status) && IsOpen(rows[j].status);
      }
    }
  }

  /**
   * In every state of every honest run a workflow is staging, executing or validating exactly when one
   * attempt of that kind is claimed or running, and the status shows how earlier attempts ended.
   */
  lemma {:induction false} StatusTellsAttempts(cs: seq<Command>, w: Uuid)
    requires HonestRun(EmptyTables, cs) && w in Run(EmptyTables, cs).workflows
    ensures var t := Run(EmptyTables, cs);
            var s := t.workflows[w].status;
            && (forall k: Kind :: s == ActiveStatus(k) <==> ExactlyOneActive(t.Attempts(k), w))
            && (s == Staged ==> Has(t.transports, w, {Succeeded}))
            && (s == MappingApproved ==>
                  forall i :: i in t.transports && t.transports[i].workflow == w ==> t.transports[i].status == ConfirmedFailed)
            && (s == ExecutionReady ==>
                  forall i :: i in t.executions && t.executions[i].workflow == w ==> t.executions[i].status == ConfirmedFailed)
            && (s in {Executed, ValidationReady, Validating, Validated} ==> Has(t.executions, w, {Succeeded}))
            && (s == Validated ==> Has(t.validations, w, {Succeeded}))
            && (forall k: Kind :: s == RecoveryStatus(k) ==> Has(t.Attempts(k), w, {OutcomeUncertain}))
  {
    hide Reachable, Apply;
    EmptyReachable();
    HonestRunReaches(EmptyTables, cs);
    var t := Run(EmptyTables, cs);
    var s := t.workflows[w].status;
    forall k: Kind
      ensures s == ActiveStatus(k) <==> ExactlyOneActive(t.Attempts(k), w)
      ensures s == RecoveryStatus(k) ==> Has(t.Attempts(k), w, {OutcomeUncertain})
      ensures s in BeforeKind(k) ==>
                forall i :: i in t.Attempts(k) && t.Attempts(k)[i].workflow == w ==> t.Attempts(k)[i].status == ConfirmedFailed
      ensures s in AfterKind(k) ==> Has(t.Attempts(k), w, {Succeeded})
    {
      PhaseReading(t, k, w);
    }
    assert t.Attempts(Transport) == t.transports && t.Attempts(Execution) == t.executions;
    assert t.Attempts(Validation) == t.validations;
  }

  lemma {:induction false} PhaseReading(t: Tables, k: Kind, w: Uuid)
    requires Reachable(t) && w in t.workflows
    ensures var s := t.workflows[w].status;
            && (s == ActiveStatus(k) <==> ExactlyOneActive(t.Attempts(k), w))
            && (s == RecoveryStatus(k) ==> Has(t.Attempts(k), w, {OutcomeUncertain}))
            && (s in BeforeKind(k) ==>
                  forall i :: i in t.Attempts(k) && t.Attempts(k)[i].workflow == w ==> t.Attempts(k)[i].status == ConfirmedFailed)
            && (s in AfterKind(k) ==> Has(t.Attempts(k), w, {Succeeded}))
  {
    hide Reachable;
    ReachablePhase(t, k, w);
    ActiveIsOne(t.Attempts(k), w);
    hide ExactlyOneActive, OneOpen;
  }

  /** Every way back to where a claim started is accounted for by exactly one confirmed failure. */
  lemma {:induction false} RetriesMatchFailures(cs: seq<Command>, w: Uuid, k: Kind)
    requires HonestRun(EmptyTables, cs) && w in Run(EmptyTables, cs).workflows
    ensures var t := Run(EmptyTables, cs);
            |ConfirmedFailures(t.Attempts(k), w)| == Retries(LogOf(t.events, w), k)
  {
    EmptyReachable();
    HonestRunReaches(EmptyTables, cs);
    hide Inv, StoriesOk, VersionsComplete, ConfirmedFailures, Retries, LogOf, Apply, PhasesOk;
  }

  /** A claim that satisfies the database: unused ids and a time not before the workflow's creation. */
  predicate ClaimFits(t: Tables, k: Kind, w: Workflow, a: Attempt, e: Event) {
    && a.id !in t.Attempts(k) && a.claimedAt >= w.createdAt
    && forall i :: 0 <= i < |t.events| ==> t.events[i].id != e.id
  }

  /** After a confirmed failure, and before any attempt, a new claim is granted to whoever asks first. */
  lemma {:induction false} RetryClaimable(t: Tables, c: Command)
    requires Reachable(t) && WellFormed(c) && ArgumentsOk(c) && (c.ClaimTransport? || c.ClaimExecution?)
    requires c.id in t.workflows && t.workflows[c.id].status == ReadyStatus(ClaimTarget(c).value.0)
    requires c.expected == t.workflows[c.id].version
    requires (Request(c).value.0, Request(c).value.1) !in t.idem
    requires ClaimFits(t, ClaimTarget(c).value.0, t.workflows[c.id], c.attempt, c.event)
    ensures NewClaim(Apply(t, c).1) && Apply(t, c).1.attempt == c.attempt
    ensures c.id in Apply(t, c).0.workflows
    ensures Apply(t, c).0.workflows[c.id].status == ActiveStatus(ClaimTarget(c).value.0)
  {
    hide Reachable;
    var k := ClaimTarget(c).value.0;
    ReachablePhase(t, k, c.id);
    OpenIsHad(t, k, c.id);
    assert !HasOpen(t, k, c.id) by { hide HasOpen, Has; }
    ReachableWorkflow(t, c.id);
    ClaimGranted(t, c);
  }

  lemma {:induction false} OpenIsHad(t: Tables, k: Kind, w: Uuid)
    ensures HasOpen(t, k, w) ==> Has(t.Attempts(k), w, OpenStatuses)
  {
  }

  lemma {:induction false} ReachableWorkflow(t: Tables, w: Uuid)
    requires Reachable(t) && w in t.workflows
    ensures ValidWorkflow(t.workflows[w]) && t.workflows[w].id == w
  {
    assert Inv(t);
    hide PhasesOk, StoriesOk, RetriesOk, VersionsComplete;
  }

  lemma {:induction false} ClaimGranted(t: Tables, c: Command)
    requires WellFormed(c) && ArgumentsOk(c) && (c.ClaimTransport? || c.ClaimExecution?)
    requires var k := ClaimTarget(c).value.0;
             && c.id in t.workflows && t.workflows[c.id].status == ReadyStatus(k)
             && c.expected == t.workflows[c.id].version && !HasOpen(t, k, c.id)
             && ClaimFits(t, k, t.workflows[c.id], c.attempt, c.event)
    requires ValidWorkflow(t.workflows[c.id]) && t.workflows[c.id].id == c.id
    requires (Request(c).value.0, Request(c).value.1) !in t.idem
    ensures NewClaim(Apply(t, c).1) && Apply(t, c).1.attempt == c.attempt
    ensures c.id in Apply(t, c).0.workflows
    ensures Apply(t, c).0.workflows[c.id].status == ActiveStatus(ClaimTarget(c).value.0)
  {
    hide HasOpen;
    var d := Decide(t, c).delta;
    WrittenFrame(t, d);
    ClaimCommits(t, d, c);
    CommitWrites(t, d);
    hide Commit;
  }

  lemma {:induction false} ClaimCommits(t: Tables, d: Delta, c: Command)
    requires d.workflow.Some? && d.artifact.None? && d.moved.None? && d.claimed.Some?
    requires d.workflow.value.id in t.workflows && ValidWorkflow(d.workflow.value)
    requires CanInsertAttempt(t, d.kind, d.claimed.value)
    requires |d.events| == 1 && d.events[0].workflow == d.workflow.value.id && d.events[0].artifact.None?
    requires forall i :: 0 <= i < |t.events| ==> t.events[i].id != d.events[0].id
    ensures Commit(t, d).Some?
  {
    hide ValidWorkflow, CanInsertAttempt, Written;
    WrittenFrame(t, d);
    var w := Written(t, d);
    var first := InsertEvent(w, d.events[0], d.workflow.value.version);
    assert first.Some?;
    assert d.events[1..] == [] && InsertEvents(first.value, [], d.workflow.value.version).Some?;
  }

  // ---------------------------------------------------------------- the log

  lemma {:induction false} ReachableStory(t: Tables, w: Uuid)
    requires Reachable(t) && w in t.workflows
    ensures Story(LogOf(t.events, w), t.workflows[w].status, t.workflows[w].version) && NumberedLog(t.events, w)
    ensures forall k: Kind :: |ConfirmedFailures(t.Attempts(k), w)| == Retries(LogOf(t.events, w), k)
  {
    InvLogs(t);
    hide Inv, PhasesOk, VersionsComplete, Story, NumberedLog;
  }

  /** What a story says, event by event. */
  ghost predicate HasVersion(log: seq<Event>, v: int) {
    exists i :: 0 <= i < |log| && log[i].version == v
  }

  lemma {:induction false} StoryReading(log: seq<Event>, s: Status, version: int)
    requires Story(log, s, version)
    ensures version >= 1 && log[0].version == 1 && log[0].previous.None? && log[0].next == Some(Draft)
    ensures forall i :: 0 <= i < |log| ==> log[i].next.Some? && 1 <= log[i].version <= version
    ensures forall i :: 0 < i < |log| ==>
              && log[i].previous.Some? && log[i].previous == log[i - 1].next && Legal(log[i].previous.value, log[i].next.value)
              && log[i - 1].version <= log[i].version <= log[i - 1].version + 1
    ensures log[|log| - 1].next == Some(s) && log[|log| - 1].version == version
    decreases |log|
  {
    if |log| > 1 {
      var init := log[..|log| - 1];
      var e := log[|log| - 1];
      var v := if Story(init, e.previous.value, version) then version else version - 1;
      StoryReading(init, e.previous.value, v);
      forall i | 0 < i < |log|
        ensures log[i].previous.Some? && log[i].previous == log[i - 1].next && Legal(log[i].previous.value, log[i].next.value)
        ensures log[i - 1].version <= log[i].version <= log[i - 1].version + 1
      {
        assert i < |init| ==> init[i] == log[i];
        assert init[i - 1] == log[i - 1];
      }
      forall i | 0 <= i < |log| ensures log[i].next.Some? && 1 <= log[i].version <= version {
        assert i < |init| ==> init[i] == log[i];
      }
    }
  }

  /** Versions that start at one and grow by at most one leave none out. */
  lemma {:induction false} VersionsCovered(log: seq<Event>, v: int)
    requires log != [] && log[0].version == 1
    requires forall i :: 0 < i < |log| ==> log[i].version <= log[i - 1].version + 1
    requires 1 <= v <= log[|log| - 1].version
    ensures HasVersion(log, v)
    decreases |log|
  {
    if log[|log| - 1].version != v {
      VersionsCovered(log[..|log| - 1], v);
      var i :| 0 <= i < |log| - 1 && log[..|log| - 1][i].version == v;
      assert log[i].version == v;
    }
  }

  /**
   * In every state of every honest run a workflow's events are numbered 1..n, each event starts where
   * the one before it ended along the status graph, the versions are nondecreasing and cover
   * 1..version, and the last event gives the current status.
   */
  lemma {:induction false} LogTellsHistory(cs: seq<Command>, w: Uuid)
    requires HonestRun(EmptyTables, cs) && w in Run(EmptyTables, cs).workflows
    ensures var t := Run(EmptyTables, cs);
            var log := LogOf(t.events, w);
            && log != [] && log[0].previous.None?
            && (forall i :: 0 <= i < |log| ==> log[i].sequence == i + 1 && log[i].next.Some?)
            && (forall i :: 0 < i < |log| ==>
                  && log[i].previous.Some? && log[i].previous == log[i - 1].next && Legal(log[i].previous.value, log[i].next.value)
                  && log[i - 1].version <= log[i].version)
            && (forall v :: 1 <= v <= t.workflows[w].version <==> HasVersion(log, v))
            && log[|log| - 1].next == Some(t.workflows[w].status)
  {
    hide Reachable, Apply;
    EmptyReachable();
    HonestRunReaches(EmptyTables, cs);
    var t := Run(EmptyTables, cs);
    var log := LogOf(t.events, w);
    ReachableStory(t, w);
    StoryReading(log, t.workflows[w].status, t.workflows[w].version);
    hide Story, HonestRun, Run, LogOf;
    forall v | 1 <= v <= t.workflows[w].version ensures HasVersion(log, v) {
      VersionsCovered(log, v);
    }
  }

  /** Artifact versions are exactly 1..latest, each stored once, and what is stored never changes. */
  lemma {:induction false} ArtifactsNumbered(cs: seq<Command>, more: seq<Command>, w: Uuid, v: int)
    requires HonestRun(EmptyTables, cs) && w in Run(EmptyTables, cs).workflows && AllWellFormed(more)
    ensures var t := Run(EmptyTables, cs);
            && (1 <= v <= t.workflows[w].latestArtifact <==> ArtifactsAt(t, w, v) != {})
            && (forall a, b :: a in ArtifactsAt(t, w, v) && b in ArtifactsAt(t, w, v) ==> a == b)
            && (ArtifactsAt(t, w, v) != {} ==> ArtifactsAt(Run(t, more), w, v) == ArtifactsAt(t, w, v))
  {
    hide Reachable, Apply, WellFormed, Inv, Later, ArtifactsAt;
    EmptyReachable();
    HonestRunReaches(EmptyTables, cs);
    hide HonestRun;
    ArtifactsRead(Run(EmptyTables, cs), w, v);
    assert Inv(Run(EmptyTables, cs)) by { ReachableInv(Run(EmptyTables, cs)); }
    RunKeeps(Run(EmptyTables, cs), more);
    InvUnique(Run(Run(EmptyTables, cs), more));
    if ArtifactsAt(Run(EmptyTables, cs), w, v) != {} {
      ArtifactsStay(Run(EmptyTables, cs), Run(Run(EmptyTables, cs), more), w, v);
    }
  }

  lemma {:induction false} ReachableInv(t: Tables)
    requires Reachable(t)
    ensures Inv(t) && VersionsComplete(t)
  {
    hide Inv, VersionsComplete, PhasesOk, StoriesOk, RetriesOk;
  }

  lemma {:induction false} ArtifactsRead(t: Tables, w: Uuid, v: int)
    requires Reachable(t) && w in t.workflows
    ensures 1 <= v <= t.workflows[w].latestArtifact <==> ArtifactsAt(t, w, v) != {}
    ensures forall a, b :: a in ArtifactsAt(t, w, v) && b in ArtifactsAt(t, w, v) ==> a == b
  {
    hide Inv, Reachable;
    ReachableInv(t);
    InvUnique(t);
    if ArtifactsAt(t, w, v) != {} { ArtifactsBounded(t, w, v); }
  }

  lemma {:induction false} ArtifactsBounded(t: Tables, w: Uuid, v: int)
    requires Inv(t) && w in t.workflows && ArtifactsAt(t, w, v) != {}
    ensures 1 <= v <= t.workflows[w].latestArtifact
  {
    assert ArtifactRowsOk(t);
    hide Inv;
    var i :| i in t.artifacts && t.artifacts[i].workflow == w && t.artifacts[i].version == v;
  }

  lemma {:induction false} ArtifactsStay(t: Tables, u: Tables, w: Uuid, v: int)
    requires Later(t, u) && VersionsUnique(u.artifacts) && ArtifactsAt(t, w, v) != {}
    ensures ArtifactsAt(u, w, v) == ArtifactsAt(t, w, v)
  {
    assert ArtifactsLater(t, u);
    hide Later;
    var i :| i in t.artifacts && t.artifacts[i].workflow == w && t.artifacts[i].version == v;
    forall j | j in u.artifacts && u.artifacts[j].workflow == w && u.artifacts[j].version == v ensures j == i {
    }
  }
}
