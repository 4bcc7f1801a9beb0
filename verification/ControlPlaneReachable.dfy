/**
 * What holds in every state the control plane reaches under honest callers: which attempts exist in
 * which status, complete artifact numbering, an audit log that tells the whole story, and one
 * confirmed failure for every retry.
 */
module ControlPlaneReachable {
  import opened Common
  import opened WorkflowModel
  import opened ControlPlane
  import opened ControlPlaneSafety
  import opened ControlPlaneRuns
  import opened ControlPlaneLifecycle

  // ---------------------------------------------------------------- statuses and attempts

  /** Some attempt of workflow `w` has one of the statuses. */
  ghost predicate Has(rows: map<Uuid, Attempt>, w: Uuid, statuses: set<AttemptStatus>) {
    exists i :: i in rows && rows[i].workflow == w && rows[i].status in statuses
  }

  const ActiveStatuses := {Claimed, Running}
  const OpenStatuses := {Claimed, Running, Succeeded, ReviewRequired, OutcomeUncertain}

  /** The statuses in which no open attempt of the kind exists yet. */
  function BeforeKind(k: Kind): set<Status> {
    match k
    case Transport => {Draft, Discovered, MappingProposed, MappingApproved}
    case Execution =>
      {Draft, Discovered, MappingProposed, MappingApproved, Staging, Staged, StagingRecoveryRequired, ExecutionReady}
    case Validation =>
      {Draft, Discovered, MappingProposed, MappingApproved, Staging, Staged, StagingRecoveryRequired, ExecutionReady,
       Executing, Executed, ExecutionRecoveryRequired, ValidationReady}
  }

  /** The statuses that only a succeeded attempt of the kind leads to. */
  function AfterKind(k: Kind): set<Status> {
    match k
    case Transport => {Staged}
    case Execution =>
      {Executed, ValidationReady, Validating, Validated, ValidationReviewRequired, ValidationRecoveryRequired}
    case Validation => {Validated}
  }

  function RecoveryStatus(k: Kind): Status {
    match k
    case Transport => StagingRecoveryRequired
    case Execution => ExecutionRecoveryRequired
    case Validation => ValidationRecoveryRequired
  }

  /** The attempts of one kind fit the workflow's status. */
  ghost predicate PhaseOk(k: Kind, s: Status, rows: map<Uuid, Attempt>, w: Uuid) {
    && (s == ActiveStatus(k) <==> Has(rows, w, ActiveStatuses))
    && (s in BeforeKind(k) ==> !Has(rows, w, OpenStatuses))
    && (s in AfterKind(k) ==> Has(rows, w, {Succeeded}))
    && (s == RecoveryStatus(k) ==> Has(rows, w, {OutcomeUncertain}))
  }

  ghost predicate PhasesOk(t: Tables) {
    forall k: Kind, w :: w in t.workflows ==> PhaseOk(k, t.workflows[w].status, t.Attempts(k), w)
  }

  /** A status change that touches no attempt of kind `k` keeps its phase. */
  lemma {:induction false} PhaseUntouched(k: Kind, from: Status, to: Status, rows: map<Uuid, Attempt>, w: Uuid)
    requires PhaseOk(k, from, rows, w) && Legal(from, to)
    requires from == to || (from != ActiveStatus(k) && to != ActiveStatus(k))
    ensures PhaseOk(k, to, rows, w)
  {
    hide Has;
  }

  lemma {:induction false} PhaseClaim(k: Kind, rows: map<Uuid, Attempt>, w: Uuid, a: Attempt)
    requires PhaseOk(k, ReadyStatus(k), rows, w) && a.id !in rows && a.workflow == w && a.status == Claimed
    ensures PhaseOk(k, ActiveStatus(k), rows[a.id := a], w)
  {
    assert Has(rows[a.id := a], w, ActiveStatuses) by { assert rows[a.id := a][a.id] == a; }
  }

  lemma {:induction false} PhaseStart(k: Kind, s: Status, rows: map<Uuid, Attempt>, w: Uuid, a: Attempt)
    requires PhaseOk(k, s, rows, w)
    requires a.id in rows && rows[a.id].status == Claimed && a.status == Running && a.workflow == rows[a.id].workflow
    ensures PhaseOk(k, s, rows[a.id := a], w)
  {
    var later := rows[a.id := a];
    forall statuses | statuses in {ActiveStatuses, OpenStatuses, {Succeeded}, {OutcomeUncertain}}
      ensures Has(later, w, statuses) == Has(rows, w, statuses)
    {
      if Has(rows, w, statuses) {
        var i :| i in rows && rows[i].workflow == w && rows[i].status in statuses;
        assert later[i].workflow == w && later[i].status in statuses;
      }
      if Has(later, w, statuses) {
        var i :| i in later && later[i].workflow == w && later[i].status in statuses;
        assert rows[i].workflow == w && rows[i].status in statuses;
      }
    }
  }

  lemma {:induction false} PhaseFinish(k: Kind, to: Status, rows: map<Uuid, Attempt>, w: Uuid, a: Attempt)
    requires PhaseOk(k, ActiveStatus(k), rows, w) && OneOpen(rows)
    requires a.id in rows && rows[a.id].status == Running && rows[a.id].workflow == w && a.workflow == w
    requires OutcomeStatus(k, a.status) == Some(to)
    ensures PhaseOk(k, to, rows[a.id := a], w)
  {
    hide Has;
    var later := rows[a.id := a];
    assert later[a.id] == a;
    forall i | i in later && i != a.id && later[i].workflow == w ensures later[i].status == ConfirmedFailed {
      assert IsOpen(rows[a.id].status);
    }
    FinishedHas(later, w, a);
  }

  /** With every other attempt confirmed failed, the closed one decides what the table has. */
  lemma {:induction false} FinishedHas(rows: map<Uuid, Attempt>, w: Uuid, a: Attempt)
    requires a.id in rows && rows[a.id] == a && a.workflow == w && Terminal(a.status)
    requires forall i :: i in rows && i != a.id && rows[i].workflow == w ==> rows[i].status == ConfirmedFailed
    ensures !Has(rows, w, ActiveStatuses)
    ensures Has(rows, w, OpenStatuses) <==> a.status != ConfirmedFailed
    ensures a.status == Succeeded ==> Has(rows, w, {Succeeded})
    ensures a.status == OutcomeUncertain ==> Has(rows, w, {OutcomeUncertain})
  {
  }

  lemma {:induction false} PhaseElsewhere(k: Kind, s: Status, rows: map<Uuid, Attempt>, w: Uuid, a: Attempt)
    requires PhaseOk(k, s, rows, w) && a.workflow != w && (a.id in rows ==> rows[a.id].workflow != w)
    ensures PhaseOk(k, s, rows[a.id := a], w)
  {
    var later := rows[a.id := a];
    forall statuses ensures Has(later, w, statuses) == Has(rows, w, statuses) {
      if Has(rows, w, statuses) {
        var i :| i in rows && rows[i].workflow == w && rows[i].status in statuses;
        assert later[i] == rows[i];
      }
    }
  }

  // ---------------------------------------------------------------- the audit log

  /** The log ends in this status and version, and every step before it was legal. */
  ghost predicate Story(log: seq<Event>, status: Status, version: int)
    decreases |log|
  {
    && log != []
    && var e := log[|log| - 1];
       && e.next == Some(status) && e.version == version
       && if |log| == 1 then e.previous.None? && status == Draft && version == 1
          else
            && e.previous.Some? && Legal(e.previous.value, status)
            && (Story(log[..|log| - 1], e.previous.value, version)
                || Story(log[..|log| - 1], e.previous.value, version - 1))
  }

  lemma {:induction false} StoryExtend(log: seq<Event>, status: Status, version: int, e: Event, next: Status)
    requires Story(log, status, version)
    requires e.previous == Some(status) && e.next == Some(next) && Legal(status, next)
    requires e.version == version || e.version == version + 1
    ensures Story(log + [e], next, e.version)
  {
    assert (log + [e])[..|log|] == log;
  }

  /** Number of times the log goes from an active status back to where the claim started. */
  function Retries(log: seq<Event>, k: Kind): nat {
    if log == [] then 0
    else
      var e := log[|log| - 1];
      Retries(log[..|log| - 1], k)
      + (if e.previous == Some(ActiveStatus(k)) && e.next == Some(ReadyStatus(k)) then 1 else 0)
  }

  lemma {:induction false} RetriesConcat(a: seq<Event>, b: seq<Event>, k: Kind)
    ensures Retries(a + b, k) == Retries(a, k) + Retries(b, k)
  {
    if b == [] {
      assert a + b == a;
    } else {
      assert (a + b)[..|a + b| - 1] == a + b[..|b| - 1];
      RetriesConcat(a, b[..|b| - 1], k);
    }
  }

  function ConfirmedFailures(rows: map<Uuid, Attempt>, w: Uuid): set<Uuid> {
    set i | i in rows && rows[i].workflow == w && rows[i].status == ConfirmedFailed
  }

  ghost predicate StoriesOk(t: Tables) {
    forall w :: w in t.workflows ==> Story(LogOf(t.events, w), t.workflows[w].status, t.workflows[w].version)
  }

  ghost predicate RetriesOk(t: Tables) {
    forall k: Kind, w :: w in t.workflows ==>
      |ConfirmedFailures(t.Attempts(k), w)| == Retries(LogOf(t.events, w), k)
  }

  /** Every version from 1 to the latest is stored. */
  ghost predicate VersionsComplete(t: Tables) {
    forall w, v :: w in t.workflows && 1 <= v <= t.workflows[w].latestArtifact ==> ArtifactsAt(t, w, v) != {}
  }

  /** No event belongs to a workflow that does not exist. */
  lemma {:induction false} NoLogYet(t: Tables, w: Uuid)
    requires LogsOk(t) && w !in t.workflows
    ensures LogOf(t.events, w) == []
  {
    NoLog(t.events, w);
  }

  lemma {:induction false} NoLog(events: seq<Event>, w: Uuid)
    requires forall i :: 0 <= i < |events| ==> events[i].workflow != w
    ensures LogOf(events, w) == []
  {
    if events != [] { NoLog(events[..|events| - 1], w); }
  }

  lemma {:induction false} AllLog(events: seq<Event>, w: Uuid)
    requires forall i :: 0 <= i < |events| ==> events[i].workflow == w
    ensures LogOf(events, w) == events
  {
    if events != [] { AllLog(events[..|events| - 1], w); }
  }

  /** The log of every workflow after a commit. */
  lemma {:induction false} LogAfter(t: Tables, u: Tables, added: seq<Event>, id: Uuid, w: Uuid)
    requires u.events == t.events + added
    requires forall i :: 0 <= i < |added| ==> added[i].workflow == id
    ensures LogOf(u.events, w) == LogOf(t.events, w) + (if w == id then added else [])
  {
    LogConcat(t.events, added, w);
    if w == id { AllLog(added, w); } else { NoLog(added, w); }
  }

  lemma {:induction false} StampedAt(t: Tables, es: seq<Event>, version: int, added: seq<Event>, i: nat)
    requires Stamped(t, es, version, added) && i < |es|
    ensures |added| == |es|
    ensures added[i].workflow == es[i].workflow && added[i].previous == es[i].previous
    ensures added[i].next == es[i].next && added[i].version == version
  {
    hide ArtifactOf;
  }

  lemma {:induction false} StampedTells(t: Tables, es: seq<Event>, version: int, added: seq<Event>, w: Uuid, from: Status, to: Status)
    requires Stamped(t, es, version, added) && Tells(es, w, from, to)
    ensures Tells(added, w, from, to)
  {
    hide Stamped;
    forall i | 0 <= i < |es|
      ensures |added| == |es| && added[i].workflow == es[i].workflow
      ensures added[i].previous == es[i].previous && added[i].next == es[i].next
    {
      StampedAt(t, es, version, added, i);
    }
  }

  lemma {:induction false} StampedAll(t: Tables, es: seq<Event>, version: int, added: seq<Event>, w: Uuid)
    requires Stamped(t, es, version, added)
    requires forall i :: 0 <= i < |es| ==> es[i].workflow == w
    ensures forall i :: 0 <= i < |added| ==> added[i].workflow == w && added[i].version == version
  {
    hide Stamped;
    if es != [] { StampedAt(t, es, version, added, 0); }
    forall i | 0 <= i < |es|
      ensures |added| == |es| && added[i].workflow == w && added[i].version == version
    {
      StampedAt(t, es, version, added, i);
    }
    assert es == [] ==> added == [] by { StampedLength(t, es, version, added); }
  }

  lemma {:induction false} StampedLength(t: Tables, es: seq<Event>, version: int, added: seq<Event>)
    requires Stamped(t, es, version, added)
    ensures |added| == |es|
  {
  }

  lemma {:induction false} StoryGrows(log: seq<Event>, from: Status, version: int, added: seq<Event>, w: Uuid, to: Status)
    requires Story(log, from, version) && Tells(added, w, from, to) && Legal(from, to)
    requires forall i :: 0 <= i < |added| ==> added[i].version == version + 1
    ensures Story(log + added, to, version + 1)
  {
    if |added| == 1 {
      StoryExtend(log, from, version, added[0], to);
      assert added == [added[0]];
    } else {
      StoryExtend(log, from, version, added[0], from);
      StoryExtend(log + [added[0]], from, version + 1, added[1], to);
      assert log + added == log + [added[0]] + [added[1]];
    }
  }

  lemma {:induction false} RetriesOfStep(added: seq<Event>, w: Uuid, from: Status, to: Status, k: Kind)
    requires Tells(added, w, from, to)
    ensures Retries(added, k) == if from == ActiveStatus(k) && to == ReadyStatus(k) then 1 else 0
  {
    if |added| == 1 {
      assert added[..0] == [];
    } else {
      assert added[..1] == [added[0]] && [added[0]][..0] == [];
      assert Retries([added[0]], k) == 0;
    }
  }

  // ---------------------------------------------------------------- one step

  ghost predicate Reachable(t: Tables) {
    Inv(t) && PhasesOk(t) && StoriesOk(t) && RetriesOk(t) && VersionsComplete(t)
  }

  /** A failed attempt stays failed; a closed or claimed row changes the count by what it is. */
  lemma {:induction false} FailuresAfter(rows: map<Uuid, Attempt>, a: Attempt, w: Uuid)
    requires a.id in rows ==> rows[a.id].status != ConfirmedFailed && rows[a.id].workflow == a.workflow
    ensures |ConfirmedFailures(rows[a.id := a], w)|
            == |ConfirmedFailures(rows, w)| + (if a.workflow == w && a.status == ConfirmedFailed then 1 else 0)
  {
    var before, after := ConfirmedFailures(rows, w), ConfirmedFailures(rows[a.id := a], w);
    if a.workflow == w && a.status == ConfirmedFailed {
      assert after == before + {a.id} && a.id !in before;
    } else {
      assert after == before;
    }
  }

  /** What the callers' honesty gives about the attempts of kind `k` across one commit. */
  lemma {:induction false} AttemptStep(t: Tables, d: Delta, u: Tables, k: Kind, w: Uuid)
    requires Keyed(t) && w in t.workflows && d.workflow.Some? && d.workflow.value.id in t.workflows
    requires OneOpen(t.Attempts(k)) && PhaseOk(k, t.workflows[w].status, t.Attempts(k), w)
    requires var id := d.workflow.value.id;
             var from := t.workflows[id].status;
             Legal(from, d.workflow.value.status) && AttemptMoves(t, d, from, d.workflow.value.status)
    requires SoundClaim(t, d) && SoundMove(t, d) && (d.claimed.Some? ==> d.claimed.value.id !in t.Attempts(d.kind))
    requires u.Attempts(k) == AttemptsAfter(t, d, k)
    ensures PhaseOk(k, if w == d.workflow.value.id then d.workflow.value.status else t.workflows[w].status,
                    u.Attempts(k), w)
  {
    hide PhaseOk, HasOpen, ValidAttempt, Progress, OneOpen;
    var id := d.workflow.value.id;
    var from, to := t.workflows[id].status, d.workflow.value.status;
    var rows := t.Attempts(k);
    if k == d.kind && d.claimed.Some? {
      if w == id { PhaseClaim(k, rows, w, d.claimed.value); }
      else { PhaseElsewhere(k, t.workflows[w].status, rows, w, d.claimed.value); }
    } else if k == d.kind && d.moved.Some? {
      if w == id { PhaseFinish(k, to, rows, w, d.moved.value); }
      else { PhaseElsewhere(k, t.workflows[w].status, rows, w, d.moved.value); }
    } else if w == id {
      PhaseUntouched(k, from, to, rows, w);
    }
  }

  /** A workflow goes back from an active status exactly when an attempt of that kind is confirmed failed. */
  lemma {:induction false} RetryIsFailure(t: Tables, d: Delta, k: Kind, from: Status, to: Status)
    requires d.workflow.Some? && AttemptMoves(t, d, from, to)
    ensures from == ActiveStatus(k) && to == ReadyStatus(k) <==>
            k == d.kind && d.claimed.None? && d.moved.Some? && d.moved.value.status == ConfirmedFailed
  {
  }

  /** The row, if any, that a delta writes into the table of kind `k`. */
  function RowWritten(d: Delta, k: Kind): Option<Attempt> {
    if k != d.kind then None else if d.moved.Some? then d.moved else d.claimed
  }

  lemma {:induction false} RowsAfter(t: Tables, d: Delta, k: Kind)
    requires d.claimed.None? || d.moved.None?
    ensures AttemptsAfter(t, d, k) == Upsert(t.Attempts(k), RowWritten(d, k))
  {
  }

  lemma {:induction false} RetryLogSide(t: Tables, u: Tables, added: seq<Event>, id: Uuid, w: Uuid, from: Status, to: Status, k: Kind)
    requires u.events == t.events + added && Tells(added, id, from, to)
    requires forall i :: 0 <= i < |added| ==> added[i].workflow == id
    ensures Retries(LogOf(u.events, w), k)
            == Retries(LogOf(t.events, w), k)
               + (if w == id && from == ActiveStatus(k) && to == ReadyStatus(k) then 1 else 0)
  {
    LogAfter(t, u, added, id, w);
    RetriesOfStep(added, id, from, to, k);
    hide Tells, Retries;
    if w == id {
      RetriesConcat(LogOf(t.events, w), added, k);
    } else {
      assert LogOf(t.events, w) + [] == LogOf(t.events, w);
    }
  }

  lemma {:induction false} RetryRowSide(t: Tables, d: Delta, u: Tables, k: Kind, w: Uuid)
    requires d.workflow.Some? && d.workflow.value.id in t.workflows
    requires AttemptMoves(t, d, t.workflows[d.workflow.value.id].status, d.workflow.value.status)
    requires SoundClaim(t, d) && SoundMove(t, d) && (d.claimed.Some? ==> d.claimed.value.id !in t.Attempts(d.kind))
    requires u.Attempts(k) == AttemptsAfter(t, d, k)
    ensures |ConfirmedFailures(u.Attempts(k), w)|
            == |ConfirmedFailures(t.Attempts(k), w)|
               + (if w == d.workflow.value.id && k == d.kind && d.claimed.None? && d.moved.Some?
                     && d.moved.value.status == ConfirmedFailed then 1 else 0)
  {
    var row := RowWritten(d, k);
    assert d.claimed.Some? ==> d.moved.None? && d.claimed.value.status == Claimed by { hide ValidAttempt, HasOpen; }
    hide AttemptMoves, SoundClaim, SoundMove, ConfirmedFailures;
    RowsAfter(t, d, k);
    hide AttemptsAfter;
    if row.Some? {
      RowOwner(t, d, k);
      FailuresAfter(t.Attempts(k), row.value, w);
    }
  }

  lemma {:induction false} RetryStep(t: Tables, d: Delta, u: Tables, k: Kind, w: Uuid, added: seq<Event>)
    requires w in t.workflows && d.workflow.Some? && d.workflow.value.id in t.workflows
    requires |ConfirmedFailures(t.Attempts(k), w)| == Retries(LogOf(t.events, w), k)
    requires var id := d.workflow.value.id;
             var from := t.workflows[id].status;
             AttemptMoves(t, d, from, d.workflow.value.status) && Tells(added, id, from, d.workflow.value.status)
    requires SoundClaim(t, d) && SoundMove(t, d) && (d.claimed.Some? ==> d.claimed.value.id !in t.Attempts(d.kind))
    requires u.Attempts(k) == AttemptsAfter(t, d, k) && u.events == t.events + added
    requires forall i :: 0 <= i < |added| ==> added[i].workflow == d.workflow.value.id
    ensures |ConfirmedFailures(u.Attempts(k), w)| == Retries(LogOf(u.events, w), k)
  {
    var id := d.workflow.value.id;
    var from, to := t.workflows[id].status, d.workflow.value.status;
    hide AttemptMoves, SoundClaim, SoundMove, AttemptsAfter, ConfirmedFailures, Retries, Tells;
    RetryIsFailure(t, d, k, from, to);
    RetryRowSide(t, d, u, k, w);
    RetryLogSide(t, u, added, id, w, from, to, k);
  }

  lemma {:induction false} RowOwner(t: Tables, d: Delta, k: Kind)
    requires d.workflow.Some? && d.workflow.value.id in t.workflows
    requires AttemptMoves(t, d, t.workflows[d.workflow.value.id].status, d.workflow.value.status)
    requires SoundClaim(t, d) && RowWritten(d, k).Some?
    requires SoundMove(t, d) && (d.claimed.Some? ==> d.claimed.value.id !in t.Attempts(d.kind))
    ensures var row := RowWritten(d, k).value;
            && row.workflow == d.workflow.value.id
            && (row.id in t.Attempts(k) ==>
                  t.Attempts(k)[row.id].status != ConfirmedFailed && t.Attempts(k)[row.id].workflow == row.workflow)
  {
    hide ValidAttempt, HasOpen, Progress;
  }

  /** Two of the three shapes of an honest delta; the third changes a workflow that exists. */
  predicate StartsAttempt(d: Delta) { d.workflow.None? }

  predicate Founds(t: Tables, d: Delta) { d.workflow.Some? && d.workflow.value.id !in t.workflows }

  lemma {:induction false} PhaseNew(k: Kind, rows: map<Uuid, Attempt>, w: Uuid)
    requires forall i :: i in rows ==> rows[i].workflow != w
    ensures PhaseOk(k, Draft, rows, w)
  {
  }

  lemma {:induction false} NoRowsYet(t: Tables, k: Kind, w: Uuid)
    requires AttemptRowsOk(k, t.Attempts(k), t.workflows.Keys) && w !in t.workflows
    ensures forall i :: i in t.Attempts(k) ==> t.Attempts(k)[i].workflow != w
  {
    hide ValidAttempt;
  }

  lemma {:induction false} StepPhase(t: Tables, d: Delta, u: Tables, k: Kind, w: Uuid)
    requires Keyed(t) && PhasesOk(t) && SoundClaim(t, d) && SoundMove(t, d) && HonestDelta(t, d)
    requires AttemptRowsOk(k, t.Attempts(k), t.workflows.Keys) && OneOpen(t.Attempts(k))
    requires d.claimed.Some? ==> d.claimed.value.id !in t.Attempts(d.kind)
    requires u.workflows == WithWorkflow(t, d.workflow).workflows && u.Attempts(k) == AttemptsAfter(t, d, k)
    requires w in u.workflows
    ensures PhaseOk(k, u.workflows[w].status, u.Attempts(k), w)
  {
    hide PhaseOk, HasOpen, ValidAttempt, Progress, OneOpen, AttemptRowsOk, Tells, Legal, AttemptMoves;
    if StartsAttempt(d) {
      if k == d.kind {
        var a := d.moved.value;
        if a.workflow == w { PhaseStart(k, t.workflows[w].status, t.Attempts(k), w, a); }
        else { PhaseElsewhere(k, t.workflows[w].status, t.Attempts(k), w, a); }
      }
    } else if Founds(t, d) {
      if w == d.workflow.value.id {
        NoRowsYet(t, k, w);
        PhaseNew(k, t.Attempts(k), w);
      }
    } else {
      AttemptStep(t, d, u, k, w);
    }
  }

  lemma {:induction false} StepStory(t: Tables, d: Delta, u: Tables, added: seq<Event>, w: Uuid)
    requires Keyed(t) && LogsOk(t) && StoriesOk(t) && SoundWorkflow(t, d) && HonestDelta(t, d)
    requires u.workflows == WithWorkflow(t, d.workflow).workflows && u.events == t.events + added
    requires d.workflow.None? ==> added == []
    requires d.workflow.Some? ==> Stamped(Written(t, d), d.events, d.workflow.value.version, added)
    requires w in u.workflows
    ensures Story(LogOf(u.events, w), u.workflows[w].status, u.workflows[w].version)
  {
    hide Stamped, Written, LogsOk, AttemptMoves, Legal;
    if StartsAttempt(d) {
      assert t.events + [] == t.events;
    } else {
      var id, version := d.workflow.value.id, d.workflow.value.version;
      StampedAll(Written(t, d), d.events, version, added, id);
      LogAfter(t, u, added, id, w);
      if w != id {
        assert LogOf(t.events, w) + [] == LogOf(t.events, w);
      } else if Founds(t, d) {
        NoLogYet(t, w);
        StampedAt(Written(t, d), d.events, version, added, 0);
        assert [] + added == added;
      } else {
        var from := t.workflows[id].status;
        StampedTells(Written(t, d), d.events, version, added, id, from, d.workflow.value.status);
        StoryGrows(LogOf(t.events, w), from, t.workflows[id].version, added, id, d.workflow.value.status);
      }
    }
  }

  lemma {:induction false} StepRetries(t: Tables, d: Delta, u: Tables, added: seq<Event>, k: Kind, w: Uuid)
    requires LogsOk(t) && RetriesOk(t) && SoundClaim(t, d) && SoundMove(t, d) && HonestDelta(t, d)
    requires AttemptRowsOk(k, t.Attempts(k), t.workflows.Keys)
    requires d.claimed.Some? ==> d.claimed.value.id !in t.Attempts(d.kind)
    requires u.workflows == WithWorkflow(t, d.workflow).workflows && u.events == t.events + added
    requires u.Attempts(k) == AttemptsAfter(t, d, k)
    requires d.workflow.None? ==> added == []
    requires d.workflow.Some? ==> Stamped(Written(t, d), d.events, d.workflow.value.version, added)
    requires w in u.workflows
    ensures |ConfirmedFailures(u.Attempts(k), w)| == Retries(LogOf(u.events, w), k)
  {
    hide Stamped, Written, LogsOk, AttemptMoves, Legal, AttemptRowsOk, SoundClaim, SoundMove, ConfirmedFailures, Retries;
    if StartsAttempt(d) {
      assert t.events + [] == t.events;
      if k == d.kind { FailuresAfter(t.Attempts(k), d.moved.value, w); }
    } else {
      var id, version := d.workflow.value.id, d.workflow.value.version;
      StampedAll(Written(t, d), d.events, version, added, id);
      if Founds(t, d) {
        FoundRetries(t, d, u, added, k, w);
      } else {
        StampedTells(Written(t, d), d.events, version, added, id, t.workflows[id].status, d.workflow.value.status);
        RetryStep(t, d, u, k, w, added);
      }
    }
  }

  lemma {:induction false} NoFailuresYet(rows: map<Uuid, Attempt>, w: Uuid)
    requires forall i :: i in rows ==> rows[i].workflow != w
    ensures ConfirmedFailures(rows, w) == {}
  {
  }

  lemma {:induction false} NoRetryAtFirst(e: Event, k: Kind)
    requires e.previous.None?
    ensures Retries([e], k) == 0
  {
    assert [e][..0] == [];
  }

  lemma {:induction false} FoundRetries(t: Tables, d: Delta, u: Tables, added: seq<Event>, k: Kind, w: Uuid)
    requires Founds(t, d) && LogsOk(t) && RetriesOk(t) && HonestDelta(t, d) && w in u.workflows
    requires AttemptRowsOk(k, t.Attempts(k), t.workflows.Keys)
    requires u.workflows == WithWorkflow(t, d.workflow).workflows && u.events == t.events + added
    requires u.Attempts(k) == AttemptsAfter(t, d, k)
    requires Stamped(Written(t, d), d.events, d.workflow.value.version, added)
    requires forall i :: 0 <= i < |added| ==> added[i].workflow == d.workflow.value.id
    ensures |ConfirmedFailures(u.Attempts(k), w)| == Retries(LogOf(u.events, w), k)
  {
    hide Stamped, Written, LogsOk, AttemptRowsOk, Retries, ConfirmedFailures, LogOf;
    var id := d.workflow.value.id;
    LogAfter(t, u, added, id, w);
    if w != id {
      assert LogOf(t.events, w) + [] == LogOf(t.events, w);
    } else {
      NoLogYet(t, w);
      StampedAt(Written(t, d), d.events, d.workflow.value.version, added, 0);
      NoRetryAtFirst(added[0], k);
      assert [] + added == [added[0]];
      NoRowsYet(t, k, w);
      NoFailuresYet(t.Attempts(k), w);
    }
  }

  lemma {:induction false} NewVersionStored(t: Tables, d: Delta, u: Tables, w: Uuid, v: int)
    requires Keyed(t) && SoundWorkflow(t, d) && SoundArtifact(d) && HonestDelta(t, d)
    requires u.workflows == WithWorkflow(t, d.workflow).workflows && u.artifacts == WithArtifact(t, d.artifact).artifacts
    requires w in u.workflows && 1 <= v <= u.workflows[w].latestArtifact
    requires w in t.workflows ==> v > t.workflows[w].latestArtifact
    ensures d.artifact.Some? && d.artifact.value.workflow == w && d.artifact.value.version == v
    ensures d.artifact.value.id in u.artifacts && u.artifacts[d.artifact.value.id] == d.artifact.value
  {
    hide AttemptMoves, Legal, Tells, ValidArtifact;
  }

  lemma {:induction false} StepVersions(t: Tables, d: Delta, u: Tables)
    requires Keyed(t) && VersionsComplete(t) && ArtifactsLater(t, u) && SoundWorkflow(t, d) && SoundArtifact(d)
    requires HonestDelta(t, d)
    requires u.workflows == WithWorkflow(t, d.workflow).workflows
    requires u.artifacts == WithArtifact(t, d.artifact).artifacts
    ensures VersionsComplete(u)
  {
    hide ArtifactsAt, ArtifactsLater, HonestDelta, ValidArtifact;
    forall w, v | w in u.workflows && 1 <= v <= u.workflows[w].latestArtifact ensures ArtifactsAt(u, w, v) != {} {
      if w in t.workflows && v <= t.workflows[w].latestArtifact {
        PreviewStays(t, u, w, v);
      } else {
        NewVersionStored(t, d, u, w, v);
        StoredAt(u, d.artifact.value);
      }
    }
  }

  lemma {:induction false} CommitReaches(t: Tables, d: Delta, u: Tables, added: seq<Event>)
    requires Reachable(t) && Sound(t, d) && HonestDelta(t, d) && Committed(t, d, u, added)
    requires ArtifactsLater(t, u)
    ensures PhasesOk(u) && StoriesOk(u) && RetriesOk(u) && VersionsComplete(u)
  {
    CommittedFields(t, d, u, added);
    InvKeyed(t);
    InvLogs(t);
    assert d.claimed.Some? ==> d.claimed.value.id !in t.Attempts(d.kind) by { hide CanInsertArtifact, CanUpdateAttempt; }
    hide Keyed, Accepts, AttemptsAfter, PhaseOk, Story, Stamped, Written, LogsOk, HonestDelta, VersionsComplete,
         SoundWorkflow, SoundArtifact, SoundClaim, SoundMove, SoundReceipt, ConfirmedFailures, Retries, ArtifactsLater, Inv;
    forall k: Kind, w | w in u.workflows ensures PhaseOk(k, u.workflows[w].status, u.Attempts(k), w) {
      InvOneOpen(t, k);
      StepPhase(t, d, u, k, w);
    }
    forall w | w in u.workflows ensures Story(LogOf(u.events, w), u.workflows[w].status, u.workflows[w].version) {
      StepStory(t, d, u, added, w);
    }
    forall k: Kind, w | w in u.workflows ensures |ConfirmedFailures(u.Attempts(k), w)| == Retries(LogOf(u.events, w), k) {
      InvOneOpen(t, k);
      StepRetries(t, d, u, added, k, w);
    }
    StepVersions(t, d, u);
  }

  /** One honest command leads from a reachable state to a reachable state. */
  lemma {:induction false} HonestKeeps(t: Tables, c: Command)
    requires Reachable(t) && WellFormed(c) && Honest(t, c)
    ensures Reachable(Apply(t, c).0)
  {
    hide Inv, PhasesOk, StoriesOk, RetriesOk, VersionsComplete, WellFormed, Honest, Decide, Commit, Sound, HonestDelta, Committed;
    ApplyKeeps(t, c);
    match Decide(t, c)
    case Answer(_) =>
    case Write(d, _) =>
      if Commit(t, d).Some? {
        InvKeyed(t);
        InvLogs(t);
        DecideSound(t, c);
        DecideHonest(t, c);
        var added := CommitShape(t, d);
        CommitReaches(t, d, Commit(t, d).value, added);
      }
  }

  lemma {:induction false} EmptyReachable()
    ensures Reachable(EmptyTables)
  {
    EmptyInv();
  }

  /** Every state of every honest run, for any number of workers in any interleaving. */
  lemma {:induction false} HonestRunReaches(t: Tables, cs: seq<Command>)
    requires Reachable(t) && HonestRun(t, cs)
    ensures Reachable(Run(t, cs))
    decreases |cs|
  {
    hide Reachable, WellFormed, Honest, Apply;
    if cs != [] {
      HonestKeeps(t, cs[0]);
      HonestRunReaches(Apply(t, cs[0]).0, cs[1..]);
    }
  }
}
