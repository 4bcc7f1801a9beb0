/** How long a workflow's life can be, and what it must have gone through, read off its audit log. */
module WorkflowPaths {
  import opened Common
  import opened WorkflowModel
  import opened ControlPlane
  import opened ControlPlaneLifecycle
  import opened ControlPlaneReachable
  import opened AuditTrail

  // ---------------------------------------------------------------- the status graph

  /** The preparations between the attempts. */
  predicate Prepares(from: Status, to: Status) {
    || (from == Draft && to == Discovered) || (from == Discovered && to == MappingProposed)
    || (from == MappingProposed && to == MappingApproved) || (from == MappingApproved && to == ExecutionReady)
    || (from == Staged && to == ExecutionReady) || (from == Executed && to == ValidationReady)
  }

  /** Nothing follows. */
  predicate Ended(s: Status) {
    s == Validated || s == ValidationReviewRequired || s == Status.Failed || s == Cancelled
  }

  /** The attempt an active status stands for may end in the other status. */
  predicate EndsIn(from: Status, to: Status) {
    exists k: Kind, a: AttemptStatus :: from == ActiveStatus(k) && OutcomeStatus(k, a) == Some(to)
  }

  predicate Starts(from: Status, to: Status) {
    exists k: Kind :: from == ReadyStatus(k) && to == ActiveStatus(k)
  }

  /**
   * The status graph agrees with the outcomes of attempts: an active status leads to what its attempt may
   * end in, a ready status to the active one, and a workflow may be given up unless it has ended or is
   * staging or executing.
   */
  lemma {:induction false} GraphMeans(from: Status, to: Status)
    ensures to in AllowedTransitions(from)
            <==> || Prepares(from, to) || Starts(from, to) || EndsIn(from, to)
                 || (from == ValidationReady && to == Validating)
                 || ((to == Status.Failed || to == Cancelled) && !Ended(from) && from != Staging && from != Executing)
  {
    hide EndsIn, Starts;
    StartsMeans(from, to);
    EndsMeans(from, to);
  }

  lemma {:induction false} StartsMeans(from: Status, to: Status)
    ensures Starts(from, to)
            <==> (from == MappingApproved && to == Staging) || (from == ExecutionReady && to == Executing)
                 || (from == Executed && to == Validating)
  {
    assert ReadyStatus(Transport) == MappingApproved && ReadyStatus(Execution) == ExecutionReady;
    assert ReadyStatus(Validation) == Executed;
  }

  lemma {:induction false} EndsMeans(from: Status, to: Status)
    ensures EndsIn(from, to)
            <==> || (from == Staging && (to == Staged || to == MappingApproved || to == StagingRecoveryRequired))
                 || (from == Executing && (to == Executed || to == ExecutionReady || to == ExecutionRecoveryRequired))
                 || (from == Validating
                     && (to == Validated || to == ValidationReviewRequired || to == ValidationRecoveryRequired))
  {
    assert ActiveStatus(Transport) == Staging && ActiveStatus(Execution) == Executing;
    assert ActiveStatus(Validation) == Validating;
    assert OutcomeStatus(Transport, Succeeded) == Some(Staged);
    assert OutcomeStatus(Transport, ConfirmedFailed) == Some(MappingApproved);
    assert OutcomeStatus(Transport, OutcomeUncertain) == Some(StagingRecoveryRequired);
    assert OutcomeStatus(Execution, Succeeded) == Some(Executed);
    assert OutcomeStatus(Execution, ConfirmedFailed) == Some(ExecutionReady);
    assert OutcomeStatus(Execution, OutcomeUncertain) == Some(ExecutionRecoveryRequired);
    assert OutcomeStatus(Validation, Succeeded) == Some(Validated);
    assert OutcomeStatus(Validation, ReviewRequired) == Some(ValidationReviewRequired);
    assert OutcomeStatus(Validation, OutcomeUncertain) == Some(ValidationRecoveryRequired);
  }

  // ---------------------------------------------------------------- how long a life can be

  /** The longest way still ahead of a status if no attempt fails. */
  function Ahead(s: Status): nat {
    match s
    case Draft => 12
    case Discovered => 11
    case MappingProposed => 10
    case MappingApproved => 9
    case Staging => 8
    case Staged => 7
    case ExecutionReady => 6
    case Executing => 5
    case Executed => 4
    case ValidationReady => 3
    case Validating => 2
    case StagingRecoveryRequired => 1
    case ExecutionRecoveryRequired => 1
    case ValidationRecoveryRequired => 1
    case _ => 0
  }

  /** Number of status changes in a log. */
  function Changes(log: seq<Event>): nat {
    if log == [] then 0
    else
      var e := log[|log| - 1];
      Changes(log[..|log| - 1]) + (if e.previous.Some? && e.previous != e.next then 1 else 0)
  }

  /** Changes that take a workflow back to where a claim started. */
  function AllRetries(log: seq<Event>): nat {
    Retries(log, Transport) + Retries(log, Execution)
  }

  /** One legal change uses up one step ahead, unless it is a retry, which gives one back. */
  lemma {:induction false} StepAhead(from: Status, to: Status)
    requires to in AllowedTransitions(from)
    ensures if (from == Staging && to == MappingApproved) || (from == Executing && to == ExecutionReady)
            then Ahead(to) == Ahead(from) + 1 else Ahead(to) + 1 <= Ahead(from)
  {
  }

  lemma {:induction false} ChangesBounded(log: seq<Event>, s: Status, version: int)
    requires Story(log, s, version)
    ensures Changes(log) + Ahead(s) <= 12 + 2 * AllRetries(log)
    decreases |log|
  {
    var init := log[..|log| - 1];
    if |log| == 1 {
      assert init == [];
    } else {
      var e := log[|log| - 1];
      var v := if Story(init, e.previous.value, version) then version else version - 1;
      ChangesBounded(init, e.previous.value, v);
      if e.previous.value != s { StepAhead(e.previous.value, s); }
    }
  }

  /**
   * In every honest run a workflow changes its status at most 12 times, plus twice for every transport
   * or execution attempt that was confirmed failed.
   */
  lemma {:induction false} LifeIsBounded(cs: seq<Command>, w: Uuid)
    requires HonestRun(EmptyTables, cs) && w in Run(EmptyTables, cs).workflows
    ensures var t := Run(EmptyTables, cs);
            Changes(LogOf(t.events, w))
            <= 12 + 2 * (|ConfirmedFailures(t.transports, w)| + |ConfirmedFailures(t.executions, w)|)
  {
    hide Reachable, Apply, Changes, Retries, Story;
    EmptyReachable();
    HonestRunReaches(EmptyTables, cs);
    var t := Run(EmptyTables, cs);
    ReachableStory(t, w);
    ChangesBounded(LogOf(t.events, w), t.workflows[w].status, t.workflows[w].version);
    assert t.Attempts(Transport) == t.transports && t.Attempts(Execution) == t.executions;
  }

  /** The three statuses no successful migration can go round. */
  datatype Gate = Approval | Readiness | Completion

  function GateStatus(g: Gate): Status {
    match g
    case Approval => MappingApproved
    case Readiness => ExecutionReady
    case Completion => Executed
  }

  /** The statuses on the far side of a gate. */
  function Beyond(g: Gate): set<Status> {
    match g
    case Completion =>
      {Executed, ValidationReady, Validating, Validated, ValidationReviewRequired, ValidationRecoveryRequired}
    case Readiness =>
      {ExecutionReady, Executing, ExecutionRecoveryRequired,
       Executed, ValidationReady, Validating, Validated, ValidationReviewRequired, ValidationRecoveryRequired}
    case Approval =>
      {MappingApproved, Staging, Staged, StagingRecoveryRequired, ExecutionReady, Executing, ExecutionRecoveryRequired,
       Executed, ValidationReady, Validating, Validated, ValidationReviewRequired, ValidationRecoveryRequired}
  }

  ghost predicate Passed(log: seq<Event>, s: Status) {
    exists i :: 0 <= i < |log| && log[i].next == Some(s)
  }

  lemma {:induction false} GateEntry(g: Gate, from: Status, to: Status)
    requires Legal(from, to) && to in Beyond(g)
    ensures from in Beyond(g) || to == GateStatus(g)
  {
  }

  lemma {:induction false} GatePassed(log: seq<Event>, s: Status, version: int, g: Gate)
    requires Story(log, s, version) && s in Beyond(g)
    ensures Passed(log, GateStatus(g))
    decreases |log|
  {
    hide Beyond, GateStatus;
    var last := |log| - 1;
    assert |log| > 1 by { DraftIsBefore(g); }
    var e := log[last];
    GateEntry(g, e.previous.value, s);
    if s == GateStatus(g) {
      assert log[last].next == Some(s);
    } else {
      var v := if Story(log[..last], e.previous.value, version) then version else version - 1;
      GatePassed(log[..last], e.previous.value, v, g);
      var i :| 0 <= i < last && log[..last][i].next == Some(GateStatus(g));
      assert log[i].next == Some(GateStatus(g));
    }
  }

  lemma {:induction false} DraftIsBefore(g: Gate)
    ensures Draft !in Beyond(g)
  {
  }

  /** A validated workflow was approved, made ready and executed before. */
  lemma {:induction false} ValidatedPassedAllGates(cs: seq<Command>, w: Uuid)
    requires HonestRun(EmptyTables, cs) && w in Run(EmptyTables, cs).workflows
    requires Run(EmptyTables, cs).workflows[w].status == Validated
    ensures var log := LogOf(Run(EmptyTables, cs).events, w);
            Passed(log, MappingApproved) && Passed(log, ExecutionReady) && Passed(log, Executed)
  {
    hide Reachable, Apply, Story, Passed;
    EmptyReachable();
    HonestRunReaches(EmptyTables, cs);
    var t := Run(EmptyTables, cs);
    ReachableStory(t, w);
    GatePassed(LogOf(t.events, w), Validated, t.workflows[w].version, Approval);
    GatePassed(LogOf(t.events, w), Validated, t.workflows[w].version, Readiness);
    GatePassed(LogOf(t.events, w), Validated, t.workflows[w].version, Completion);
  }
}
