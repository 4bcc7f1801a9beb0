/**
 * Background migration jobs: the record with its constructor invariant, and what each repository
 * command does to the table of jobs. A refused command changes nothing.
 */
module MigrationJobs {
  import opened Common
  import W = WorkflowModel
  import opened TransportModel

  type Uuid = W.Uuid

  type Time = W.Time

  datatype JobStatus = Queued | Running | Succeeded | Failed | ReviewRequired | RecoveryRequired

  datatype Stage =
    | QueuedStage | Preparing | LoadingStage | Transforming | ExecutingStage | CleaningUp | ValidatingStage | Completed

  /** The stages in their only order. */
  function Rank(s: Stage): nat {
    match s
    case QueuedStage => 0
    case Preparing => 1
    case LoadingStage => 2
    case Transforming => 3
    case ExecutingStage => 4
    case CleaningUp => 5
    case ValidatingStage => 6
    case Completed => 7
  }

  /** The stage table: at most one next stage. */
  function AllowedStages(s: Stage): set<Stage> {
    match s
    case QueuedStage => {Preparing}
    case Preparing => {LoadingStage}
    case LoadingStage => {Transforming}
    case Transforming => {ExecutingStage}
    case ExecutingStage => {CleaningUp}
    case CleaningUp => {ValidatingStage}
    case ValidatingStage => {Completed}
    case Completed => {}
  }

  /** `inputs` stands for the artifact versions, profiles, limits and actor no command changes. */
  datatype Job = Job(
    id: Uuid, workflow: Uuid, expectedVersion: int, inputs: string, fingerprint: string, key: string,
    status: JobStatus, stage: Stage, queuedAt: Time, startedAt: Option<Time>, completedAt: Option<Time>,
    duration: Option<int>, failure: Option<string>, progress: Option<Progress>, progressAt: Option<Time>)

  predicate ValidTimes(j: Job) {
    && (j.startedAt.Some? ==> j.queuedAt <= j.startedAt.value)
    && (j.completedAt.Some? ==> j.startedAt.Some? && j.startedAt.value <= j.completedAt.value)
    && (j.duration.Some? ==> j.duration.value >= 0)
    && (j.progress.Some? <==> j.progressAt.Some?)
    && (j.progress.Some? ==>
          && Rank(j.stage) >= Rank(LoadingStage) && j.startedAt.Some? && j.startedAt.value <= j.progressAt.value
          && (j.completedAt.Some? ==> j.progressAt.value <= j.completedAt.value))
  }

  predicate ValidLifecycle(j: Job) {
    match j.status
    case Queued =>
      j.stage == QueuedStage && j.startedAt.None? && j.completedAt.None? && j.duration.None? && j.failure.None?
    case Running =>
      && j.stage != QueuedStage && j.stage != Completed && j.startedAt.Some? && j.completedAt.None?
      && j.duration.None? && j.failure.None?
    case Succeeded =>
      j.stage == Completed && j.startedAt.Some? && j.completedAt.Some? && j.duration.Some? && j.failure.None?
    case _ =>
      && j.stage != QueuedStage && j.stage != Completed && j.startedAt.Some? && j.completedAt.Some?
      && j.duration.Some? && j.failure.Some?
  }

  predicate ValidJob(j: Job) {
    && j.expectedVersion >= 1 && ValidTimes(j) && ValidLifecycle(j) && W.IsOptionalCode(j.failure)
    && (j.progress.Some? ==> ValidProgress(j.progress.value))
  }

  datatype Receipt = Receipt(hash: string, job: Uuid)

  datatype Board = Board(jobs: map<Uuid, Job>, receipts: map<(Uuid, string), Receipt>)

  datatype JobError =
    | NotFound | Conflict | Unavailable | AlreadyActive | BadTransition | IdempotencyConflict | PersistenceFailure

  /** `isNew` is false for a replayed creation. */
  datatype JobReply = Refused(error: JobError) | NoJob | Answer(job: Job, isNew: bool)

  // ---------------------------------------------------------------- commands

  predicate IsActive(s: JobStatus) {
    s != Failed
  }

  predicate HasActive(b: Board, w: Uuid) {
    exists i :: i in b.jobs && b.jobs[i].workflow == w && IsActive(b.jobs[i].status)
  }

  /** Primary key, and one job per workflow and idempotency key. */
  predicate CanInsert(b: Board, j: Job) {
    j.id !in b.jobs && forall i :: i in b.jobs ==> !(b.jobs[i].workflow == j.workflow && b.jobs[i].key == j.key)
  }

  function Create(b: Board, j: Job, workflow: Option<W.Workflow>): (Board, JobReply) {
    if j.status != Queued || j.stage != QueuedStage then (b, Refused(PersistenceFailure))
    else if (j.workflow, j.key) in b.receipts then
      var r := b.receipts[(j.workflow, j.key)];
      if r.hash != j.fingerprint then (b, Refused(IdempotencyConflict))
      else if r.job in b.jobs then (b, Answer(b.jobs[r.job], false))
      else (b, Refused(PersistenceFailure))
    else if workflow.None? then (b, Refused(NotFound))
    else if workflow.value.version != j.expectedVersion then (b, Refused(Conflict))
    else if workflow.value.status != W.MappingApproved then (b, Refused(Unavailable))
    else if HasActive(b, j.workflow) then (b, Refused(AlreadyActive))
    else if !CanInsert(b, j) then (b, Refused(PersistenceFailure))
    else
      (Board(b.jobs[j.id := j], b.receipts[(j.workflow, j.key) := Receipt(j.fingerprint, j.id)]), Answer(j, true))
  }

  function WithJob(b: Board, j: Job): Board {
    b.(jobs := b.jobs[j.id := j])
  }

  function Claimed(j: Job, at: Time): Job {
    j.(status := Running, stage := Preparing, startedAt := Some(at))
  }

  /** A queued job that no other transaction holds. */
  predicate IsFree(b: Board, id: Uuid, locked: set<Uuid>) {
    id in b.jobs && b.jobs[id].status == Queued && id !in locked
  }

  function Claim(b: Board, id: Uuid, at: Time, locked: set<Uuid>): (Board, JobReply) {
    if !IsFree(b, id, locked) then (b, NoJob)
    else
      var j := Claimed(b.jobs[id], at);
      if ValidJob(j) then (WithJob(b, j), Answer(j, true)) else (b, Refused(PersistenceFailure))
  }

  predicate Before(a: Job, b: Job) {
    a.queuedAt < b.queuedAt || (a.queuedAt == b.queuedAt && a.id <= b.id)
  }

  /** The oldest queued job that no other transaction holds. */
  predicate IsOldest(b: Board, id: Uuid, locked: set<Uuid>) {
    IsFree(b, id, locked) && forall i :: i in b.jobs && IsFree(b, i, locked) ==> Before(b.jobs[id], b.jobs[i])
  }

  function Advance(b: Board, id: Uuid, expected: Stage, next: Stage): (Board, JobReply) {
    if id !in b.jobs then (b, Refused(NotFound))
    else
      var j := b.jobs[id];
      if j.status != Running || j.stage != expected || next == Completed || next !in AllowedStages(j.stage) then
        (b, Refused(BadTransition))
      else
        var updated := j.(stage := next);
        if ValidJob(updated) then (WithJob(b, updated), Answer(updated, true)) else (b, Refused(PersistenceFailure))
  }

  predicate TakesReport(j: Job, p: Progress, at: Time) {
    && j.status == Running && j.stage == LoadingStage && j.startedAt.Some? && j.startedAt.value <= at
    && Newer(j.progress, p)
    && (j.progress.Some? ==> j.progressAt.Some? && j.progressAt.value < at)
  }

  function Report(b: Board, id: Uuid, p: Progress, at: Time): (Board, JobReply) {
    if id !in b.jobs then (b, Refused(NotFound))
    else
      var j := b.jobs[id];
      if !TakesReport(j, p, at) then (b, Refused(BadTransition))
      else
        var updated := j.(progress := Some(p), progressAt := Some(at));
        if ValidJob(updated) then (WithJob(b, updated), Answer(updated, true)) else (b, Refused(BadTransition))
  }

  predicate IsFailure(s: JobStatus) {
    s == Failed || s == ReviewRequired || s == RecoveryRequired
  }

  /** The outcome is already stored. */
  predicate Finished(j: Job, expected: Stage, outcome: JobStatus, failure: Option<string>) {
    || (outcome == Succeeded && j.status == Succeeded && j.failure.None?)
    || (IsFailure(outcome) && j.status == outcome && j.stage == expected && j.failure == failure)
  }

  predicate MayFinish(j: Job, expected: Stage, outcome: JobStatus, at: Time, failure: Option<string>) {
    && j.status == Running && j.startedAt.Some? && j.startedAt.value <= at
    && (|| (outcome == Succeeded && j.stage == ValidatingStage && expected == ValidatingStage && failure.None?)
        || (IsFailure(outcome) && j.stage == expected && failure.Some?))
  }

  function Milliseconds(from: Time, to: Time): int {
    if to < from then 0 else (to - from) / 1000
  }

  function Ended(j: Job, outcome: JobStatus, at: Time, failure: Option<string>): Job
    requires j.startedAt.Some?
  {
    j.(status := outcome, stage := if outcome == Succeeded then Completed else j.stage, completedAt := Some(at),
       duration := Some(Milliseconds(j.startedAt.value, at)), failure := failure)
  }

  function Finish(b: Board, id: Uuid, expected: Stage, outcome: JobStatus, at: Time, failure: Option<string>)
    : (Board, JobReply)
  {
    if id !in b.jobs then (b, Refused(NotFound))
    else
      var j := b.jobs[id];
      if Finished(j, expected, outcome, failure) then (b, Answer(j, false))
      else if !MayFinish(j, expected, outcome, at, failure) then (b, Refused(BadTransition))
      else
        var updated := Ended(j, outcome, at, failure);
        if ValidJob(updated) then (WithJob(b, updated), Answer(updated, true)) else (b, Refused(BadTransition))
  }

  datatype Command =
    | CreateJob(job: Job, workflow: Option<W.Workflow>)
    | ClaimNext(at: Time, locked: set<Uuid>)
    | ClaimJob(id: Uuid, at: Time, locked: set<Uuid>)
    | AdvanceJob(id: Uuid, expected: Stage, next: Stage)
    | ReportJob(id: Uuid, progress: Progress, at: Time)
    | FinishJob(id: Uuid, expected: Stage, outcome: JobStatus, at: Time, failure: Option<string>)

  /** Claiming the next job takes the oldest free one, if there is any. */
  ghost predicate Step(b: Board, c: Command, after: Board, reply: JobReply) {
    match c
    case CreateJob(j, w) => (after, reply) == Create(b, j, w)
    case ClaimNext(at, locked) =>
      if exists id :: IsFree(b, id, locked)
      then exists id :: IsOldest(b, id, locked) && (after, reply) == Claim(b, id, at, locked)
      else after == b && reply == NoJob
    case ClaimJob(id, at, locked) => (after, reply) == Claim(b, id, at, locked)
    case AdvanceJob(id, expected, next) => (after, reply) == Advance(b, id, expected, next)
    case ReportJob(id, p, at) => (after, reply) == Report(b, id, p, at)
    case FinishJob(id, expected, outcome, at, failure) => (after, reply) == Finish(b, id, expected, outcome, at, failure)
  }

  /** The records handed to a command have passed their constructors. */
  predicate WellFormed(c: Command) {
    match c
    case CreateJob(j, _) => ValidJob(j)
    case ReportJob(_, p, _) => ValidProgress(p)
    case _ => true
  }

  // ---------------------------------------------------------------- the repository object

  class JobRepository {
    var jobs: map<Uuid, Job>
    var receipts: map<(Uuid, string), Receipt>

    function Snapshot(): Board
      reads this
    {
      Board(jobs, receipts)
    }

    constructor ()
      ensures Snapshot() == Board(map[], map[])
    {
      jobs, receipts := map[], map[];
    }

    method CreateMigrationJob(j: Job, workflow: Option<W.Workflow>) returns (reply: JobReply)
      modifies this
      ensures Step(old(Snapshot()), CreateJob(j, workflow), Snapshot(), reply)
    {
      hide HasActive, CanInsert;
      if j.status != Queued || j.stage != QueuedStage { return Refused(PersistenceFailure); }
      var scope := (j.workflow, j.key);
      if scope in receipts {
        var r := receipts[scope];
        if r.hash != j.fingerprint { return Refused(IdempotencyConflict); }
        if r.job !in jobs { return Refused(PersistenceFailure); }
        return Answer(jobs[r.job], false);
      }
      if workflow.None? { return Refused(NotFound); }
      if workflow.value.version != j.expectedVersion { return Refused(Conflict); }
      if workflow.value.status != W.MappingApproved { return Refused(Unavailable); }
      if HasActive(Snapshot(), j.workflow) { return Refused(AlreadyActive); }
      if !CanInsert(Snapshot(), j) { return Refused(PersistenceFailure); }
      jobs := jobs[j.id := j];
      receipts := receipts[scope := Receipt(j.fingerprint, j.id)];
      reply := Answer(j, true);
    }

    /** Looks through the queue for the oldest job that is not locked. */
    method ClaimNextMigrationJob(at: Time, locked: set<Uuid>) returns (reply: JobReply)
      modifies this
      ensures Step(old(Snapshot()), ClaimNext(at, locked), Snapshot(), reply)
    {
      hide ValidJob;
      var b := Snapshot();
      var oldest: Option<Uuid> := None;
      var rest := jobs.Keys;
      while rest != {}
        invariant rest <= jobs.Keys && Snapshot() == b
        invariant oldest.None? ==> forall i :: i in jobs && i !in rest ==> !IsFree(b, i, locked)
        invariant oldest.Some? ==> IsFree(b, oldest.value, locked)
        invariant oldest.Some? ==>
                    forall i :: i in jobs && i !in rest && IsFree(b, i, locked) ==> Before(jobs[oldest.value], jobs[i])
        decreases rest
      {
        var id :| id in rest;
        if IsFree(b, id, locked) && (oldest.None? || Before(jobs[id], jobs[oldest.value])) { oldest := Some(id); }
        rest := rest - {id};
      }
      if oldest.None? { return NoJob; }
      assert IsOldest(b, oldest.value, locked);
      reply := ClaimMigrationJob(oldest.value, at, locked);
    }

    method ClaimMigrationJob(id: Uuid, at: Time, locked: set<Uuid>) returns (reply: JobReply)
      modifies this
      ensures (Snapshot(), reply) == Claim(old(Snapshot()), id, at, locked)
      ensures Step(old(Snapshot()), ClaimJob(id, at, locked), Snapshot(), reply)
    {
      hide ValidJob;
      if id !in jobs || jobs[id].status != Queued || id in locked { return NoJob; }
      var j := jobs[id];
      var claimed := j.(status := Running, stage := Preparing, startedAt := Some(at));
      if !ValidJob(claimed) { return Refused(PersistenceFailure); }
      jobs := jobs[claimed.id := claimed];
      reply := Answer(claimed, true);
    }

    method UpdateMigrationJobStage(id: Uuid, expected: Stage, next: Stage) returns (reply: JobReply)
      modifies this
      ensures Step(old(Snapshot()), AdvanceJob(id, expected, next), Snapshot(), reply)
    {
      hide ValidJob;
      if id !in jobs { return Refused(NotFound); }
      var j := jobs[id];
      if !(j.status == Running && j.stage == expected && next != Completed && next in AllowedStages(j.stage)) {
        return Refused(BadTransition);
      }
      var updated := j.(stage := next);
      if !ValidJob(updated) { return Refused(PersistenceFailure); }
      jobs := jobs[updated.id := updated];
      reply := Answer(updated, true);
    }

    method UpdateMigrationJobProgress(id: Uuid, p: Progress, at: Time) returns (reply: JobReply)
      modifies this
      ensures Step(old(Snapshot()), ReportJob(id, p, at), Snapshot(), reply)
    {
      hide ValidJob;
      if id !in jobs { return Refused(NotFound); }
      var j := jobs[id];
      var valid := j.status == Running && j.stage == LoadingStage && j.startedAt.Some? && at >= j.startedAt.value
                   && p.batches > 0 && p.read > 0;
      if j.progress.Some? {
        var previous := j.progress.value;
        valid := valid && j.progressAt.Some? && at > j.progressAt.value && p.batches > previous.batches
                 && p.read > previous.read && p.written > previous.written && p.estimate == previous.estimate;
      }
      if !valid { return Refused(BadTransition); }
      var updated := j.(progress := Some(p), progressAt := Some(at));
      if !ValidJob(updated) { return Refused(BadTransition); }
      jobs := jobs[updated.id := updated];
      reply := Answer(updated, true);
    }

    method FinishMigrationJob(id: Uuid, expected: Stage, outcome: JobStatus, at: Time, failure: Option<string>)
      returns (reply: JobReply)
      modifies this
      ensures Step(old(Snapshot()), FinishJob(id, expected, outcome, at, failure), Snapshot(), reply)
    {
      hide ValidJob, Milliseconds, Create, Claim, Advance, Report, IsFree, IsOldest;
      if id !in jobs { return Refused(NotFound); }
      var j := jobs[id];
      var exactSuccess := outcome == Succeeded && j.status == outcome && j.failure.None?;
      var exactFailure := IsFailure(outcome) && j.status == outcome && j.stage == expected && j.failure == failure;
      if exactSuccess || exactFailure { return Answer(j, false); }
      var validSuccess := outcome == Succeeded && j.stage == ValidatingStage && expected == ValidatingStage && failure.None?;
      var validFailure := IsFailure(outcome) && j.stage == expected && failure.Some?;
      if j.status != Running || !(validSuccess || validFailure) || j.startedAt.None? || at < j.startedAt.value {
        return Refused(BadTransition);
      }
      var updated := j.(status := outcome, stage := if outcome == Succeeded then Completed else j.stage,
                        completedAt := Some(at), duration := Some(Milliseconds(j.startedAt.value, at)), failure := failure);
      if !ValidJob(updated) { return Refused(BadTransition); }
      jobs := jobs[updated.id := updated];
      reply := Answer(updated, true);
    }
  }
}
