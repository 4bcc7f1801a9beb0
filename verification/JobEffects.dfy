/**
 * Exactly when each job command takes effect, in terms of its arguments and the rows it finds, and
 * exactly what it then leaves.
 */
module JobEffects {
  import opened Common
  import opened TransportModel
  import opened MigrationJobs
  import opened JobRuns
  import W = WorkflowModel

  // ---------------------------------------------------------------- when a command takes effect

  /** A queued job that nobody else holds. */
  predicate Waiting(b: Board, id: Uuid, locked: set<Uuid>) {
    id in b.jobs && b.jobs[id].status == Queued && id !in locked
  }

  predicate RunningIn(b: Board, id: Uuid, s: Stage) {
    id in b.jobs && b.jobs[id].status == Running && b.jobs[id].stage == s
  }

  /** More batches and more rows of the same load, reported later. */
  predicate MovesOn(j: Job, p: Progress, at: Time) {
    && p.batches > 0 && p.read > 0
    && (j.startedAt.Some? ==> j.startedAt.value <= at)
    && (j.progress.Some? ==>
          && p.batches > j.progress.value.batches && p.read > j.progress.value.read
          && p.written > j.progress.value.written && p.estimate == j.progress.value.estimate)
    && (j.progressAt.Some? ==> j.progressAt.value < at)
  }

  /** Exactly when a command changes the table. */
  ghost predicate Takes(b: Board, c: Command) {
    match c
    case CreateJob(j, w) =>
      && j.status == Queued && (j.workflow, j.key) !in b.receipts && j.id !in b.jobs
      && w.Some? && w.value.version == j.expectedVersion && w.value.status == W.MappingApproved
      && forall i :: i in b.jobs && b.jobs[i].workflow == j.workflow ==> b.jobs[i].status == Failed && b.jobs[i].key != j.key
    case ClaimNext(at, locked) => exists id :: Waiting(b, id, locked) && b.jobs[id].queuedAt <= at
    case ClaimJob(id, at, locked) => Waiting(b, id, locked) && b.jobs[id].queuedAt <= at
    case AdvanceJob(id, expected, next) =>
      RunningIn(b, id, expected) && Rank(next) == Rank(expected) + 1 && next != Completed
    case ReportJob(id, p, at) => RunningIn(b, id, LoadingStage) && MovesOn(b.jobs[id], p, at)
    case FinishJob(id, expected, outcome, at, failure) =>
      && RunningIn(b, id, expected) && b.jobs[id].startedAt.Some? && b.jobs[id].startedAt.value <= at
      && (b.jobs[id].progressAt.Some? ==> b.jobs[id].progressAt.value <= at)
      && if outcome == Succeeded then expected == ValidatingStage && failure.None?
         else outcome != Queued && outcome != Running && failure.Some? && W.IsCode(failure.value)
  }

  // ---------------------------------------------------------------- what it leaves

  /** Job `id` is replaced and nothing else differs. */
  ghost predicate Replaces(b: Board, id: Uuid, j: Job, after: Board) {
    after.jobs == b.jobs[id := j] && after.receipts == b.receipts
  }

  /** Whole milliseconds, rounded down. */
  predicate Lasts(d: Option<int>, from: Time, to: Time) {
    d.Some? && 0 <= d.value && d.value * 1000 <= to - from < (d.value + 1) * 1000
  }

  ghost predicate Starts(b: Board, id: Uuid, at: Time, after: Board, r: JobReply)
    requires id in b.jobs
  {
    var j := b.jobs[id].(status := Running, stage := Preparing, startedAt := Some(at));
    Replaces(b, id, j, after) && r == Answer(j, true)
  }

  ghost predicate Leaves(b: Board, c: Command, after: Board, r: JobReply)
    requires Takes(b, c)
  {
    match c
    case CreateJob(j, _) =>
      && after.jobs == b.jobs[j.id := j] && after.receipts == b.receipts[(j.workflow, j.key) := Receipt(j.fingerprint, j.id)]
      && r == Answer(j, true)
    case ClaimNext(at, locked) =>
      exists id ::
        && Waiting(b, id, locked) && Starts(b, id, at, after, r)
        && forall i :: Waiting(b, i, locked) && i != id ==>
             || b.jobs[id].queuedAt < b.jobs[i].queuedAt
             || (b.jobs[id].queuedAt == b.jobs[i].queuedAt && id < i)
    case ClaimJob(id, at, _) => Starts(b, id, at, after, r)
    case AdvanceJob(id, _, next) =>
      var j := b.jobs[id].(stage := next);
      Replaces(b, id, j, after) && r == Answer(j, true)
    case ReportJob(id, p, at) =>
      var j := b.jobs[id].(progress := Some(p), progressAt := Some(at));
      Replaces(b, id, j, after) && r == Answer(j, true)
    case FinishJob(id, expected, outcome, at, failure) =>
      exists d :: Lasts(d, b.jobs[id].startedAt.value, at) &&
        var j := b.jobs[id].(status := outcome, stage := if outcome == Succeeded then Completed else expected,
                             completedAt := Some(at), duration := d, failure := failure);
        Replaces(b, id, j, after) && r == Answer(j, true)
  }

  ghost predicate TakesEffect(b: Board, c: Command, after: Board, r: JobReply) {
    && (after != b <==> Takes(b, c))
    && (Takes(b, c) ==> Leaves(b, c, after, r))
  }

  // ---------------------------------------------------------------- command by command

  lemma {:induction false} CreateTakes(b: Board, c: Command, after: Board, r: JobReply)
    requires Inv(b) && WellFormed(c) && Step(b, c, after, r) && c.CreateJob?
    ensures TakesEffect(b, c, after, r)
  {
    hide ValidTimes, OneActive, ReceiptsTrue;
    if after != b { assert c.job.id in after.jobs; }
  }

  lemma {:induction false} ClaimLeaves(b: Board, id: Uuid, at: Time, locked: set<Uuid>)
    requires Inv(b)
    ensures var (after, r) := Claim(b, id, at, locked);
            && (after != b <==> Waiting(b, id, locked) && b.jobs[id].queuedAt <= at)
            && (Waiting(b, id, locked) && b.jobs[id].queuedAt <= at ==> Starts(b, id, at, after, r))
  {
    hide OneActive, ReceiptsTrue, Rank, W.IsOptionalCode;
    if id in b.jobs {
      JobValid(b, id);
      if b.jobs[id].status == Queued { QueuedHasNoProgress(b.jobs[id]); }
    }
  }

  lemma {:induction false} QueuedHasNoProgress(j: Job)
    requires ValidJob(j) && j.status == Queued
    ensures j.progress.None? && j.progressAt.None? && j.startedAt.None? && j.completedAt.None? && j.duration.None?
  {
  }

  lemma {:induction false} ClaimNextTakes(b: Board, c: Command, after: Board, r: JobReply)
    requires Inv(b) && Step(b, c, after, r) && c.ClaimNext?
    ensures TakesEffect(b, c, after, r)
  {
    hide Inv, Claim, Starts;
    if exists id :: IsFree(b, id, c.locked) {
      var id :| IsOldest(b, id, c.locked) && (after, r) == Claim(b, id, c.at, c.locked);
      ClaimLeaves(b, id, c.at, c.locked);
      assert Waiting(b, id, c.locked);
      forall i | Waiting(b, i, c.locked) && i != id
        ensures b.jobs[id].queuedAt < b.jobs[i].queuedAt || (b.jobs[id].queuedAt == b.jobs[i].queuedAt && id < i)
      {
        assert IsFree(b, i, c.locked);
        JobsKeyed(b);
      }
    } else {
      forall id ensures !Waiting(b, id, c.locked) { assert !IsFree(b, id, c.locked); }
    }
  }

  lemma {:induction false} ClaimJobTakes(b: Board, c: Command, after: Board, r: JobReply)
    requires Inv(b) && Step(b, c, after, r) && c.ClaimJob?
    ensures TakesEffect(b, c, after, r)
  {
    hide Inv, Claim, Starts;
    ClaimLeaves(b, c.id, c.at, c.locked);
  }

  lemma {:induction false} NextByRank(s: Stage, t: Stage)
    ensures t in AllowedStages(s) <==> Rank(t) == Rank(s) + 1
  {
  }

  lemma {:induction false} AdvanceTakes(b: Board, c: Command, after: Board, r: JobReply)
    requires Inv(b) && Step(b, c, after, r) && c.AdvanceJob?
    ensures TakesEffect(b, c, after, r)
  {
    hide Inv, AllowedStages;
    NextByRank(c.expected, c.next);
    if c.id in b.jobs { JobValid(b, c.id); }
  }

  lemma {:induction false} ReportTakes(b: Board, c: Command, after: Board, r: JobReply)
    requires Inv(b) && WellFormed(c) && Step(b, c, after, r) && c.ReportJob?
    ensures TakesEffect(b, c, after, r)
  {
    hide Inv;
    if c.id in b.jobs { JobValid(b, c.id); }
  }

  lemma {:induction false} FinishTakes(b: Board, c: Command, after: Board, r: JobReply)
    requires Inv(b) && Step(b, c, after, r) && c.FinishJob?
    ensures TakesEffect(b, c, after, r)
  {
    hide Inv, Lasts, Milliseconds;
    if c.id in b.jobs {
      JobValid(b, c.id);
      if b.jobs[c.id].startedAt.Some? { MillisecondsLast(b.jobs[c.id].startedAt.value, c.at); }
    }
  }

  lemma {:induction false} MillisecondsLast(from: Time, to: Time)
    ensures Milliseconds(from, to) >= 0
    ensures from <= to ==> Lasts(Some(Milliseconds(from, to)), from, to)
  {
  }

  /**
   * A job command changes the table exactly when its arguments fit the row it finds, and then leaves
   * exactly the row that belongs to it; the next job claimed is the one that has waited longest.
   */
  lemma {:induction false} CommandTakes(b: Board, c: Command, after: Board, r: JobReply)
    requires Inv(b) && WellFormed(c) && Step(b, c, after, r)
    ensures after != b <==> Takes(b, c)
    ensures Takes(b, c) ==> Leaves(b, c, after, r)
  {
    hide Inv, Step, WellFormed, Takes, Leaves;
    match c
    case CreateJob(_, _) => CreateTakes(b, c, after, r);
    case ClaimNext(_, _) => ClaimNextTakes(b, c, after, r);
    case ClaimJob(_, _, _) => ClaimJobTakes(b, c, after, r);
    case AdvanceJob(_, _, _) => AdvanceTakes(b, c, after, r);
    case ReportJob(_, _, _) => ReportTakes(b, c, after, r);
    case FinishJob(_, _, _, _, _) => FinishTakes(b, c, after, r);
  }

  // ---------------------------------------------------------------- what other answers mean

  /** The job ended with this outcome before. */
  predicate EndedSo(j: Job, expected: Stage, outcome: JobStatus, failure: Option<string>) {
    && j.status == outcome
    && if outcome == Succeeded then j.failure.None?
       else outcome != Queued && outcome != Running && j.stage == expected && j.failure == failure
  }

  /** What a command that changes nothing tells its caller. */
  lemma {:induction false} AnswerMeans(b: Board, c: Command, after: Board, r: JobReply)
    requires Inv(b) && WellFormed(c) && Step(b, c, after, r)
    ensures c.ClaimNext? || c.ClaimJob? ==>
              (r == NoJob <==> if c.ClaimJob? then !Waiting(b, c.id, c.locked) else forall i :: !Waiting(b, i, c.locked))
    ensures c.AdvanceJob? || c.ReportJob? || c.FinishJob? ==> (r == Refused(NotFound) <==> c.id !in b.jobs)
    ensures c.FinishJob? && c.id in b.jobs && EndedSo(b.jobs[c.id], c.expected, c.outcome, c.failure) ==>
              after == b && r == Answer(b.jobs[c.id], false)
    ensures c.CreateJob? && c.job.status == Queued && (c.job.workflow, c.job.key) !in b.receipts ==>
              && (r == Refused(NotFound) <==> c.workflow.None?)
              && (r == Refused(Conflict) <==> c.workflow.Some? && c.workflow.value.version != c.job.expectedVersion)
              && (r == Refused(AlreadyActive) ==>
                    exists i :: i in b.jobs && b.jobs[i].workflow == c.job.workflow && b.jobs[i].status != Failed)
  {
    hide Inv, ValidTimes, CanInsert, Milliseconds;
    if c.ClaimNext? {
      forall i ensures Waiting(b, i, c.locked) <==> IsFree(b, i, c.locked) { }
    }
  }
}
