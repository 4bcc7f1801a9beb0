/**
 * Runs of job commands by any number of workers: who claims a job, how its stages, times and
 * progress evolve, and how many jobs a workflow may have.
 */
module JobRuns {
  import opened Common
  import opened TransportModel
  import opened MigrationJobs
  import W = WorkflowModel

  // ---------------------------------------------------------------- one job over time

  /** One step of one job. */
  ghost predicate Moves(a: Job, b: Job) {
    || b == a
    || (exists at :: a.status == Queued && b == Claimed(a, at) && ValidJob(b))
    || (exists next :: a.status == Running && next != Completed && next in AllowedStages(a.stage)
                       && b == a.(stage := next) && ValidJob(b))
    || (exists p, at :: TakesReport(a, p, at) && b == a.(progress := Some(p), progressAt := Some(at)) && ValidJob(b))
    || (exists expected, outcome, at, failure ::
          MayFinish(a, expected, outcome, at, failure) && b == Ended(a, outcome, at, failure) && ValidJob(b))
  }

  /** How a job may differ from what it was earlier. */
  ghost predicate Later(a: Job, b: Job) {
    && b.id == a.id && b.workflow == a.workflow && b.key == a.key && b.fingerprint == a.fingerprint
    && b.inputs == a.inputs && b.expectedVersion == a.expectedVersion && b.queuedAt == a.queuedAt
    && Rank(a.stage) <= Rank(b.stage)
    && (a.status != Queued ==> b.status != Queued)
    && (a.status != Queued && a.status != Running ==> b == a)
    && (a.startedAt.Some? ==> b.startedAt == a.startedAt)
    && (a.progress.Some? ==>
          && b.progress.Some? && b.progress.value.estimate == a.progress.value.estimate
          && b.progress.value.read >= a.progress.value.read && b.progress.value.batches >= a.progress.value.batches)
  }

  lemma {:induction false} LaterTransitive(a: Job, b: Job, c: Job)
    requires Later(a, b) && Later(b, c)
    ensures Later(a, c)
  {
  }

  lemma {:induction false} NextRank(s: Stage, t: Stage)
    requires t in AllowedStages(s)
    ensures Rank(t) == Rank(s) + 1
  {
  }

  /** A step goes at most one stage further. */
  lemma {:induction false} MovesLater(a: Job, b: Job)
    requires ValidJob(a) && Moves(a, b)
    ensures ValidJob(b) && Later(a, b) && Rank(b.stage) <= Rank(a.stage) + 1
  {
    hide AllowedStages, ValidTimes, Milliseconds, ValidProgress;
    if b != a {
      if at :| a.status == Queued && b == Claimed(a, at) && ValidJob(b) {
      } else if next :| a.status == Running && next != Completed && next in AllowedStages(a.stage)
                        && b == a.(stage := next) && ValidJob(b) {
        NextRank(a.stage, next);
      }
    }
  }

  /** Sorted out by command: a step changes at most one job, by one move, or adds a queued one. */
  ghost predicate Changes(b: Board, after: Board) {
    && (forall i :: i in b.jobs ==> i in after.jobs && Moves(b.jobs[i], after.jobs[i]))
    && (forall i :: i in after.jobs && i !in b.jobs ==> after.jobs[i].status == Queued && ValidJob(after.jobs[i]))
    && (forall k :: k in b.receipts ==> k in after.receipts && after.receipts[k] == b.receipts[k])
  }

  // ---------------------------------------------------------------- the table of jobs

  ghost predicate JobsValid(jobs: map<Uuid, Job>) {
    forall i :: i in jobs ==> jobs[i].id == i && ValidJob(jobs[i])
  }

  predicate BothActive(a: Job, b: Job) {
    a.workflow == b.workflow && IsActive(a.status) && IsActive(b.status)
  }

  /** At most one job of a workflow is not failed. */
  ghost predicate OneActive(jobs: map<Uuid, Job>) {
    forall i, j :: i in jobs && j in jobs && BothActive(jobs[i], jobs[j]) ==> i == j
  }

  /** Every receipt points at the job that was created under its key, with the same fingerprint. */
  ghost predicate ReceiptsTrue(b: Board) {
    forall k :: k in b.receipts ==>
      var r := b.receipts[k];
      r.job in b.jobs && b.jobs[r.job].workflow == k.0 && b.jobs[r.job].key == k.1 && b.jobs[r.job].fingerprint == r.hash
  }

  ghost predicate Inv(b: Board) {
    JobsValid(b.jobs) && OneActive(b.jobs) && ReceiptsTrue(b)
  }

  lemma {:induction false} EmptyInv()
    ensures Inv(Board(map[], map[]))
  {
  }

  /** Replacing one job by what it may become. */
  lemma {:induction false} UpdateKeeps(b: Board, id: Uuid, j: Job)
    requires Inv(b) && id in b.jobs && Moves(b.jobs[id], j)
    ensures Inv(WithJob(b, j)) && Changes(b, WithJob(b, j))
  {
    hide Moves, Rank, ValidJob, IsActive;
    MovesLater(b.jobs[id], j);
    assert j.id == id;
    ActiveBefore(b.jobs[id], j);
    var after := WithJob(b, j);
    forall i | i in b.jobs ensures i in after.jobs && Moves(b.jobs[i], after.jobs[i]) {
      if i != id { StaysPut(b.jobs[i]); }
    }
  }

  lemma {:induction false} StaysPut(j: Job)
    ensures Moves(j, j)
  {
  }

  lemma {:induction false} ActiveBefore(a: Job, b: Job)
    requires ValidJob(a) && Moves(a, b)
    ensures IsActive(b.status) ==> IsActive(a.status)
  {
  }

  lemma {:induction false} UnchangedKeeps(b: Board)
    ensures Changes(b, b)
  {
    hide Moves;
    forall i | i in b.jobs ensures Moves(b.jobs[i], b.jobs[i]) { StaysPut(b.jobs[i]); }
  }

  function Added(b: Board, j: Job): Board {
    Board(b.jobs[j.id := j], b.receipts[(j.workflow, j.key) := Receipt(j.fingerprint, j.id)])
  }

  lemma {:induction false} AddedReceipts(b: Board, j: Job)
    requires Inv(b) && j.id !in b.jobs
    ensures ReceiptsTrue(Added(b, j))
  {
    hide ValidJob, OneActive;
  }

  lemma {:induction false} AddedJobs(b: Board, j: Job)
    requires Inv(b) && ValidJob(j) && !HasActive(b, j.workflow) && j.id !in b.jobs
    ensures JobsValid(Added(b, j).jobs) && OneActive(Added(b, j).jobs)
  {
    hide ValidJob, ReceiptsTrue;
  }

  lemma {:induction false} AddedChanges(b: Board, j: Job)
    requires ValidJob(j) && j.status == Queued && j.id !in b.jobs && (j.workflow, j.key) !in b.receipts
    ensures Changes(b, Added(b, j))
  {
    hide ValidJob, Moves;
    forall i | i in b.jobs ensures Moves(b.jobs[i], b.jobs[i]) { StaysPut(b.jobs[i]); }
  }

  lemma {:induction false} CreateKeeps(b: Board, j: Job, w: Option<W.Workflow>)
    requires Inv(b) && ValidJob(j)
    ensures Inv(Create(b, j, w).0) && Changes(b, Create(b, j, w).0)
  {
    hide Moves, ValidJob, HasActive, JobsValid, OneActive, ReceiptsTrue, Changes;
    UnchangedKeeps(b);
    if Create(b, j, w).0 != b {
      assert Create(b, j, w).0 == Added(b, j);
      AddedReceipts(b, j);
      AddedJobs(b, j);
      AddedChanges(b, j);
    }
  }

  lemma {:induction false} ClaimKeeps(b: Board, id: Uuid, at: Time, locked: set<Uuid>)
    requires Inv(b)
    ensures Inv(Claim(b, id, at, locked).0) && Changes(b, Claim(b, id, at, locked).0)
  {
    hide ValidJob, Inv;
    UnchangedKeeps(b);
    if IsFree(b, id, locked) && ValidJob(Claimed(b.jobs[id], at)) {
      assert Moves(b.jobs[id], Claimed(b.jobs[id], at));
      UpdateKeeps(b, id, Claimed(b.jobs[id], at));
    }
  }

  lemma {:induction false} AdvanceKeeps(b: Board, id: Uuid, expected: Stage, next: Stage)
    requires Inv(b)
    ensures Inv(Advance(b, id, expected, next).0) && Changes(b, Advance(b, id, expected, next).0)
  {
    hide ValidJob, Inv, Changes, AllowedStages;
    UnchangedKeeps(b);
    if Advance(b, id, expected, next).1.Answer? {
      var j := b.jobs[id].(stage := next);
      assert Moves(b.jobs[id], j);
      UpdateKeeps(b, id, j);
    }
  }

  lemma {:induction false} ReportKeeps(b: Board, id: Uuid, p: Progress, at: Time)
    requires Inv(b)
    ensures Inv(Report(b, id, p, at).0) && Changes(b, Report(b, id, p, at).0)
  {
    hide ValidJob, Inv, Changes, TakesReport;
    UnchangedKeeps(b);
    if Report(b, id, p, at).1.Answer? {
      var j := b.jobs[id].(progress := Some(p), progressAt := Some(at));
      assert Moves(b.jobs[id], j);
      UpdateKeeps(b, id, j);
    }
  }

  lemma {:induction false} FinishKeeps(
    b: Board, id: Uuid, expected: Stage, outcome: JobStatus, at: Time, failure: Option<string>)
    requires Inv(b)
    ensures var after := Finish(b, id, expected, outcome, at, failure).0; Inv(after) && Changes(b, after)
  {
    hide ValidJob, Inv, Changes, Finished, Milliseconds;
    UnchangedKeeps(b);
    if id in b.jobs && MayFinish(b.jobs[id], expected, outcome, at, failure) {
      var j := Ended(b.jobs[id], outcome, at, failure);
      if ValidJob(j) {
        assert Moves(b.jobs[id], j);
        UpdateKeeps(b, id, j);
      }
    }
  }

  /** Every command keeps the invariant and moves every job at most one legal step. */
  lemma {:induction false} StepKeeps(b: Board, c: Command, after: Board, reply: JobReply)
    requires Inv(b) && WellFormed(c) && Step(b, c, after, reply)
    ensures Inv(after) && Changes(b, after)
  {
    hide Inv, Changes, Create, Claim, Advance, Report, Finish, ValidJob, IsFree, IsOldest;
    match c {
      case CreateJob(j, w) => CreateKeeps(b, j, w);
      case ClaimNext(at, locked) =>
        if exists id :: IsFree(b, id, locked) {
          var id :| IsOldest(b, id, locked) && (after, reply) == Claim(b, id, at, locked);
          ClaimKeeps(b, id, at, locked);
        } else {
          UnchangedKeeps(b);
        }
      case ClaimJob(id, at, locked) => ClaimKeeps(b, id, at, locked);
      case AdvanceJob(id, expected, next) => AdvanceKeeps(b, id, expected, next);
      case ReportJob(id, p, at) => ReportKeeps(b, id, p, at);
      case FinishJob(id, expected, outcome, at, failure) => FinishKeeps(b, id, expected, outcome, at, failure);
    }
  }

  // ---------------------------------------------------------------- runs

  /** The boards between the commands of a run, and the replies. A crash is a command that never comes. */
  ghost predicate IsRun(boards: seq<Board>, commands: seq<Command>, replies: seq<JobReply>) {
    && |boards| == |commands| + 1 && |replies| == |commands| && boards[0] == Board(map[], map[])
    && forall n :: 0 <= n < |commands| ==>
         WellFormed(commands[n]) && Step(boards[n], commands[n], boards[n + 1], replies[n])
  }

  lemma {:induction false} RunKeeps(boards: seq<Board>, commands: seq<Command>, replies: seq<JobReply>, n: nat)
    requires IsRun(boards, commands, replies) && n < |boards|
    ensures Inv(boards[n])
    decreases n
  {
    hide Inv, Step, WellFormed;
    if n == 0 {
      EmptyInv();
    } else {
      RunKeeps(boards, commands, replies, n - 1);
      StepKeeps(boards[n - 1], commands[n - 1], boards[n], replies[n - 1]);
    }
  }

  lemma {:induction false} RunChanges(boards: seq<Board>, commands: seq<Command>, replies: seq<JobReply>, n: nat)
    requires IsRun(boards, commands, replies) && n < |commands|
    ensures Changes(boards[n], boards[n + 1])
  {
    hide Inv, Step, WellFormed, Changes;
    RunKeeps(boards, commands, replies, n);
    StepKeeps(boards[n], commands[n], boards[n + 1], replies[n]);
  }

  /** From any point of a run to any later one, a job is never lost and only moves on. */
  lemma {:induction false} RunLater(
    boards: seq<Board>, commands: seq<Command>, replies: seq<JobReply>, m: nat, n: nat, id: Uuid)
    requires IsRun(boards, commands, replies) && m <= n < |boards| && id in boards[m].jobs
    ensures id in boards[n].jobs && Later(boards[m].jobs[id], boards[n].jobs[id])
    decreases n
  {
    hide Inv, Step, WellFormed, Later, Moves, ValidJob;
    if m == n {
      LaterItself(boards[m].jobs[id]);
    } else {
      RunLater(boards, commands, replies, m, n - 1, id);
      RunChanges(boards, commands, replies, n - 1);
      RunKeeps(boards, commands, replies, n - 1);
      JobValid(boards[n - 1], id);
      MovesLater(boards[n - 1].jobs[id], boards[n].jobs[id]);
      LaterTransitive(boards[m].jobs[id], boards[n - 1].jobs[id], boards[n].jobs[id]);
    }
  }

  lemma {:induction false} LaterItself(j: Job)
    ensures Later(j, j)
  {
  }

  lemma {:induction false} JobsKeyed(b: Board)
    requires Inv(b)
    ensures forall i :: i in b.jobs ==> b.jobs[i].id == i
  {
    hide ValidJob;
  }

  lemma {:induction false} JobValid(b: Board, id: Uuid)
    requires Inv(b) && id in b.jobs
    ensures ValidJob(b.jobs[id]) && b.jobs[id].id == id
  {
    hide ValidJob;
  }

  /** In every reachable table the recorded times of a job are in order. */
  lemma {:induction false} TimesInOrder(
    boards: seq<Board>, commands: seq<Command>, replies: seq<JobReply>, n: nat, id: Uuid)
    requires IsRun(boards, commands, replies) && n < |boards| && id in boards[n].jobs
    ensures var j := boards[n].jobs[id];
            && (j.startedAt.Some? ==> j.queuedAt <= j.startedAt.value)
            && (j.progressAt.Some? ==> j.startedAt.Some? && j.startedAt.value <= j.progressAt.value)
            && (j.completedAt.Some? ==> j.startedAt.Some? && j.startedAt.value <= j.completedAt.value)
            && (j.completedAt.Some? && j.progressAt.Some? ==> j.progressAt.value <= j.completedAt.value)
  {
    hide IsRun, Inv, Rank;
    RunKeeps(boards, commands, replies, n);
    JobValid(boards[n], id);
  }

  /** In every reachable table at most one job of a workflow is not failed. */
  lemma {:induction false} SingleActiveJob(
    boards: seq<Board>, commands: seq<Command>, replies: seq<JobReply>, n: nat, a: Uuid, b: Uuid)
    requires IsRun(boards, commands, replies) && n < |boards| && a in boards[n].jobs && b in boards[n].jobs && a != b
    requires boards[n].jobs[a].workflow == boards[n].jobs[b].workflow
    ensures boards[n].jobs[a].status == Failed || boards[n].jobs[b].status == Failed
  {
    hide IsRun, JobsValid, ReceiptsTrue;
    RunKeeps(boards, commands, replies, n);
  }

  /** Command `n` of a run claimed the job. */
  ghost predicate ClaimedAt(commands: seq<Command>, replies: seq<JobReply>, n: nat, id: Uuid) {
    && n < |commands| == |replies|
    && (commands[n].ClaimNext? || commands[n].ClaimJob?)
    && replies[n].Answer? && replies[n].job.id == id
  }

  lemma {:induction false} ClaimTakes(b: Board, c: Command, after: Board, reply: JobReply)
    requires Inv(b) && Step(b, c, after, reply) && (c.ClaimNext? || c.ClaimJob?) && reply.Answer?
    ensures var id := reply.job.id;
            id in b.jobs && b.jobs[id].status == Queued && id in after.jobs && after.jobs[id].status == Running
  {
    hide ValidJob, OneActive, ReceiptsTrue;
    match c {
      case ClaimNext(at, locked) =>
        if exists id :: IsFree(b, id, locked) {
          var id :| IsOldest(b, id, locked) && (after, reply) == Claim(b, id, at, locked);
        }
      case ClaimJob(id, at, locked) =>
    }
  }

  /** However many workers race, each job is claimed at most once. */
  lemma {:induction false} ClaimedOnce(
    boards: seq<Board>, commands: seq<Command>, replies: seq<JobReply>, m: nat, n: nat, id: Uuid)
    requires IsRun(boards, commands, replies)
    requires ClaimedAt(commands, replies, m, id) && ClaimedAt(commands, replies, n, id)
    ensures m == n
  {
    hide Inv, Step;
    var a, b := if m < n then m else n, if m < n then n else m;
    RunKeeps(boards, commands, replies, a);
    RunKeeps(boards, commands, replies, b);
    ClaimTakes(boards[a], commands[a], boards[a + 1], replies[a]);
    ClaimTakes(boards[b], commands[b], boards[b + 1], replies[b]);
    if a < b { RunLater(boards, commands, replies, a + 1, b, id); }
  }

  /** A job first appears queued. */
  lemma {:induction false} FirstSeen(
    boards: seq<Board>, commands: seq<Command>, replies: seq<JobReply>, n: nat, id: Uuid) returns (m: nat)
    requires IsRun(boards, commands, replies) && n < |boards| && id in boards[n].jobs
    ensures m <= n && id in boards[m].jobs && boards[m].jobs[id].stage == QueuedStage
    decreases n
  {
    hide Inv, Step, WellFormed, Moves;
    if id in boards[n - 1].jobs {
      m := FirstSeen(boards, commands, replies, n - 1, id);
    } else {
      RunChanges(boards, commands, replies, n - 1);
      m := n;
    }
  }

  /** Between two points of a run a job passes through every stage between its stages. */
  lemma {:induction false} PassesStage(
    boards: seq<Board>, commands: seq<Command>, replies: seq<JobReply>, m: nat, n: nat, id: Uuid, s: Stage)
    returns (k: nat)
    requires IsRun(boards, commands, replies) && m <= n < |boards| && id in boards[m].jobs && id in boards[n].jobs
    requires Rank(boards[m].jobs[id].stage) <= Rank(s) <= Rank(boards[n].jobs[id].stage)
    ensures m <= k <= n && id in boards[k].jobs && boards[k].jobs[id].stage == s
    decreases n - m
  {
    hide Inv, Step, WellFormed, Moves, ValidJob, Later;
    if Rank(boards[n].jobs[id].stage) == Rank(s) {
      SameRank(boards[n].jobs[id].stage, s);
      k := n;
    } else {
      assert m < n;
      RunLater(boards, commands, replies, m, n - 1, id);
      RunKeeps(boards, commands, replies, n - 1);
      RunChanges(boards, commands, replies, n - 1);
      JobValid(boards[n - 1], id);
      MovesLater(boards[n - 1].jobs[id], boards[n].jobs[id]);
      k := PassesStage(boards, commands, replies, m, n - 1, id, s);
    }
  }

  lemma {:induction false} SameRank(s: Stage, t: Stage)
    requires Rank(s) == Rank(t)
    ensures s == t
  {
  }

  /** A succeeded job went through all eight stages, in order. */
  lemma {:induction false} SucceededPassedAll(
    boards: seq<Board>, commands: seq<Command>, replies: seq<JobReply>, n: nat, id: Uuid, s: Stage, t: Stage)
    requires IsRun(boards, commands, replies) && n < |boards| && id in boards[n].jobs
    requires boards[n].jobs[id].status == Succeeded && Rank(s) < Rank(t)
    ensures exists j, k :: 0 <= j < k <= n && id in boards[j].jobs && id in boards[k].jobs
                           && boards[j].jobs[id].stage == s && boards[k].jobs[id].stage == t
  {
    hide Inv, Step, WellFormed, IsRun;
    RunKeeps(boards, commands, replies, n);
    JobValid(boards[n], id);
    RankBounds(s);
    RankBounds(t);
    var first := FirstSeen(boards, commands, replies, n, id);
    var j := PassesStage(boards, commands, replies, first, n, id, s);
    var k := PassesStage(boards, commands, replies, j, n, id, t);
    assert j != k;
  }

  lemma {:induction false} RankBounds(s: Stage)
    ensures Rank(QueuedStage) <= Rank(s) <= Rank(Completed)
  {
  }

  /** The reported percentage of a job stays within bounds and never falls. */
  lemma {:induction false} PercentageRises(
    boards: seq<Board>, commands: seq<Command>, replies: seq<JobReply>, m: nat, n: nat, id: Uuid)
    requires IsRun(boards, commands, replies) && m <= n < |boards| && id in boards[m].jobs
    requires boards[m].jobs[id].progress.Some? && Percent(boards[m].jobs[id].progress.value).Some?
    ensures id in boards[n].jobs && boards[n].jobs[id].progress.Some?
    ensures var p, q := Percent(boards[m].jobs[id].progress.value), Percent(boards[n].jobs[id].progress.value);
            q.Some? && 0 <= p.value <= q.value <= 100
  {
    hide Inv, IsRun, Percent, ValidProgress;
    RunLater(boards, commands, replies, m, n, id);
    RunKeeps(boards, commands, replies, m);
    RunKeeps(boards, commands, replies, n);
    JobValid(boards[m], id);
    JobValid(boards[n], id);
    PercentMonotone(boards[m].jobs[id].progress.value, boards[n].jobs[id].progress.value);
  }

  /** A finished job never changes again. */
  lemma {:induction false} FinishedStays(
    boards: seq<Board>, commands: seq<Command>, replies: seq<JobReply>, m: nat, n: nat, id: Uuid)
    requires IsRun(boards, commands, replies) && m <= n < |boards| && id in boards[m].jobs
    requires boards[m].jobs[id].completedAt.Some?
    ensures id in boards[n].jobs && boards[n].jobs[id] == boards[m].jobs[id]
  {
    hide Inv, IsRun, ValidTimes, Rank;
    RunKeeps(boards, commands, replies, m);
    JobValid(boards[m], id);
    RunLater(boards, commands, replies, m, n, id);
  }

  /** Repeating a creation after any other commands answers with the job it created; a changed request is refused. */
  lemma {:induction false} CreationReplayed(
    boards: seq<Board>, commands: seq<Command>, replies: seq<JobReply>, m: nat, n: nat, j: Job,
    again: Job, w: Option<W.Workflow>)
    requires IsRun(boards, commands, replies) && m < |commands| && m < n < |boards|
    requires commands[m].CreateJob? && commands[m].job == j && replies[m] == Answer(j, true)
    requires again.status == Queued && again.stage == QueuedStage && again.workflow == j.workflow && again.key == j.key
    ensures j.id in boards[n].jobs && Later(j, boards[n].jobs[j.id])
    ensures Create(boards[n], again, w)
            == (boards[n], if again.fingerprint == j.fingerprint then Answer(boards[n].jobs[j.id], false)
                           else Refused(IdempotencyConflict))
  {
    hide Inv, Moves, Later, ValidJob, HasActive, CanInsert;
    assert Step(boards[m], commands[m], boards[m + 1], replies[m]);
    CreatedReceipt(boards[m], j, commands[m].workflow);
    RunLater(boards, commands, replies, m + 1, n, j.id);
    ReceiptsStay(boards, commands, replies, m + 1, n, (j.workflow, j.key));
  }

  lemma {:induction false} CreatedReceipt(b: Board, j: Job, w: Option<W.Workflow>)
    requires Create(b, j, w).1 == Answer(j, true)
    ensures var after := Create(b, j, w).0;
            j.id in after.jobs && after.jobs[j.id] == j
            && (j.workflow, j.key) in after.receipts && after.receipts[(j.workflow, j.key)] == Receipt(j.fingerprint, j.id)
  {
    hide HasActive, CanInsert;
    var scope := (j.workflow, j.key);
    assert scope !in b.receipts;
    assert Create(b, j, w).0 == Board(b.jobs[j.id := j], b.receipts[scope := Receipt(j.fingerprint, j.id)]);
  }

  lemma {:induction false} ReceiptsStay(
    boards: seq<Board>, commands: seq<Command>, replies: seq<JobReply>, m: nat, n: nat, k: (Uuid, string))
    requires IsRun(boards, commands, replies) && m <= n < |boards| && k in boards[m].receipts
    ensures k in boards[n].receipts && boards[n].receipts[k] == boards[m].receipts[k]
    decreases n
  {
    hide Inv, Step, WellFormed, Moves;
    if m < n {
      ReceiptsStay(boards, commands, replies, m, n - 1, k);
      RunChanges(boards, commands, replies, n - 1);
    }
  }
}
