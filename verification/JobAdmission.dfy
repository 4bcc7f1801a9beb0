/**
 * Jobs and workflows together: both sets of tables change by the commands of any workers in any
 * order, and a job is created from the workflow row of that moment.
 */
module JobAdmission {
  import opened Common
  import W = WorkflowModel
  import C = ControlPlane
  import S = ControlPlaneSafety
  import R = ControlPlaneRuns
  import L = ControlPlaneLifecycle
  import A = AuditTrail
  import M = MigrationJobs
  import T = TransportModel
  import J = JobRuns

  datatype System = System(tables: C.Tables, board: M.Board)

  datatype Act = Plane(command: C.Command) | Work(job: M.Command)

  function RowOf(t: C.Tables, w: W.Uuid): Option<W.Workflow> {
    if w in t.workflows then Some(t.workflows[w]) else None
  }

  /** One transaction on the workflow tables or on the jobs; only creating a job reads both. */
  ghost predicate Step(s: System, a: Act, after: System) {
    match a
    case Plane(c) => C.WellFormed(c) && after == System(C.Apply(s.tables, c).0, s.board)
    case Work(c) =>
      && M.WellFormed(c) && after.tables == s.tables
      && (c.CreateJob? ==> c.workflow == RowOf(s.tables, c.job.workflow))
      && exists reply :: M.Step(s.board, c, after.board, reply)
  }

  ghost predicate IsHistory(states: seq<System>, acts: seq<Act>) {
    && |states| == |acts| + 1 && states[0] == System(C.EmptyTables, M.Board(map[], map[]))
    && forall n :: 0 <= n < |acts| ==> Step(states[n], acts[n], states[n + 1])
  }

  /** Every job belongs to a workflow that has reached the version the job was created for. */
  ghost predicate JobsKnown(s: System) {
    forall id :: id in s.board.jobs ==>
      var j := s.board.jobs[id];
      j.workflow in s.tables.workflows && j.expectedVersion <= s.tables.workflows[j.workflow].version
  }

  ghost predicate Inv(s: System) {
    S.Inv(s.tables) && J.Inv(s.board) && JobsKnown(s)
  }

  /** The workflow row allows a job of this request. */
  predicate Admits(t: C.Tables, j: M.Job) {
    && j.workflow in t.workflows && t.workflows[j.workflow].status == W.MappingApproved
    && t.workflows[j.workflow].version == j.expectedVersion
  }

  lemma {:induction false} PlaneKeeps(s: System, c: C.Command)
    requires Inv(s) && C.WellFormed(c)
    ensures Inv(System(C.Apply(s.tables, c).0, s.board))
  {
    hide S.Inv, J.Inv, C.Apply, C.WellFormed;
    S.ApplyKeeps(s.tables, c);
    VersionsGrow(s.tables, C.Apply(s.tables, c).0);
  }

  lemma {:induction false} VersionsGrow(t: C.Tables, u: C.Tables)
    requires S.Later(t, u)
    ensures forall w :: w in t.workflows ==> w in u.workflows && t.workflows[w].version <= u.workflows[w].version
  {
    hide S.AttemptsLater, S.ReceiptsLater, S.ArtifactsLater;
  }

  /** A new job is the one the command asked for, and it was admitted. */
  lemma {:induction false} NewJob(b: M.Board, c: M.Command, after: M.Board, reply: M.JobReply, t: C.Tables, id: W.Uuid)
    requires J.Inv(b) && M.WellFormed(c) && M.Step(b, c, after, reply) && id in after.jobs && id !in b.jobs
    requires c.CreateJob? ==> c.workflow == RowOf(t, c.job.workflow)
    ensures c.CreateJob? && after.jobs[id] == c.job && Admits(t, c.job)
  {
    hide M.Create, M.Claim, M.Advance, M.Report, M.Finish, M.ValidJob, M.IsFree, M.IsOldest, J.Inv, Admits, RowOf;
    J.JobsKeyed(b);
    match c {
      case CreateJob(j, w) => CreatedJob(b, j, w, t, id);
      case ClaimNext(at, locked) =>
        if exists i :: M.IsFree(b, i, locked) {
          var i :| M.IsOldest(b, i, locked) && (after, reply) == M.Claim(b, i, at, locked);
          ClaimAddsNone(b, i, at, locked);
        }
      case ClaimJob(i, at, locked) => ClaimAddsNone(b, i, at, locked);
      case AdvanceJob(i, expected, next) => UpdatesAddNone(b, i, expected, next, None, 0);
      case ReportJob(i, p, at) => UpdatesAddNone(b, i, M.QueuedStage, M.QueuedStage, Some(p), at);
      case FinishJob(i, expected, outcome, at, failure) => FinishAddsNone(b, i, expected, outcome, at, failure);
    }
  }

  lemma {:induction false} CreatedJob(b: M.Board, j: M.Job, w: Option<W.Workflow>, t: C.Tables, id: W.Uuid)
    requires w == RowOf(t, j.workflow) && id in M.Create(b, j, w).0.jobs && id !in b.jobs
    ensures M.Create(b, j, w).0.jobs[id] == j && Admits(t, j)
  {
    hide M.HasActive, M.CanInsert;
  }

  lemma {:induction false} ClaimAddsNone(b: M.Board, id: W.Uuid, at: M.Time, locked: set<W.Uuid>)
    requires forall i :: i in b.jobs ==> b.jobs[i].id == i
    ensures M.Claim(b, id, at, locked).0.jobs.Keys == b.jobs.Keys
  {
    hide M.ValidJob;
  }

  lemma {:induction false} UpdatesAddNone(
    b: M.Board, id: W.Uuid, expected: M.Stage, next: M.Stage, p: Option<T.Progress>, at: M.Time)
    requires forall i :: i in b.jobs ==> b.jobs[i].id == i
    ensures M.Advance(b, id, expected, next).0.jobs.Keys == b.jobs.Keys
    ensures p.Some? ==> M.Report(b, id, p.value, at).0.jobs.Keys == b.jobs.Keys
  {
    hide M.ValidJob, M.AllowedStages, M.TakesReport;
  }

  lemma {:induction false} FinishAddsNone(
    b: M.Board, id: W.Uuid, expected: M.Stage, outcome: M.JobStatus, at: M.Time, failure: Option<string>)
    requires forall i :: i in b.jobs ==> b.jobs[i].id == i
    ensures M.Finish(b, id, expected, outcome, at, failure).0.jobs.Keys == b.jobs.Keys
  {
    hide M.ValidJob, M.Finished;
  }

  lemma {:induction false} JobMoved(b: M.Board, after: M.Board, id: W.Uuid)
    requires J.Inv(b) && J.Changes(b, after) && id in b.jobs
    ensures id in after.jobs && after.jobs[id].workflow == b.jobs[id].workflow
    ensures after.jobs[id].expectedVersion == b.jobs[id].expectedVersion
  {
    hide J.Inv, J.Moves, J.Later;
    J.JobValid(b, id);
    J.MovesLater(b.jobs[id], after.jobs[id]);
    LaterSame(b.jobs[id], after.jobs[id]);
  }

  lemma {:induction false} LaterSame(a: M.Job, b: M.Job)
    requires J.Later(a, b)
    ensures b.workflow == a.workflow && b.expectedVersion == a.expectedVersion
  {
  }

  lemma {:induction false} WorkKeeps(s: System, c: M.Command, after: M.Board, reply: M.JobReply)
    requires Inv(s) && M.WellFormed(c) && M.Step(s.board, c, after, reply)
    requires c.CreateJob? ==> c.workflow == RowOf(s.tables, c.job.workflow)
    ensures Inv(System(s.tables, after))
  {
    hide S.Inv, J.Inv, M.Step, M.WellFormed, J.Changes;
    J.StepKeeps(s.board, c, after, reply);
    forall id | id in after.jobs
      ensures after.jobs[id].workflow in s.tables.workflows
              && after.jobs[id].expectedVersion <= s.tables.workflows[after.jobs[id].workflow].version
    {
      if id in s.board.jobs { JobMoved(s.board, after, id); } else { NewJob(s.board, c, after, reply, s.tables, id); }
    }
  }

  lemma {:induction false} HistoryKeeps(states: seq<System>, acts: seq<Act>, n: nat)
    requires IsHistory(states, acts) && n < |states|
    ensures Inv(states[n])
    decreases n
  {
    hide Inv, M.Step, M.WellFormed, C.WellFormed, C.Apply;
    if n == 0 {
      EmptyInv();
    } else {
      HistoryKeeps(states, acts, n - 1);
      var s, after := states[n - 1], states[n];
      assert Step(s, acts[n - 1], after);
      match acts[n - 1]
      case Plane(c) => PlaneKeeps(s, c);
      case Work(c) =>
        var reply :| M.Step(s.board, c, after.board, reply);
        WorkKeeps(s, c, after.board, reply);
    }
  }

  lemma {:induction false} EmptyInv()
    ensures Inv(System(C.EmptyTables, M.Board(map[], map[])))
  {
    hide S.Inv, J.Inv;
    R.EmptyInv();
    J.EmptyInv();
  }

  /**
   * Every job was created at a moment when its workflow was in MAPPING_APPROVED at exactly the version
   * the request named, and the workflow never falls behind that version.
   */
  lemma {:induction false} JobsAdmitted(states: seq<System>, acts: seq<Act>, n: nat, id: W.Uuid) returns (m: nat)
    requires IsHistory(states, acts) && n < |states| && id in states[n].board.jobs
    ensures m < n && id !in states[m].board.jobs && id in states[m + 1].board.jobs
    ensures Admits(states[m].tables, states[n].board.jobs[id])
    ensures var j := states[n].board.jobs[id];
            j.workflow in states[n].tables.workflows
            && j.expectedVersion <= states[n].tables.workflows[j.workflow].version
    decreases n
  {
    hide S.Inv, J.Inv, M.Step, M.WellFormed, C.WellFormed, C.Apply, J.Changes, Admits;
    HistoryKeeps(states, acts, n);
    HistoryKeeps(states, acts, n - 1);
    var s, after := states[n - 1], states[n];
    assert Step(s, acts[n - 1], after);
    if id in s.board.jobs {
      m := JobsAdmitted(states, acts, n - 1, id);
      if acts[n - 1].Work? {
        var reply :| M.Step(s.board, acts[n - 1].job, after.board, reply);
        J.StepKeeps(s.board, acts[n - 1].job, after.board, reply);
        JobMoved(s.board, after.board, id);
        AdmitsAlike(states[m].tables, s.board.jobs[id], after.board.jobs[id]);
      }
    } else {
      var reply :| M.Step(s.board, acts[n - 1].job, after.board, reply);
      NewJob(s.board, acts[n - 1].job, after.board, reply, s.tables, id);
      m := n - 1;
    }
  }

  lemma {:induction false} AdmitsAlike(t: C.Tables, a: M.Job, b: M.Job)
    requires a.workflow == b.workflow && a.expectedVersion == b.expectedVersion
    ensures Admits(t, a) <==> Admits(t, b)
  {
  }

  // ---------------------------------------------------------------- with honest callers

  /** The commands on the workflow tables, in order. */
  function Commands(acts: seq<Act>): seq<C.Command> {
    if acts == [] then []
    else Commands(acts[..|acts| - 1]) + if acts[|acts| - 1].Plane? then [acts[|acts| - 1].command] else []
  }

  lemma {:induction false} RunOneMore(t: C.Tables, cs: seq<C.Command>, c: C.Command)
    ensures C.Run(t, cs + [c]) == C.Apply(C.Run(t, cs), c).0
  {
    hide C.Apply;
    R.RunSplit(t, cs, [c]);
    assert [c][1..] == [];
  }

  /** The workflow tables of a history are those of its own commands. */
  lemma {:induction false} TablesOf(states: seq<System>, acts: seq<Act>, n: nat)
    requires IsHistory(states, acts) && n < |states|
    ensures states[n].tables == C.Run(C.EmptyTables, Commands(acts[..n]))
    decreases n
  {
    hide C.Apply, M.Step, C.WellFormed, M.WellFormed, C.Run;
    if n == 0 {
      NothingRun();
    } else {
      TablesOf(states, acts, n - 1);
      assert Step(states[n - 1], acts[n - 1], states[n]);
      assert acts[..n][..n - 1] == acts[..n - 1];
      var cs := Commands(acts[..n - 1]);
      if acts[n - 1].Plane? {
        RunOneMore(C.EmptyTables, cs, acts[n - 1].command);
      } else {
        assert cs + [] == cs;
      }
    }
  }

  lemma {:induction false} NothingRun()
    ensures C.Run(C.EmptyTables, []) == C.EmptyTables
  {
  }

  lemma {:induction false} CommandsPrefix(acts: seq<Act>, m: nat)
    requires m <= |acts|
    ensures Commands(acts[..m]) <= Commands(acts)
    decreases |acts|
  {
    if m < |acts| {
      CommandsPrefix(acts[..|acts| - 1], m);
      assert acts[..|acts| - 1][..m] == acts[..m];
    } else {
      assert acts[..m] == acts;
    }
  }

  lemma {:induction false} HonestPrefix(t: C.Tables, front: seq<C.Command>, cs: seq<C.Command>)
    requires L.HonestRun(t, cs) && front <= cs
    ensures L.HonestRun(t, front)
    decreases |front|
  {
    hide C.Apply, L.Honest, C.WellFormed;
    if front != [] {
      assert front[1..] <= cs[1..];
      HonestPrefix(C.Apply(t, front[0]).0, front[1..], cs[1..]);
    }
  }

  /** When a job is created, no transport attempt of its workflow is open. */
  lemma {:induction false} JobsStartClean(states: seq<System>, acts: seq<Act>, n: nat, id: W.Uuid) returns (m: nat)
    requires IsHistory(states, acts) && n < |states| && id in states[n].board.jobs
    requires L.HonestRun(C.EmptyTables, Commands(acts))
    ensures m < n && id !in states[m].board.jobs && id in states[m + 1].board.jobs
    ensures var w, t := states[n].board.jobs[id].workflow, states[m].tables;
            forall i :: i in t.transports && t.transports[i].workflow == w ==> t.transports[i].status == W.ConfirmedFailed
  {
    hide L.HonestRun, IsHistory, C.Run;
    m := JobsAdmitted(states, acts, n, id);
    Lengths(states, acts);
    CommandsPrefix(acts, m);
    HonestPrefix(C.EmptyTables, Commands(acts[..m]), Commands(acts));
    TablesOf(states, acts, m);
    A.StatusTellsAttempts(Commands(acts[..m]), states[n].board.jobs[id].workflow);
  }

  lemma {:induction false} Lengths(states: seq<System>, acts: seq<Act>)
    requires IsHistory(states, acts)
    ensures |states| == |acts| + 1
  {
  }
}
