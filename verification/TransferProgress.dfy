/**
 * The progress of a transfer as the job table sees it: every report a successful transfer emits is
 * taken, as long as the job is loading and its clock moves on.
 */
module TransferProgress {
  import opened Common
  import opened TransportModel
  import B = BatchTransport
  import opened MigrationJobs

  /** A job that is loading, and has not reported anything yet. */
  predicate StartsLoading(b: Board, id: Uuid) {
    && id in b.jobs && ValidJob(b.jobs[id])
    && b.jobs[id].status == Running && b.jobs[id].stage == LoadingStage && b.jobs[id].progress.None?
  }

  /** One time per report, not before `start`, each later than the one before. */
  predicate Ticking(times: seq<Time>, start: Time) {
    && (forall i :: 0 <= i < |times| ==> start <= times[i])
    && forall i :: 0 < i < |times| ==> times[i - 1] < times[i]
  }

  function WithProgress(j: Job, p: Progress, at: Time): Job {
    j.(progress := Some(p), progressAt := Some(at))
  }

  /** The table after the first `n` reports have been delivered. */
  function AfterReports(b: Board, id: Uuid, reports: seq<Progress>, times: seq<Time>, n: nat): Board
    requires n <= |reports| == |times|
  {
    if n == 0 then b
    else Report(AfterReports(b, id, reports, times, n - 1), id, reports[n - 1], times[n - 1]).0
  }

  /** The table once the first `n` reports were taken: only the progress of the job has changed. */
  function Expected(b: Board, id: Uuid, reports: seq<Progress>, times: seq<Time>, n: nat): Board
    requires n <= |reports| == |times| && id in b.jobs
  {
    if n == 0 then b else WithJob(b, WithProgress(b.jobs[id], reports[n - 1], times[n - 1]))
  }

  lemma {:induction false} NextReportTaken(
    b: Board, id: Uuid, script: seq<B.Reading>, estimate: Option<int>, reports: seq<Progress>, times: seq<Time>, n: nat)
    requires StartsLoading(b, id) && b.jobs[id].id == id && B.Reported(reports, script, estimate)
    requires |times| == |reports| && n < |reports| && Ticking(times, b.jobs[id].startedAt.value)
    ensures Report(Expected(b, id, reports, times, n), id, reports[n], times[n])
            == (Expected(b, id, reports, times, n + 1),
                Answer(WithProgress(b.jobs[id], reports[n], times[n]), true))
  {
    hide B.RowsOf;
    var before := Expected(b, id, reports, times, n);
    var j := before.jobs[id];
    assert Newer(B.Before(reports, n), reports[n]) && ValidProgress(reports[n]);
    assert TakesReport(j, reports[n], times[n]);
    assert WithProgress(j, reports[n], times[n]) == WithProgress(b.jobs[id], reports[n], times[n]);
    assert WithJob(before, WithProgress(j, reports[n], times[n])).jobs
        == b.jobs[id := WithProgress(b.jobs[id], reports[n], times[n])];
  }

  /** No report of a successful transfer is refused, and none changes anything but the progress. */
  lemma {:induction false} EmittedReportsAccepted(
    b: Board, id: Uuid, script: seq<B.Reading>, estimate: Option<int>, reports: seq<Progress>, times: seq<Time>, n: nat)
    requires StartsLoading(b, id) && b.jobs[id].id == id && B.Reported(reports, script, estimate)
    requires |times| == |reports| && n <= |reports| && Ticking(times, b.jobs[id].startedAt.value)
    ensures AfterReports(b, id, reports, times, n) == Expected(b, id, reports, times, n)
    ensures n < |reports| ==>
              Report(AfterReports(b, id, reports, times, n), id, reports[n], times[n]).1
              == Answer(WithProgress(b.jobs[id], reports[n], times[n]), true)
  {
    hide B.Reported, Ticking, Report, Expected;
    if n > 0 {
      EmittedReportsAccepted(b, id, script, estimate, reports, times, n - 1);
      NextReportTaken(b, id, script, estimate, reports, times, n - 1);
    } else {
      NothingExpected(b, id, reports, times);
    }
    if n < |reports| {
      NextReportTaken(b, id, script, estimate, reports, times, n);
    }
  }

  lemma {:induction false} NothingExpected(b: Board, id: Uuid, reports: seq<Progress>, times: seq<Time>)
    requires |reports| == |times| && id in b.jobs
    ensures Expected(b, id, reports, times, 0) == b
  {
  }
}
