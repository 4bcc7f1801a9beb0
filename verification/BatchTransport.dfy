/**
 * Copying a source table into a managed staging table in batches, and what a failed copy leaves.
 * The remote side may fail after an operation took effect, before it, or half way.
 */
module BatchTransport {
  import opened Common
  import opened MappingModel
  import opened TransportModel

  type Tables = map<Relation, seq<DataRow>>

  /** Only the given relation may differ. */
  ghost predicate OthersKept(relation: Relation, before: Tables, after: Tables) {
    forall r :: r != relation ==> (r in before <==> r in after) && (r in before ==> after[r] == before[r])
  }

  /** The staging side of the target database. A steady one does what it is asked to and answers. */
  class StagingWriter {
    var tables: Tables
    const steady: bool

    constructor (tables: Tables, steady: bool)
      ensures this.tables == tables && this.steady == steady
    {
      this.tables := tables;
      this.steady := steady;
    }

    /** Creates an empty table and never overwrites one; the answer may be lost. */
    method Prepare(relation: Relation) returns (ok: bool)
      modifies this
      ensures ok ==> relation !in old(tables) && tables == old(tables)[relation := []]
      ensures !ok ==> tables == old(tables) || (relation !in old(tables) && tables == old(tables)[relation := []])
      ensures steady && relation !in old(tables) ==> ok
    {
      var created: bool := *;
      var answered: bool := *;
      ok := false;
      if relation !in tables && (created || steady) {
        tables := tables[relation := []];
        ok := answered || steady;
      }
    }

    /** Appends a batch. Exact evidence proves that it was appended; anything else proves nothing. */
    method Write(relation: Relation, batch: DataBatch) returns (result: Option<WriteResult>)
      modifies this
      ensures result == Some(WriteResult(batch.number, |batch.rows|, |batch.rows|)) && relation in old(tables) ==>
                tables == old(tables)[relation := old(tables)[relation] + batch.rows]
      ensures result == Some(WriteResult(batch.number, |batch.rows|, |batch.rows|)) ==> relation in old(tables)
      ensures OthersKept(relation, old(tables), tables)
      ensures steady && relation in old(tables) ==> result == Some(WriteResult(batch.number, |batch.rows|, |batch.rows|))
    {
      var arrived: int := *;
      var answered: bool := *;
      var report: Option<WriteResult> := *;
      var exact := WriteResult(batch.number, |batch.rows|, |batch.rows|);
      if relation !in tables { return None; }
      if steady || (answered && arrived >= |batch.rows|) {
        tables := tables[relation := tables[relation] + batch.rows];
        return Some(exact);
      }
      if 0 <= arrived <= |batch.rows| { tables := tables[relation := tables[relation] + batch.rows[..arrived]]; }
      result := if report == Some(exact) then None else report;
    }

    /** Drops a table if it exists; a confirmed drop proves that it is gone. */
    method Drop(relation: Relation) returns (ok: bool)
      modifies this
      ensures ok ==> tables == old(tables) - {relation}
      ensures !ok ==> tables == old(tables) || tables == old(tables) - {relation}
      ensures steady ==> ok
    {
      var dropped: bool := *;
      var answered: bool := *;
      if dropped || steady {
        tables := tables - {relation};
        ok := answered || steady;
      } else {
        ok := false;
      }
    }
  }

  /** What the source reader yields next: a batch, something else, or an exception. */
  datatype Reading = Batch(batch: DataBatch) | NoBatch | ReadFailure

  /** Receives progress after each completed batch; it may refuse unless it is steady. */
  class ProgressReporter {
    var received: seq<Progress>
    const steady: bool

    constructor (steady: bool)
      ensures received == [] && this.steady == steady
    {
      received := [];
      this.steady := steady;
    }

    method Report(p: Progress) returns (ok: bool)
      modifies this
      ensures ok ==> received == old(received) + [p]
      ensures !ok ==> received == old(received)
      ensures steady ==> ok
    {
      ok := *;
      ok := ok || steady;
      if ok { received := received + [p]; }
    }
  }

  datatype SourceTable = SourceTable(
    catalog: Option<string>, schema: string, table: string, columns: seq<string>, estimate: Option<nat>)

  predicate ValidSource(t: SourceTable) {
    ValidRelation(Relation(t.catalog, t.schema, t.table)) && forall i :: 0 <= i < |t.columns| ==> ValidName(t.columns[i])
  }

  datatype TransferError =
    | InvalidArgument | PrepareFailed | ReadFailed | InvalidBatch | WriteFailed | InvalidEvidence | ReportFailed

  function StagingRelation(id: nat, database: string, schema: string): Relation {
    Relation(Some(database), schema, StagingName(id))
  }

  /** The rows of a script of batches, in order. */
  function RowsOf(script: seq<Reading>): seq<DataRow> {
    if script == [] then []
    else RowsOf(script[..|script| - 1]) + if script[|script| - 1].Batch? then script[|script| - 1].batch.rows else []
  }

  /** Batches numbered from one, with the declared columns and no more rows than asked for. */
  predicate GoodScript(script: seq<Reading>, columns: seq<string>, size: int) {
    forall i :: 0 <= i < |script| ==>
      && script[i].Batch? && script[i].batch.number == i + 1
      && script[i].batch.columns == columns && 1 <= |script[i].batch.rows| <= size
  }

  function Before(reports: seq<Progress>, i: nat): Option<Progress>
    requires i <= |reports|
  {
    if i == 0 then None else Some(reports[i - 1])
  }

  /** The reports of a transfer: cumulative, one per batch, each strictly newer than the one before. */
  ghost predicate Reported(reports: seq<Progress>, script: seq<Reading>, estimate: Option<int>) {
    && |reports| == |script|
    && (forall i :: 0 <= i < |reports| ==>
          reports[i] == Progress(i + 1, |RowsOf(script[..i + 1])|, |RowsOf(script[..i + 1])|, estimate)
          && ValidProgress(reports[i]))
    && forall i :: 0 <= i < |reports| ==> Newer(Before(reports, i), reports[i])
  }

  lemma {:induction false} RowsBounded(script: seq<Reading>, columns: seq<string>, size: int)
    requires GoodScript(script, columns, size)
    ensures |script| <= |RowsOf(script)| <= |script| * size
  {
    if script != [] {
      var front := script[..|script| - 1];
      RowsBounded(front, columns, size);
      assert |script| * size == |front| * size + size;
    }
  }

  /** One more good batch: the counters of its report are valid and newer than all before. */
  lemma {:induction false} OneMoreReport(
    script: seq<Reading>, n: nat, columns: seq<string>, size: int, reports: seq<Progress>, estimate: Option<int>)
    requires n < |script| && GoodScript(script[..n + 1], columns, size) && (estimate.Some? ==> estimate.value >= 0)
    requires Reported(reports, script[..n], estimate)
    ensures var total := |RowsOf(script[..n])| + |script[n].batch.rows|;
            var p := Progress(n + 1, total, total, estimate);
            RowsOf(script[..n + 1]) == RowsOf(script[..n]) + script[n].batch.rows
            && ValidProgress(p) && Reported(reports + [p], script[..n + 1], estimate)
  {
    hide RowsOf, Newer, ValidProgress;
    RowsStep(script, n);
    var s := script[..n + 1];
    assert s[n] == script[n];
    var total := |RowsOf(script[..n])| + |script[n].batch.rows|;
    var p := Progress(n + 1, total, total, estimate);
    var all := reports + [p];
    LastReport(script, n, columns, size, reports, estimate);
    forall i | 0 <= i < |all|
      ensures all[i] == Progress(i + 1, |RowsOf(s[..i + 1])|, |RowsOf(s[..i + 1])|, estimate) && ValidProgress(all[i])
      ensures Newer(Before(all, i), all[i])
    {
      if i < n {
        assert script[..n][..i + 1] == s[..i + 1] && all[i] == reports[i];
        if i > 0 { assert all[i - 1] == reports[i - 1]; }
      } else {
        assert s[..n + 1] == s && all[i] == p;
        if n > 0 { assert all[n - 1] == reports[n - 1]; }
      }
    }
  }

  /** The report of a good batch is valid and newer than the one before. */
  lemma {:induction false} LastReport(
    script: seq<Reading>, n: nat, columns: seq<string>, size: int, reports: seq<Progress>, estimate: Option<int>)
    requires n < |script| && GoodScript(script[..n + 1], columns, size) && (estimate.Some? ==> estimate.value >= 0)
    requires Reported(reports, script[..n], estimate) && |reports| == n && script[n].Batch?
    ensures var total := |RowsOf(script[..n])| + |script[n].batch.rows|;
            var p := Progress(n + 1, total, total, estimate);
            ValidProgress(p) && Newer(Before(reports, n), p)
  {
    hide RowsOf;
    assert script[..n + 1][n] == script[n];
    if n > 0 { assert script[..n][..n] == script[..n]; }
  }

  lemma {:induction false} RowsStep(script: seq<Reading>, n: nat)
    requires n < |script| && script[n].Batch?
    ensures RowsOf(script[..n + 1]) == RowsOf(script[..n]) + script[n].batch.rows
  {
    var s := script[..n + 1];
    assert s[..|s| - 1] == script[..n] && s[|s| - 1] == script[n];
  }

  lemma {:induction false} NoRows()
    ensures RowsOf([]) == []
  {
  }

  /** The arguments a transfer checks before it touches the target. */
  predicate Startable(source: SourceTable, database: string, schema: string, batchSize: int, timeout: int) {
    && batchSize > 0 && timeout > 0 && ValidName(database) && ValidName(schema)
    && source.columns != [] && Distinct(source.columns)
  }

  /** Neither the target nor the receiver of progress can fail, and the staging table is new. */
  predicate Undisturbed(writer: StagingWriter, reporter: ProgressReporter?, staging: Relation)
    reads writer
  {
    writer.steady && (reporter != null ==> reporter.steady) && staging !in writer.tables
  }

  /**
   * Prepares staging and copies every batch. On success staging holds exactly the rows read, in
   * order, the counters agree with them, and every batch was reported. Whatever happens, no other
   * table changes. When neither side fails, only the batches decide.
   */
  method Transfer(
    script: seq<Reading>, writer: StagingWriter, reporter: ProgressReporter?, id: nat, source: SourceTable,
    database: string, schema: string, batchSize: int, timeout: int)
    returns (r: Result<TransportResult, TransferError>)
    requires IsId(id) && ValidSource(source)
    requires forall i :: 0 <= i < |script| && script[i].Batch? ==> ValidBatch(script[i].batch)
    modifies writer, reporter
    ensures OthersKept(StagingRelation(id, database, schema), old(writer.tables), writer.tables)
    ensures r.Ok? ==> StagingRelation(id, database, schema) !in old(writer.tables)
    ensures r.Ok? ==> writer.tables == old(writer.tables)[StagingRelation(id, database, schema) := RowsOf(script)]
    ensures r.Ok? ==> GoodScript(script, source.columns, batchSize)
    ensures r.Ok? ==> ValidResult(r.value) && r.value.staging == StagingRelation(id, database, schema)
    ensures r.Ok? ==> r.value.batches == |script| && r.value.read == r.value.written == |RowsOf(script)|
    ensures r.Ok? ==> |script| <= r.value.read <= |script| * batchSize
    ensures r.Ok? && reporter != null ==>
              exists reports :: reporter.received == old(reporter.received) + reports
                                && Reported(reports, script, source.estimate)
    ensures r == Err(InvalidArgument) <==> !Startable(source, database, schema, batchSize, timeout)
    ensures r == Err(InvalidArgument) ==> writer.tables == old(writer.tables)
    ensures Startable(source, database, schema, batchSize, timeout)
            && old(Undisturbed(writer, reporter, StagingRelation(id, database, schema))) ==>
              (r.Ok? <==> GoodScript(script, source.columns, batchSize))
    ensures r == Err(ReadFailed) ==> ReadFailure in script
    ensures r == Err(InvalidBatch) ==> !GoodScript(script, source.columns, batchSize)
    ensures r == Err(PrepareFailed) ==> !writer.steady || StagingRelation(id, database, schema) in old(writer.tables)
    ensures r == Err(WriteFailed) || r == Err(InvalidEvidence) ==> !writer.steady
    ensures r == Err(ReportFailed) ==> reporter != null && !reporter.steady
  {
    hide RowsOf, ValidBatch, ValidName, Reported, IsId, StagingName, ValidSource;
    if batchSize <= 0 || timeout <= 0 { return Err(InvalidArgument); }
    if !ValidName(database) || !ValidName(schema) { return Err(InvalidArgument); }
    var staging := StagingRelation(id, database, schema);
    if source.columns == [] || !Distinct(source.columns) { return Err(InvalidArgument); }
    var prepared := writer.Prepare(staging);
    if !prepared { return Err(PrepareFailed); }
    var batches, read, written := 0, 0, 0;
    ghost var reports: seq<Progress> := [];
    ghost var before := old(writer.tables);
    NoRows();
    NothingReported(source.estimate);
    var i := 0;
    while i < |script|
      invariant 0 <= i <= |script| && batches == i
      invariant GoodScript(script[..i], source.columns, batchSize)
      invariant staging !in before && writer.tables == before[staging := RowsOf(script[..i])]
      invariant read == written == |RowsOf(script[..i])|
      invariant reporter != null ==> reporter.received == old(reporter.received) + reports
      invariant Reported(reports, script[..i], source.estimate)
    {
      if script[i].ReadFailure? { return Err(ReadFailed); }
      if script[i].NoBatch? { return Err(InvalidBatch); }
      var batch := script[i].batch;
      BatchHasRows(batch);
      if batch.number != batches + 1 || batch.columns != source.columns || |batch.rows| > batchSize {
        return Err(InvalidBatch);
      }
      ghost var loaded := writer.tables;
      var result := writer.Write(staging, batch);
      KeptFrom(staging, before, loaded, writer.tables);
      if result.None? { return Err(WriteFailed); }
      if result.value.number != batch.number || result.value.received != |batch.rows|
         || result.value.written != |batch.rows| {
        return Err(InvalidEvidence);
      }
      assert script[..i + 1] == script[..i] + [script[i]];
      OneMoreReport(script, i, source.columns, batchSize, reports, source.estimate);
      batches := batches + 1;
      read := read + |batch.rows|;
      written := written + result.value.written;
      var progress := Progress(batches, read, written, source.estimate);
      if reporter != null {
        var ok := reporter.Report(progress);
        if !ok { return Err(ReportFailed); }
      }
      reports := reports + [progress];
      i := i + 1;
    }
    assert script[..i] == script;
    RowsBounded(script, source.columns, batchSize);
    r := Ok(TransportResult(id, Relation(source.catalog, source.schema, source.table), staging, batchSize, batches,
                            |source.columns|, read, written));
  }

  lemma {:induction false} NothingReported(estimate: Option<int>)
    ensures Reported([], [], estimate)
  {
  }

  lemma {:induction false} BatchHasRows(b: DataBatch)
    requires ValidBatch(b)
    ensures b.rows != []
  {
  }

  lemma {:induction false} KeptFrom(relation: Relation, before: Tables, loaded: Tables, after: Tables)
    requires relation in loaded && loaded == before[relation := loaded[relation]]
    requires OthersKept(relation, loaded, after)
    ensures OthersKept(relation, before, after)
  {
  }

  // ---------------------------------------------------------------- classification

  datatype Disposition = Succeeded | ConfirmedFailedCleanedUp | OutcomeUncertain

  datatype RunResult = RunResult(disposition: Disposition, result: Option<TransportResult>, failure: Option<string>)

  /** What a disposition proves about the staging table; every other table is as before. */
  ghost predicate Proves(
    d: Disposition, staging: Relation, rows: seq<DataRow>, before: Tables, after: Tables)
  {
    && OthersKept(staging, before, after)
    && (d == Succeeded ==> staging in after && after[staging] == rows)
    && (d == ConfirmedFailedCleanedUp ==> staging !in after)
  }

  /**
   * Copies once; a failure counts as confirmed only when the managed table is known to be gone.
   * Without a valid database and schema nothing is attempted.
   */
  method Run(
    script: seq<Reading>, writer: StagingWriter, reporter: ProgressReporter?, id: nat, source: SourceTable,
    database: string, schema: string, batchSize: int, timeout: int)
    returns (r: Option<RunResult>)
    requires IsId(id) && ValidSource(source)
    requires forall i :: 0 <= i < |script| && script[i].Batch? ==> ValidBatch(script[i].batch)
    modifies writer, reporter
    ensures r.Some? <==> ValidName(database) && ValidName(schema)
    ensures r.None? ==> writer.tables == old(writer.tables)
    ensures r.Some? ==> Proves(r.value.disposition, StagingRelation(id, database, schema), RowsOf(script),
                               old(writer.tables), writer.tables)
    ensures r.Some? ==> (r.value.disposition == Succeeded <==> r.value.result.Some?)
    ensures r.Some? ==> (r.value.disposition == Succeeded <==> r.value.failure.None?)
    ensures r.Some? && r.value.result.Some? ==>
              r.value.result.value.read == |RowsOf(script)|
              && r.value.result.value.staging == StagingRelation(id, database, schema)
    ensures r.Some? && Startable(source, database, schema, batchSize, timeout)
            && old(Undisturbed(writer, reporter, StagingRelation(id, database, schema))) ==>
              r.value.disposition == if GoodScript(script, source.columns, batchSize) then Succeeded
                                     else ConfirmedFailedCleanedUp
    ensures r.Some? && writer.steady ==> r.value.disposition != OutcomeUncertain
    ensures r.Some? && r.value.disposition == OutcomeUncertain ==>
              r.value.failure == Some("STAGING_OUTCOME_UNCERTAIN")
    ensures r.Some? && r.value.disposition == ConfirmedFailedCleanedUp ==>
              || r.value.failure == Some("STAGING_LOAD_FAILED")
              || (r.value.failure == Some("PROGRESS_REPORTING_FAILED") && reporter != null && !reporter.steady)
    ensures r.Some? && Startable(source, database, schema, batchSize, timeout) && GoodScript(script, source.columns, batchSize)
            && writer.steady && StagingRelation(id, database, schema) !in old(writer.tables) ==>
              r.value.failure.None? || r.value.failure == Some("PROGRESS_REPORTING_FAILED")
  {
    hide RowsOf, ValidBatch, ValidName, IsId, StagingName, ValidSource;
    if !ValidName(database) || !ValidName(schema) { return None; }
    var staging := StagingRelation(id, database, schema);
    assert GoodScript(script, source.columns, batchSize) ==> ReadFailure !in script;
    var transferred := Transfer(script, writer, reporter, id, source, database, schema, batchSize, timeout);
    if transferred.Ok? { return Some(RunResult(Succeeded, Some(transferred.value), None)); }
    var dropped := writer.Drop(staging);
    if !dropped { return Some(RunResult(OutcomeUncertain, None, Some("STAGING_OUTCOME_UNCERTAIN"))); }
    var category := if transferred.error == ReportFailed then "PROGRESS_REPORTING_FAILED" else "STAGING_LOAD_FAILED";
    r := Some(RunResult(ConfirmedFailedCleanedUp, None, Some(category)));
  }

  /** Removes one managed table; a table with any other name is never touched. */
  method CleanupStaging(
    writer: StagingWriter, database: string, relation: Relation, authorised: bool, timeout: int) returns (ok: bool)
    modifies writer
    ensures ok ==> Managed(relation.table) && relation.catalog == Some(database) && writer.tables == old(writer.tables) - {relation}
    ensures !ok ==> writer.tables == old(writer.tables) || writer.tables == old(writer.tables) - {relation}
    ensures !Managed(relation.table) || relation.catalog != Some(database) || !authorised || timeout <= 0 ==>
              !ok && writer.tables == old(writer.tables)
    ensures Managed(relation.table) && relation.catalog == Some(database) && authorised && timeout > 0 && writer.steady ==> ok
  {
    if relation.catalog != Some(database) || !Managed(relation.table) { return false; }
    if !authorised || timeout <= 0 { return false; }
    ok := writer.Drop(relation);
  }

  // ---------------------------------------------------------------- retries

  /** One attempt of a workflow: its transport id, the rows it read and how it was classified. */
  datatype Attempt = Attempt(id: nat, rows: seq<DataRow>, disposition: Disposition)

  /** Attempt after attempt, each with its own identifier. */
  ghost predicate Attempted(states: seq<Tables>, attempts: seq<Attempt>, database: string, schema: string) {
    && |states| == |attempts| + 1
    && (forall i :: 0 <= i < |attempts| ==> IsId(attempts[i].id))
    && (forall i, j :: 0 <= i < j < |attempts| ==> attempts[i].id != attempts[j].id)
    && forall i :: 0 <= i < |attempts| ==>
         Proves(attempts[i].disposition, StagingRelation(attempts[i].id, database, schema), attempts[i].rows,
                states[i], states[i + 1])
  }

  /** The staging tables the attempts left. */
  ghost function Left(tables: Tables, attempts: seq<Attempt>, database: string, schema: string): set<Relation> {
    set r | r in tables && exists i :: 0 <= i < |attempts| && r == StagingRelation(attempts[i].id, database, schema)
  }

  function CountOf(attempts: seq<Attempt>, d: Disposition): nat {
    if attempts == [] then 0
    else CountOf(attempts[..|attempts| - 1], d) + if attempts[|attempts| - 1].disposition == d then 1 else 0
  }

  lemma {:induction false} RelationsDiffer(a: nat, b: nat, database: string, schema: string)
    requires IsId(a) && IsId(b) && a != b
    ensures StagingRelation(a, database, schema) != StagingRelation(b, database, schema)
  {
    hide StagingName, IsId;
    if StagingName(a) == StagingName(b) { StagingNamesInjective(a, b); }
  }

  /**
   * However often a load is retried: every success still has its table with its rows, every
   * confirmed failure has none, and only uncertain outcomes may have left one more.
   */
  lemma {:induction false} RetriesLeave(states: seq<Tables>, attempts: seq<Attempt>, database: string, schema: string)
    requires Attempted(states, attempts, database, schema)
    ensures var last := states[|attempts|];
            forall i :: 0 <= i < |attempts| ==>
              var staging := StagingRelation(attempts[i].id, database, schema);
              && (attempts[i].disposition == Succeeded ==> staging in last && last[staging] == attempts[i].rows)
              && (attempts[i].disposition == ConfirmedFailedCleanedUp ==> staging !in last)
    decreases |attempts|
  {
    hide StagingRelation, IsId;
    if attempts != [] {
      var n := |attempts| - 1;
      var earlier := attempts[..n];
      assert Attempted(states[..n + 1], earlier, database, schema);
      RetriesLeave(states[..n + 1], earlier, database, schema);
      var staging := StagingRelation(attempts[n].id, database, schema);
      forall i | 0 <= i < n
        ensures StagingRelation(attempts[i].id, database, schema) != staging && attempts[i] == earlier[i]
      {
        RelationsDiffer(attempts[i].id, attempts[n].id, database, schema);
      }
    }
  }

  lemma {:induction false} LeftStep(states: seq<Tables>, attempts: seq<Attempt>, database: string, schema: string)
    requires Attempted(states, attempts, database, schema) && attempts != []
    ensures var n := |attempts| - 1;
            var staging := StagingRelation(attempts[n].id, database, schema);
            var before := Left(states[n], attempts[..n], database, schema);
            staging !in before &&
            Left(states[n + 1], attempts, database, schema) == before + (if staging in states[n + 1] then {staging} else {})
  {
    hide StagingRelation, IsId;
    var n := |attempts| - 1;
    var earlier := attempts[..n];
    var staging := StagingRelation(attempts[n].id, database, schema);
    forall i | 0 <= i < n ensures StagingRelation(earlier[i].id, database, schema) != staging {
      RelationsDiffer(attempts[i].id, attempts[n].id, database, schema);
    }
    var before, after := Left(states[n], earlier, database, schema), Left(states[n + 1], attempts, database, schema);
    assert Proves(attempts[n].disposition, staging, attempts[n].rows, states[n], states[n + 1]);
    forall r ensures r in after <==> r in before || (r == staging && staging in states[n + 1]) {
      if r in before {
        var i :| 0 <= i < |earlier| && r == StagingRelation(earlier[i].id, database, schema);
        assert attempts[i] == earlier[i];
      }
      if r in after && r != staging {
        var i :| 0 <= i < |attempts| && r == StagingRelation(attempts[i].id, database, schema);
        assert i < n && earlier[i] == attempts[i];
      }
    }
  }

  /** One table per success and at most one per uncertain outcome. */
  lemma {:induction false} TablesLeft(states: seq<Tables>, attempts: seq<Attempt>, database: string, schema: string)
    requires Attempted(states, attempts, database, schema)
    ensures CountOf(attempts, Succeeded)
            <= |Left(states[|attempts|], attempts, database, schema)|
            <= CountOf(attempts, Succeeded) + CountOf(attempts, OutcomeUncertain)
    decreases |attempts|
  {
    hide StagingRelation, IsId, Left, OthersKept;
    if attempts == [] {
      NothingLeft(states[0], database, schema);
    } else {
      hide Attempted;
      var n := |attempts| - 1;
      EarlierAttempts(states, attempts, database, schema);
      TablesLeft(states[..n + 1], attempts[..n], database, schema);
      LeftStep(states, attempts, database, schema);
    }
  }

  lemma {:induction false} NothingLeft(tables: Tables, database: string, schema: string)
    ensures Left(tables, [], database, schema) == {}
  {
  }

  lemma {:induction false} EarlierAttempts(
    states: seq<Tables>, attempts: seq<Attempt>, database: string, schema: string)
    requires Attempted(states, attempts, database, schema) && attempts != []
    ensures var n := |attempts| - 1;
            && Attempted(states[..n + 1], attempts[..n], database, schema)
            && |states| == n + 2 && states[..n + 1][n] == states[n]
            && Proves(attempts[n].disposition, StagingRelation(attempts[n].id, database, schema), attempts[n].rows,
                      states[n], states[n + 1])
  {
    hide StagingRelation, IsId, Proves;
  }
}
