# SchemaBridge verification

A Dafny model of SchemaBridge's governed migration engine, with proofs of what its
parts promise each other. `dafny verify dfyconfig.toml` checks the whole project.

## What is modelled

**The durable control plane** (`WorkflowModel`, `ControlPlane*`, `AuditTrail`,
`WorkflowPaths`, `WorkflowRepository`). The tables of the repository are maps and one
sequence of events. Each repository method is one atomic transaction: `ControlPlane.Decide`
makes the checks of the method in its order, `ControlPlane.Commit` writes all rows or
none, and a row that its model constructor refuses rolls the transaction back. The class
`Repository` does the same step by step on fields, and every method is proved equal to
its transaction. A run is any sequence of transactions: workers interleave freely, and a
crash is a transaction that never comes. What the repository leaves to its callers is the
predicate `ControlPlaneLifecycle.Honest`: events carry the true statuses and workflow,
`transition_status` is called only along the status graph and never for the three claimed
statuses, completions name an attempt of their own workflow and agree with their evidence,
and workflows start as version 1 in DRAFT. Safety holds without it; what a status and a log
say about the past needs it. `ControlPlaneEffects` says, on the rows alone, when each transaction
takes effect and what it leaves.

**Migration jobs** (`MigrationJobs`, `JobRuns`, `JobEffects`). The job table with its stage graph,
claims under row locks, progress and completion. `JobAdmission` runs both sets of tables together and
ties every job to the workflow it was created from.

**Compilers** (`MappingModel`, `Ordering`, `SqlText`, `SqlTree`, `SqlStatement`, `SqlMeaning`,
`Transformation`, `ExpressionRenderer`, `CompiledPlan`, `TransformationCompiler`). Approved
expressions have a meaning, SQL trees have a meaning, and generated text is lexed and parsed
back before it is evaluated, so that `TransformationCompiler.Compile` is specified by what its
text and its parameters do to rows, not by how they are assembled. The meaning of casts
and concatenations is a parameter (`Ops`) shared by all dialects, and the theorems hold for
every choice of it; COALESCE is the first value that is not NULL.
The expression renderers of `mapping/sql.py`, `target_execution/dialect_compiler.py` and
`validation/sql.py` have the same branches in the same order and differ only in quoting, name
limits and type names; they are one method with a `Profile` parameter, so that their agreement
(`Transformation.SameShape`) is a corollary of reading them as one. `NativeTypes` holds the names
of a cast against the tables with which discovery reads native types.

**The statement guard** (`SqlGuard`, `GeneratedSqlAccepted`, `SqlGuardRefusals`). The guard masks
quoted content with four patterns and then looks for comments and separators.

**Validation** (`Digits`, `Reconciliation`, `ValidationSql`, `ValidationCompiler`,
`ValidationMeaning`, `PairedValidation`, `KeyBatchSql`, `KeyBatches`, `KeyReconciliation`).
The paired aggregate queries, their reconciliation, the paging loop over primary keys against a
database that may return short or malformed answers, and the comparison of key multisets.

**Bounded transport** (`TransportModel`, `BatchTransport`, `TransferProgress`). The copy loop
against a staging writer whose every operation may fail after taking effect, the
classification of the outcome, cleanup, any sequence of retries, and the job table's view of
the reports.

**Suggestion and approval** (`Columns`, `ColumnValues`, `Suggestions`, `SuggestionScores`,
`SuggestionService`, `SuggestionProperties`, `MappingApproval`, `ApprovalProperties`). Scores are
integers in hundredths. The classification of conversions is measured against the values a column
can hold.

**Storage** (`CanonicalJson`, `JsonTree`, `JsonLeaves`, `JsonColumn`, `PlanCodec`, `PlanArtifact`,
`PlanStorage`, `PlanExamples`). Canonical JSON, the encoding and decoding of approved plans, and
the JSONB column between the two, which refuses NUL, reorders members and writes numbers without
an exponent and zero without a sign.

## Findings

- The guard accepts every statement the compilers generate for any names at all, including
  names with quotes, semicolons, comment markers or brackets (`GeneratedSqlAccepted`); no
  condition on names is needed.
- Dates, times, timestamps with a time zone, finite decimals and identifiers are stored as text
  and come back as text; bytes, decimals that are not finite and timestamps without a time zone
  cannot be stored, and neither can integers of more than 4300 digits. A plan comes back from its
  encoding iff all its literals are JSON scalars and no integer is that long
  (`PlanStorage.PlanRoundTrip`, `PlanExamples.DatesLost`, `PlanExamples.LongIntegerRefused`).
- A JSON scalar can still be lost in the column: a number of magnitude 1e16 or more is hashed with
  an exponent and comes back as an integer, and negative zero comes back as zero, so that the check
  of the hash fails; a text that holds NUL is refused. `PlanStorage.PlanSurvives` gives the exact
  condition and `PlanExamples.NumbersLost` the inputs.
- A binary literal, an identifier, or a decimal that is not finite passes the constructor of its
  expression and of its plan, and is refused only by the constructor of the generated statement
  (`CompiledPlan.PlanCompiles`, `PlanExamples.BytesRefused`).
- Validation of two empty tables never passes: the null count of no rows is NULL, which is missing
  evidence. The report is INCOMPLETE in exactly this case (`PairedValidation.ReportStatus`).
- Staging success is not implied by a stored table: only the disposition SUCCEEDED proves its
  contents, and an uncertain outcome may leave one table (`BatchTransport.TablesLeft`).
- A source column can be suggested as ambiguous without being listed among the ambiguous columns,
  exactly when no target has a compatible type and at least one target of an incompatible type has
  a name that agrees, be it only by the same words in another order
  (`SuggestionProperties.AmbiguousUnlisted`, `SuggestionProperties.UnlistedExample`).
- A target name that consists of white space can be quoted and compiled, and is refused only by the
  constructor of the generated statement (`PlanExamples.BlankTargetRefused`).
- A conversion classified EXACT or SAFE can lose values: at equal precision more decimal places
  leave fewer digits before the point, and a limit the source does not state is not compared.
  `ColumnValues.SafeKeeps` gives the exact condition, `ColumnValues.ExactLoses` and
  `ColumnValues.UnstatedLoses` the inputs.

## Model

| member | source | states |
|---|---|---|
| ControlPlaneSafety.ApplyKeeps | schemabridge/persistence/postgresql.py:880-1216 | every transaction, committed or refused, keeps the whole invariant of the tables (one open attempt per kind and workflow, unique artifact versions, gapless audit numbers, receipts that name existing rows) and only ever extends what was recorded |
| ControlPlaneSafety.RunKeeps | schemabridge/persistence/postgresql.py:1329-2430 | the same over any interleaving of the transactions of any number of workers; a crash is a command that never comes |
| ControlPlaneRuns.SingleAttempts | schemabridge/persistence/postgresql.py:1329-2430 | whatever the workers do, a workflow has at most one transport and one execution attempt outside the confirmed-failed status, and at most one validation run ever |
| ControlPlaneRuns.StartedOnce | schemabridge/persistence/postgresql.py:1468-1500 | of all the mark-running calls for one attempt, in any interleaving, at most one answers True |
| ControlPlaneRuns.NoClaimAfterOpenEnd | schemabridge/persistence/postgresql.py:1735-1856 | after an attempt has succeeded, needs review or ended uncertain, no new attempt of its kind is ever claimed for the workflow |
| ControlPlaneRuns.Replay | schemabridge/persistence/postgresql.py:278-301 | repeating a command with the same scope, key and hash after any run of other commands changes no table and answers with the artifact, attempt or run the first one stored |
| ControlPlaneRuns.KeyReuse | schemabridge/persistence/postgresql.py:278-296 | the same scope and key with another hash conflicts for ever and changes nothing |
| ControlPlaneRuns.StaleConflicts | schemabridge/persistence/postgresql.py:898-918 | a command that is not a replay and expects another workflow version is refused as a version conflict |
| ControlPlaneRuns.OneCommitPerVersion | schemabridge/persistence/postgresql.py:880-964 | of two commands that expect the same version of a workflow at most one commits, whatever runs in between, and the loser is told of the conflict |
| ControlPlaneRuns.RunOrder | schemabridge/persistence/postgresql.py:303-332 | whatever a later command finds extends what an earlier command left: no row is lost, no stored artifact, event or receipt changes |
| ControlPlaneEffects.CommandTakes | schemabridge/persistence/postgresql.py:880-1216 | for each of the eleven transactions: the tables change iff its arguments fit each other and the rows found (stated on the rows, not through the decision), and then the workflow, artifact, attempt, events and receipt left, and the reply, are exactly the ones listed, with no other row of any table changed |
| ControlPlaneEffects.ClaimedStarts | schemabridge/persistence/postgresql.py:1468-1497 | an attempt of any kind that is claimed is started by the first call at or after its claim: the answer is True, its row becomes RUNNING at that time, and nothing else changes |
| ControlPlaneEffects.RefusalMeans | schemabridge/persistence/postgresql.py:880-964 | when a command that is not a replay is refused as not found, as an invalid transition or as already in progress, in terms of the rows |
| ControlPlaneEffects.UnfitRefused | schemabridge/persistence/postgresql.py:984-1010 | arguments that do not fit each other are refused without a change, whatever the tables hold |
| ControlPlaneReachable.HonestKeeps | schemabridge/services/workflows/persistence.py:498-577 | a command of a caller that keeps its contract leads from a reachable state to a reachable state, in which phases, audit stories, retry counts and artifact versions all agree |
| ControlPlaneReachable.HonestRunReaches | schemabridge/persistence/postgresql.py:1329-2430 | so does any run of such commands |
| ControlPlaneReachable.PhaseUntouched | schemabridge/models/workflow.py:329-424 | a legal status change that touches no attempt of a kind keeps the agreement between status and attempts of that kind |
| ControlPlaneReachable.RetryIsFailure | schemabridge/persistence/postgresql.py:1517-1539 | a workflow goes back to where the claim started exactly when an attempt of that kind is closed as confirmed failed |
| AuditTrail.StatusTellsAttempts | schemabridge/persistence/postgresql.py:1373-1460 | in every reachable state: STAGING, EXECUTING or VALIDATING iff exactly one attempt of that kind is claimed or running; STAGED implies a succeeded transport; in MAPPING_APPROVED and EXECUTION_READY every earlier attempt is confirmed failed; VALIDATED implies a succeeded execution and validation; recovery statuses imply an uncertain attempt |
| AuditTrail.RetryClaimable | schemabridge/persistence/postgresql.py:1373-1460 | in a ready status a new claim with unused ids and the current version is always granted, so a confirmed failure can always be retried |
| AuditTrail.RetriesMatchFailures | schemabridge/persistence/postgresql.py:1517-1539 | each way back from STAGING or EXECUTING is matched by exactly one confirmed-failed attempt |
| AuditTrail.LogTellsHistory | schemabridge/persistence/postgresql.py:303-332 | the audit events of a workflow are numbered 1..n, chain along the status graph from DRAFT to the current status, and their versions are nondecreasing and cover exactly 1..version |
| AuditTrail.ArtifactsNumbered | schemabridge/persistence/postgresql.py:984-1096 | artifact versions are exactly 1..latest, each stored once, and what is stored never changes in any later run |
| AuditTrail.VersionsCovered | schemabridge/persistence/postgresql.py:303-332 | versions that start at one and grow by at most one step per event leave none out |
| WorkflowPaths.StepAhead | schemabridge/models/workflow.py:329-424 | every legal status change uses up one of the steps ahead, except the two retries, which give one back |
| WorkflowPaths.LifeIsBounded | schemabridge/models/workflow.py:329-424 | a workflow changes its status at most 12 times plus twice per confirmed-failed transport or execution attempt |
| WorkflowPaths.ValidatedPassedAllGates | schemabridge/models/workflow.py:329-424 | a VALIDATED workflow passed through MAPPING_APPROVED, EXECUTION_READY and EXECUTED |
| WorkflowPaths.GraphMeans | schemabridge/models/workflow.py:329-424 | the status graph agrees with the outcomes of attempts: which steps prepare, start and end them, and from where a workflow can be given up |
| WorkflowRepository.Repository.Store | schemabridge/persistence/postgresql.py:341-392 | the rows of a transaction are written in order, and a row refused by the database or by a model constructor undoes all the rows before it |
| WorkflowRepository.Repository.StoreEvent | schemabridge/persistence/postgresql.py:303-332 | an event is stored under the next sequence number of its workflow with the given version, or refused with no change |
| WorkflowRepository.Repository.CreateWorkflow | schemabridge/persistence/postgresql.py:341-392 | refines the creation transaction |
| WorkflowRepository.Repository.TransitionStatus | schemabridge/persistence/postgresql.py:880-964 | refines the status transaction: replay, then version, then same-status refusal |
| WorkflowRepository.Repository.MarkFailed | schemabridge/persistence/postgresql.py:966-973 | is the status transaction to FAILED |
| WorkflowRepository.Repository.CancelWorkflow | schemabridge/persistence/postgresql.py:975-982 | is the status transaction to CANCELLED |
| WorkflowRepository.Repository.AppendArtifact | schemabridge/persistence/postgresql.py:984-1096 | refines the artifact transaction |
| WorkflowRepository.Repository.AppendArtifactOperation | schemabridge/persistence/postgresql.py:1098-1216 | refines the transaction that stores an artifact and changes the status together |
| WorkflowRepository.Repository.ClaimTransportAttempt | schemabridge/persistence/postgresql.py:1329-1466 | refines the transport claim |
| WorkflowRepository.Repository.ClaimExecutionAttempt | schemabridge/persistence/postgresql.py:1735-1855 | refines the execution claim |
| WorkflowRepository.Repository.ClaimValidationRun | schemabridge/persistence/postgresql.py:2075-2233 | refines the transaction that stores a validation plan and claims its run |
| WorkflowRepository.Repository.MarkAttemptRunning | schemabridge/persistence/postgresql.py:1857-1890 | refines the three mark-running transactions; with ControlPlaneEffects.ClaimedStarts, a claimed attempt is started |
| WorkflowRepository.Repository.CompleteTransportAttempt | schemabridge/persistence/postgresql.py:1501-1683 | refines the completion of a transport |
| WorkflowRepository.Repository.CompleteExecutionAttempt | schemabridge/persistence/postgresql.py:1892-2025 | refines the completion of an execution |
| WorkflowRepository.Repository.CompleteValidationRun | schemabridge/persistence/postgresql.py:2270-2430 | refines the completion of a validation run |
| MigrationJobs.JobRepository.CreateMigrationJob | schemabridge/persistence/postgresql.py:430-518 | refines job creation: replay, workflow version and status, one active job per workflow |
| MigrationJobs.JobRepository.ClaimNextMigrationJob | schemabridge/persistence/postgresql.py:556-600 | claims the oldest queued job that no other transaction has locked, or answers that there is none |
| MigrationJobs.JobRepository.ClaimMigrationJob | schemabridge/persistence/postgresql.py:602-657 | refines the claim of one queued job |
| MigrationJobs.JobRepository.UpdateMigrationJobStage | schemabridge/persistence/postgresql.py:659-698 | refines the stage change along the stage table |
| MigrationJobs.JobRepository.UpdateMigrationJobProgress | schemabridge/persistence/postgresql.py:700-769 | refines the strictly-newer progress update |
| MigrationJobs.JobRepository.FinishMigrationJob | schemabridge/persistence/postgresql.py:771-878 | refines the end of a job, including the repeated call with the same outcome |
| JobRuns.StepKeeps | schemabridge/persistence/postgresql.py:556-878 | every job command keeps the job invariants and moves every job by at most one legal step |
| JobRuns.RunLater | schemabridge/persistence/postgresql.py:556-878 | from any point of a run to any later one a job is never lost and only moves on |
| JobRuns.ClaimedOnce | schemabridge/persistence/postgresql.py:556-657 | however many workers race, each job is claimed at most once |
| JobRuns.SingleActiveJob | schemabridge/persistence/postgresql.py:465-471 | in every reachable table at most one job of a workflow is not FAILED |
| JobRuns.PassesStage | schemabridge/models/migration_job.py:39-50 | between two points of a run a job passes through every stage between its stages |
| JobRuns.SucceededPassedAll | schemabridge/models/migration_job.py:39-50 | a SUCCEEDED job went through all eight stages in order |
| JobRuns.TimesInOrder | schemabridge/models/migration_job.py:105-209 | queued, started, progress and completed times of a job are always in order |
| JobRuns.PercentageRises | schemabridge/models/transport.py:178-185 | the reported percentage of a job stays in 0..100 and never falls |
| JobRuns.FinishedStays | schemabridge/persistence/postgresql.py:771-878 | a completed job never changes again |
| JobRuns.CreationReplayed | schemabridge/persistence/postgresql.py:430-518 | repeating a creation after any other commands answers with the job it created; a changed request conflicts |
| JobEffects.CommandTakes | schemabridge/persistence/postgresql.py:430-878 | for each job command: the table changes iff its arguments fit the row found, and then exactly that row changes in the stated way; of the jobs waiting and not locked, none was queued before the one that is claimed next |
| JobEffects.AnswerMeans | schemabridge/persistence/postgresql.py:556-878 | what the answers mean that change nothing: no job waits, no such job, the job ended with this outcome before, or the workflow is missing, changed or busy |
| TransportModel.PercentMonotone | schemabridge/models/transport.py:178-185 | the estimated percentage is bounded and monotone in the rows read |
| TransportModel.PercentMeans | schemabridge/models/transport.py:178-185 | the share of the estimate that has been read, rounded down, and 100 iff all of it has been read |
| TransportModel.StagingNamesInjective | schemabridge/services/batch_transport.py:80-97 | different transport ids never share a staging table |
| TransportModel.ManagedMeans | schemabridge/services/batch_transport.py:439-448 | the cleanup pattern accepts exactly the names that derivation produces |
| BatchTransport.Transfer | schemabridge/services/batch_transport.py:122-216 | on success the new staging table holds the in-order concatenation of all batches read, rows read = rows written = its length, batch count <= rows <= batch count x batch size, every constructor accepted its counters, every batch was reported, and no other table changed; invalid arguments are refused iff they are invalid; with a writer and a reporter that do not fail, it succeeds iff the batches are good, and each failure names its cause |
| BatchTransport.OneMoreReport | schemabridge/models/transport.py:162-176 | one more good batch gives a valid progress report that is newer than all before |
| BatchTransport.RowsBounded | schemabridge/services/batch_transport.py:153-216 | batch count <= rows <= batch count x batch size |
| BatchTransport.Run | schemabridge/services/batch_transport.py:464-529 | with a writer that may fail after taking effect: CONFIRMED_FAILED_CLEANED_UP implies the staging table is absent, SUCCEEDED that it holds exactly the rows read; when nothing fails the disposition is SUCCEEDED iff the batches are good and CONFIRMED_FAILED_CLEANED_UP otherwise, and the failure codes are those of the disposition |
| BatchTransport.CleanupStaging | schemabridge/services/batch_transport.py:429-462 | removes only a table with a managed name in the approved database; a confirmed answer proves it gone, and a permitted request is confirmed when the writer does not fail |
| BatchTransport.RetriesLeave | schemabridge/services/batch_transport.py:508-529 | over any sequence of retries every success keeps its table with its rows and every confirmed failure has none |
| BatchTransport.TablesLeft | schemabridge/services/batch_transport.py:508-529 | retries leave one table per success and at most one more per uncertain outcome |
| TransferProgress.NextReportTaken | schemabridge/persistence/postgresql.py:722-743 | the strictly-newer guard takes the next report of a transfer when the job is loading and its clock moves on |
| TransferProgress.EmittedReportsAccepted | schemabridge/persistence/postgresql.py:722-743 | delivering all reports of a successful transfer in order is never refused and changes nothing but the progress of the job |
| Transformation.FaultFree | schemabridge/target_execution/dialect_compiler.py:64-116 | exactly which expressions a dialect renders: allowed columns, nameable types, quotable names, and at most 16 levels |
| Transformation.FaultMeans | schemabridge/target_execution/dialect_compiler.py:64-116 | what an objection says: unsupported means too deep or a type without a name, invalid means an unknown or unquotable column |
| Transformation.NamesFit | schemabridge/target_execution/mysql.py:36-47 | every valid name can be quoted everywhere, except that names in MySQL migrations have at most 64 characters |
| Transformation.CoalesceMeans | schemabridge/target_execution/dialect_compiler.py:99-114 | COALESCE takes the first column that is not NULL, and the first such argument only when all its columns are NULL |
| Transformation.ConcatMeans | schemabridge/target_execution/dialect_compiler.py:90-95 | concatenation joins the columns in the order in which they are listed |
| Transformation.TypeRoundTrip | schemabridge/validation/sql.py:29-66 | the type names of a dialect are distinct: each stands for one canonical type |
| NativeTypes.CastDiscovered | schemabridge/normalizers/postgresql.py:13-39 | the type a cast names is the type discovery reads back for a column of that native type, in every dialect, except exactly for BOOLEAN and INTEGER in MySQL validation queries, whose names exist in casts alone |
| Transformation.TreeMeaning | schemabridge/target_execution/dialect_compiler.py:64-116 | the rendered tree, with the i-th placeholder bound to the i-th parameter, evaluates to the value of the approved expression |
| Transformation.SameShape | schemabridge/mapping/sql.py:72-135 | corollary: dialects that both render an expression build the same tree up to type names |
| SqlMeaning.EvalEachAppend | schemabridge/target_execution/dialect_compiler.py:155-164 | placeholders of consecutive projections are numbered consecutively |
| ExpressionRenderer.Render | schemabridge/target_execution/dialect_compiler.py:64-116 | the text is that of the tree, exactly the parameters of the tree are appended in order, and it fails exactly with the first objection met |
| ExpressionRenderer.RenderCoalesce | schemabridge/validation/sql.py:119-135 | the same for COALESCE with columns before nested arguments one level deeper |
| ExpressionRenderer.RenderConcat | schemabridge/mapping/sql.py:108-113 | the same for CONCAT and CONCAT_WS; the separator is a parameter |
| SqlText.LexPrinted | schemabridge/mapping/sql.py:53-63 | printing and lexing undo each other for any names, with quotes doubled (subclause 5.2 of ISO/IEC 9075-2) |
| SqlStatement.ReadPrinted | schemabridge/target_execution/dialect_compiler.py:166-192 | the text of a statement reads back as exactly that statement |
| CompiledPlan.PlanCompiles | schemabridge/target_execution/dialect_compiler.py:117-165 | exactly which plans a dialect compiles, stated on the fields of the staging relation, the target table and each mapping, including that every literal can be bound |
| CompiledPlan.PlanFaultMeans | schemabridge/target_execution/dialect_compiler.py:117-165 | what an objection to a plan says about one of its mappings |
| CompiledPlan.RelationAddressed | schemabridge/target_execution/mysql.py:50-55 | a relation has names iff its parts suit the dialect, and then the last is the table, the one before it the schema, and there is a first one, the catalog, in Snowflake only |
| CompiledPlan.TargetsInOrder | schemabridge/target_execution/dialect_compiler.py:143-149 | target columns come by position, unknown positions last, then by name |
| CompiledPlan.CompiledReads | schemabridge/target_execution/dialect_compiler.py:166-192 | the compiled text reads back as the compiled statement, whatever characters its names hold |
| CompiledPlan.CompiledMeaning | schemabridge/target_execution/dialect_compiler.py:117-205 | the rows an INSERT...SELECT produces are, in order, the images of the staging rows under the approved expressions |
| CompiledPlan.OrderIrrelevant | schemabridge/target_execution/dialect_compiler.py:143-149 | permuting approved mappings with distinct targets changes neither the statement nor its parameters |
| CompiledPlan.PermutedPlans | schemabridge/mapping/sql.py:181-204 | plans that hold the same approvals in another order compile alike or fail alike |
| TransformationCompiler.RenderMappings | schemabridge/target_execution/dialect_compiler.py:155-164 | projections, targets, source columns and parameters collected by the loop stay paired |
| TransformationCompiler.RenderRelation | schemabridge/target_execution/mysql.py:50-55 | two quoted names in MySQL (catalog and schema must agree) and PostgreSQL, three in Snowflake, and when a relation is refused; CompiledPlan.RelationAddressed says which names |
| TransformationCompiler.QuoteAll | schemabridge/target_execution/mysql.py:36-47 | names are quoted one by one and the list is refused exactly if one of them cannot be quoted |
| TransformationCompiler.Compile | schemabridge/target_execution/dialect_compiler.py:117-205 | fails exactly with the fault of the plan; otherwise the text, read back and evaluated with its parameters on any staging rows, gives every approved target column the value of its expression; the names read back are the table, before it the schema, and before it the catalog in Snowflake only, of the staging relation and of the target table; binds only values that can be bound and passes the checks of the execution adapter |
| TransformationCompiler.GatherAllExact | schemabridge/target_execution/dialect_compiler.py:161-164 | the reported source columns are distinct and exactly those the expressions name at their root |
| GeneratedSqlAccepted.InsertAccepted | schemabridge/validation/sql_guard.py:139-174 | the guard accepts every generated INSERT...SELECT, whatever its names contain |
| GeneratedSqlAccepted.SelectAccepted | schemabridge/validation/sql_guard.py:139-174 | the guard accepts every generated SELECT, whatever its names contain |
| GeneratedSqlAccepted.CountedAccepted | schemabridge/validation/sql_guard.py:139-174 | the guard accepts every generated MySQL validation query, which mixes double quotes and backticks |
| SqlGuard.StripQuotedContent | schemabridge/validation/sql_guard.py:52-64 | quoted content is masked pattern by pattern, greedy and with doubled closing quotes |
| SqlGuard.ValidateQuery | schemabridge/validation/sql_guard.py:139-174 | refines the chain of checks: emptiness, comments, number of statements |
| SqlGuard.OwnCleans | schemabridge/validation/sql_guard.py:52-64 | masking the quotes of a dialect leaves no character that names contributed |
| SqlGuard.ForeignKeeps | schemabridge/validation/sql_guard.py:52-64 | masking another kind of quote never breaks the pairing of the dialect quotes |
| SqlGuard.BalancedCleans | schemabridge/validation/sql_guard.py:52-64 | text whose names all carry one kind of quote is masked to harmless text |
| SqlGuard.PiecesAccepted | schemabridge/validation/sql_guard.py:139-174 | any text printed from pieces whose names carry one kind of quote is accepted |
| SqlGuardRefusals.CommentRefused | schemabridge/validation/sql_guard.py:152-160 | a comment marker outside quotes is refused, whatever text and quoted parts are before it and whatever follows; the hash is one for MySQL |
| SqlGuardRefusals.SecondRefused | schemabridge/validation/sql_guard.py:162-167 | two statements that are not blank, with a semicolon outside quotes between them, are refused |
| Reconciliation.Reconcile | schemabridge/validation/reconciliation.py:38-107 | any mismatch fails the report, missing evidence leaves it incomplete, and it passes iff every pair of counts is present and equal; the tallies count the results |
| Reconciliation.CompareAll | schemabridge/validation/reconciliation.py:57-84 | every check compares the two counts under its own aliases |
| Reconciliation.CountReads | schemabridge/validation/reconciliation.py:19-35 | a count is read back from every number format a driver may return |
| Reconciliation.CountExactly | schemabridge/validation/reconciliation.py:19-35 | exactly what reads as a count: a natural number as an integer, a whole decimal, or digits with an optional sign and leading zeros; no truth value, fraction, negative number or other text |
| Reconciliation.PassedMeans | schemabridge/validation/reconciliation.py:86-101 | PASSED iff both rows hold the same count under every check |
| ValidationSql.CheckIdsDistinct | schemabridge/models/validation.py:187-193 | metric aliases are pairwise distinct for any number of mappings |
| ValidationSql.ChecksCover | schemabridge/validation/sql.py:188-259 | the checks are one row count, a null count per mapping, and a distinct count for a mapping iff its compatibility is not UNKNOWN, and nothing else |
| ValidationCompiler.RenderChecks | schemabridge/validation/sql.py:200-259 | both sides are filled in step; an expression with two metrics is rendered and bound twice, and the parameters stay aligned |
| ValidationMeaning.StatementAggregate | schemabridge/validation/sql.py:200-259 | an aggregate statement with repeated parameters returns the row count and the null and distinct counts of every measured column |
| ValidationMeaning.ImageAgrees | schemabridge/validation/sql.py:139-327 | if the target holds the image of the source, in any order, all row, null and distinct metrics agree |
| ValidationMeaning.ColumnPermuted | schemabridge/validation/sql.py:139-327 | the order of rows does not matter to a column |
| PairedValidation.CountsDecide | schemabridge/validation/reconciliation.py:57-107 | comparing delivered metrics compares the metrics themselves, whatever number formats the drivers use |
| PairedValidation.CompileValidation | schemabridge/validation/sql.py:139-327 | fails exactly with the validation fault; otherwise the queries read the requested source and target tables by table, schema and catalog, hold exactly the checks each mapping asks for (a distinct count iff its compatibility is not UNKNOWN), pass the guard, and for any rows decide whether both tables are non-empty and all counts agree |
| PairedValidation.PassedCounts | schemabridge/validation/reconciliation.py:86-101 | a PASSED report on a compiled pair implies, for every approved mapping, equally many rows and NULLs on both sides, and equally many distinct known values if its compatibility is not UNKNOWN, where the source side is the value of the approved expression in each source row |
| PairedValidation.ValidationCompiles | schemabridge/validation/sql.py:139-327 | exactly which plans a pair of dialects can validate, stated on the mappings and the names of the request |
| PairedValidation.ImagePasses | schemabridge/validation/reconciliation.py:57-107 | a target that holds the image of a source has matching counts iff the source has rows |
| PairedValidation.ReportStatus | schemabridge/validation/reconciliation.py:86-107 | the report on a compiled pair is PASSED iff both tables hold rows and all counts agree, INCOMPLETE iff both tables are empty, and FAILED otherwise |
| KeyBatchSql.BatchReads | schemabridge/validation/key_batches.py:28-78 | the text of a key query reads back as the query |
| KeyBatchSql.BatchAccepted | schemabridge/validation/sql_guard.py:139-174 | every key query passes the guard |
| KeyBatchSql.KeyAliasesDistinct | schemabridge/validation/key_batches.py:60-65 | result columns never share a name |
| KeyBatchSql.CompileBatch | schemabridge/validation/key_batches.py:28-78 | refuses exactly the invalid requests and unquotable names; otherwise the text asks for exactly the requested window over the requested keys |
| KeyBatches.Rows | schemabridge/validation/key_batches.py:81-106 | a result is accepted exactly when every row has the expected columns, ignoring case, and gives one value per key column in key order |
| KeyBatches.NamedRow | schemabridge/validation/key_batches.py:81-106 | a row given by names holds a key iff its names, ignoring case, are the expected ones in order, and then the key is its values |
| KeyBatches.ReadBatches | schemabridge/validation/key_batches.py:109-143 | every key exactly once, in order, whatever the sizes of the answers, with one query more than batches and never more than n + 1; ceil(n / min(batch, cap)) batches when answers are full |
| KeyReconciliation.CountKeys | schemabridge/validation/key_batches.py:146-161 | the counter over all batches holds the multiplicities of all keys |
| KeyReconciliation.ReconcileBatches | schemabridge/validation/key_batches.py:146-171 | source and target sizes, multiset differences in both directions and repetitions on both sides |
| KeyReconciliation.MatchesMeans | schemabridge/models/validation.py:67-78 | matches iff both key multisets are equal and duplicate-free |
| KeyReconciliation.CountsConserved | schemabridge/validation/key_batches.py:146-171 | source count minus missing equals target count minus extra |
| KeyReconciliation.BatchingIrrelevant | schemabridge/validation/key_batches.py:146-171 | batch boundaries and order do not matter |
| KeyReconciliation.DirectTargets | schemabridge/validation/primary_key.py:70-91 | the dictionary holds the target of every direct mapping and nothing else |
| KeyReconciliation.DirectMeans | schemabridge/validation/primary_key.py:70-91 | apart from COALESCE, a mapping is direct iff it gives every row the value of its own source column, whatever conversions do |
| KeyReconciliation.Assess | schemabridge/validation/primary_key.py:32-107 | eligible iff key discovery is complete on both sides, both keys are known and the plan copies each source key column unchanged to the key column in the same place; each reason for ineligibility iff its own condition is the first to fail |
| KeyReconciliation.SourcesOnce | schemabridge/models/mapping.py:391-430 | the constructor of an approved plan makes the dictionary of direct mappings unambiguous |
| KeyReconciliation.KeyCarried | schemabridge/validation/primary_key.py:70-107 | one target row carries the key of its source row |
| KeyReconciliation.ImageReconciles | schemabridge/validation/primary_key.py:70-107 | end to end: under an eligible plan the image of a source misses no key and has no extra one, and the report matches iff the source keys are unique |
| Suggestions.Score | schemabridge/mapping/suggestions.py:127-166 | gathers evidence rule by rule and adds up its weights, in hundredths, clamped to 0..100 |
| SuggestionScores.EvidenceMeans | schemabridge/mapping/suggestions.py:127-166 | which pairs of columns have each kind of evidence: an iff per code on names, types, dimensions, nullability and positions |
| SuggestionScores.AutomaticExactly | schemabridge/mapping/suggestions.py:26-40 | exactly which pairs reach the threshold, by classification, kind of agreement of the names, nullability and number of minor indications |
| SuggestionScores.FoldedMeans | schemabridge/mapping/suggestions.py:131-134 | names are equal ignoring case iff they differ in the case of letters at most |
| SuggestionScores.WordsJoin | schemabridge/mapping/suggestions.py:50-53 | names fall into words at separators and before a capital after a small letter or digit, and nowhere else |
| SuggestionScores.WordsKeepLetters | schemabridge/mapping/suggestions.py:50-53 | the words together spell the name without separators and case, and none is empty |
| SuggestionScores.CaseTooClose | schemabridge/mapping/suggestions.py:206-213 | with two targets that differ only in the case of the matching name, neither is suggested |
| SuggestionScores.SpellingClear | schemabridge/mapping/suggestions.py:206-213 | another spelling of the same words is too far behind the name itself to be a rival |
| SuggestionScores.SuggestedKeeps | schemabridge/mapping/suggestions.py:97-120 | a suggested pair keeps every value of the source iff the source states the limits of the target |
| SuggestionScores.DiagnosisIsBest | schemabridge/mapping/suggestions.py:238-256 | an ambiguous column is reported with the score and the classification of its best candidate |
| Suggestions.NameCarries | schemabridge/mapping/suggestions.py:28-40 | everything but the name is worth at most 40 hundredths, and names that do not agree at most 18 |
| Suggestions.WinsByName | schemabridge/mapping/suggestions.py:123-166 | a suggested pair has names equal exactly, ignoring case or after normalisation |
| Suggestions.WinsOnce | schemabridge/mapping/suggestions.py:182-303 | a column belongs to at most one winning pair |
| SuggestionService.HasRival | schemabridge/mapping/suggestions.py:206-213 | there is a rival iff another candidate is within the ambiguity margin |
| SuggestionService.MatchSource | schemabridge/mapping/suggestions.py:200-224 | a source is assigned iff some target beats every other viable pair of either column by more than the margin, and then to that target |
| SuggestionService.Suggest | schemabridge/mapping/suggestions.py:172-303 | the whole proposal: one suggestion per source in review order, assigned exactly to winning pairs, with every undecided source and free target listed |
| SuggestionProperties.ProposalOneToOne | schemabridge/mapping/suggestions.py:182-303 | no source and no target is suggested twice |
| SuggestionProperties.ProposalByName | schemabridge/mapping/suggestions.py:50-53 | only names that agree up to case and separators are paired |
| SuggestionProperties.ProposalValid | schemabridge/models/mapping.py:339-371 | the constructor of the plan never refuses a proposal |
| SuggestionProperties.TargetsCovered | schemabridge/mapping/suggestions.py:280-298 | every target column is either assigned or listed as unmatched, never both |
| SuggestionProperties.WinnerListed | schemabridge/mapping/suggestions.py:182-303 | a target is assigned iff it belongs to a winning pair |
| SuggestionProperties.AmbiguousUnlisted | schemabridge/mapping/suggestions.py:242-302 | an AMBIGUOUS suggestion is missing from the ambiguous columns iff no target has a compatible type and some target of an incompatible type has a name that agrees |
| SuggestionProperties.ClashMeans | schemabridge/mapping/suggestions.py:242-255 | such a target has an incompatible type and an equal name, or the same words in any order |
| SuggestionProperties.UnlistedExample | schemabridge/mapping/suggestions.py:242-302 | an integer id against a date id: suggested as ambiguous, and in neither list |
| SuggestionProperties.OrderIrrelevant | schemabridge/mapping/suggestions.py:56-68 | permuting the input columns of either table changes nothing |
| Columns.OrderedPermuted | schemabridge/mapping/suggestions.py:56-68 | the review order does not depend on the delivered order |
| Columns.ReviewOrder | schemabridge/mapping/suggestions.py:56-68 | review goes by position, unknown positions last, then by name |
| ColumnValues.ClassifiedExactly | schemabridge/mapping/suggestions.py:71-106 | exactly which pairs of columns get each classification, on their types and dimensions: DATE to TIMESTAMP and INTEGER to DECIMAL that does not narrow are SAFE, equal known types that do not narrow are EXACT, and nothing else is either |
| ColumnValues.RoomMeans | schemabridge/mapping/suggestions.py:71-106 | for comparable types, every value of the source column is a value of the target column iff no limit of the target is tighter |
| ColumnValues.SafeKeeps | schemabridge/mapping/suggestions.py:97-106 | an EXACT or SAFE conversion keeps every value of the source iff the source states each limit the target has and, for decimals, the digits before the point do not get fewer; the classification alone does not imply it |
| ColumnValues.ExactLoses | schemabridge/mapping/suggestions.py:71-98 | DECIMAL(10,2) to DECIMAL(10,4) is EXACT with compatible dimensions and loses 99999999.99 |
| ColumnValues.UnstatedLoses | schemabridge/mapping/suggestions.py:71-98 | a text column of unstated length is EXACT for one of any stated length and does not fit it |
| Ordering.SortByPermuted | schemabridge/target_execution/dialect_compiler.py:143-149 | sorting by distinct positions depends on the elements only |
| Ordering.StringLeMeans | schemabridge/mapping/suggestions.py:56-68 | names are ordered by code point: a proper beginning first, otherwise by the first difference |
| Ordering.SortedFirst | schemabridge/target_execution/dialect_compiler.py:143-149 | sorting puts what comes first in front |
| MappingApproval.Apply | schemabridge/mapping/approval.py:107-248 | goes through the columns in review order, stops at the first objection with the checks in the order of the source, and ends with the constructor of the plan; the plan returned honours every decision: its status, note and reason, its target (the named one, else the suggested one, none when rejected) and its transformation (the supplied one, else the automatic one), columns without a decision stay pending with the suggested target, and all lists follow from the approvals |
| MappingApproval.AppliedReviewed | schemabridge/mapping/approval.py:137-248 | the same about the plan the specification gives, stated without it |
| MappingApproval.JudgedValid | schemabridge/mapping/approval.py:137-248 | every disposition passes the constructor of an approval, and an approved one has a known target, a transformation and reads known columns only |
| MappingApproval.ApprovedSafely | schemabridge/mapping/approval.py:163-200 | a mapping approved without an override is not incompatible, confident when it was suggested, and exact or safe when the transformation is automatic |
| MappingApproval.AutomaticRenders | schemabridge/mapping/approval.py:55-73 | every dialect renders every automatic transformation, for migration and for validation, without parameters |
| ApprovalProperties.AppliedValid | schemabridge/models/mapping.py:391-430 | the constructor of the approved plan accepts whatever approval returns, and every source column has exactly one disposition |
| ApprovalProperties.ReviewAccepted | schemabridge/mapping/approval.py:107-248 | for tables with unique column names, a review is accepted iff it belongs to both tables and to the proposal, no decision meets an objection of its own, and no two decisions approve the same target |
| ApprovalProperties.RefusalMeans | schemabridge/mapping/approval.py:120-233 | each refusal names an objection that some decision, or the review as a whole, meets |
| ApprovalProperties.AppliedConstructed | schemabridge/models/mapping.py:391-430 | with unique column names the constructor never refuses what approval built |
| ApprovalProperties.RepeatedSourceRefused | schemabridge/models/mapping.py:399-402 | a source with a repeated column name never gets a plan |
| ApprovalProperties.ApprovedCompilable | schemabridge/mapping/approval.py:251-264 | after approval only the dialect, and whether its literals can be bound, decides about a mapping |
| ApprovalProperties.AppliedCompiles | schemabridge/mapping/approval.py:107-248 | an applied plan compiles iff it has an approved mapping, the staging relation, the target table, the alias and each mapping suit the dialect, and every literal can be bound: no plan check of the compiler can fail any more |
| ApprovalProperties.SuggestionApprovable | schemabridge/mapping/approval.py:163-221 | accepting a suggestion as it stands never meets an objection and needs no transformation to be supplied |
| CanonicalJson.EncodeIdempotent | schemabridge/persistence/serialization.py:19-50 | encoding what was read back gives the same bytes |
| CanonicalJson.CanonicalFromJson | schemabridge/persistence/serialization.py:19-38 | canonicalising what was read back sorts it and changes nothing else |
| CanonicalJson.SortedSame | schemabridge/persistence/serialization.py:49-50 | the canonical form does not depend on the order of object members (section 4 of RFC 8259) |
| CanonicalJson.StoredHashHolds | schemabridge/persistence/postgresql.py:135-147 | if the members of an artifact only come back in another order, encoding it again gives the bytes that were hashed |
| JsonColumn.ColumnHashHolds | schemabridge/persistence/postgresql.py:135-147 | the hash check of an artifact that comes back from its JSONB column succeeds iff no number in the artifact reaches the exponent form or is negative zero; the column reorders members and writes numbers as plain decimals without a sign on zero |
| JsonColumn.PlainMeans | schemabridge/persistence/postgresql.py:135-147 | a finite number stays out of the exponent form iff it has at most sixteen digits before the point |
| JsonLeaves.EverywhereEncoded | schemabridge/persistence/serialization.py:19-50 | encoding and sorting keep every leaf and every member name |
| JsonLeaves.DumpMeans | schemabridge/persistence/serialization.py:49-50 | a value whose parts can all be encoded is written as text iff no integer in it has more than 4300 digits, and a reader sees the value |
| JsonTree.LoadsSame | schemabridge/persistence/postgresql.py:135-147 | decoding does not see the order of members |
| JsonTree.StoredView | schemabridge/persistence/artifact_codec.py:70-83 | a decoder sees the same tree whatever order the members come back in |
| PlanCodec.ExpressionRoundTrip | schemabridge/persistence/artifact_codec.py:203-212 | an expression over texts of Unicode scalar values can be encoded and is decoded back iff every literal in it is a JSON scalar and no integer has more than 4300 digits |
| PlanCodec.ExpressionBack | schemabridge/persistence/artifact_codec.py:203-212 | decoding a stored expression gives it back, for trees of any depth |
| PlanCodec.NodeBack | schemabridge/persistence/artifact_codec.py:203-212 | all fields of a node are read back, with their defaults |
| PlanArtifact.IdentityBack | schemabridge/persistence/artifact_codec.py:161-163 | a stored table identity is read back |
| PlanArtifact.EvidenceBack | schemabridge/persistence/artifact_codec.py:165-167 | stored evidence is read back |
| PlanArtifact.ApprovalBack | schemabridge/persistence/artifact_codec.py:215-224 | a stored approval is read back |
| PlanArtifact.PlanBack | schemabridge/persistence/artifact_codec.py:227-253 | decoding a stored plan gives it back |
| PlanStorage.PlanEncodes | schemabridge/persistence/serialization.py:19-50 | an approved plan over texts of Unicode scalar values can be encoded iff no literal in it is binary, a decimal that is not finite, or a timestamp without a time zone, and no integer has more than 4300 digits |
| PlanStorage.PlanRoundTrip | schemabridge/persistence/artifact_codec.py:227-253 | an approved plan over texts of Unicode scalar values can be encoded and is decoded back from its encoding iff every literal in it is a JSON scalar and no integer has more than 4300 digits |
| PlanStorage.PlanStored | schemabridge/persistence/artifact_codec.py:227-253 | such a plan comes back, with its hash, when members only change their order |
| PlanStorage.PlanSurvives | schemabridge/persistence/postgresql.py:135-147 | exactly which plans over texts of Unicode scalar values come back through the column with their hash: every literal is a JSON scalar, no integer has more than 4300 digits, no text holds NUL, and no number reaches the exponent form or is negative zero |
| PlanExamples.LiteralStored | schemabridge/persistence/serialization.py:19-38 | what becomes of each kind of literal that is stored: refused, turned into a text, or kept |
| PlanExamples.DatesLost | schemabridge/persistence/serialization.py:24-30 | a date literal is stored and lost; a binary literal and a local timestamp are not stored |
| PlanExamples.NumbersLost | schemabridge/persistence/postgresql.py:135-147 | the number 1e16, negative zero and a text with NUL are JSON scalars that do not survive the column |
| PlanExamples.LongIntegerRefused | schemabridge/persistence/serialization.py:49-50 | the power of ten with 4301 digits is a JSON scalar that cannot be written |
| PlanExamples.LiteralFault | schemabridge/models/mapping.py:458-470 | which of its checks the constructor of the generated statement fails on: a parameter that cannot be bound, then a blank target name |
| PlanExamples.BlankTargetRefused | schemabridge/models/mapping.py:464-469 | a valid plan with a blank target reaches the constructor of the statement and is refused there |
| PlanExamples.BytesRefused | schemabridge/models/mapping.py:458-460 | a valid plan with a binary literal reaches the constructor of the statement and is refused there |
| JobAdmission.JobsAdmitted | schemabridge/persistence/postgresql.py:430-518 | over any interleaving of commands on both sets of tables, every job was created while its workflow was in MAPPING_APPROVED at exactly the requested version, and the workflow never falls behind that version |
| JobAdmission.JobsStartClean | schemabridge/persistence/postgresql.py:465-471 | if callers keep their contract, no transport attempt of the workflow is open or succeeded when a job is created |
| JobAdmission.TablesOf | schemabridge/persistence/postgresql.py:430-518 | job commands never change the workflow tables |

## Left out

- SuggestionService.Suggest: requires column names to be unique within a table, as they are in every database; the constructor of the plan refuses a source with duplicate names.
- ControlPlaneRuns.Replay: takes for granted that a stored payload can be written and read back; when that is so is the subject of JsonColumn.ColumnHashHolds.
- PlanStorage.PlanEncodes: does not model texts with an unpaired surrogate, which the encoder refuses: a text here is a sequence of Unicode scalar values. Nor does it model literals that are dataclasses, mapping proxies or enumeration members.
- PlanStorage.PlanSurvives: does not model the limits of interpreter and database on nesting and on the size of a value; 4300 digits is the interpreter's default.
- Decimals that differ only in trailing zeros, and the two zeros of a floating-point number, are different values of a column.
- Descriptive fields of workflows, jobs, artifacts and events (names, profiles, relations, actors, request ids): no command changes them; they are one opaque `header` or `inputs` value.
- Hashing: payload and request hashes are opaque strings; that equal bytes give equal hashes is all that is used.
- Read-only queries of the repository (`get_*`, `list_*`) and paging over lists.
- ColumnValues.SafeKeeps: an INTEGER column of a known precision is taken to hold every number of that many digits, FLOAT every number, and a time zone any offset; the ranges of particular databases are not modelled.
- NativeTypes.CastDiscovered: native type names are words and arguments already; lower case, white space and the removal of arguments in discovery are not modelled.
- SqlGuardRefusals.CommentRefused: quoted parts before the marker hold no quote characters, and no text ends in N right before an apostrophe; the guard masks such parts too, and what it accepts of them is in SqlGuard.PiecesAccepted.
- Reconciliation.CountExactly: digits are ASCII digits; other decimal digits of Unicode, which the source accepts, are not modelled.
- ApprovalProperties.ReviewAccepted: column names are unique; with repeated source names every review ends in the constructor (ApprovalProperties.RepeatedSourceRefused).
- Advisory locks, row locks and connection handling: a transaction is one atomic step; `SKIP LOCKED` is the parameter `locked`, the set of jobs other transactions hold.
- `transition_status` callers outside the repository: represented by `ControlPlaneLifecycle.Honest` only.
- Staging cleanup evidence as an artifact: it is stored like any other artifact.
- `_has_adjacent_tsql_statement`: the SQL Server heuristic; `SqlGuard.ValidateQuery` covers every other profile.
- Spark strategy selection, profile limits and preparation of a transport: a transfer starts from its prepared inputs.
- Concrete connectors, catalog queries and drivers: readers, writers and executors are objects with nondeterministic failures.
- Percent signs in identifiers: drivers that format parameters into the text would need them doubled; a placeholder is its own token here.
- Differences between the databases in CAST and CONCAT: all share one `Ops`.
- Object-identity cycles in expressions: expression trees are finite values.
- Floating-point rounding of scores: hundredths are added exactly.
- Case folding beyond Latin letters: `Common.Folded` folds ASCII letters.
- Explanation texts of evidence: represented by their codes.
- Warnings, metadata and the separate review-plan constructor `create_review_plan`.
- The text of canonical JSON: a sorted tree stands for it, one tree per text; sets and non-string keys are not values of the model.
- Timeouts: only their positivity is checked.
- Artifacts other than approved mapping plans: their decoders follow the same pattern field by field.
