/**
 * Workflow, artifact, audit-event and attempt records with the invariants their
 * constructors enforce, and the status graph.
 */
module WorkflowModel {
  import opened Common

  /** An opaque identifier. */
  type Uuid = nat

  /** Microseconds on one UTC clock. */
  type Time = int

  datatype Status =
    | Draft | Discovered | MappingProposed | MappingApproved
    | Staging | Staged | StagingRecoveryRequired
    | ExecutionReady | Executing | Executed | ExecutionRecoveryRequired
    | ValidationReady | Validating | Validated | ValidationReviewRequired | ValidationRecoveryRequired
    | Failed | Cancelled

  /** The status graph: the statuses a workflow may move to from `s`. */
  function AllowedTransitions(s: Status): set<Status> {
    match s
    case Draft => {Discovered, Failed, Cancelled}
    case Discovered => {MappingProposed, Failed, Cancelled}
    case MappingProposed => {MappingApproved, Failed, Cancelled}
    case MappingApproved => {Staging, ExecutionReady, Failed, Cancelled}
    case Staging => {Staged, MappingApproved, StagingRecoveryRequired}
    case Staged => {ExecutionReady, Failed, Cancelled}
    case StagingRecoveryRequired => {Failed, Cancelled}
    case ExecutionReady => {Executing, Failed, Cancelled}
    case Executing => {Executed, ExecutionReady, ExecutionRecoveryRequired}
    case Executed => {ValidationReady, Validating, Failed, Cancelled}
    case ExecutionRecoveryRequired => {Failed, Cancelled}
    case ValidationReady => {Validating, Failed, Cancelled}
    case Validating => {Validated, ValidationReviewRequired, ValidationRecoveryRequired, Failed, Cancelled}
    case Validated => {}
    case ValidationReviewRequired => {}
    case ValidationRecoveryRequired => {Failed, Cancelled}
    case Failed => {}
    case Cancelled => {}
  }

  /** A fixed safe code: an upper-case letter, then up to 63 letters, digits or underscores. */
  predicate IsCode(s: string) {
    && 1 <= |s| <= 64
    && 'A' <= s[0] <= 'Z'
    && forall i :: 1 <= i < |s| ==> 'A' <= s[i] <= 'Z' || '0' <= s[i] <= '9' || s[i] == '_'
  }

  predicate IsOptionalCode(c: Option<string>) {
    c.Some? ==> IsCode(c.value)
  }

  /** `header` stands for the descriptive fields no command ever changes. */
  datatype Workflow = Workflow(
    id: Uuid, header: string, status: Status, version: int,
    createdAt: Time, updatedAt: Time, latestArtifact: int, lastError: Option<string>)

  predicate ValidWorkflow(w: Workflow) {
    w.version >= 1 && w.latestArtifact >= 0 && w.updatedAt >= w.createdAt && IsOptionalCode(w.lastError)
  }

  datatype ArtifactType =
    | SourceDiscovery | TargetDiscovery | MappingPlan | ApprovedMappingPlan
    | StagingLoadEvidence | StagingCleanupEvidence | TransformationPreview
    | ExecutionEvidence | ValidationPreview | ValidationExecutionReport

  datatype Artifact = Artifact(
    id: Uuid, workflow: Uuid, kind: ArtifactType, version: int,
    schemaVersion: int, payload: string, createdAt: Time)

  predicate ValidArtifact(a: Artifact) {
    a.version >= 1 && a.schemaVersion >= 1
  }

  datatype EventType = WorkflowCreated | StatusChanged | ArtifactAppended | WorkflowFailed | WorkflowCancelled

  datatype Event = Event(
    sequence: int, id: Uuid, workflow: Uuid, kind: EventType,
    previous: Option<Status>, next: Option<Status>, version: int,
    artifact: Option<Uuid>, artifactKind: Option<ArtifactType>, occurredAt: Time)

  predicate ValidEvent(e: Event) {
    var hasArtifact := e.artifact.Some? && e.artifactKind.Some?;
    && e.sequence >= 1
    && e.version >= 1
    && e.artifact.Some? == e.artifactKind.Some?
    && match e.kind
       case WorkflowCreated => e.previous.None? && e.next == Some(Draft) && !hasArtifact
       case ArtifactAppended => hasArtifact && e.previous == e.next && e.next.Some?
       case StatusChanged =>
         !hasArtifact && e.previous.Some? && e.next.Some? && e.next.value !in {Status.Failed, Cancelled}
       case WorkflowFailed => !hasArtifact && e.previous.Some? && e.next == Some(Status.Failed)
       case WorkflowCancelled => !hasArtifact && e.previous.Some? && e.next == Some(Cancelled)
  }

  /** The three durable operations that are claimed before remote work starts. */
  datatype Kind = Transport | Execution | Validation

  /** `ConfirmedFailed` is FAILED_CLEANED_UP for a transport and FAILED_ROLLED_BACK for an execution. */
  datatype AttemptStatus = Claimed | Running | Succeeded | ConfirmedFailed | ReviewRequired | OutcomeUncertain

  /** The inputs an attempt is bound to; never changed after the claim. */
  datatype Binding =
    | TransportBinding(fingerprint: string, sourceDiscovery: int, approvedMapping: int, staging: string)
    | ExecutionBinding(fingerprint: string, approvedMapping: int, preview: int)
    | ValidationBinding(fingerprint: string, executionAttempt: Uuid, executionEvidence: int,
                        approvedMapping: int, preview: int)

  /** One row of the transport, execution or validation table. */
  datatype Attempt = Attempt(
    id: Uuid, workflow: Uuid, binding: Binding, status: AttemptStatus, claimedAt: Time,
    runningAt: Option<Time>, completedAt: Option<Time>, duration: Option<int>,
    evidence: Option<Uuid>, failure: Option<string>)

  predicate BindingFits(kind: Kind, b: Binding) {
    match kind
    case Transport => b.TransportBinding? && b.sourceDiscovery >= 1 && b.approvedMapping >= 1
    case Execution => b.ExecutionBinding? && b.approvedMapping >= 1 && b.preview >= 1
    case Validation =>
      b.ValidationBinding? && b.executionEvidence >= 1 && b.approvedMapping >= 1 && b.preview >= 1
  }

  predicate Terminal(s: AttemptStatus) {
    s !in {Claimed, Running}
  }

  /** The lifecycle each of the three attempt constructors enforces. */
  predicate ValidAttempt(kind: Kind, a: Attempt) {
    && BindingFits(kind, a.binding)
    && (a.runningAt.Some? ==> a.claimedAt <= a.runningAt.value)
    && (a.completedAt.Some? && a.runningAt.Some? ==> a.runningAt.value <= a.completedAt.value)
    && (a.duration.Some? ==> a.duration.value >= 0)
    && IsOptionalCode(a.failure)
    && (a.status == Claimed ==>
          a.runningAt.None? && a.completedAt.None? && a.duration.None? && a.evidence.None? && a.failure.None?)
    && (a.status == Running ==>
          a.runningAt.Some? && a.completedAt.None? && a.duration.None? && a.evidence.None? && a.failure.None?)
    && (Terminal(a.status) ==> a.runningAt.Some? && a.completedAt.Some?)
    && match kind
       case Transport =>
         && a.duration.None?
         && a.status != ReviewRequired
         && (a.status == Succeeded ==> a.evidence.Some? && a.failure.None?)
         && (a.status in {ConfirmedFailed, OutcomeUncertain} ==> a.evidence.None? && a.failure.Some?)
       case Execution =>
         && a.duration.None?
         && a.status != ReviewRequired
         && (Terminal(a.status) ==> a.evidence.Some?)
       case Validation =>
         && a.status != ConfirmedFailed
         && (Terminal(a.status) ==> a.duration.Some?)
         && (a.status in {Succeeded, ReviewRequired} ==> a.evidence.Some? && a.failure.None?)
         && (a.status == OutcomeUncertain ==> a.evidence.None? && a.failure.Some?)
  }
}
