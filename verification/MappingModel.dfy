/**
 * Mapping proposals, review decisions, transformation expressions and approved plans, with the
 * invariants their constructors enforce.
 */
module MappingModel {
  import opened Common

  datatype CanonicalType =
    | STRING | INTEGER | DECIMAL | FLOAT | BOOLEAN | DATE | TIME | TIMESTAMP | TIMESTAMP_TZ
    | BINARY | SEMI_STRUCTURED | UNKNOWN

  datatype Compatibility = Exact | Safe | Lossy | Incompatible | Unclear

  /**
   * A value of a row, a literal or a bound parameter. Decimals, dates, times and identifiers are given
   * by their text; `Raw` is bytes or an instance of any other class.
   */
  datatype Scalar =
    | Null | Text(text: string) | Whole(i: int) | Number(x: Float) | Flag(b: bool)
    | FiniteDecimal(digits: string) | NonFinite | Calendar(iso: string) | Moment(iso: string, aware: bool)
    | Identifier(id: string) | Raw(code: int)

  /** What may be bound to a placeholder. */
  predicate Bindable(v: Scalar) {
    !v.NonFinite? && !v.Identifier? && !v.Raw?
  }

  predicate AllBindable(vs: seq<Scalar>) {
    forall i :: 0 <= i < |vs| ==> Bindable(vs[i])
  }

  datatype ExpressionKind = SourceColumn | Literal | Cast | Concat | Coalesce | DirectCopy

  datatype Expression = Expression(
    kind: ExpressionKind, columns: seq<string>, literal: Scalar, castTo: Option<CanonicalType>,
    arguments: seq<Expression>, separator: Option<string>, nullable: Option<bool>, description: Option<string>)

  /** Identifiers keep any quoted content, but must not be blank and hold no NUL. */
  predicate ValidName(s: string) {
    !IsBlank(s) && '\0' !in s
  }

  predicate ValidOptionalName(s: Option<string>) {
    s.Some? ==> '\0' !in s.value
  }

  /** The fields of one node fit its kind. */
  predicate ValidNode(e: Expression) {
    && (forall i :: 0 <= i < |e.columns| ==> ValidName(e.columns[i]))
    && Distinct(e.columns)
    && match e.kind
       case SourceColumn => |e.columns| == 1 && e.arguments == [] && e.literal == Null
       case DirectCopy => |e.columns| == 1 && e.arguments == [] && e.literal == Null
       case Cast => |e.columns| == 1 && e.castTo.Some? && e.arguments == [] && e.literal == Null
       case Concat => |e.columns| >= 2 && e.arguments == [] && e.literal == Null
       case Coalesce => |e.columns| + |e.arguments| >= 2 && e.literal == Null
       case Literal => e.columns == [] && e.arguments == []
  }

  predicate ValidExpression(e: Expression)
    decreases e
  {
    ValidNode(e) && ValidExpressions(e.arguments)
  }

  predicate ValidExpressions(es: seq<Expression>)
    decreases es
  {
    es == [] || (ValidExpression(es[0]) && ValidExpressions(es[1..]))
  }

  datatype TableIdentity = TableIdentity(catalog: Option<string>, schema: string, table: string, system: string)

  predicate ValidIdentity(t: TableIdentity) {
    ValidOptionalName(t.catalog) && ValidName(t.schema) && ValidName(t.table) && ValidName(t.system)
  }

  datatype Evidence = Evidence(code: string, explanation: string, contribution: Option<Float>)

  datatype Decision = Suggested | Ambiguous | Unmatched

  datatype Suggestion = Suggestion(
    source: string, target: Option<string>, confidence: Float, compatibility: Compatibility, decision: Decision,
    evidence: seq<Evidence>)

  predicate ValidSuggestion(s: Suggestion) {
    && ValidName(s.source) && ValidOptionalName(s.target) && 0.0 <= s.confidence.Amount() <= 1.0
    && (s.decision == Suggested <==> s.target.Some?)
  }

  /** The deterministic proposal for one pair of tables. */
  datatype MappingPlan = MappingPlan(
    sourceTable: TableIdentity, targetTable: TableIdentity, suggestions: seq<Suggestion>,
    unmatchedSources: seq<string>, unmatchedTargets: seq<string>, ambiguousSources: seq<string>, warnings: seq<string>)

  /** No source is suggested twice, and no target. */
  predicate OneToOne(xs: seq<Suggestion>) {
    forall i, j :: 0 <= i < j < |xs| ==>
      xs[i].source != xs[j].source && (xs[i].target.Some? ==> xs[i].target != xs[j].target)
  }

  predicate ValidMappingPlan(p: MappingPlan) {
    && ValidIdentity(p.sourceTable) && ValidIdentity(p.targetTable)
    && (forall i :: 0 <= i < |p.suggestions| ==> ValidSuggestion(p.suggestions[i]))
    && OneToOne(p.suggestions)
    && ValidNames(p.unmatchedSources) && ValidNames(p.unmatchedTargets) && ValidNames(p.ambiguousSources)
  }

  datatype ApprovalStatus = Pending | Approved | Rejected | Overridden

  datatype Approval = Approval(
    source: string, target: Option<string>, status: ApprovalStatus,
    originalConfidence: Float, originalCompatibility: Compatibility, originalEvidence: seq<Evidence>,
    compatibility: Compatibility, ordinal: Option<nat>, reviewerNote: Option<string>,
    overrideReason: Option<string>, transformation: Option<Expression>)

  predicate ValidApproval(a: Approval) {
    && ValidName(a.source) && ValidOptionalName(a.target)
    && 0.0 <= a.originalConfidence.Amount() <= 1.0
    && (a.status == Approved ==> a.target.Some? && a.compatibility != Incompatible)
    && (a.status == Rejected ==> a.target.None? && a.transformation.None?)
    && (a.status == Overridden ==> a.target.Some? && a.overrideReason.Some? && !IsBlank(a.overrideReason.value))
    && (a.transformation.Some? ==> ValidExpression(a.transformation.value))
  }

  predicate IsApproved(a: Approval) {
    a.status == Approved || a.status == Overridden
  }

  datatype ApprovedPlan = ApprovedPlan(
    sourceTable: TableIdentity, targetTable: TableIdentity, approvals: seq<Approval>,
    approvedMappings: seq<Approval>, rejectedSources: seq<string>, unmatchedSources: seq<string>,
    unmatchedTargets: seq<string>, warnings: seq<string>, version: int)

  /** The approvals the compilers work on, in their stored order. */
  function OnlyApproved(xs: seq<Approval>): (r: seq<Approval>)
    ensures forall a :: a in r <==> a in xs && IsApproved(a)
  {
    if xs == [] then []
    else if IsApproved(xs[0]) then [xs[0]] + OnlyApproved(xs[1..])
    else OnlyApproved(xs[1..])
  }

  function Sources(xs: seq<Approval>): (r: seq<string>)
    ensures |r| == |xs| && forall i :: 0 <= i < |xs| ==> r[i] == xs[i].source
  {
    seq(|xs|, i requires 0 <= i < |xs| => xs[i].source)
  }

  function Targets(xs: seq<Approval>): (r: seq<Option<string>>)
    ensures |r| == |xs| && forall i :: 0 <= i < |xs| ==> r[i] == xs[i].target
  {
    seq(|xs|, i requires 0 <= i < |xs| => xs[i].target)
  }

  predicate ValidNames(xs: seq<string>) {
    Distinct(xs) && forall i :: 0 <= i < |xs| ==> ValidName(xs[i])
  }

  predicate ValidPlan(p: ApprovedPlan) {
    && ValidIdentity(p.sourceTable) && ValidIdentity(p.targetTable)
    && (forall i :: 0 <= i < |p.approvals| ==> ValidApproval(p.approvals[i]))
    && Distinct(Sources(p.approvals))
    && p.approvedMappings == OnlyApproved(p.approvals)
    && Distinct(Targets(p.approvedMappings))
    && ValidNames(p.rejectedSources) && ValidNames(p.unmatchedSources) && ValidNames(p.unmatchedTargets)
    && p.version >= 1
  }
}
