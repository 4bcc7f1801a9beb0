/** The record of a whole approved plan and its decoder. */
module PlanArtifact {
  import opened Common
  import opened MappingModel
  import opened CanonicalJson
  import opened JsonTree
  import opened PlanCodec

  // ---------------------------------------------------------------- identities

  const IDENTITY_NAMES := ["catalog_name", "schema_name", "table_name", "system"]

  function IdentityFields(t: TableIdentity): seq<Entry> {
    [Entry("catalog_name", OptionalText(t.catalog)), Entry("schema_name", Value.Text(t.schema)),
     Entry("table_name", Value.Text(t.table)), Entry("system", Value.Text(t.system))]
  }

  function DecodeIdentity(t: Tree): Option<TableIdentity> {
    if !t.TObject? || !OnlyKeys(t.members, IDENTITY_NAMES)
       || exists i :: 0 <= i < |IDENTITY_NAMES| && IDENTITY_NAMES[i] !in t.members
    then None
    else
      var m := t.members;
      var catalog, schema := AsOptionalText(Get(m, "catalog_name", TNull)), AsText(Get(m, "schema_name", TNull));
      var table, system := AsText(Get(m, "table_name", TNull)), AsText(Get(m, "system", TNull));
      if catalog.None? || schema.None? || table.None? || system.None? then None
      else
        var r := TableIdentity(catalog.value, schema.value, table.value, system.value);
        if ValidIdentity(r) then Some(r) else None
  }

  lemma {:induction false} IdentityNamesFit()
    ensures FieldNames(IDENTITY_NAMES)
  {
    var n := IDENTITY_NAMES;
    assert |n[0]| == 12 && |n[1]| == 11 && |n[2]| == 10 && |n[3]| == 6 && |VENDOR| == 15;
  }

  lemma {:induction false} IdentityBack(t: TableIdentity)
    requires ValidIdentity(t)
    ensures DecodeIdentity(View(Record(IdentityFields(t)))) == Some(t)
  {
    hide ViewEntries, FieldNames, ValidIdentity, Get, View, AsText, AsOptionalText, OptionalText;
    var fs := IdentityFields(t);
    IdentityNamesFit();
    assert KeysOf(fs) == IDENTITY_NAMES;
    RecordView(fs);
    FieldsDistinct(fs, IDENTITY_NAMES);
    FieldRead(fs, IDENTITY_NAMES, 0, TNull);
    FieldRead(fs, IDENTITY_NAMES, 1, TNull);
    FieldRead(fs, IDENTITY_NAMES, 2, TNull);
    FieldRead(fs, IDENTITY_NAMES, 3, TNull);
    TextPartsBack(t.schema, t.catalog, NegativeZero);
    TextPartsBack(t.table, t.catalog, NegativeZero);
    TextPartsBack(t.system, t.catalog, NegativeZero);
  }

  lemma {:induction false} IdentityStorable(t: TableIdentity)
    ensures Storable(Record(IdentityFields(t)))
  {
    hide Storable, FieldNames;
    var fs := IdentityFields(t);
    IdentityNamesFit();
    assert KeysOf(fs) == IDENTITY_NAMES;
    LeafStorable(fs[0].value);
    LeafStorable(fs[1].value);
    LeafStorable(fs[2].value);
    LeafStorable(fs[3].value);
    RecordStorable(fs, IDENTITY_NAMES);
  }

  lemma {:induction false} TextPartsBack(s: string, o: Option<string>, x: Float)
    ensures AsText(View(Value.Text(s))) == Some(s) && AsOptionalText(View(OptionalText(o))) == Some(o)
    ensures AsReal(View(Real(x))) == Some(x)
  {
  }

  // ---------------------------------------------------------------- evidence

  const EVIDENCE_NAMES := ["code", "explanation", "contribution"]

  function OptionalReal(x: Option<Float>): Value {
    if x.None? then Nothing else Real(x.value)
  }

  function EvidenceFields(e: Evidence): seq<Entry> {
    [Entry("code", Value.Text(e.code)), Entry("explanation", Value.Text(e.explanation)),
     Entry("contribution", OptionalReal(e.contribution))]
  }

  function DecodeEvidence(t: Tree): Option<Evidence> {
    if !t.TObject? || !OnlyKeys(t.members, EVIDENCE_NAMES) || "code" !in t.members || "explanation" !in t.members then None
    else
      var m := t.members;
      var code, explanation := AsText(m["code"]), AsText(m["explanation"]);
      var contribution := AsOptionalReal(Get(m, "contribution", TNull));
      if code.None? || explanation.None? || contribution.None? then None
      else Some(Evidence(code.value, explanation.value, contribution.value))
  }

  lemma {:induction false} EvidenceNamesFit()
    ensures FieldNames(EVIDENCE_NAMES)
  {
    var n := EVIDENCE_NAMES;
    assert |n[0]| == 4 && |n[1]| == 11 && |n[2]| == 12 && |VENDOR| == 15;
  }

  lemma {:induction false} EvidenceBack(e: Evidence)
    ensures DecodeEvidence(View(Record(EvidenceFields(e)))) == Some(e)
  {
    hide ViewEntries, FieldNames, Get, View, AsText, AsOptionalReal, OptionalReal;
    var fs := EvidenceFields(e);
    EvidenceNamesFit();
    assert KeysOf(fs) == EVIDENCE_NAMES;
    RecordView(fs);
    FieldsDistinct(fs, EVIDENCE_NAMES);
    FieldRead(fs, EVIDENCE_NAMES, 0, TNull);
    FieldRead(fs, EVIDENCE_NAMES, 1, TNull);
    FieldRead(fs, EVIDENCE_NAMES, 2, TNull);
    TextPartsBack(e.code, None, NegativeZero);
    TextPartsBack(e.explanation, None, NegativeZero);
    ContributionBack(e.contribution);
  }

  lemma {:induction false} ContributionBack(x: Option<Float>)
    ensures AsOptionalReal(View(OptionalReal(x))) == Some(x) && Storable(OptionalReal(x))
  {
  }

  lemma {:induction false} EvidenceStorable(e: Evidence)
    ensures Storable(Record(EvidenceFields(e)))
  {
    hide Storable, FieldNames, View;
    var fs := EvidenceFields(e);
    EvidenceNamesFit();
    assert KeysOf(fs) == EVIDENCE_NAMES;
    LeafStorable(fs[0].value);
    LeafStorable(fs[1].value);
    ContributionBack(e.contribution);
    RecordStorable(fs, EVIDENCE_NAMES);
  }

  function EvidenceValues(es: seq<Evidence>): (r: seq<Value>)
    ensures |r| == |es|
  {
    if es == [] then [] else [Record(EvidenceFields(es[0]))] + EvidenceValues(es[1..])
  }

  function DecodeEvidences(ts: seq<Tree>): Option<seq<Evidence>> {
    if ts == [] then Some([])
    else
      var first, rest := DecodeEvidence(ts[0]), DecodeEvidences(ts[1..]);
      if first.None? || rest.None? then None else Some([first.value] + rest.value)
  }

  function AsEvidences(t: Tree): Option<seq<Evidence>> {
    if t.TList? then DecodeEvidences(t.items) else None
  }

  lemma {:induction false} EvidencesBack(es: seq<Evidence>)
    ensures DecodeEvidences(ViewEach(EvidenceValues(es))) == Some(es)
    ensures EncodableEach(EvidenceValues(es)) && KeyedEach(EvidenceValues(es))
  {
    hide DecodeEvidence, View, Encodable, Keyed, EvidenceFields;
    if es != [] {
      EvidenceBack(es[0]);
      EvidenceStorable(es[0]);
      EvidencesBack(es[1..]);
      assert es == [es[0]] + es[1..];
    }
  }

  // ---------------------------------------------------------------- approvals

  const APPROVAL_NAMES :=
    ["source_column", "target_column", "status", "original_confidence", "original_compatibility", "original_evidence",
     "compatibility", "target_ordinal_position", "reviewer_note", "override_reason", "transformation"]

  function OptionalNat(n: Option<nat>): Value {
    if n.None? then Nothing else Int(n.value)
  }

  function AsOptionalNat(t: Tree): Option<Option<nat>> {
    match t
    case TNull => Some(None)
    case TInt(i) => if i >= 0 then Some(Some(i)) else None
    case _ => None
  }

  function OptionalExpression(e: Option<Expression>): Value {
    if e.None? then Nothing else ExpressionValue(e.value)
  }

  function AsOptionalExpression(t: Tree): Option<Option<Expression>> {
    if t.TNull? then Some(None)
    else
      var e := DecodeExpression(t);
      if e.None? then None else Some(e)
  }

  function ApprovalFields(a: Approval): seq<Entry> {
    [Entry("source_column", Value.Text(a.source)), Entry("target_column", OptionalText(a.target)),
     Entry("status", Code(StatusName(a.status))), Entry("original_confidence", Real(a.originalConfidence)),
     Entry("original_compatibility", Code(CompatibilityName(a.originalCompatibility))),
     Entry("original_evidence", List(EvidenceValues(a.originalEvidence))),
     Entry("compatibility", Code(CompatibilityName(a.compatibility))),
     Entry("target_ordinal_position", OptionalNat(a.ordinal)), Entry("reviewer_note", OptionalText(a.reviewerNote)),
     Entry("override_reason", OptionalText(a.overrideReason)), Entry("transformation", OptionalExpression(a.transformation))]
  }

  /** The fields that describe the proposal. */
  function ReadOriginal(m: map<string, Tree>): Option<(Float, Compatibility, seq<Evidence>)> {
    var confidence := AsReal(Get(m, "original_confidence", TNull));
    var compatibility := AsNamed(CompatibilityName, COMPATIBILITIES, Get(m, "original_compatibility", TNull));
    var evidence := AsEvidences(Get(m, "original_evidence", TNull));
    if confidence.None? || compatibility.None? || evidence.None? then None
    else Some((confidence.value, compatibility.value, evidence.value))
  }

  /** The fields that describe the review. */
  function ReadReview(m: map<string, Tree>): Option<(Compatibility, Option<nat>, Option<string>, Option<string>)> {
    var compatibility := AsNamed(CompatibilityName, COMPATIBILITIES, Get(m, "compatibility", TNull));
    var ordinal := AsOptionalNat(Get(m, "target_ordinal_position", TNull));
    var note, reason := AsOptionalText(Get(m, "reviewer_note", TNull)), AsOptionalText(Get(m, "override_reason", TNull));
    if compatibility.None? || ordinal.None? || note.None? || reason.None? then None
    else Some((compatibility.value, ordinal.value, note.value, reason.value))
  }

  function DecodeApproval(t: Tree): Option<Approval> {
    if !t.TObject? || !OnlyKeys(t.members, APPROVAL_NAMES) || "target_column" !in t.members then None
    else
      var m := t.members;
      var source, target := AsText(Get(m, "source_column", TNull)), AsOptionalText(Get(m, "target_column", TNull));
      var status := AsNamed(StatusName, STATUSES, Get(m, "status", TNull));
      var original, review := ReadOriginal(m), ReadReview(m);
      var transformation := AsOptionalExpression(Get(m, "transformation", TNull));
      if source.None? || target.None? || status.None? || original.None? || review.None? || transformation.None? then None
      else
        var a := Approval(source.value, target.value, status.value, original.value.0, original.value.1,
                          original.value.2, review.value.0, review.value.1, review.value.2, review.value.3,
                          transformation.value);
        if ValidApproval(a) then Some(a) else None
  }

  lemma {:induction false} ApprovalNamesFit()
    ensures FieldNames(APPROVAL_NAMES)
  {
    var n := APPROVAL_NAMES;
    assert |n[0]| == 13 && |n[1]| == 13 && |n[2]| == 6 && |n[3]| == 19 && |n[4]| == 22 && |n[5]| == 17;
    assert |n[6]| == 13 && |n[7]| == 23 && |n[8]| == 13 && |n[9]| == 15 && |n[10]| == 14 && |VENDOR| == 15;
    assert n[0][0] == 's' && n[1][0] == 't' && n[6][0] == 'c' && n[8][0] == 'r' && n[9][0] == 'o' && VENDOR[0] == 'v';
  }

  predicate ApprovalLiterals(a: Approval) {
    a.transformation.Some? ==> JsonLiterals(a.transformation.value)
  }

  lemma {:induction false} ApprovalPartsBack(a: Approval)
    requires ValidApproval(a) && ApprovalLiterals(a)
    ensures AsNamed(StatusName, STATUSES, View(Code(StatusName(a.status)))) == Some(a.status)
    ensures AsNamed(CompatibilityName, COMPATIBILITIES, View(Code(CompatibilityName(a.compatibility)))) == Some(a.compatibility)
    ensures AsNamed(CompatibilityName, COMPATIBILITIES, View(Code(CompatibilityName(a.originalCompatibility))))
            == Some(a.originalCompatibility)
    ensures AsEvidences(View(List(EvidenceValues(a.originalEvidence)))) == Some(a.originalEvidence)
    ensures AsOptionalNat(View(OptionalNat(a.ordinal))) == Some(a.ordinal)
    ensures AsOptionalExpression(View(OptionalExpression(a.transformation))) == Some(a.transformation)
  {
    hide StatusName, CompatibilityName, AsNamed, View, AsOptionalNat, AsOptionalExpression, OptionalExpression,
         OptionalNat, EvidenceValues, JsonLiterals, ValidExpression;
    CodeView(StatusName(a.status));
    CodeView(CompatibilityName(a.compatibility));
    CodeView(CompatibilityName(a.originalCompatibility));
    StatusBack(a.status);
    CompatibilityBack(a.compatibility);
    CompatibilityBack(a.originalCompatibility);
    EvidencesBack(a.originalEvidence);
    ListView(EvidenceValues(a.originalEvidence));
    OrdinalBack(a.ordinal);
    TransformationBack(a.transformation);
  }

  lemma {:induction false} CodeView(s: string)
    ensures View(Code(s)) == TText(s)
  {
  }

  lemma {:induction false} OrdinalBack(n: Option<nat>)
    ensures AsOptionalNat(View(OptionalNat(n))) == Some(n)
  {
  }

  lemma {:induction false} TransformationBack(e: Option<Expression>)
    requires e.Some? ==> ValidExpression(e.value) && JsonLiterals(e.value)
    ensures AsOptionalExpression(View(OptionalExpression(e))) == Some(e)
  {
    hide DecodeExpression, ExpressionValue, JsonLiterals, ValidExpression;
    if e.Some? {
      ExpressionBack(e.value);
      ExpressionIsObject(e.value);
    }
  }

  lemma {:induction false} ExpressionIsObject(e: Expression)
    ensures View(ExpressionValue(e)).TObject?
  {
  }

  lemma {:induction false} ApprovalBack(a: Approval)
    requires ValidApproval(a) && ApprovalLiterals(a)
    ensures DecodeApproval(View(Record(ApprovalFields(a)))) == Some(a)
  {
    hide ViewEntries, FieldNames, Get, View, AsNamed, AsEvidences, AsOptionalNat, AsOptionalText, AsText, AsReal,
         AsOptionalExpression, OptionalText, OptionalNat, OptionalExpression, StatusName, CompatibilityName,
         ValidApproval, ApprovalLiterals, ReadOriginal, ReadReview;
    var fs, n := ApprovalFields(a), APPROVAL_NAMES;
    ApprovalNamesFit();
    assert KeysOf(fs) == n;
    RecordView(fs);
    FieldsDistinct(fs, n);
    FieldRead(fs, n, 0, TNull);
    FieldRead(fs, n, 1, TNull);
    FieldRead(fs, n, 2, TNull);
    FieldRead(fs, n, 10, TNull);
    OriginalBack(a);
    ReviewBack(a);
    ApprovalPartsBack(a);
    TextPartsBack(a.source, a.target, a.originalConfidence);
  }

  lemma {:induction false} ReviewBack(a: Approval)
    requires ValidApproval(a) && ApprovalLiterals(a)
    ensures ReadReview(ViewEntries(ApprovalFields(a)))
            == Some((a.compatibility, a.ordinal, a.reviewerNote, a.overrideReason))
  {
    hide ViewEntries, FieldNames, Get, View, AsNamed, AsEvidences, AsReal, CompatibilityName, ValidApproval,
         ApprovalLiterals, OptionalText, OptionalNat, OptionalExpression, StatusName, AsOptionalNat, AsOptionalText;
    var fs, n := ApprovalFields(a), APPROVAL_NAMES;
    ApprovalNamesFit();
    assert KeysOf(fs) == n;
    FieldRead(fs, n, 6, TNull);
    FieldRead(fs, n, 7, TNull);
    FieldRead(fs, n, 8, TNull);
    FieldRead(fs, n, 9, TNull);
    ApprovalPartsBack(a);
    TextPartsBack(a.source, a.reviewerNote, a.originalConfidence);
    TextPartsBack(a.source, a.overrideReason, a.originalConfidence);
  }

  lemma {:induction false} OriginalBack(a: Approval)
    requires ValidApproval(a) && ApprovalLiterals(a)
    ensures ReadOriginal(ViewEntries(ApprovalFields(a)))
            == Some((a.originalConfidence, a.originalCompatibility, a.originalEvidence))
  {
    hide ViewEntries, FieldNames, Get, View, AsNamed, AsEvidences, AsReal, CompatibilityName, ValidApproval,
         ApprovalLiterals, OptionalText, OptionalNat, OptionalExpression, StatusName;
    var fs, n := ApprovalFields(a), APPROVAL_NAMES;
    ApprovalNamesFit();
    assert KeysOf(fs) == n;
    FieldRead(fs, n, 3, TNull);
    FieldRead(fs, n, 4, TNull);
    FieldRead(fs, n, 5, TNull);
    ApprovalPartsBack(a);
    TextPartsBack(a.source, a.target, a.originalConfidence);
  }

  predicate ApprovalEncodes(a: Approval) {
    a.transformation.Some? ==> EncodableLiterals(a.transformation.value)
  }

  lemma {:induction false} OptionsStorable(t: Option<string>, n: Option<nat>, e: Option<Expression>)
    requires e.Some? ==> EncodableLiterals(e.value)
    ensures Storable(OptionalText(t)) && Storable(OptionalNat(n)) && Storable(OptionalExpression(e))
  {
    hide Storable, EncodableLiterals;
    LeafStorable(OptionalText(t));
    LeafStorable(OptionalNat(n));
    if e.None? { LeafStorable(OptionalExpression(e)); } else { ExpressionStorable(e.value); }
  }

  lemma {:induction false} ExpressionStorable(e: Expression)
    requires EncodableLiterals(e)
    ensures Storable(ExpressionValue(e))
  {
    hide Encodable, Keyed, EncodableLiterals;
    ExpressionEncodable(e);
  }

  lemma {:induction false} ApprovalStorable(a: Approval)
    requires ApprovalEncodes(a)
    ensures Storable(Record(ApprovalFields(a)))
  {
    hide FieldNames, Storable, EvidenceValues, OptionalText, OptionalNat, OptionalExpression, StatusName,
         CompatibilityName, EncodableLiterals;
    var fs := ApprovalFields(a);
    ApprovalNamesFit();
    assert KeysOf(fs) == APPROVAL_NAMES;
    LeafStorable(fs[0].value);
    LeafStorable(fs[2].value);
    LeafStorable(fs[3].value);
    LeafStorable(fs[4].value);
    LeafStorable(fs[6].value);
    EvidencesBack(a.originalEvidence);
    ListStorable(EvidenceValues(a.originalEvidence));
    OptionsStorable(a.target, a.ordinal, a.transformation);
    OptionsStorable(a.reviewerNote, a.ordinal, a.transformation);
    OptionsStorable(a.overrideReason, a.ordinal, a.transformation);
    RecordStorable(fs, APPROVAL_NAMES);
  }

  function ApprovalValues(xs: seq<Approval>): (r: seq<Value>)
    ensures |r| == |xs|
  {
    if xs == [] then [] else [Record(ApprovalFields(xs[0]))] + ApprovalValues(xs[1..])
  }

  function DecodeApprovals(ts: seq<Tree>): Option<seq<Approval>> {
    if ts == [] then Some([])
    else
      var first, rest := DecodeApproval(ts[0]), DecodeApprovals(ts[1..]);
      if first.None? || rest.None? then None else Some([first.value] + rest.value)
  }

  function AsApprovals(t: Tree): Option<seq<Approval>> {
    if t.TList? then DecodeApprovals(t.items) else None
  }

  predicate AllLiterals(xs: seq<Approval>) {
    forall i :: 0 <= i < |xs| ==> ApprovalLiterals(xs[i])
  }

  lemma {:induction false} ApprovalsBack(xs: seq<Approval>)
    requires AllLiterals(xs) && forall i :: 0 <= i < |xs| ==> ValidApproval(xs[i])
    ensures AsApprovals(View(List(ApprovalValues(xs)))) == Some(xs)
  {
    hide DecodeApproval, ApprovalFields, ValidApproval, ApprovalLiterals, View;
    ListView(ApprovalValues(xs));
    if xs != [] {
      ApprovalBack(xs[0]);
      ApprovalsBack(xs[1..]);
      ListView(ApprovalValues(xs[1..]));
      assert xs == [xs[0]] + xs[1..];
    }
  }

  // ---------------------------------------------------------------- plans

  const PLAN_NAMES :=
    ["source_table", "target_table", "approvals", "approved_mappings", "rejected_source_columns",
     "unmatched_source_columns", "unmatched_target_columns", "warnings", "version"]

  function PlanFields(p: ApprovedPlan): seq<Entry> {
    [Entry("source_table", Record(IdentityFields(p.sourceTable))), Entry("target_table", Record(IdentityFields(p.targetTable))),
     Entry("approvals", List(ApprovalValues(p.approvals))),
     Entry("approved_mappings", List(ApprovalValues(p.approvedMappings))),
     Entry("rejected_source_columns", List(TextsValue(p.rejectedSources))),
     Entry("unmatched_source_columns", List(TextsValue(p.unmatchedSources))),
     Entry("unmatched_target_columns", List(TextsValue(p.unmatchedTargets))),
     Entry("warnings", List(TextsValue(p.warnings))), Entry("version", Int(p.version))]
  }

  /** The artifact payload of an approved plan. */
  function PlanValue(p: ApprovedPlan): Value {
    Record(PlanFields(p))
  }

  function AsInt(t: Tree): Option<int> {
    if t.TInt? then Some(t.i) else None
  }

  /** The two tables and the approvals; all of them must be present. */
  function ReadBody(m: map<string, Tree>): Option<(TableIdentity, TableIdentity, seq<Approval>, seq<Approval>)> {
    var source, target := DecodeIdentity(Get(m, "source_table", TNull)), DecodeIdentity(Get(m, "target_table", TNull));
    var approvals := AsApprovals(Get(m, "approvals", TNull));
    var approved := AsApprovals(Get(m, "approved_mappings", TNull));
    if source.None? || target.None? || approvals.None? || approved.None? then None
    else Some((source.value, target.value, approvals.value, approved.value))
  }

  /** The plan an artifact stands for, if the artifact is well-formed and its plan passes the constructor. */
  function DecodePlan(t: Tree): Option<ApprovedPlan> {
    if !t.TObject? || !OnlyKeys(t.members, PLAN_NAMES) then None
    else
      var m := t.members;
      var body := ReadBody(m);
      var rejected := AsTextList(Get(m, "rejected_source_columns", TList([])));
      var sources := AsTextList(Get(m, "unmatched_source_columns", TList([])));
      var targets := AsTextList(Get(m, "unmatched_target_columns", TList([])));
      var warnings := AsTextList(Get(m, "warnings", TList([])));
      var version := AsInt(Get(m, "version", TInt(1)));
      if body.None? || rejected.None? || sources.None? || targets.None? || warnings.None? || version.None? then None
      else
        var p := ApprovedPlan(body.value.0, body.value.1, body.value.2, body.value.3, rejected.value, sources.value,
                              targets.value, warnings.value, version.value);
        if ValidPlan(p) then Some(p) else None
  }

  lemma {:induction false} PlanNamesFit()
    ensures FieldNames(PLAN_NAMES)
  {
    var n := PLAN_NAMES;
    assert |n[0]| == 12 && |n[1]| == 12 && |n[2]| == 9 && |n[3]| == 17 && |n[4]| == 23 && |n[5]| == 24;
    assert |n[6]| == 24 && |n[7]| == 8 && |n[8]| == 7 && |VENDOR| == 15;
    assert n[0][0] == 's' && n[1][0] == 't' && n[5][10] == 's' && n[6][10] == 't';
  }

  lemma {:induction false} OnlyApprovedValid(p: ApprovedPlan)
    requires ValidPlan(p) && AllLiterals(p.approvals)
    ensures AllLiterals(p.approvedMappings)
    ensures forall i :: 0 <= i < |p.approvedMappings| ==> ValidApproval(p.approvedMappings[i])
  {
    hide ValidApproval, ApprovalLiterals;
    forall i | 0 <= i < |p.approvedMappings|
      ensures ValidApproval(p.approvedMappings[i]) && ApprovalLiterals(p.approvedMappings[i])
    {
      assert p.approvedMappings[i] in p.approvals;
      var j :| 0 <= j < |p.approvals| && p.approvals[j] == p.approvedMappings[i];
    }
  }

  lemma {:induction false} ValidParts(p: ApprovedPlan)
    requires ValidPlan(p)
    ensures ValidIdentity(p.sourceTable) && ValidIdentity(p.targetTable)
    ensures forall i :: 0 <= i < |p.approvals| ==> ValidApproval(p.approvals[i])
  {
    hide ValidApproval, ValidIdentity, ValidNames;
  }

  lemma {:induction false} BodyBack(p: ApprovedPlan)
    requires ValidPlan(p) && AllLiterals(p.approvals)
    ensures ReadBody(ViewEntries(PlanFields(p))) == Some((p.sourceTable, p.targetTable, p.approvals, p.approvedMappings))
  {
    hide ViewEntries, FieldNames, Get, View, DecodeIdentity, AsApprovals, ValidPlan, ValidApproval, AllLiterals,
         ValidIdentity, ApprovalValues, IdentityFields, TextsValue, EncodableEach, KeyedEach, Encodable, Keyed;
    var fs, n := PlanFields(p), PLAN_NAMES;
    PlanNamesFit();
    assert KeysOf(fs) == n;
    FieldRead(fs, n, 0, TNull);
    FieldRead(fs, n, 1, TNull);
    FieldRead(fs, n, 2, TNull);
    FieldRead(fs, n, 3, TNull);
    ValidParts(p);
    OnlyApprovedValid(p);
    IdentityBack(p.sourceTable);
    IdentityBack(p.targetTable);
    ApprovalsBack(p.approvals);
    ApprovalsBack(p.approvedMappings);
  }

  lemma {:induction false} TextListBack(ss: seq<string>)
    ensures AsTextList(View(List(TextsValue(ss)))) == Some(ss)
  {
    hide TextsValue;
    TextsBack(ss);
    ListView(TextsValue(ss));
  }

  lemma {:induction false} IntBack(i: int)
    ensures AsInt(View(Int(i))) == Some(i)
  {
  }

  /** Decoding a written plan gives it back. */
  lemma {:induction false} PlanBack(p: ApprovedPlan)
    requires ValidPlan(p) && AllLiterals(p.approvals)
    ensures DecodePlan(View(PlanValue(p))) == Some(p)
  {
    hide ViewEntries, FieldNames, Get, View, ReadBody, AsTextList, AsInt, ValidPlan, AllLiterals, ApprovalValues,
         IdentityFields, TextsValue;
    var fs, n := PlanFields(p), PLAN_NAMES;
    PlanNamesFit();
    assert KeysOf(fs) == n;
    RecordView(fs);
    FieldsDistinct(fs, n);
    BodyBack(p);
    FieldRead(fs, n, 4, TList([]));
    FieldRead(fs, n, 5, TList([]));
    FieldRead(fs, n, 6, TList([]));
    FieldRead(fs, n, 7, TList([]));
    FieldRead(fs, n, 8, TInt(1));
    TextListBack(p.rejectedSources);
    TextListBack(p.unmatchedSources);
    TextListBack(p.unmatchedTargets);
    TextListBack(p.warnings);
    IntBack(p.version);
  }

  lemma {:induction false} ApprovalDecoded(t: Tree)
    requires DecodeApproval(t).Some?
    ensures ApprovalLiterals(DecodeApproval(t).value)
  {
    hide AsNamed, AsOptionalText, AsText, ReadOriginal, ReadReview, ValidApproval, DecodeExpression, JsonLiterals, OnlyKeys;
    var e := Get(t.members, "transformation", TNull);
    if DecodeExpression(e).Some? { DecodedLiterals(e); }
  }

  lemma {:induction false} ApprovalsDecoded(ts: seq<Tree>)
    requires DecodeApprovals(ts).Some?
    ensures AllLiterals(DecodeApprovals(ts).value)
  {
    hide DecodeApproval, ApprovalLiterals;
    if ts != [] {
      ApprovalDecoded(ts[0]);
      ApprovalsDecoded(ts[1..]);
    }
  }

  lemma {:induction false} PlanDecoded(t: Tree)
    requires DecodePlan(t).Some?
    ensures AllLiterals(DecodePlan(t).value.approvals)
  {
    hide DecodeIdentity, DecodeApprovals, AsTextList, AsInt, ValidPlan, AllLiterals, OnlyKeys;
    ApprovalsDecoded(Get(t.members, "approvals", TNull).items);
  }

  lemma {:induction false} TextListStorable(ss: seq<string>)
    ensures Storable(List(TextsValue(ss)))
  {
    hide TextsValue, Storable;
    TextsBack(ss);
    ListStorable(TextsValue(ss));
  }

  predicate AllEncode(xs: seq<Approval>) {
    forall i :: 0 <= i < |xs| ==> ApprovalEncodes(xs[i])
  }

  lemma {:induction false} ApprovalEachStorable(xs: seq<Approval>)
    requires AllEncode(xs)
    ensures EncodableEach(ApprovalValues(xs)) && KeyedEach(ApprovalValues(xs))
  {
    hide Encodable, Keyed, ApprovalFields, ApprovalEncodes;
    if xs != [] {
      ApprovalStorable(xs[0]);
      ApprovalEachStorable(xs[1..]);
    }
  }

  lemma {:induction false} ApprovalListStorable(xs: seq<Approval>)
    requires AllEncode(xs)
    ensures Storable(List(ApprovalValues(xs)))
  {
    hide ApprovalValues, Storable, AllEncode;
    ApprovalEachStorable(xs);
    ListStorable(ApprovalValues(xs));
  }

  lemma {:induction false} OnlyApprovedEncode(p: ApprovedPlan)
    requires ValidPlan(p) && AllEncode(p.approvals)
    ensures AllEncode(p.approvedMappings)
  {
    hide ApprovalEncodes, ValidApproval;
    forall i | 0 <= i < |p.approvedMappings| ensures ApprovalEncodes(p.approvedMappings[i]) {
      assert p.approvedMappings[i] in p.approvals;
      var j :| 0 <= j < |p.approvals| && p.approvals[j] == p.approvedMappings[i];
    }
  }

  lemma {:induction false} PlanIsStorable(p: ApprovedPlan)
    requires ValidPlan(p) && AllEncode(p.approvals)
    ensures Storable(PlanValue(p))
  {
    hide FieldNames, ApprovalValues, IdentityFields, TextsValue, Storable, ValidPlan, AllEncode;
    var fs := PlanFields(p);
    PlanNamesFit();
    assert KeysOf(fs) == PLAN_NAMES;
    OnlyApprovedEncode(p);
    IdentityStorable(p.sourceTable);
    IdentityStorable(p.targetTable);
    ApprovalListStorable(p.approvals);
    ApprovalListStorable(p.approvedMappings);
    TextListStorable(p.rejectedSources);
    TextListStorable(p.unmatchedSources);
    TextListStorable(p.unmatchedTargets);
    TextListStorable(p.warnings);
    LeafStorable(Int(p.version));
    RecordStorable(fs, PLAN_NAMES);
  }
}
