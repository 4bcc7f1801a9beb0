/**
 * Applying review decisions to a proposal. Every source column keeps the evidence of the
 * proposal and gets one explicit disposition; what is approved is ready for the compilers.
 */
module MappingApproval {
  import opened Common
  import opened MappingModel
  import opened Ordering
  import opened Columns
  import opened SqlMeaning
  import opened Transformation

  datatype ReviewDecision = ReviewDecision(
    source: string, status: ApprovalStatus, target: Option<string>, note: Option<string>, reason: Option<string>,
    transformation: Option<Expression>)

  predicate ValidDecision(d: ReviewDecision) {
    && ValidName(d.source) && ValidOptionalName(d.target)
    && (d.transformation.Some? ==> ValidExpression(d.transformation.value))
    && (d.status == Rejected ==> d.transformation.None?)
    && (d.status == Overridden ==> d.reason.Some? && !IsBlank(d.reason.value))
  }

  datatype ApprovalError =
    | IdentityMismatch | DuplicateDecision | UnknownSource | SuggestionsMismatch | UnknownTarget | IncompatibleTypes
    | LowConfidence | TransformationNeeded | UnknownColumn | TargetReused | PlanRefused

  /** A dictionary by name: the last column of a name is kept. */
  function ColumnNamed(cs: seq<Column>, name: string): (r: Option<Column>)
    ensures r.Some? <==> exists c :: c in cs && c.name == name
    ensures r.Some? ==> r.value in cs && r.value.name == name
  {
    if cs == [] then None
    else if cs[|cs| - 1].name == name then Some(cs[|cs| - 1])
    else ColumnNamed(cs[..|cs| - 1], name)
  }

  function SuggestionFor(xs: seq<Suggestion>, name: string): (r: Option<Suggestion>)
    ensures r.Some? <==> exists x :: x in xs && x.source == name
    ensures r.Some? ==> r.value in xs && r.value.source == name
  {
    if xs == [] then None
    else if xs[|xs| - 1].source == name then Some(xs[|xs| - 1])
    else SuggestionFor(xs[..|xs| - 1], name)
  }

  function DecisionFor(ds: seq<ReviewDecision>, name: string): (r: Option<ReviewDecision>)
    ensures r.Some? <==> exists d :: d in ds && d.source == name
    ensures r.Some? ==> r.value in ds && r.value.source == name
  {
    if ds == [] then None else if ds[0].source == name then Some(ds[0]) else DecisionFor(ds[1..], name)
  }

  // ---------------------------------------------------------------- one column

  /** Only proven-safe mappings get a transformation of their own. */
  function AutomaticTransformation(s: Column, t: Column, c: Compatibility): Option<Expression> {
    match c
    case Exact => Some(Expression(DirectCopy, [s.name], Null, None, [], None, None, None))
    case Safe => Some(Expression(Cast, [s.name], Null, Some(t.ctype), [], None, None, None))
    case _ => None
  }

  /** Every column anywhere in the tree is known. */
  predicate KnownColumns(e: Expression, names: set<string>)
    decreases e
  {
    (forall i :: 0 <= i < |e.columns| ==> e.columns[i] in names) && KnownColumnsEach(e.arguments, names)
  }

  predicate KnownColumnsEach(es: seq<Expression>, names: set<string>)
    decreases es
  {
    es == [] || (KnownColumns(es[0], names) && KnownColumnsEach(es[1..], names))
  }

  lemma {:induction false} KnownColumnsMeans(e: Expression, names: set<string>)
    ensures KnownColumns(e, names) <==> ColumnsOf(e) <= names
    decreases e
  {
    KnownColumnsEachMeans(e.arguments, names);
    var own := set c | c in e.columns;
    assert (forall i :: 0 <= i < |e.columns| ==> e.columns[i] in names) <==> own <= names by {
      if own <= names { forall i | 0 <= i < |e.columns| ensures e.columns[i] in names { assert e.columns[i] in own; } }
    }
  }

  lemma {:induction false} KnownColumnsEachMeans(es: seq<Expression>, names: set<string>)
    ensures KnownColumnsEach(es, names) <==> ColumnsOfEach(es) <= names
    decreases es
  {
    hide KnownColumns, ColumnsOf;
    if es != [] {
      KnownColumnsMeans(es[0], names);
      KnownColumnsEachMeans(es[1..], names);
    }
  }

  function OrdinalAt(targets: seq<Column>, name: Option<string>): Option<nat> {
    if name.None? || ColumnNamed(targets, name.value).None? then None else ColumnNamed(targets, name.value).value.ordinal
  }

  function PendingFor(base: Suggestion, targets: seq<Column>): Approval {
    Approval(base.source, base.target, Pending, base.confidence, base.compatibility, base.evidence, base.compatibility,
             OrdinalAt(targets, base.target), None, None, None)
  }

  /** The target the decision names, or the suggested one. */
  function Chosen(base: Suggestion, d: ReviewDecision): Option<string> {
    if d.status == Rejected then None else if d.target.Some? then d.target else base.target
  }

  const LOW := 0.72

  /** The checks of an approval or override: the transformation to use, or an objection. */
  function ApprovedTransformation(s: Column, base: Suggestion, d: ReviewDecision, t: Column)
    : Result<Expression, ApprovalError>
  {
    var c := TypeCompatibility(s, t).0;
    if d.status == Approved && c == Incompatible then Err(IncompatibleTypes)
    else if d.status == Approved && base.target == Some(t.name) && base.confidence.Amount() < LOW then Err(LowConfidence)
    else
      var e := if d.transformation.Some? then d.transformation else AutomaticTransformation(s, t, c);
      if e.None? then Err(TransformationNeeded) else Ok(e.value)
  }

  /** The disposition of one source column. */
  function Judge(
    s: Column, base: Suggestion, decision: Option<ReviewDecision>, names: set<string>, targets: seq<Column>)
    : Result<Approval, ApprovalError>
  {
    if decision.None? then Ok(PendingFor(base, targets))
    else
      var d := decision.value;
      var chosen := Chosen(base, d);
      var known := chosen.Some? && ColumnNamed(targets, chosen.value).Some?;
      if d.target.Some? && ColumnNamed(targets, d.target.value).None? then Err(UnknownTarget)
      else if chosen.Some? && !known then Err(UnknownTarget)
      else if (d.status == Approved || d.status == Overridden) && !known then Err(UnknownTarget)
      else
        var transformation: Result<Option<Expression>, ApprovalError> :=
          if d.status == Approved || d.status == Overridden then
            var e := ApprovedTransformation(s, base, d, ColumnNamed(targets, chosen.value).value);
            if e.Err? then Err(e.error) else Ok(Some(e.value))
          else Ok(d.transformation);
        if transformation.Err? then Err(transformation.error)
        else if transformation.value.Some? && !KnownColumns(transformation.value.value, names) then Err(UnknownColumn)
        else
          Ok(Approval(s.name, chosen, d.status, base.confidence, base.compatibility, base.evidence,
                      if known then TypeCompatibility(s, ColumnNamed(targets, chosen.value).value).0
                      else base.compatibility,
                      OrdinalAt(targets, chosen), d.note, d.reason, transformation.value))
  }

  // ---------------------------------------------------------------- the whole plan

  function JudgeAll(
    ss: seq<Column>, plan: MappingPlan, decisions: seq<ReviewDecision>, names: set<string>, targets: seq<Column>)
    : (r: Result<seq<Approval>, ApprovalError>)
    requires forall i :: 0 <= i < |ss| ==> SuggestionFor(plan.suggestions, ss[i].name).Some?
    ensures r.Ok? ==> |r.value| == |ss|
  {
    if ss == [] then Ok([])
    else
      var base := SuggestionFor(plan.suggestions, ss[0].name).value;
      var first := Judge(ss[0], base, DecisionFor(decisions, ss[0].name), names, targets);
      if first.Err? then Err(first.error)
      else
        var rest := JudgeAll(ss[1..], plan, decisions, names, targets);
        if rest.Err? then rest else Ok([first.value] + rest.value)
  }

  function DecisionSources(ds: seq<ReviewDecision>): (r: seq<string>)
    ensures |r| == |ds| && forall i :: 0 <= i < |ds| ==> r[i] == ds[i].source
  {
    seq(|ds|, i requires 0 <= i < |ds| => ds[i].source)
  }

  function NameSet(cs: seq<Column>): set<string> {
    set n | n in NamesOfColumns(cs)
  }

  predicate AllSuggested(cs: seq<Column>, xs: seq<Suggestion>) {
    && (forall i :: 0 <= i < |cs| ==> SuggestionFor(xs, cs[i].name).Some?)
    && forall i :: 0 <= i < |xs| ==> ColumnNamed(cs, xs[i].source).Some?
  }

  function RejectedSources(xs: seq<Approval>): seq<string> {
    if xs == [] then []
    else (if xs[0].status == Rejected then [xs[0].source] else []) + RejectedSources(xs[1..])
  }

  function FreeTargets(ts: seq<Column>, used: seq<Option<string>>): seq<string> {
    if ts == [] then [] else (if Some(ts[0].name) in used then [] else [ts[0].name]) + FreeTargets(ts[1..], used)
  }

  function PlanWith(plan: MappingPlan, target: Table, approvals: seq<Approval>): ApprovedPlan {
    var approved := OnlyApproved(approvals);
    ApprovedPlan(plan.sourceTable, plan.targetTable, approvals, approved, RejectedSources(approvals),
                 plan.unmatchedSources, FreeTargets(OrderedColumns(target.columns), Targets(approved)), plan.warnings, 1)
  }

  /** The approved plan, or the first objection. */
  function Applied(plan: MappingPlan, source: Table, target: Table, decisions: seq<ReviewDecision>)
    : Result<ApprovedPlan, ApprovalError>
  {
    if plan.sourceTable != source.identity || plan.targetTable != target.identity then Err(IdentityMismatch)
    else if !Distinct(DecisionSources(decisions)) then Err(DuplicateDecision)
    else if exists i :: 0 <= i < |decisions| && ColumnNamed(source.columns, decisions[i].source).None? then
      Err(UnknownSource)
    else if !AllSuggested(source.columns, plan.suggestions) then Err(SuggestionsMismatch)
    else
      OrderedSuggested(source.columns, plan.suggestions);
      var approvals := JudgeAll(OrderedColumns(source.columns), plan, decisions, NameSet(source.columns), target.columns);
      if approvals.Err? then Err(approvals.error)
      else if !Distinct(Targets(OnlyApproved(approvals.value))) then Err(TargetReused)
      else Ok(PlanWith(plan, target, approvals.value))
  }

  /** The plan's constructor refuses names that occur twice. */
  function Constructed(r: Result<ApprovedPlan, ApprovalError>): Result<ApprovedPlan, ApprovalError> {
    if r.Ok? && !(Distinct(Sources(r.value.approvals)) && Distinct(r.value.rejectedSources)
                  && Distinct(r.value.unmatchedTargets))
    then Err(PlanRefused)
    else r
  }

  lemma {:induction false} OrderedSuggested(cs: seq<Column>, xs: seq<Suggestion>)
    requires AllSuggested(cs, xs)
    ensures var ss := OrderedColumns(cs); forall i :: 0 <= i < |ss| ==> SuggestionFor(xs, ss[i].name).Some?
  {
    hide SuggestionFor, SortBy;
    SortByCorrect(cs, PlaceOf);
    var ss := OrderedColumns(cs);
    forall i | 0 <= i < |ss| ensures SuggestionFor(xs, ss[i].name).Some? {
      assert ss[i] in multiset(ss) && ss[i] in multiset(cs);
      var j :| 0 <= j < |cs| && cs[j] == ss[i];
    }
  }

  // ---------------------------------------------------------------- what a review is promised

  /** Approval `i` is what the judge decided for column `i`. */
  ghost predicate Judged(
    approvals: seq<Approval>, ss: seq<Column>, plan: MappingPlan, decisions: seq<ReviewDecision>, names: set<string>,
    targets: seq<Column>)
  {
    && |approvals| == |ss|
    && forall i :: 0 <= i < |ss| ==>
         && SuggestionFor(plan.suggestions, ss[i].name).Some?
         && Judge(ss[i], SuggestionFor(plan.suggestions, ss[i].name).value, DecisionFor(decisions, ss[i].name), names,
                  targets) == Ok(approvals[i])
  }

  lemma {:induction false} JudgeAllJudged(
    ss: seq<Column>, plan: MappingPlan, decisions: seq<ReviewDecision>, names: set<string>, targets: seq<Column>)
    requires forall i :: 0 <= i < |ss| ==> SuggestionFor(plan.suggestions, ss[i].name).Some?
    requires JudgeAll(ss, plan, decisions, names, targets).Ok?
    ensures Judged(JudgeAll(ss, plan, decisions, names, targets).value, ss, plan, decisions, names, targets)
  {
    hide Judge, SuggestionFor, DecisionFor;
    if ss != [] {
      JudgeAllJudged(ss[1..], plan, decisions, names, targets);
      assert ss == [ss[0]] + ss[1..];
    }
  }

  /** A successful application: every approval judged, and targets used once. */
  lemma {:induction false} AppliedJudged(plan: MappingPlan, source: Table, target: Table, decisions: seq<ReviewDecision>)
    requires Applied(plan, source, target, decisions).Ok?
    ensures var p := Applied(plan, source, target, decisions).value;
            && p == PlanWith(plan, target, p.approvals)
            && plan.sourceTable == source.identity && plan.targetTable == target.identity
            && Judged(p.approvals, OrderedColumns(source.columns), plan, decisions, NameSet(source.columns), target.columns)
            && Distinct(Targets(OnlyApproved(p.approvals)))
  {
    hide Judge, SuggestionFor, DecisionFor, OrderedColumns, UniqueNames, Distinct, AllSuggested, ColumnNamed, Judged;
    OrderedSuggested(source.columns, plan.suggestions);
    JudgeAllJudged(OrderedColumns(source.columns), plan, decisions, NameSet(source.columns), target.columns);
  }

  /** The target a decision asks for: the one it names, or else the suggested one. */
  predicate AsksFor(x: Suggestion, d: ReviewDecision, target: string) {
    d.status != Rejected && if d.target.Some? then d.target == Some(target) else x.target == Some(target)
  }

  /** The approval keeps the proposal's evidence and everything the reviewer decided. */
  ghost predicate Honoured(a: Approval, s: Column, x: Suggestion, d: ReviewDecision, targets: seq<Column>) {
    && a.status == d.status && a.reviewerNote == d.note && a.overrideReason == d.reason
    && (forall n :: a.target == Some(n) <==> AsksFor(x, d, n))
    && (a.target.Some? ==>
          exists t :: t in targets && a.target == Some(t.name) && a.ordinal == t.ordinal
                      && a.compatibility == TypeCompatibility(s, t).0)
    && (a.target.None? ==> a.ordinal.None? && a.compatibility == x.compatibility)
    && if d.transformation.Some? then a.transformation == d.transformation
       else if a.status == Approved || a.status == Overridden then
         exists t :: t in targets && a.target == Some(t.name) && IsAutomatic(a, s, t)
       else a.transformation.None?
  }

  /** A copy of the source column, or its conversion to the type of the target column. */
  predicate IsAutomatic(a: Approval, s: Column, t: Column) {
    && a.transformation.Some? && a.transformation.value.columns == [s.name] && a.transformation.value.arguments == []
    && if a.compatibility == Exact then a.transformation.value.kind == DirectCopy
       else a.compatibility == Safe && a.transformation.value.kind == Cast && a.transformation.value.castTo == Some(t.ctype)
  }

  /** Without a decision the proposal stays as it is, waiting. */
  ghost predicate LeftPending(a: Approval, x: Suggestion, targets: seq<Column>) {
    && a.status == Pending && a.target == x.target && a.compatibility == x.compatibility
    && a.transformation.None? && a.reviewerNote.None? && a.overrideReason.None?
    && if exists t :: t in targets && x.target == Some(t.name)
       then exists t :: t in targets && x.target == Some(t.name) && a.ordinal == t.ordinal
       else a.ordinal.None?
  }

  ghost predicate Reviewed(a: Approval, s: Column, x: Suggestion, decisions: seq<ReviewDecision>, targets: seq<Column>) {
    && a.source == s.name == x.source && a.originalConfidence == x.confidence
    && a.originalCompatibility == x.compatibility && a.originalEvidence == x.evidence
    && (forall d :: d in decisions && d.source == s.name ==> Honoured(a, s, x, d, targets))
    && ((forall d :: d in decisions ==> d.source != s.name) ==> LeftPending(a, x, targets))
  }

  /** One approval for each source column in review order, and the lists that follow from them. */
  ghost predicate PlanReviewed(
    p: ApprovedPlan, plan: MappingPlan, source: Table, target: Table, decisions: seq<ReviewDecision>)
  {
    var ss := OrderedColumns(source.columns);
    && p.sourceTable == source.identity && p.targetTable == target.identity && p.version == 1
    && p.warnings == plan.warnings && p.unmatchedSources == plan.unmatchedSources
    && |p.approvals| == |ss|
    && (forall i :: 0 <= i < |ss| ==>
          exists x :: x in plan.suggestions && Reviewed(p.approvals[i], ss[i], x, decisions, target.columns))
    && (forall a :: a in p.approvedMappings <==> a in p.approvals && (a.status == Approved || a.status == Overridden))
    && (forall i, j :: 0 <= i < j < |p.approvedMappings| ==> p.approvedMappings[i].target != p.approvedMappings[j].target)
    && (forall n :: n in p.rejectedSources <==> exists a :: a in p.approvals && a.status == Rejected && a.source == n)
    && (forall n :: n in p.unmatchedTargets <==>
          && (exists t :: t in target.columns && t.name == n)
          && !exists a :: a in p.approvedMappings && a.target == Some(n))
  }

  lemma {:induction false} JudgedReviewed(
    s: Column, x: Suggestion, decisions: seq<ReviewDecision>, names: set<string>, targets: seq<Column>)
    requires x.source == s.name && Distinct(DecisionSources(decisions))
    requires Judge(s, x, DecisionFor(decisions, s.name), names, targets).Ok?
    ensures Reviewed(Judge(s, x, DecisionFor(decisions, s.name), names, targets).value, s, x, decisions, targets)
  {
    hide TypeCompatibility, KnownColumns, ColumnNamed, DecisionFor, Distinct;
    var a := Judge(s, x, DecisionFor(decisions, s.name), names, targets).value;
    forall d | d in decisions && d.source == s.name ensures Honoured(a, s, x, d, targets) {
      assert DecisionFor(decisions, s.name).value == d by { OneDecision(decisions, d, DecisionFor(decisions, s.name).value); }
      JudgedHonoured(s, x, d, names, targets);
    }
    if DecisionFor(decisions, s.name).None? { PendingLeft(x, targets); }
  }

  lemma {:induction false} PendingLeft(x: Suggestion, targets: seq<Column>)
    ensures LeftPending(PendingFor(x, targets), x, targets)
  {
    hide ColumnNamed;
  }

  lemma {:induction false} OneDecision(decisions: seq<ReviewDecision>, d: ReviewDecision, e: ReviewDecision)
    requires Distinct(DecisionSources(decisions)) && d in decisions && e in decisions && d.source == e.source
    ensures d == e
  {
    var i :| 0 <= i < |decisions| && decisions[i] == d;
    var j :| 0 <= j < |decisions| && decisions[j] == e;
    assert DecisionSources(decisions)[i] == DecisionSources(decisions)[j];
  }

  lemma {:induction false} JudgedHonoured(
    s: Column, x: Suggestion, d: ReviewDecision, names: set<string>, targets: seq<Column>)
    requires Judge(s, x, Some(d), names, targets).Ok?
    ensures Honoured(Judge(s, x, Some(d), names, targets).value, s, x, d, targets)
  {
    hide TypeCompatibility, KnownColumns, ColumnNamed;
    var a := Judge(s, x, Some(d), names, targets).value;
    if a.target.Some? {
      var t := ColumnNamed(targets, a.target.value).value;
      assert t in targets && a.target == Some(t.name) && a.compatibility == TypeCompatibility(s, t).0;
    }
  }

  lemma {:induction false} RejectedMembers(xs: seq<Approval>)
    ensures forall n :: n in RejectedSources(xs) <==> exists a :: a in xs && a.status == Rejected && a.source == n
  {
    if xs != [] {
      RejectedMembers(xs[1..]);
      assert xs == [xs[0]] + xs[1..];
    }
  }

  lemma {:induction false} FreeMembers(ts: seq<Column>, used: seq<Option<string>>)
    ensures forall n :: n in FreeTargets(ts, used) <==> (exists t :: t in ts && t.name == n) && Some(n) !in used
  {
    if ts != [] {
      FreeMembers(ts[1..], used);
      assert ts == [ts[0]] + ts[1..];
    }
  }

  lemma {:induction false} TargetsUsed(xs: seq<Approval>, n: string)
    ensures Some(n) in Targets(xs) <==> exists a :: a in xs && a.target == Some(n)
  {
    if a :| a in xs && a.target == Some(n) {
      var i :| 0 <= i < |xs| && xs[i] == a;
      assert Targets(xs)[i] == Some(n);
    }
    if Some(n) in Targets(xs) {
      var i :| 0 <= i < |xs| && Targets(xs)[i] == Some(n);
      assert xs[i] in xs;
    }
  }

  lemma {:induction false} OrderedHas(cs: seq<Column>)
    ensures forall c :: c in OrderedColumns(cs) <==> c in cs
  {
    SortByCorrect(cs, PlaceOf);
    forall c ensures c in OrderedColumns(cs) <==> c in cs {
      assert c in multiset(OrderedColumns(cs)) <==> c in multiset(cs);
    }
  }

  lemma {:induction false} ListsFollow(plan: MappingPlan, target: Table, approvals: seq<Approval>)
    requires Distinct(Targets(OnlyApproved(approvals)))
    ensures var p := PlanWith(plan, target, approvals);
            && (forall a :: a in p.approvedMappings <==> a in p.approvals && (a.status == Approved || a.status == Overridden))
            && (forall i, j :: 0 <= i < j < |p.approvedMappings| ==> p.approvedMappings[i].target != p.approvedMappings[j].target)
            && (forall n :: n in p.rejectedSources <==> exists a :: a in p.approvals && a.status == Rejected && a.source == n)
            && (forall n :: n in p.unmatchedTargets <==>
                  && (exists t :: t in target.columns && t.name == n)
                  && !exists a :: a in p.approvedMappings && a.target == Some(n))
  {
    hide OnlyApproved, RejectedSources, FreeTargets, OrderedColumns;
    var p := PlanWith(plan, target, approvals);
    var used := Targets(p.approvedMappings);
    RejectedMembers(approvals);
    FreeMembers(OrderedColumns(target.columns), used);
    OrderedHas(target.columns);
    forall i, j | 0 <= i < j < |p.approvedMappings|
      ensures p.approvedMappings[i].target != p.approvedMappings[j].target
    {
      assert used[i] != used[j];
    }
    forall n ensures Some(n) in used <==> exists a :: a in p.approvedMappings && a.target == Some(n) {
      TargetsUsed(p.approvedMappings, n);
    }
  }

  /** The plan keeps the proposal and every decision, column by column. */
  lemma {:induction false} AppliedReviewed(plan: MappingPlan, source: Table, target: Table, decisions: seq<ReviewDecision>)
    requires Applied(plan, source, target, decisions).Ok?
    ensures PlanReviewed(Applied(plan, source, target, decisions).value, plan, source, target, decisions)
  {
    hide Judge, SuggestionFor, DecisionFor, OrderedColumns, Reviewed, OnlyApproved, RejectedSources, FreeTargets, Distinct,
         AllSuggested, ColumnNamed;
    AppliedJudged(plan, source, target, decisions);
    var p, ss := Applied(plan, source, target, decisions).value, OrderedColumns(source.columns);
    ListsFollow(plan, target, p.approvals);
    forall i | 0 <= i < |ss|
      ensures exists x :: x in plan.suggestions && Reviewed(p.approvals[i], ss[i], x, decisions, target.columns)
    {
      var x := SuggestionFor(plan.suggestions, ss[i].name).value;
      JudgedReviewed(ss[i], x, decisions, NameSet(source.columns), target.columns);
    }
  }

  /**
   * Goes through the columns in review order and stops at the first objection. What it returns keeps
   * the proposal's evidence and every decision of the reviewer.
   */
  method Apply(plan: MappingPlan, source: Table, target: Table, decisions: seq<ReviewDecision>)
    returns (r: Result<ApprovedPlan, ApprovalError>)
    ensures r == Constructed(Applied(plan, source, target, decisions))
    ensures r.Ok? ==> PlanReviewed(r.value, plan, source, target, decisions)
  {
    hide OrderedColumns, Judge, SuggestionFor, DecisionFor, UniqueNames, Distinct, AllSuggested, PlanWith, ColumnNamed,
         PlanReviewed;
    if plan.sourceTable != source.identity || plan.targetTable != target.identity { return Err(IdentityMismatch); }
    if !Distinct(DecisionSources(decisions)) { return Err(DuplicateDecision); }
    if exists i :: 0 <= i < |decisions| && ColumnNamed(source.columns, decisions[i].source).None? {
      return Err(UnknownSource);
    }
    if !AllSuggested(source.columns, plan.suggestions) { return Err(SuggestionsMismatch); }
    OrderedSuggested(source.columns, plan.suggestions);
    var ss, names := OrderedColumns(source.columns), NameSet(source.columns);
    var approvals: seq<Approval> := [];
    ghost var all := JudgeAll(ss, plan, decisions, names, target.columns);
    var i := 0;
    ContinuedNothing(all);
    assert ss[0..] == ss;
    while i < |ss|
      invariant 0 <= i <= |ss| && |approvals| == i
      invariant all == Continued(approvals, JudgeAll(ss[i..], plan, decisions, names, target.columns))
    {
      assert ss[i..][0] == ss[i] && ss[i..][1..] == ss[i + 1..];
      var base := SuggestionFor(plan.suggestions, ss[i].name).value;
      var one := Judge(ss[i], base, DecisionFor(decisions, ss[i].name), names, target.columns);
      if one.Err? { return Err(one.error); }
      ContinuedOne(approvals, one.value, JudgeAll(ss[i + 1..], plan, decisions, names, target.columns));
      approvals := approvals + [one.value];
      i := i + 1;
    }
    assert ss[i..] == [] && approvals + [] == approvals;
    if !Distinct(Targets(OnlyApproved(approvals))) { return Err(TargetReused); }
    var p := PlanWith(plan, target, approvals);
    if !(Distinct(Sources(p.approvals)) && Distinct(p.rejectedSources) && Distinct(p.unmatchedTargets)) {
      return Err(PlanRefused);
    }
    AppliedReviewed(plan, source, target, decisions);
    r := Ok(p);
  }

  function Continued(front: seq<Approval>, rest: Result<seq<Approval>, ApprovalError>)
    : Result<seq<Approval>, ApprovalError>
  {
    if rest.Err? then rest else Ok(front + rest.value)
  }

  lemma {:induction false} ContinuedNothing(rest: Result<seq<Approval>, ApprovalError>)
    ensures Continued([], rest) == rest
  {
    if rest.Ok? { assert [] + rest.value == rest.value; }
  }

  lemma {:induction false} ContinuedOne(front: seq<Approval>, a: Approval, rest: Result<seq<Approval>, ApprovalError>)
    ensures Continued(front, if rest.Err? then rest else Ok([a] + rest.value)) == Continued(front + [a], rest)
  {
    if rest.Ok? { assert front + ([a] + rest.value) == (front + [a]) + rest.value; }
  }

  // ---------------------------------------------------------------- every approval

  /** An approval the judge issued is valid, belongs to its column and reads known columns only. */
  lemma {:induction false} JudgedValid(
    s: Column, base: Suggestion, decision: Option<ReviewDecision>, names: set<string>, targets: seq<Column>)
    requires ValidSuggestion(base) && base.source == s.name && ValidColumns(targets) && ValidName(s.name)
    requires decision.Some? ==> ValidDecision(decision.value)
    requires Judge(s, base, decision, names, targets).Ok?
    ensures var a := Judge(s, base, decision, names, targets).value;
            && a.source == s.name && ValidApproval(a)
            && (a.transformation.Some? ==> ColumnsOf(a.transformation.value) <= names)
            && (IsApproved(a) ==> a.transformation.Some? && ColumnNamed(targets, a.target.value).Some?
                                  && ValidName(a.target.value))
  {
    hide TypeCompatibility, KnownColumns, ColumnsOf, ValidName, ColumnNamed, ValidExpression;
    if decision.Some? {
      var d, chosen := decision.value, Chosen(base, decision.value);
      if d.status == Approved || d.status == Overridden {
        var t := ColumnNamed(targets, chosen.value).value;
        AutomaticValid(s, t, TypeCompatibility(s, t).0);
        TargetValid(targets, t);
      }
      var a := Judge(s, base, decision, names, targets).value;
      if a.transformation.Some? { KnownColumnsMeans(a.transformation.value, names); }
      ChosenNamed(base, d, targets);
    }
  }

  lemma {:induction false} ChosenNamed(base: Suggestion, d: ReviewDecision, targets: seq<Column>)
    requires ValidSuggestion(base) && ValidDecision(d)
    ensures ValidOptionalName(Chosen(base, d))
  {
    hide ValidExpression;
  }

  lemma {:induction false} TargetValid(targets: seq<Column>, t: Column)
    requires ValidColumns(targets) && t in targets
    ensures ValidName(t.name)
  {
    var i :| 0 <= i < |targets| && targets[i] == t;
  }

  lemma {:induction false} AutomaticValid(s: Column, t: Column, c: Compatibility)
    requires ValidName(s.name)
    ensures AutomaticTransformation(s, t, c).Some? ==> ValidExpression(AutomaticTransformation(s, t, c).value)
  {
    hide ValidName;
  }

  /** A mapping that is approved without an override is compatible, and confident when it was suggested. */
  lemma {:induction false} ApprovedSafely(
    s: Column, base: Suggestion, decision: Option<ReviewDecision>, names: set<string>, targets: seq<Column>)
    requires Judge(s, base, decision, names, targets).Ok?
    ensures var a := Judge(s, base, decision, names, targets).value;
            a.status == Approved ==>
              && a.compatibility != Incompatible
              && (a.target == base.target ==> base.confidence.Amount() >= LOW)
              && (decision.Some? && decision.value.transformation.None? ==>
                    a.compatibility == Exact || a.compatibility == Safe)
  {
    hide TypeCompatibility, KnownColumns;
  }

  /** Every dialect renders an automatic transformation, for migration and for validation. */
  lemma {:induction false} AutomaticRenders(p: Profile, s: Column, t: Column)
    requires AutomaticTransformation(s, t, TypeCompatibility(s, t).0).Some?
    ensures var e := AutomaticTransformation(s, t, TypeCompatibility(s, t).0).value;
            Height(e) == 1 && ColumnsOf(e) == {s.name} && Castable(p, e) && Parameters(e) == []
  {
    var c := TypeCompatibility(s, t).0;
    var e := AutomaticTransformation(s, t, c).value;
    assert HeightEach(e.arguments) == 0 && ColumnsOfEach(e.arguments) == {} && CastableEach(p, e.arguments);
    assert (set n | n in e.columns) == {s.name};
    if c == Safe { assert t.ctype == DECIMAL || t.ctype == TIMESTAMP; }
  }
}
