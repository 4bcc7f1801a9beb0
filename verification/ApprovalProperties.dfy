/**
 * What approval establishes: every plan it returns passes its constructor, covers each source column
 * once, and meets every condition of the compilers that does not depend on the dialect.
 */
module ApprovalProperties {
  import opened Common
  import opened MappingModel
  import opened Columns
  import opened SqlMeaning
  import opened Transformation
  import opened CompiledPlan
  import opened MappingApproval
  import S = Suggestions
  import V = SuggestionService

  /** Well-formed input of the approval service. */
  predicate Proper(plan: MappingPlan, source: Table, target: Table, decisions: seq<ReviewDecision>) {
    && ValidMappingPlan(plan) && ValidTable(source) && ValidTable(target)
    && UniqueNames(source.columns) && UniqueNames(target.columns)
    && forall i :: 0 <= i < |decisions| ==> ValidDecision(decisions[i])
  }

  // ---------------------------------------------------------------- the constructor accepts the plan

  lemma {:induction false} SuggestionForValid(plan: MappingPlan, name: string)
    requires ValidMappingPlan(plan) && SuggestionFor(plan.suggestions, name).Some?
    ensures ValidSuggestion(SuggestionFor(plan.suggestions, name).value)
  {
    hide ValidSuggestion;
    var x := SuggestionFor(plan.suggestions, name).value;
    var i :| 0 <= i < |plan.suggestions| && plan.suggestions[i] == x;
  }

  lemma {:induction false} DecisionForValid(decisions: seq<ReviewDecision>, name: string)
    requires forall i :: 0 <= i < |decisions| ==> ValidDecision(decisions[i])
    ensures DecisionFor(decisions, name).Some? ==> ValidDecision(DecisionFor(decisions, name).value)
  {
    hide ValidDecision;
    if DecisionFor(decisions, name).Some? {
      var d := DecisionFor(decisions, name).value;
      var i :| 0 <= i < |decisions| && decisions[i] == d;
    }
  }

  /** What holds of every approval of an applied plan. */
  lemma {:induction false} EveryApproval(
    plan: MappingPlan, source: Table, target: Table, decisions: seq<ReviewDecision>, i: nat)
    requires Proper(plan, source, target, decisions) && Applied(plan, source, target, decisions).Ok?
    requires i < |Applied(plan, source, target, decisions).value.approvals|
    ensures var a := Applied(plan, source, target, decisions).value.approvals[i];
            && |Applied(plan, source, target, decisions).value.approvals| == |OrderedColumns(source.columns)|
            && a.source == OrderedColumns(source.columns)[i].name && ValidApproval(a)
            && (a.transformation.Some? ==> ColumnsOf(a.transformation.value) <= NameSet(source.columns))
            && (IsApproved(a) ==> a.transformation.Some? && a.target.Some? && ValidName(a.target.value))
  {
    hide Judge, Applied, ValidApproval, ColumnsOf, ValidName, ValidSuggestion, ValidDecision, OrderedColumns, OneToOne,
         ValidNames, ValidIdentity, UniqueNames, PlanWith, NameSet;
    AppliedJudged(plan, source, target, decisions);
    var ss := OrderedColumns(source.columns);
    var s := ss[i];
    SuggestionForValid(plan, s.name);
    DecisionForValid(decisions, s.name);
    OrderedName(source.columns, i);
    JudgedValid(s, SuggestionFor(plan.suggestions, s.name).value, DecisionFor(decisions, s.name),
                NameSet(source.columns), target.columns);
    var a := Applied(plan, source, target, decisions).value.approvals[i];
    if IsApproved(a) { ApprovedTarget(a); }
  }

  lemma {:induction false} ApprovedTarget(a: Approval)
    requires ValidApproval(a) && IsApproved(a)
    ensures a.target.Some?
  {
  }

  lemma {:induction false} OrderedName(cs: seq<Column>, i: nat)
    requires UniqueNames(cs) && ValidColumns(cs) && i < |OrderedColumns(cs)|
    ensures ValidName(OrderedColumns(cs)[i].name)
  {
    hide OrderedColumns, UniqueNames, ValidName;
    OrderedKeeps(cs);
    assert OrderedColumns(cs)[i] in cs;
    var j :| 0 <= j < |cs| && cs[j] == OrderedColumns(cs)[i];
  }

  lemma {:induction false} RejectedListed(xs: seq<Approval>)
    requires Distinct(Sources(xs)) && forall i :: 0 <= i < |xs| ==> ValidName(xs[i].source)
    ensures ValidNames(RejectedSources(xs))
    ensures forall n :: n in RejectedSources(xs) ==> n in Sources(xs)
  {
    hide ValidName;
    if xs != [] {
      assert Sources(xs)[1..] == Sources(xs[1..]);
      DistinctRest(Sources(xs));
      RejectedListed(xs[1..]);
      assert Sources(xs) == [xs[0].source] + Sources(xs[1..]);
      FirstApart(Sources(xs));
      DistinctFirst(xs[0].source, RejectedSources(xs[1..]));
    }
  }

  lemma {:induction false} DistinctRest<T>(xs: seq<T>)
    requires Distinct(xs) && xs != []
    ensures Distinct(xs[1..])
  {
    forall i, j | 0 <= i < j < |xs[1..]| ensures xs[1..][i] != xs[1..][j] { assert xs[i + 1] != xs[j + 1]; }
  }

  lemma {:induction false} FirstApart<T>(xs: seq<T>)
    requires Distinct(xs) && xs != []
    ensures xs[0] !in xs[1..]
  {
  }

  lemma {:induction false} FreeListed(ts: seq<Column>, used: seq<Option<string>>)
    requires UniqueNames(ts) && ValidColumns(ts)
    ensures ValidNames(FreeTargets(ts, used))
    ensures forall n :: n in FreeTargets(ts, used) ==> n in NamesOfColumns(ts)
  {
    hide ValidName;
    if ts != [] {
      FreeListed(ts[1..], used);
      assert NamesOfColumns(ts) == [ts[0].name] + NamesOfColumns(ts[1..]);
      assert ts[0].name !in NamesOfColumns(ts[1..]) by {
        forall i | 0 <= i < |ts[1..]| ensures ts[1..][i].name != ts[0].name { assert ts[i + 1].name != ts[0].name; }
      }
      DistinctFirst(ts[0].name, FreeTargets(ts[1..], used));
    }
  }

  lemma {:induction false} SourcesDistinct(ss: seq<Column>, approvals: seq<Approval>)
    requires UniqueNames(ss) && |approvals| == |ss|
    requires forall i :: 0 <= i < |ss| ==> approvals[i].source == ss[i].name
    ensures Distinct(Sources(approvals))
  {
  }

  /** The plan's constructor accepts whatever approval returns. */
  lemma {:induction false} AppliedValid(plan: MappingPlan, source: Table, target: Table, decisions: seq<ReviewDecision>)
    requires Proper(plan, source, target, decisions) && Applied(plan, source, target, decisions).Ok?
    ensures ValidPlan(Applied(plan, source, target, decisions).value)
    ensures Sources(Applied(plan, source, target, decisions).value.approvals)
            == NamesOfColumns(OrderedColumns(source.columns))
  {
    hide Applied, ValidApproval, ColumnsOf, ValidName, ValidSuggestion, ValidDecision, OrderedColumns, OneToOne,
         ValidNames, ValidIdentity, UniqueNames, NameSet, Distinct, RejectedSources, FreeTargets, OnlyApproved, Judged;
    var p := Applied(plan, source, target, decisions).value;
    var ss, ts := OrderedColumns(source.columns), OrderedColumns(target.columns);
    AppliedJudged(plan, source, target, decisions);
    OrderedKeeps(source.columns);
    OrderedKeeps(target.columns);
    JudgedLength(p.approvals, ss, plan, decisions, NameSet(source.columns), target.columns);
    forall i | 0 <= i < |p.approvals|
      ensures ValidApproval(p.approvals[i]) && p.approvals[i].source == ss[i].name && ValidName(p.approvals[i].source)
    {
      EveryApproval(plan, source, target, decisions, i);
      OrderedName(source.columns, i);
    }
    SourcesDistinct(ss, p.approvals);
    RejectedListed(p.approvals);
    forall i | 0 <= i < |ts| ensures ValidName(ts[i].name) { OrderedName(target.columns, i); }
    FreeListed(ts, Targets(OnlyApproved(p.approvals)));
  }

  /** With unique column names the constructor has nothing to refuse. */
  lemma {:induction false} AppliedConstructed(
    plan: MappingPlan, source: Table, target: Table, decisions: seq<ReviewDecision>)
    requires Proper(plan, source, target, decisions)
    ensures Constructed(Applied(plan, source, target, decisions)) == Applied(plan, source, target, decisions)
  {
    hide Applied, ValidApproval, ValidIdentity, ValidMappingPlan, Distinct, OnlyApproved, UniqueNames, ValidName;
    if Applied(plan, source, target, decisions).Ok? { AppliedValid(plan, source, target, decisions); }
  }

  /** A source with a repeated column name never gets a plan. */
  lemma {:induction false} RepeatedSourceRefused(
    plan: MappingPlan, source: Table, target: Table, decisions: seq<ReviewDecision>, i: nat, j: nat)
    requires i < j < |OrderedColumns(source.columns)|
    requires OrderedColumns(source.columns)[i].name == OrderedColumns(source.columns)[j].name
    ensures Constructed(Applied(plan, source, target, decisions)).Err?
  {
    hide Applied, OrderedColumns, PlanWith;
    if Applied(plan, source, target, decisions).Ok? {
      AppliedJudged(plan, source, target, decisions);
      var p, ss := Applied(plan, source, target, decisions).value, OrderedColumns(source.columns);
      JudgedSource(p.approvals, ss, plan, decisions, NameSet(source.columns), target.columns, i);
      JudgedSource(p.approvals, ss, plan, decisions, NameSet(source.columns), target.columns, j);
      assert Sources(p.approvals)[i] == Sources(p.approvals)[j];
    }
  }

  lemma {:induction false} JudgedSource(
    approvals: seq<Approval>, ss: seq<Column>, plan: MappingPlan, decisions: seq<ReviewDecision>, names: set<string>,
    targets: seq<Column>, i: nat)
    requires Judged(approvals, ss, plan, decisions, names, targets) && i < |ss|
    ensures |approvals| == |ss| && approvals[i].source == ss[i].name
  {
    hide TypeCompatibility, KnownColumns, ApprovedTransformation;
  }

  lemma {:induction false} JudgedLength(
    approvals: seq<Approval>, ss: seq<Column>, plan: MappingPlan, decisions: seq<ReviewDecision>, names: set<string>,
    targets: seq<Column>)
    requires Judged(approvals, ss, plan, decisions, names, targets)
    ensures |approvals| == |ss|
  {
    hide Judge;
  }

  // ---------------------------------------------------------------- the compilers accept the plan

  /** The conditions on one mapping that approval leaves open: what the dialect can render and the driver can bind. */
  predicate DialectFits(p: Profile, alias: string, m: Approval) {
    && m.target.Some? && Fits(p, m.target.value) && m.transformation.Some? && Binds(m)
    && Height(m.transformation.value) <= MAX_DEPTH && Castable(p, m.transformation.value)
    && Quotable(p, alias, ColumnsOf(m.transformation.value))
  }

  lemma {:induction false} AllowedAll(plan: MappingPlan, source: Table, target: Table, decisions: seq<ReviewDecision>)
    requires Proper(plan, source, target, decisions) && Applied(plan, source, target, decisions).Ok?
    ensures AllowedColumns(Applied(plan, source, target, decisions).value) == NameSet(source.columns)
  {
    hide Applied, ValidPlan, OrderedColumns, UniqueNames, ValidName, ValidSuggestion, ValidDecision, ValidMappingPlan,
         ValidIdentity, ValidColumns;
    AppliedValid(plan, source, target, decisions);
    OrderedKeeps(source.columns);
    SameNames(source.columns, OrderedColumns(source.columns));
  }

  lemma {:induction false} SameNames(cs: seq<Column>, ds: seq<Column>)
    requires forall c :: c in cs <==> c in ds
    ensures NameSet(cs) == NameSet(ds)
  {
    forall n ensures n in NamesOfColumns(cs) <==> n in NamesOfColumns(ds) {
      if n in NamesOfColumns(cs) {
        var i :| 0 <= i < |cs| && NamesOfColumns(cs)[i] == n;
        assert cs[i] in ds;
        var j :| 0 <= j < |ds| && ds[j] == cs[i];
        assert NamesOfColumns(ds)[j] == n;
      }
      if n in NamesOfColumns(ds) {
        var i :| 0 <= i < |ds| && NamesOfColumns(ds)[i] == n;
        assert ds[i] in cs;
        var j :| 0 <= j < |cs| && cs[j] == ds[i];
        assert NamesOfColumns(cs)[j] == n;
      }
    }
  }

  /** After approval only the dialect decides about a mapping. */
  lemma {:induction false} ApprovedCompilable(
    plan: MappingPlan, source: Table, target: Table, decisions: seq<ReviewDecision>, p: Profile, alias: string, m: Approval)
    requires Proper(plan, source, target, decisions) && Applied(plan, source, target, decisions).Ok?
    requires m in Applied(plan, source, target, decisions).value.approvedMappings
    ensures Compilable(p, alias, AllowedColumns(Applied(plan, source, target, decisions).value), m)
            <==> DialectFits(p, alias, m)
  {
    hide Applied, OrderedColumns, UniqueNames, ValidName, Fits, Height, Castable, ColumnsOf, Quotable, ValidSuggestion,
         ValidDecision, ValidMappingPlan, ValidIdentity, NameSet, ValidApproval, AllowedColumns;
    var r := Applied(plan, source, target, decisions).value;
    AppliedValid(plan, source, target, decisions);
    AllowedAll(plan, source, target, decisions);
    OnlyValid(r, m);
    var i :| 0 <= i < |r.approvals| && r.approvals[i] == m;
    EveryApproval(plan, source, target, decisions, i);
  }

  /**
   * An applied plan with an approved mapping compiles exactly when the relations, the alias and each
   * mapping suit the dialect: no plan check of the compiler can fail any more.
   */
  lemma {:induction false} AppliedCompiles(
    plan: MappingPlan, source: Table, target: Table, decisions: seq<ReviewDecision>, p: Profile, staging: Relation, alias: string)
    requires Proper(plan, source, target, decisions) && Applied(plan, source, target, decisions).Ok?
    ensures var r := Applied(plan, source, target, decisions).value;
            PlanFault(p, r, staging, alias).None?
            <==> && r.approvedMappings != []
                 && (p.dialect != Snowflake ==> staging.catalog == target.identity.catalog)
                 && Addressable(p, staging) && Fits(p, alias)
                 && Addressable(p, Relation(target.identity.catalog, target.identity.schema, target.identity.table))
                 && forall m :: m in r.approvedMappings ==> DialectFits(p, alias, m)
  {
    hide Applied, PlanFault, Addressable, Fits, Compilable, DialectFits, ValidPlan, AllowedColumns,
         Distinct, UniqueNames, ValidMappingPlan, ValidTable, ValidDecision;
    var r := Applied(plan, source, target, decisions).value;
    PlanCompiles(p, r, staging, alias);
    AppliedValid(plan, source, target, decisions);
    AppliedTarget(plan, source, target, decisions);
    PlanTargets(r);
    forall m | m in r.approvedMappings
      ensures Compilable(p, alias, AllowedColumns(r), m) <==> DialectFits(p, alias, m)
    {
      ApprovedCompilable(plan, source, target, decisions, p, alias, m);
    }
  }

  lemma {:induction false} AppliedTarget(plan: MappingPlan, source: Table, target: Table, decisions: seq<ReviewDecision>)
    requires Applied(plan, source, target, decisions).Ok?
    ensures Applied(plan, source, target, decisions).value.targetTable == target.identity
  {
    hide Applied;
    AppliedJudged(plan, source, target, decisions);
  }

  lemma {:induction false} PlanTargets(r: ApprovedPlan)
    requires ValidPlan(r)
    ensures Distinct(Targets(r.approvedMappings))
  {
  }

  // ---------------------------------------------------------------- when a review is accepted

  /** The reviewer may map column `s` to column `t`. */
  predicate MayMap(s: Column, x: Suggestion, d: ReviewDecision, t: Column) {
    && (d.status == Approved ==>
          TypeCompatibility(s, t).0 != Incompatible && (x.target == Some(t.name) ==> x.confidence.Amount() >= 0.72))
    && (d.transformation.Some? || TypeCompatibility(s, t).0 == Exact || TypeCompatibility(s, t).0 == Safe)
  }

  ghost predicate HasColumn(cs: seq<Column>, name: string) {
    exists c :: c in cs && c.name == name
  }

  /** Nothing speaks against the decision on column `s` with suggestion `x`. */
  ghost predicate MayStand(s: Column, x: Suggestion, d: ReviewDecision, names: set<string>, targets: seq<Column>) {
    && (d.target.Some? ==> HasColumn(targets, d.target.value))
    && (forall n :: AsksFor(x, d, n) ==> HasColumn(targets, n))
    && (d.transformation.Some? ==> ColumnsOf(d.transformation.value) <= names)
    && (d.status == Approved || d.status == Overridden ==>
          exists t :: t in targets && AsksFor(x, d, t.name) && MayMap(s, x, d, t))
  }

  predicate Approves(d: ReviewDecision) {
    d.status == Approved || d.status == Overridden
  }

  /** The decision may stand on its column and on the suggestion for it. */
  ghost predicate Stands(plan: MappingPlan, source: Table, target: Table, d: ReviewDecision) {
    forall s, x ::
      s in source.columns && x in plan.suggestions && d.source == s.name && s.name == x.source ==>
        MayStand(s, x, d, NameSet(source.columns), target.columns)
  }

  /** Both decisions approve, and ask for one and the same target. */
  ghost predicate Collide(xs: seq<Suggestion>, d: ReviewDecision, e: ReviewDecision) {
    && d.source != e.source && Approves(d) && Approves(e)
    && exists x, y, n ::
         x in xs && y in xs && x.source == d.source && y.source == e.source && AsksFor(x, d, n) && AsksFor(y, e, n)
  }

  /** Every decision may stand, and no two of them approve the same target. */
  ghost predicate DecisionsStand(plan: MappingPlan, source: Table, target: Table, decisions: seq<ReviewDecision>) {
    && (forall d :: d in decisions ==> Stands(plan, source, target, d))
    && forall d, e :: d in decisions && e in decisions ==> !Collide(plan.suggestions, d, e)
  }

  /** The review belongs to these tables and decides each column at most once. */
  ghost predicate Belongs(plan: MappingPlan, source: Table, target: Table, decisions: seq<ReviewDecision>) {
    && plan.sourceTable == source.identity && plan.targetTable == target.identity
    && (forall i, j :: 0 <= i < j < |decisions| ==> decisions[i].source != decisions[j].source)
    && (forall d :: d in decisions ==> HasColumn(source.columns, d.source))
    && (forall s :: s in source.columns ==> exists x :: x in plan.suggestions && x.source == s.name)
    && (forall x :: x in plan.suggestions ==> HasColumn(source.columns, x.source))
  }

  lemma {:induction false} JudgeAccepts(
    s: Column, x: Suggestion, d: ReviewDecision, names: set<string>, targets: seq<Column>)
    requires UniqueNames(targets) && s.name in names
    ensures Judge(s, x, Some(d), names, targets).Ok? <==> MayStand(s, x, d, names, targets)
  {
    hide TypeCompatibility, KnownColumns, ColumnNamed, ColumnsOf, UniqueNames, MayMap, ApprovedTransformation;
    var chosen := Chosen(x, d);
    assert forall n :: AsksFor(x, d, n) <==> chosen == Some(n);
    assert forall n :: HasColumn(targets, n) <==> ColumnNamed(targets, n).Some?;
    if d.transformation.Some? { KnownColumnsMeans(d.transformation.value, names); }
    if chosen.Some? && ColumnNamed(targets, chosen.value).Some? {
      var t := ColumnNamed(targets, chosen.value).value;
      MappingAccepted(s, x, d, names, t);
      assert AsksFor(x, d, t.name);
      forall u | u in targets && AsksFor(x, d, u.name) ensures u == t { TargetFound(targets, u); }
    }
  }

  lemma {:induction false} MappingAccepted(s: Column, x: Suggestion, d: ReviewDecision, names: set<string>, t: Column)
    requires s.name in names && AsksFor(x, d, t.name)
    ensures Approves(d) ==>
              (ApprovedTransformation(s, x, d, t).Ok? <==> MayMap(s, x, d, t))
              && (ApprovedTransformation(s, x, d, t).Ok? ==>
                    KnownColumns(ApprovedTransformation(s, x, d, t).value, names)
                    == (d.transformation.Some? ==> KnownColumns(d.transformation.value, names)))
  {
    hide TypeCompatibility, KnownColumns;
    AutomaticKnown(s, t, TypeCompatibility(s, t).0, names);
  }

  lemma {:induction false} AutomaticKnown(s: Column, t: Column, c: Compatibility, names: set<string>)
    requires s.name in names
    ensures AutomaticTransformation(s, t, c).Some? ==> KnownColumns(AutomaticTransformation(s, t, c).value, names)
  {
  }

  lemma {:induction false} JudgeAllOk(
    ss: seq<Column>, plan: MappingPlan, decisions: seq<ReviewDecision>, names: set<string>, targets: seq<Column>)
    requires forall i :: 0 <= i < |ss| ==> SuggestionFor(plan.suggestions, ss[i].name).Some?
    ensures JudgeAll(ss, plan, decisions, names, targets).Ok?
            <==> forall i :: 0 <= i < |ss| ==>
                   Judge(ss[i], SuggestionFor(plan.suggestions, ss[i].name).value, DecisionFor(decisions, ss[i].name),
                         names, targets).Ok?
  {
    hide Judge, SuggestionFor, DecisionFor;
    if ss != [] {
      JudgeAllOk(ss[1..], plan, decisions, names, targets);
      assert ss == [ss[0]] + ss[1..];
    }
  }

  lemma {:induction false} ApprovedApart(xs: seq<Approval>)
    ensures Distinct(Targets(OnlyApproved(xs)))
            <==> forall i, j :: 0 <= i < j < |xs| && IsApproved(xs[i]) && IsApproved(xs[j]) ==> xs[i].target != xs[j].target
  {
    hide IsApproved;
    if xs != [] {
      var rest := OnlyApproved(xs[1..]);
      ApprovedApart(xs[1..]);
      if IsApproved(xs[0]) {
        assert Targets(OnlyApproved(xs)) == [xs[0].target] + Targets(rest);
        ConsDistinct(xs[0].target, Targets(rest));
        ApprovedTargets(xs[1..], xs[0].target);
        assert forall j :: 0 < j < |xs| ==> xs[j] == xs[1..][j - 1];
      }
    }
  }

  lemma {:induction false} ApprovedTargets(xs: seq<Approval>, target: Option<string>)
    ensures target in Targets(OnlyApproved(xs)) <==> exists j :: 0 <= j < |xs| && IsApproved(xs[j]) && xs[j].target == target
  {
    hide IsApproved;
    var approved := OnlyApproved(xs);
    if target in Targets(approved) {
      var k :| 0 <= k < |approved| && approved[k].target == target;
      assert approved[k] in approved && approved[k] in xs;
    }
    if j :| 0 <= j < |xs| && IsApproved(xs[j]) && xs[j].target == target {
      assert xs[j] in approved;
      var k :| 0 <= k < |approved| && approved[k] == xs[j];
      assert Targets(approved)[k] == target;
    }
  }

  lemma {:induction false} ConsDistinct<T>(x: T, rest: seq<T>)
    ensures Distinct([x] + rest) <==> x !in rest && Distinct(rest)
  {
    var xs := [x] + rest;
    if x !in rest {
      DistinctFirst(x, rest);
    } else {
      var i :| 0 <= i < |rest| && rest[i] == x;
      assert xs[i + 1] == xs[0];
    }
  }

  lemma {:induction false} SuggestionFound(plan: MappingPlan, x: Suggestion)
    requires OneToOne(plan.suggestions) && x in plan.suggestions
    ensures SuggestionFor(plan.suggestions, x.source) == Some(x)
  {
    hide SuggestionFor;
    var y := SuggestionFor(plan.suggestions, x.source).value;
    var i :| 0 <= i < |plan.suggestions| && plan.suggestions[i] == x;
    var j :| 0 <= j < |plan.suggestions| && plan.suggestions[j] == y;
  }

  lemma {:induction false} DecisionFound(decisions: seq<ReviewDecision>, d: ReviewDecision)
    requires Distinct(DecisionSources(decisions)) && d in decisions
    ensures DecisionFor(decisions, d.source) == Some(d)
  {
    hide DecisionFor, Distinct;
    OneDecision(decisions, d, DecisionFor(decisions, d.source).value);
  }

  lemma {:induction false} BelongsMeans(plan: MappingPlan, source: Table, target: Table, decisions: seq<ReviewDecision>)
    ensures Belongs(plan, source, target, decisions)
            <==> && plan.sourceTable == source.identity && plan.targetTable == target.identity
                 && Distinct(DecisionSources(decisions))
                 && !(exists i :: 0 <= i < |decisions| && ColumnNamed(source.columns, decisions[i].source).None?)
                 && AllSuggested(source.columns, plan.suggestions)
  {
    hide ColumnNamed, SuggestionFor;
    var cs, xs := source.columns, plan.suggestions;
    assert (forall d :: d in decisions ==> HasColumn(cs, d.source))
      <==> forall i :: 0 <= i < |decisions| ==> ColumnNamed(cs, decisions[i].source).Some?;
    Covered(cs, xs);
    assert (forall i, j :: 0 <= i < j < |decisions| ==> decisions[i].source != decisions[j].source)
      <==> Distinct(DecisionSources(decisions));
  }

  lemma {:induction false} Covered(cs: seq<Column>, xs: seq<Suggestion>)
    ensures AllSuggested(cs, xs)
            <==> && (forall s :: s in cs ==> exists x :: x in xs && x.source == s.name)
                 && (forall x :: x in xs ==> HasColumn(cs, x.source))
  {
    hide ColumnNamed, SuggestionFor;
  }

  /** Column `i` is judged without an objection exactly when its decision, if there is one, may stand. */
  lemma {:induction false} OneJudged(
    plan: MappingPlan, source: Table, target: Table, decisions: seq<ReviewDecision>, s: Column)
    requires Proper(plan, source, target, decisions) && Distinct(DecisionSources(decisions))
    requires s in source.columns && SuggestionFor(plan.suggestions, s.name).Some?
    ensures Judge(s, SuggestionFor(plan.suggestions, s.name).value, DecisionFor(decisions, s.name),
                  NameSet(source.columns), target.columns).Ok?
            <==> forall d :: d in decisions && d.source == s.name ==> Stands(plan, source, target, d)
  {
    hide Judge, SuggestionFor, DecisionFor, MayStand, ValidSuggestion, ValidDecision, ValidTable, Distinct, OneToOne,
         NameSet, ValidIdentity, ValidNames;
    var x, names := SuggestionFor(plan.suggestions, s.name).value, NameSet(source.columns);
    forall y | y in plan.suggestions && y.source == s.name ensures y == x { SuggestionFound(plan, y); }
    forall u | u in source.columns && u.name == s.name ensures u == s { V.SameColumn(source.columns, u, s); }
    NamedIn(source.columns, s);
    if DecisionFor(decisions, s.name).Some? {
      var d := DecisionFor(decisions, s.name).value;
      forall e | e in decisions && e.source == s.name ensures e == d { OneDecision(decisions, e, d); }
      JudgeAccepts(s, x, d, names, target.columns);
    } else {
      UndecidedAccepted(s, x, names, target.columns);
    }
  }

  /** Every column is judged without an objection exactly when every decision may stand. */
  lemma {:induction false} AllJudged(plan: MappingPlan, source: Table, target: Table, decisions: seq<ReviewDecision>)
    requires Proper(plan, source, target, decisions) && Belongs(plan, source, target, decisions)
    requires Distinct(DecisionSources(decisions)) && AllSuggested(source.columns, plan.suggestions)
    ensures (forall d :: d in decisions ==> Stands(plan, source, target, d))
            <==> (forall i :: 0 <= i < |OrderedColumns(source.columns)| ==>
                    SuggestionFor(plan.suggestions, OrderedColumns(source.columns)[i].name).Some?)
                 && JudgeAll(OrderedColumns(source.columns), plan, decisions, NameSet(source.columns), target.columns).Ok?
  {
    hide Proper, Judge, SuggestionFor, DecisionFor, OrderedColumns, Stands, Distinct, AllSuggested, NameSet, JudgeAll;
    var ss, names := OrderedColumns(source.columns), NameSet(source.columns);
    OrderedSuggested(source.columns, plan.suggestions);
    OrderedHas(source.columns);
    JudgeAllOk(ss, plan, decisions, names, target.columns);
    forall i | 0 <= i < |ss|
      ensures Judge(ss[i], SuggestionFor(plan.suggestions, ss[i].name).value, DecisionFor(decisions, ss[i].name),
                    names, target.columns).Ok?
              <==> forall d :: d in decisions && d.source == ss[i].name ==> Stands(plan, source, target, d)
    {
      OneJudged(plan, source, target, decisions, ss[i]);
    }
    forall d | d in decisions ensures exists i :: 0 <= i < |ss| && ss[i].name == d.source {
      var i := PlaceIn(source.columns, d.source);
    }
  }

  lemma {:induction false} NamedIn(cs: seq<Column>, s: Column)
    requires s in cs
    ensures s.name in NameSet(cs)
  {
    var i :| 0 <= i < |cs| && cs[i] == s;
    assert NamesOfColumns(cs)[i] == s.name;
  }

  lemma {:induction false} UndecidedAccepted(s: Column, x: Suggestion, names: set<string>, targets: seq<Column>)
    ensures Judge(s, x, None, names, targets).Ok?
  {
  }

  /** Approvals of one target come from decisions that collide. */
  lemma {:induction false} SharedCollide(
    plan: MappingPlan, source: Table, target: Table, decisions: seq<ReviewDecision>, approvals: seq<Approval>, i: nat, j: nat)
    requires Proper(plan, source, target, decisions) && Distinct(DecisionSources(decisions))
    requires Judged(approvals, OrderedColumns(source.columns), plan, decisions, NameSet(source.columns), target.columns)
    requires i < j < |OrderedColumns(source.columns)| && IsApproved(approvals[i]) && IsApproved(approvals[j])
    requires approvals[i].target == approvals[j].target
    ensures exists d, e :: d in decisions && e in decisions && Collide(plan.suggestions, d, e)
  {
    hide Judge, SuggestionFor, DecisionFor, OrderedColumns, ValidMappingPlan, ValidDecision, ValidTable,
         UniqueNames, Distinct, NameSet, AsksFor, IsApproved, Approves;
    var ss := OrderedColumns(source.columns);
    OrderedKeeps(source.columns);
    NamesDiffer(ss, i, j);
    ApprovedAim(plan, source, target, decisions, approvals, i);
    ApprovalReads(plan, source, target, decisions, approvals, i);
    ApprovalReads(plan, source, target, decisions, approvals, j);
    var d :| d in decisions && d.source == ss[i].name;
    var e :| e in decisions && e.source == ss[j].name;
    var x, y := SuggestionFor(plan.suggestions, ss[i].name).value, SuggestionFor(plan.suggestions, ss[j].name).value;
    assert AsksFor(x, d, approvals[i].target.value) && AsksFor(y, e, approvals[i].target.value);
    assert Collide(plan.suggestions, d, e);
  }

  /** Decisions that collide lead to two approvals of one target. */
  lemma {:induction false} CollisionShared(
    plan: MappingPlan, source: Table, target: Table, decisions: seq<ReviewDecision>, approvals: seq<Approval>,
    d: ReviewDecision, e: ReviewDecision)
    requires Proper(plan, source, target, decisions) && Distinct(DecisionSources(decisions))
    requires Judged(approvals, OrderedColumns(source.columns), plan, decisions, NameSet(source.columns), target.columns)
    requires d in decisions && e in decisions && Collide(plan.suggestions, d, e)
    requires HasColumn(source.columns, d.source) && HasColumn(source.columns, e.source)
    ensures exists i, j :: 0 <= i < j < |approvals| && IsApproved(approvals[i]) && IsApproved(approvals[j])
                           && approvals[i].target == approvals[j].target
  {
    hide Judge, SuggestionFor, DecisionFor, OrderedColumns, ValidMappingPlan, ValidDecision, ValidTable,
         UniqueNames, Distinct, NameSet, AsksFor, IsApproved, Approves, HasColumn;
    var x, y, n :| x in plan.suggestions && y in plan.suggestions && x.source == d.source && y.source == e.source
                   && AsksFor(x, d, n) && AsksFor(y, e, n);
    var i := PlaceIn(source.columns, d.source);
    var j := PlaceIn(source.columns, e.source);
    ApprovalReads(plan, source, target, decisions, approvals, i);
    ApprovalReads(plan, source, target, decisions, approvals, j);
    assert approvals[i].target == Some(n) && approvals[j].target == Some(n) && i != j;
    var a, b := if i < j then i else j, if i < j then j else i;
    assert IsApproved(approvals[a]) && IsApproved(approvals[b]) && approvals[a].target == approvals[b].target;
  }

  /** No target is approved twice exactly when no two decisions collide. */
  lemma {:induction false} ApprovedOnce(
    plan: MappingPlan, source: Table, target: Table, decisions: seq<ReviewDecision>, approvals: seq<Approval>)
    requires Proper(plan, source, target, decisions) && Distinct(DecisionSources(decisions))
    requires forall d :: d in decisions ==> HasColumn(source.columns, d.source)
    requires Judged(approvals, OrderedColumns(source.columns), plan, decisions, NameSet(source.columns), target.columns)
    ensures Distinct(Targets(OnlyApproved(approvals)))
            <==> forall d, e :: d in decisions && e in decisions ==> !Collide(plan.suggestions, d, e)
  {
    hide Proper, Judge, SuggestionFor, DecisionFor, OrderedColumns, OnlyApproved, Distinct, NameSet, Collide, HasColumn,
         IsApproved;
    ApprovedApart(approvals);
    if i, j :| 0 <= i < j < |approvals| && IsApproved(approvals[i]) && IsApproved(approvals[j])
               && approvals[i].target == approvals[j].target {
      SharedCollide(plan, source, target, decisions, approvals, i, j);
    }
    if d, e :| d in decisions && e in decisions && Collide(plan.suggestions, d, e) {
      CollisionShared(plan, source, target, decisions, approvals, d, e);
    }
  }

  lemma {:induction false} NamesDiffer(ss: seq<Column>, i: nat, j: nat)
    requires UniqueNames(ss) && i < j < |ss|
    ensures ss[i].name != ss[j].name
  {
  }

  lemma {:induction false} PlaceIn(cs: seq<Column>, name: string) returns (i: nat)
    requires HasColumn(cs, name)
    ensures i < |OrderedColumns(cs)| && OrderedColumns(cs)[i].name == name
  {
    hide OrderedColumns;
    OrderedHas(cs);
    var c :| c in cs && c.name == name;
    i :| 0 <= i < |OrderedColumns(cs)| && OrderedColumns(cs)[i] == c;
  }

  lemma {:induction false} ApprovalReads(
    plan: MappingPlan, source: Table, target: Table, decisions: seq<ReviewDecision>, approvals: seq<Approval>, i: nat)
    requires Proper(plan, source, target, decisions) && Distinct(DecisionSources(decisions))
    requires Judged(approvals, OrderedColumns(source.columns), plan, decisions, NameSet(source.columns), target.columns)
    requires i < |OrderedColumns(source.columns)|
    ensures IsApproved(approvals[i]) ==> exists d :: d in decisions && d.source == OrderedColumns(source.columns)[i].name
    ensures forall d, x ::
              d in decisions && x in plan.suggestions && d.source == OrderedColumns(source.columns)[i].name == x.source ==>
                (IsApproved(approvals[i]) <==> Approves(d))
                && forall n :: approvals[i].target == Some(n) <==> AsksFor(x, d, n)
  {
    hide Judge, SuggestionFor, DecisionFor, OrderedColumns, ValidSuggestion, ValidDecision, ValidTable,
         UniqueNames, Distinct, OneToOne, NameSet, TypeCompatibility, AsksFor;
    var s := OrderedColumns(source.columns)[i];
    var x := SuggestionFor(plan.suggestions, s.name).value;
    JudgedReviewed(s, x, decisions, NameSet(source.columns), target.columns);
    forall y | y in plan.suggestions && y.source == s.name ensures y == x { SuggestionFound(plan, y); }
  }

  lemma {:induction false} ApprovedAim(
    plan: MappingPlan, source: Table, target: Table, decisions: seq<ReviewDecision>, approvals: seq<Approval>, i: nat)
    requires Proper(plan, source, target, decisions)
    requires Judged(approvals, OrderedColumns(source.columns), plan, decisions, NameSet(source.columns), target.columns)
    requires i < |OrderedColumns(source.columns)| && IsApproved(approvals[i])
    ensures approvals[i].target.Some?
  {
    hide SuggestionFor, DecisionFor, OrderedColumns, ValidMappingPlan, ValidDecision, ValidTable,
         UniqueNames, NameSet, TypeCompatibility, KnownColumns, ColumnNamed;
  }

  /**
   * A review is accepted exactly when it belongs to the tables, no decision meets an objection, and no
   * two decisions approve the same target.
   */
  lemma {:induction false} ReviewAccepted(plan: MappingPlan, source: Table, target: Table, decisions: seq<ReviewDecision>)
    requires Proper(plan, source, target, decisions)
    ensures Constructed(Applied(plan, source, target, decisions)).Ok?
            <==> Belongs(plan, source, target, decisions) && DecisionsStand(plan, source, target, decisions)
  {
    hide Proper, Judge, SuggestionFor, DecisionFor, OrderedColumns, Stands, Distinct, AllSuggested, NameSet, ColumnNamed,
         OnlyApproved, PlanWith, Constructed, Collide;
    AppliedConstructed(plan, source, target, decisions);
    BelongsMeans(plan, source, target, decisions);
    if Belongs(plan, source, target, decisions) {
      OrderedSuggested(source.columns, plan.suggestions);
      AllJudged(plan, source, target, decisions);
      var judged := JudgeAll(OrderedColumns(source.columns), plan, decisions, NameSet(source.columns), target.columns);
      if judged.Ok? {
        JudgeAllJudged(OrderedColumns(source.columns), plan, decisions, NameSet(source.columns), target.columns);
        ApprovedOnce(plan, source, target, decisions, judged.value);
      }
    }
  }

  // ---------------------------------------------------------------- what an objection means

  /** What each objection says about a decision. */
  ghost predicate Objects(
    o: ApprovalError, s: Column, x: Suggestion, d: ReviewDecision, names: set<string>, targets: seq<Column>)
  {
    match o
    case UnknownTarget =>
      || (d.target.Some? && !HasColumn(targets, d.target.value))
      || (exists n :: AsksFor(x, d, n) && !HasColumn(targets, n))
      || (Approves(d) && forall n :: !AsksFor(x, d, n))
    case IncompatibleTypes =>
      d.status == Approved
      && exists t :: t in targets && AsksFor(x, d, t.name) && TypeCompatibility(s, t).0 == Incompatible
    case LowConfidence =>
      d.status == Approved && x.target.Some? && AsksFor(x, d, x.target.value) && x.confidence.Amount() < 0.72
    case TransformationNeeded =>
      && Approves(d) && d.transformation.None?
      && exists t :: t in targets && AsksFor(x, d, t.name)
                     && TypeCompatibility(s, t).0 != Exact && TypeCompatibility(s, t).0 != Safe
    case UnknownColumn => d.transformation.Some? && !(ColumnsOf(d.transformation.value) <= names)
    case _ => false
  }

  lemma {:induction false} JudgeObjects(
    s: Column, x: Suggestion, d: ReviewDecision, names: set<string>, targets: seq<Column>)
    requires s.name in names && Judge(s, x, Some(d), names, targets).Err?
    ensures Objects(Judge(s, x, Some(d), names, targets).error, s, x, d, names, targets)
  {
    hide TypeCompatibility, KnownColumns, ColumnNamed, ColumnsOf;
    var chosen := Chosen(x, d);
    assert forall n :: AsksFor(x, d, n) <==> chosen == Some(n);
    assert forall n :: HasColumn(targets, n) <==> ColumnNamed(targets, n).Some?;
    if d.transformation.Some? { KnownColumnsMeans(d.transformation.value, names); }
    if chosen.Some? && ColumnNamed(targets, chosen.value).Some? {
      var t := ColumnNamed(targets, chosen.value).value;
      AutomaticKnown(s, t, TypeCompatibility(s, t).0, names);
      assert t in targets && AsksFor(x, d, t.name);
    }
  }

  lemma {:induction false} JudgeAllObjects(
    ss: seq<Column>, plan: MappingPlan, decisions: seq<ReviewDecision>, names: set<string>, targets: seq<Column>)
    returns (i: nat)
    requires forall i :: 0 <= i < |ss| ==> SuggestionFor(plan.suggestions, ss[i].name).Some?
    requires JudgeAll(ss, plan, decisions, names, targets).Err?
    ensures i < |ss|
    ensures Judge(ss[i], SuggestionFor(plan.suggestions, ss[i].name).value, DecisionFor(decisions, ss[i].name), names, targets)
            == Err(JudgeAll(ss, plan, decisions, names, targets).error)
  {
    hide Judge, SuggestionFor, DecisionFor;
    var first := Judge(ss[0], SuggestionFor(plan.suggestions, ss[0].name).value, DecisionFor(decisions, ss[0].name), names, targets);
    i := 0;
    if first.Ok? {
      var j := JudgeAllObjects(ss[1..], plan, decisions, names, targets);
      i := j + 1;
    }
  }

  /** What each error says about a review. */
  ghost predicate Reason(
    o: ApprovalError, plan: MappingPlan, source: Table, target: Table, decisions: seq<ReviewDecision>)
  {
    match o
    case IdentityMismatch => plan.sourceTable != source.identity || plan.targetTable != target.identity
    case DuplicateDecision => exists i, j :: 0 <= i < j < |decisions| && decisions[i].source == decisions[j].source
    case UnknownSource => exists d :: d in decisions && !HasColumn(source.columns, d.source)
    case SuggestionsMismatch =>
      || (exists s :: s in source.columns && forall x :: x in plan.suggestions ==> x.source != s.name)
      || (exists x :: x in plan.suggestions && !HasColumn(source.columns, x.source))
    case TargetReused => exists d, e :: d in decisions && e in decisions && Collide(plan.suggestions, d, e)
    case PlanRefused => false
    case _ =>
      exists s, x, d ::
        && s in source.columns && x in plan.suggestions && d in decisions && d.source == s.name == x.source
        && Objects(o, s, x, d, NameSet(source.columns), target.columns)
  }

  /** A review that is refused is refused for a reason, and the error names it. */
  lemma {:induction false} RefusalMeans(plan: MappingPlan, source: Table, target: Table, decisions: seq<ReviewDecision>)
    requires Proper(plan, source, target, decisions) && Applied(plan, source, target, decisions).Err?
    ensures Reason(Applied(plan, source, target, decisions).error, plan, source, target, decisions)
  {
    hide Proper, Judge, SuggestionFor, DecisionFor, OrderedColumns, Distinct, AllSuggested, NameSet, ColumnNamed,
         OnlyApproved, PlanWith, JudgeAll, Reason;
    BelongsMeans(plan, source, target, decisions);
    if plan.sourceTable != source.identity || plan.targetTable != target.identity {
      IdentityDiffers(plan, source, target, decisions);
    } else if !Distinct(DecisionSources(decisions)) {
      TwiceDecided(plan, source, target, decisions);
    } else if exists i :: 0 <= i < |decisions| && ColumnNamed(source.columns, decisions[i].source).None? {
      SourceUnknown(plan, source, target, decisions);
    } else if !AllSuggested(source.columns, plan.suggestions) {
      NotCovered(plan, source, target, decisions);
    } else {
      ColumnsRefused(plan, source, target, decisions);
    }
  }

  lemma {:induction false} IdentityDiffers(plan: MappingPlan, source: Table, target: Table, decisions: seq<ReviewDecision>)
    requires plan.sourceTable != source.identity || plan.targetTable != target.identity
    ensures Reason(IdentityMismatch, plan, source, target, decisions)
  {
  }

  lemma {:induction false} TwiceDecided(plan: MappingPlan, source: Table, target: Table, decisions: seq<ReviewDecision>)
    requires !Distinct(DecisionSources(decisions))
    ensures Reason(DuplicateDecision, plan, source, target, decisions)
  {
  }

  lemma {:induction false} SourceUnknown(plan: MappingPlan, source: Table, target: Table, decisions: seq<ReviewDecision>)
    requires exists i :: 0 <= i < |decisions| && ColumnNamed(source.columns, decisions[i].source).None?
    ensures Reason(UnknownSource, plan, source, target, decisions)
  {
    hide ColumnNamed;
    var i :| 0 <= i < |decisions| && ColumnNamed(source.columns, decisions[i].source).None?;
    assert decisions[i] in decisions && !HasColumn(source.columns, decisions[i].source);
  }

  lemma {:induction false} NotCovered(plan: MappingPlan, source: Table, target: Table, decisions: seq<ReviewDecision>)
    requires !AllSuggested(source.columns, plan.suggestions)
    ensures Reason(SuggestionsMismatch, plan, source, target, decisions)
  {
    hide AllSuggested;
    Covered(source.columns, plan.suggestions);
  }

  lemma {:induction false} ColumnsRefused(plan: MappingPlan, source: Table, target: Table, decisions: seq<ReviewDecision>)
    requires Proper(plan, source, target, decisions) && Belongs(plan, source, target, decisions)
    requires Distinct(DecisionSources(decisions)) && AllSuggested(source.columns, plan.suggestions)
    requires Applied(plan, source, target, decisions).Err?
    ensures Reason(Applied(plan, source, target, decisions).error, plan, source, target, decisions)
  {
    hide Proper, Judge, SuggestionFor, DecisionFor, OrderedColumns, Distinct, AllSuggested, NameSet,
         OnlyApproved, PlanWith, Collide, JudgeAll;
    var ss, names := OrderedColumns(source.columns), NameSet(source.columns);
    BelongsMeans(plan, source, target, decisions);
    OrderedSuggested(source.columns, plan.suggestions);
    OrderedHas(source.columns);
    var judged := JudgeAll(ss, plan, decisions, names, target.columns);
    if judged.Ok? {
      JudgeAllJudged(ss, plan, decisions, names, target.columns);
      ApprovedOnce(plan, source, target, decisions, judged.value);
    } else {
      var i := JudgeAllObjects(ss, plan, decisions, names, target.columns);
      var x := SuggestionFor(plan.suggestions, ss[i].name).value;
      NamedIn(source.columns, ss[i]);
      if DecisionFor(decisions, ss[i].name).None? {
        UndecidedAccepted(ss[i], x, names, target.columns);
      } else {
        var d := DecisionFor(decisions, ss[i].name).value;
        JudgeObjects(ss[i], x, d, names, target.columns);
        assert Objects(judged.error, ss[i], x, d, names, target.columns);
      }
    }
  }

  // ---------------------------------------------------------------- suggestions can be approved

  /** Accepting a suggestion as it stands never meets an objection, and needs no transformation to be supplied. */
  lemma {:induction false} SuggestionApprovable(
    p: MappingPlan, source: Table, target: Table, i: nat, note: Option<string>)
    requires UniqueNames(source.columns) && UniqueNames(target.columns) && V.IsProposal(p, source, target)
    requires i < |p.suggestions| && p.suggestions[i].target.Some?
    ensures var s := OrderedColumns(source.columns)[i];
            var d := ReviewDecision(s.name, Approved, None, note, None, None);
            var judged := Judge(s, p.suggestions[i], Some(d), NameSet(source.columns), target.columns);
            judged.Ok? && judged.value.target == p.suggestions[i].target && judged.value.transformation.Some?
  {
    hide S.Wins, S.Confidence, TypeCompatibility, V.NamesWhere, OrderedColumns, UniqueNames, NameSet, ColumnNamed,
         KnownColumns, V.HasViable, V.HasClash, V.AmbiguousFor, V.UnmatchedFor, S.EvidenceFor, S.Total;
    var ss, ts := OrderedColumns(source.columns), OrderedColumns(target.columns);
    var s, x := ss[i], p.suggestions[i];
    OrderedKeeps(source.columns);
    OrderedKeeps(target.columns);
    assert V.IsSuggestion(x, ss, ts, s);
    assert exists t :: S.Wins(ss, ts, s, t) by { TargetMeansWinner(x, ss, ts, s); }
    var t :| S.Wins(ss, ts, s, t) && x == V.SuggestedFor(S.CandidateOf(s, t));
    WinnerFacts(ss, ts, s, t);
    TargetFound(target.columns, t);
    SourceKnown(source.columns, s);
  }

  lemma {:induction false} TargetMeansWinner(x: Suggestion, ss: seq<Column>, ts: seq<Column>, s: Column)
    requires V.IsSuggestion(x, ss, ts, s) && x.target.Some?
    ensures exists t :: S.Wins(ss, ts, s, t)
  {
    hide S.Wins, V.HasViable, V.HasClash, S.EvidenceFor, S.Total, V.BestOf;
  }

  lemma {:induction false} WinnerFacts(ss: seq<Column>, ts: seq<Column>, s: Column, t: Column)
    requires S.Wins(ss, ts, s, t)
    ensures t in ts && V.Share(S.CandidateOf(s, t).confidence).Amount() >= LOW
    ensures TypeCompatibility(s, t).0 == Exact || TypeCompatibility(s, t).0 == Safe
  {
    hide TypeCompatibility, S.EvidenceFor, S.Total;
  }

  lemma {:induction false} TargetFound(ts: seq<Column>, t: Column)
    requires UniqueNames(ts) && t in ts
    ensures ColumnNamed(ts, t.name) == Some(t)
  {
    hide ColumnNamed;
    var u := ColumnNamed(ts, t.name).value;
    V.SameColumn(ts, t, u);
  }

  lemma {:induction false} SourceKnown(cs: seq<Column>, s: Column)
    requires s in cs
    ensures forall e: Expression :: e.columns == [s.name] && e.arguments == [] ==> KnownColumns(e, NameSet(cs))
  {
    var i :| 0 <= i < |cs| && cs[i] == s;
    assert NamesOfColumns(cs)[i] == s.name;
    assert s.name in NameSet(cs);
  }
}
