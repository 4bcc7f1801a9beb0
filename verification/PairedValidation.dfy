/**
 * The pair of validation queries as the service runs them: compiled, executed on both databases,
 * delivered by two drivers and reconciled by metric name.
 */
module PairedValidation {
  import opened Common
  import opened MappingModel
  import opened SqlText
  import opened SqlTree
  import opened SqlStatement
  import opened SqlMeaning
  import opened Transformation
  import opened ExpressionRenderer
  import opened CompiledPlan
  import opened Ordering
  import T = TransformationCompiler
  import G = SqlGuard
  import A = GeneratedSqlAccepted
  import opened ValidationSql
  import opened ValidationMeaning
  import C = ValidationCompiler
  import R = Reconciliation

  // ---------------------------------------------------------------- metrics by name

  /** A driver row holds every metric, in whatever form the driver returns counts. */
  ghost predicate Delivers(row: R.DriverRow, metrics: Row) {
    forall name :: name in metrics ==>
      && name in row
      && (metrics[name] == Null ==> row[name] == R.Nothing)
      && (metrics[name].Whole? && metrics[name].i >= 0 ==> R.Stands(row[name], metrics[name].i))
  }

  predicate Countable(v: Scalar) {
    v == Null || (v.Whole? && v.i >= 0)
  }

  predicate AllCountable(vs: seq<Scalar>) {
    forall k :: 0 <= k < |vs| ==> Countable(vs[k])
  }

  lemma {:induction false} CountAt(names: seq<string>, values: seq<Scalar>, row: R.DriverRow, k: nat)
    requires |names| == |values| && Distinct(names) && k < |names| && Countable(values[k])
    requires Delivers(row, MakeRow(names, values))
    ensures R.MetricOf(row, names[k]) == if values[k] == Null then None else Some(values[k].i)
  {
    hide MakeRow, Distinct, R.Stands, R.Count;
    MakeRowAt(names, values, k);
    if values[k] == Null {
      NothingCounts();
    } else {
      R.CountReads(row[names[k]], values[k].i);
    }
  }

  lemma {:induction false} NothingCounts()
    ensures R.Count(R.Nothing).None?
  {
  }

  /** Reconciling delivered metrics compares the metrics themselves. */
  lemma {:induction false} CountsDecide(
    checks: seq<R.Check>, names: seq<string>, v: seq<Scalar>, w: seq<Scalar>, source: R.DriverRow, target: R.DriverRow)
    requires |checks| == |names| == |v| == |w| && Distinct(names) && AllCountable(v) && AllCountable(w)
    requires forall k :: 0 <= k < |checks| ==> checks[k].sourceAlias == checks[k].targetAlias == names[k]
    requires Delivers(source, MakeRow(names, v)) && Delivers(target, MakeRow(names, w))
    ensures R.AllCountsEqual(checks, source, target) <==> SameCounts(v, w)
  {
    hide MakeRow, Distinct, Delivers, R.MetricOf;
    forall k | 0 <= k < |checks|
      ensures R.MetricOf(source, checks[k].sourceAlias) == if v[k] == Null then None else Some(v[k].i)
      ensures R.MetricOf(target, checks[k].targetAlias) == if w[k] == Null then None else Some(w[k].i)
    {
      CountAt(names, v, source, k);
      CountAt(names, w, target, k);
    }
  }

  lemma {:induction false} MetricsCountable(ms: seq<Approval>, columns: seq<seq<Scalar>>)
    requires |ms| == |columns|
    ensures AllCountable(MetricValues(ms, columns))
    decreases ms
  {
    hide NullsIn, KnownValues;
    if ms != [] { MetricsCountable(ms[1..], columns[1..]); }
  }

  lemma {:induction false} RowCountFirst(n: nat, m: nat, v: seq<Scalar>, w: seq<Scalar>)
    ensures SameCounts([Whole(n)] + v, [Whole(m)] + w) <==> n == m && SameCounts(v, w)
  {
    hide SameCounts;
    SameCountsAppend([Whole(n)], [Whole(m)], v, w);
    assert SameCounts([Whole(n)], [Whole(m)]) <==> n == m by { OneCount(n, m); }
  }

  lemma {:induction false} OneCount(n: nat, m: nat)
    ensures SameCounts([Whole(n)], [Whole(m)]) <==> n == m
  {
    assert [Whole(n)][0] == Whole(n) && [Whole(m)][0] == Whole(m);
  }

  function NamesFor(ms: seq<Approval>): seq<string> {
    IdsOf(ChecksOf(ms))
  }

  lemma {:induction false} ItemsNamed(ms: seq<Approval>, trees: seq<Sql>)
    requires |ms| == |trees|
    ensures NamesOf(MetricItems(ms, trees)) == NamesFor(ms)
    ensures forall k :: 0 <= k < |ChecksOf(ms)| ==>
              ChecksOf(ms)[k].sourceAlias == ChecksOf(ms)[k].targetAlias == NamesFor(ms)[k]
  {
    hide ItemsFrom, ChecksFrom, NullName, DistinctName;
    ItemNames(0, ms, trees);
  }

  // ---------------------------------------------------------------- both statements

  ghost predicate HaveTargets(rows: seq<Row>, names: seq<string>) {
    forall i :: 0 <= i < |rows| ==> forall j :: 0 <= j < |names| ==> names[j] in rows[i]
  }

  lemma {:induction false} SourceMetrics(ops: Ops, ms: seq<Approval>, r: Request, rows: seq<Row>)
    requires Ready(SourceProfile(r), ms) && HaveColumns(rows, ColumnsOfEach(ExpressionsOf(ms)))
    ensures var values := [Whole(|rows|)] + MetricValues(ms, SourceColumns(ops, ExpressionsOf(ms), rows));
            |NamesFor(ms)| == |values| &&
            MetricsOf(ops, SourceProfile(r), SourceStatement(ms, r), MetricParameters(ms), rows) == Some(MakeRow(NamesFor(ms), values))
  {
    hide AggregateEach, MetricItems, Measures, MakeRow, MetricValues, SourceColumns, Repeated, MetricParameters, NamesFor,
         ItemsHoles, HaveColumns, CastableEach, ValidExpressions, TreeEach, ParameterLists, ColumnsOfEach;
    ReadyParts(SourceProfile(r), ms);
    var es := ExpressionsOf(ms);
    var trees := TreeEach(SourceProfile(r), r.sourceAlias, es);
    SourceMeasures(ops, SourceProfile(r), r.sourceAlias, es, rows);
    ParametersRepeated(ms);
    StatementAggregate(ops, SourceProfile(r), r.sourceAlias, ms, trees, ParameterLists(es), rows,
                       SourceColumns(ops, es, rows));
    ItemsNamed(ms, trees);
  }

  lemma {:induction false} TargetMetrics(ops: Ops, ms: seq<Approval>, r: Request, rows: seq<Row>)
    requires Complete(ms) && TargetNamesOf(r).Some? && HaveTargets(rows, TargetNames(ms))
    ensures var values := [Whole(|rows|)] + MetricValues(ms, TargetColumns(TargetNames(ms), rows));
            |NamesFor(ms)| == |values| &&
            MetricsOf(ops, TargetProfile(r), TargetStatement(ms, r), [], rows) == Some(MakeRow(NamesFor(ms), values))
  {
    hide AggregateEach, MetricItems, Measures, MakeRow, MetricValues, TargetColumns, Repeated, NamesFor, ItemsHoles,
         TargetNamesOf, ColumnTrees, TargetNames;
    var names := TargetNames(ms);
    var trees := ColumnTrees(r.targetAlias, names);
    TargetMeasures(ops, TargetProfile(r), r.targetAlias, names, rows);
    NothingRepeated(ms, Empties(|names|));
    StatementAggregate(ops, TargetProfile(r), r.targetAlias, ms, trees, Empties(|names|), rows,
                       TargetColumns(names, rows));
    ItemsNamed(ms, trees);
  }

  lemma {:induction false} ColumnHeights(ops: Ops, es: seq<Expression>, rows: seq<Row>)
    requires ValidExpressions(es)
    ensures HasHeight(SourceColumns(ops, es, rows), |rows|)
    decreases es
  {
    hide DenoteRows, ValidExpression;
    if es != [] { ColumnHeights(ops, es[1..], rows); }
  }

  /** Both tables hold rows, equally many, and every measured column agrees. */
  ghost predicate Sound(ops: Ops, ms: seq<Approval>, source: seq<Row>, target: seq<Row>)
    requires Complete(ms) && ValidExpressions(ExpressionsOf(ms))
  {
    && source != [] && target != [] && |source| == |target|
    && Agree(ms, SourceColumns(ops, ExpressionsOf(ms), source), TargetColumns(TargetNames(ms), target))
  }

  lemma {:induction false} ValuesDecide(ops: Ops, ms: seq<Approval>, source: seq<Row>, target: seq<Row>)
    requires Complete(ms) && ValidExpressions(ExpressionsOf(ms)) && ms != []
    ensures var v := [Whole(|source|)] + MetricValues(ms, SourceColumns(ops, ExpressionsOf(ms), source));
            var w := [Whole(|target|)] + MetricValues(ms, TargetColumns(TargetNames(ms), target));
            AllCountable(v) && AllCountable(w) && (SameCounts(v, w) <==> Sound(ops, ms, source, target))
  {
    hide SameCounts, MetricValues, Agree, ValidExpressions, SourceColumns, ColumnRows;
    var a, b := SourceColumns(ops, ExpressionsOf(ms), source), TargetColumns(TargetNames(ms), target);
    ColumnHeights(ops, ExpressionsOf(ms), source);
    MetricsCountable(ms, a);
    MetricsCountable(ms, b);
    MetricsAgree(ms, a, b, |source|, |target|);
    RowCountFirst(|source|, |target|, MetricValues(ms, a), MetricValues(ms, b));
  }

  /** The verdict of the report, whatever the rows and whatever the drivers' number formats. */
  ghost predicate Decides(
    ops: Ops, ms: seq<Approval>, r: Request, pair: (Generated, Generated), source: seq<Row>, target: seq<Row>)
    requires Complete(ms) && ValidExpressions(ExpressionsOf(ms))
  {
    var s, t := Read(QuotesOf(r.source), pair.0.sql), Read(QuotesOf(r.target), pair.1.sql);
    && s.Some? && t.Some?
    && var m, n := MetricsOf(ops, SourceProfile(r), s.value, pair.0.parameters, source),
                   MetricsOf(ops, TargetProfile(r), t.value, pair.1.parameters, target);
       && m.Some? && n.Some?
       && forall d, e ::
            Delivers(d, m.value) && Delivers(e, n.value) ==>
              (R.AllCountsEqual(pair.0.checks, d, e) <==> Sound(ops, ms, source, target))
  }

  lemma {:induction false} StatementsDecide(
    ops: Ops, ms: seq<Approval>, r: Request, pair: (Generated, Generated), source: seq<Row>, target: seq<Row>)
    requires Ready(SourceProfile(r), ms) && TargetNamesOf(r).Some?
    requires HaveColumns(source, ColumnsOfEach(ExpressionsOf(ms))) && HaveTargets(target, TargetNames(ms))
    requires Read(QuotesOf(r.source), pair.0.sql) == Some(SourceStatement(ms, r))
    requires Read(QuotesOf(r.target), pair.1.sql) == Some(TargetStatement(ms, r))
    requires pair.0.parameters == MetricParameters(ms) && pair.1.parameters == [] && pair.0.checks == ChecksOf(ms)
    ensures Decides(ops, ms, r, pair, source, target)
  {
    hide Ready, TargetNamesOf, HaveColumns, HaveTargets, Read, SourceStatement, TargetStatement, MetricParameters,
         Delivers, R.AllCountsEqual, MetricsOf, MakeRow, MetricValues, SourceColumns, TargetColumns, Sound, SameCounts,
         ColumnsOfEach, ChecksOf, Distinct, AllCountable;
    ReadyParts(SourceProfile(r), ms);
    ReadyNotEmpty(SourceProfile(r), ms);
    SourceMetrics(ops, ms, r, source);
    TargetMetrics(ops, ms, r, target);
    ValuesDecide(ops, ms, source, target);
    CheckIdsDistinct(ms);
    ItemsNamed(ms, ColumnTrees(r.targetAlias, TargetNames(ms)));
    var v := [Whole(|source|)] + MetricValues(ms, SourceColumns(ops, ExpressionsOf(ms), source));
    var w := [Whole(|target|)] + MetricValues(ms, TargetColumns(TargetNames(ms), target));
    var m, n := MakeRow(NamesFor(ms), v), MakeRow(NamesFor(ms), w);
    forall d, e | Delivers(d, m) && Delivers(e, n)
      ensures R.AllCountsEqual(pair.0.checks, d, e) <==> Sound(ops, ms, source, target)
    {
      CountsDecide(ChecksOf(ms), NamesFor(ms), v, w, d, e);
    }
  }

  lemma {:induction false} ReadyNotEmpty(p: Profile, ms: seq<Approval>)
    requires Ready(p, ms)
    ensures ms != []
  {
  }

  // ---------------------------------------------------------------- printing, reading, guarding

  lemma {:induction false} MetricItemsShape(index: nat, ms: seq<Approval>, trees: seq<Sql>)
    requires |ms| == |trees| && AllPrintable(trees)
    ensures forall k :: 0 <= k < |ItemsFrom(index, ms, trees)| ==>
              var p := ItemsFrom(index, ms, trees)[k].projection; PrintableProjection(p) && !p.CountAll?
    decreases ms
  {
    hide Printable, NullName, DistinctName;
    if ms != [] { MetricItemsShape(index + 1, ms[1..], trees[1..]); }
  }

  lemma {:induction false} SelectReadsAndPasses(
    d: Dialect, ms: seq<Approval>, trees: seq<Sql>, from: seq<string>, alias: string)
    requires |ms| == |trees| && AllPrintable(trees) && from != []
    ensures var s := Select(MetricItems(ms, trees), from, alias);
            var text := TextOf(StatementPieces(QuoteOf(d), s));
            Read(QuotesOf(d), text) == Some(s) && G.Verdicts(text, d == MySql) == G.Accepted
  {
    hide AllPrintable, ItemsFrom, PrintableProjection, StatementPieces, TextOf, Read, G.Verdicts, ProperQuotes;
    var items := MetricItems(ms, trees);
    var s := Select(items, from, alias);
    MetricItemsShape(0, ms, trees);
    CountPrintable();
    QuotesProper(d);
    ReadPrinted(QuotesOf(d), QuoteOf(d), s);
    if d == MySql {
      RowCountIsWord();
      assert A.Counted(items) by {
        forall i | 1 <= i < |items| ensures !items[i].projection.CountAll? {
          assert items[i] == ItemsFrom(0, ms, trees)[i - 1];
        }
      }
      A.CountedAccepted(s);
    } else {
      A.SelectAccepted(d, s);
    }
  }

  lemma {:induction false} CountPrintable()
    ensures PrintableProjection(CountAll)
  {
  }

  lemma {:induction false} RowCountIsWord()
    ensures IsWord(ROW_COUNT)
  {
  }

  /** The queries are read back as the two statements, pass the guard and carry the same checks. */
  ghost predicate Faithful(ms: seq<Approval>, r: Request, pair: (Generated, Generated))
    requires Ready(SourceProfile(r), ms) && TargetNamesOf(r).Some?
  {
    && Read(QuotesOf(r.source), pair.0.sql) == Some(SourceStatement(ms, r))
    && Read(QuotesOf(r.target), pair.1.sql) == Some(TargetStatement(ms, r))
    && G.Verdicts(pair.0.sql, r.source == MySql) == G.Accepted
    && G.Verdicts(pair.1.sql, r.target == MySql) == G.Accepted
    && pair.0.parameters == MetricParameters(ms) && pair.1.parameters == []
    && pair.0.checks == pair.1.checks == ChecksOf(ms)
    && pair.0.aliases == pair.1.aliases == IdsOf(ChecksOf(ms)) && Distinct(pair.0.aliases)
  }

  /** The first query reads the source table, the second the target table, under the requested aliases. */
  ghost predicate Queries(r: Request, pair: (Generated, Generated)) {
    var s, t := Read(QuotesOf(r.source), pair.0.sql), Read(QuotesOf(r.target), pair.1.sql);
    && s.Some? && s.value.Select? && s.value.from == [r.sourceSchema, r.sourceTable] && s.value.alias == r.sourceAlias
    && t.Some? && t.value.Select? && t.value.alias == r.targetAlias
    && Addressed(t.value.from, r.target, Some(r.targetDatabase), r.targetSchema, r.targetTable)
    && pair.0.dialect == r.source && pair.1.dialect == r.target
    && pair.0.relation == [r.sourceSchema, r.sourceTable]
    && pair.1.relation == [r.targetDatabase, r.targetSchema, r.targetTable]
  }

  lemma {:induction false} PairQueries(ms: seq<Approval>, r: Request, pair: (Generated, Generated))
    requires Ready(SourceProfile(r), ms) && TargetNamesOf(r).Some? && Faithful(ms, r, pair)
    requires pair.0.dialect == r.source && pair.1.dialect == r.target
    requires pair.0.relation == [r.sourceSchema, r.sourceTable]
    requires pair.1.relation == [r.targetDatabase, r.targetSchema, r.targetTable]
    ensures Queries(r, pair)
  {
    hide Ready, TargetNamesOf, Read, G.Verdicts, MetricItems, MetricParameters, ChecksOf, Distinct, TreeEach;
    TargetAddressed(r);
  }

  /** No two mappings of a plan start from the same source column. */
  lemma {:induction false} MappingsApart(plan: ApprovedPlan)
    requires ValidPlan(plan)
    ensures SourcesApart(Ordered(plan.approvedMappings))
  {
    hide Ordered, ValidApproval, ValidIdentity, ValidNames, OnlyApproved;
    var key := (a: Approval) => Position(None, a.source);
    ApprovedSourcesApart(plan.approvals);
    SortByCorrect(plan.approvedMappings, PositionOf);
    assert multiset(Ordered(plan.approvedMappings)) == multiset(plan.approvedMappings) by { OrderedPermutes(plan.approvedMappings); }
    DistinctKeysPermuted(plan.approvedMappings, Ordered(plan.approvedMappings), key);
    var ms := Ordered(plan.approvedMappings);
    forall i, j | 0 <= i < j < |ms| ensures ms[i].source != ms[j].source { assert key(ms[i]) != key(ms[j]); }
  }

  lemma {:induction false} OrderedPermutes(xs: seq<Approval>)
    ensures multiset(Ordered(xs)) == multiset(xs)
  {
    SortByCorrect(xs, PositionOf);
  }

  lemma {:induction false} ApprovedSourcesApart(xs: seq<Approval>)
    requires Distinct(Sources(xs))
    ensures SourcesApart(OnlyApproved(xs))
  {
    if xs != [] {
      assert Sources(xs)[1..] == Sources(xs[1..]);
      forall i, j | 0 <= i < j < |xs[1..]| ensures Sources(xs[1..])[i] != Sources(xs[1..])[j] {
        assert Sources(xs)[i + 1] != Sources(xs)[j + 1];
      }
      ApprovedSourcesApart(xs[1..]);
      var rest := OnlyApproved(xs[1..]);
      forall k | 0 <= k < |rest| ensures rest[k].source != xs[0].source {
        assert rest[k] in rest && rest[k] in xs[1..];
        var j :| 0 <= j < |xs[1..]| && xs[1..][j] == rest[k];
        assert Sources(xs)[0] != Sources(xs)[j + 1];
      }
    }
  }

  lemma {:induction false} PrintedFaithful(ms: seq<Approval>, r: Request, sources: seq<string>, targets: seq<string>,
                                           sql: string, tql: string)
    requires Ready(SourceProfile(r), ms) && TargetNamesOf(r).Some?
    requires sources == C.ItemTextsOf(SourceProfile(r), SourceStatement(ms, r).items)
    requires targets == C.ItemTextsOf(TargetProfile(r), TargetStatement(ms, r).items)
    requires sql == C.SelectText(SourceProfile(r), sources, T.RelationText(SourceProfile(r), [r.sourceSchema, r.sourceTable]),
                                 C.NameText(SourceProfile(r), r.sourceAlias))
    requires tql == C.SelectText(TargetProfile(r), targets, T.RelationText(TargetProfile(r), TargetNamesOf(r).value),
                                 C.NameText(TargetProfile(r), r.targetAlias))
    ensures Read(QuotesOf(r.source), sql) == Some(SourceStatement(ms, r))
    ensures Read(QuotesOf(r.target), tql) == Some(TargetStatement(ms, r))
    ensures G.Verdicts(sql, r.source == MySql) == G.Accepted && G.Verdicts(tql, r.target == MySql) == G.Accepted
  {
    hide C.ItemTextsOf, C.SelectText, T.RelationText, C.NameText, Read, G.Verdicts, MetricItems, TargetNamesOf, TextOf,
         StatementPieces, TreeEach, ColumnTrees, AllPrintable, ValidExpressions, CastableEach;
    var sp, tp := SourceProfile(r), TargetProfile(r);
    ReadyParts(sp, ms);
    var s, t := SourceStatement(ms, r), TargetStatement(ms, r);
    C.SelectPiecesText(sp, s.items, s.from, s.alias);
    C.SelectPiecesText(tp, t.items, t.from, t.alias);
    TreeEachPrintable(sp, r.sourceAlias, ExpressionsOf(ms));
    ColumnTreesPrintable(r.targetAlias, TargetNames(ms));
    TargetNamed(r);
    SelectReadsAndPasses(r.source, ms, TreeEach(sp, r.sourceAlias, ExpressionsOf(ms)), s.from, s.alias);
    SelectReadsAndPasses(r.target, ms, ColumnTrees(r.targetAlias, TargetNames(ms)), t.from, t.alias);
  }

  lemma {:induction false} TargetNamed(r: Request)
    requires TargetNamesOf(r).Some?
    ensures TargetNamesOf(r).value != []
  {
  }

  // ---------------------------------------------------------------- compiling

  method RenderNames(p: Profile, names: seq<string>) returns (text: Result<string, CompileError>)
    ensures text.Ok? <==> AllFit(p, names)
    ensures text.Ok? ==> text.value == T.RelationText(p, names)
    ensures text.Err? ==> text.error == InvalidPlan
  {
    var parts := T.QuoteAll(p, names);
    if parts.Err? { return Err(parts.error); }
    text := Ok(JoinText(".", parts.value));
  }

  method RenderTarget(r: Request) returns (text: Result<string, CompileError>)
    ensures text.Ok? <==> TargetNamesOf(r).Some?
    ensures text.Ok? ==> text.value == T.RelationText(TargetProfile(r), TargetNamesOf(r).value)
    ensures text.Err? ==> text.error == InvalidPlan
  {
    hide AllFit, T.RelationText;
    var p := TargetProfile(r);
    if r.target == PostgreSql {
      text := RenderNames(p, [r.targetSchema, r.targetTable]);
    } else if r.target == MySql {
      if r.targetDatabase != r.targetSchema { return Err(InvalidPlan); }
      text := RenderNames(p, [r.targetDatabase, r.targetTable]);
    } else {
      text := RenderNames(p, [r.targetDatabase, r.targetSchema, r.targetTable]);
    }
  }

  /**
   * Compiles the pair. It fails exactly with the validation fault; otherwise the two queries, run on
   * any source and target rows, decide whether the counts agree.
   */
  method CompileValidation(plan: ApprovedPlan, r: Request) returns (result: Result<(Generated, Generated), CompileError>)
    requires ValidPlan(plan)
    ensures result.Err? ==> ValidationFault(plan, r) == Some(result.error)
    ensures result.Ok? ==> ValidationFault(plan, r).None?
    ensures result.Ok? ==>
              var ms := Ordered(plan.approvedMappings);
              && Ready(SourceProfile(r), ms) && TargetNamesOf(r).Some? && Faithful(ms, r, result.value)
              && Queries(r, result.value) && Covers(result.value.0.checks, ms)
              && forall ops, source, target ::
                   HaveColumns(source, AllowedColumns(plan)) && HaveTargets(target, TargetNames(ms)) ==>
                     Decides(ops, ms, r, result.value, source, target)
  {
    hide ValidPlan, ValidApproval, Ordered, CheckFault, Ready, TargetNamesOf, SourceFits, Fits, MetricItems, TreeEach,
         ColumnTrees, MetricParameters, C.ItemTextsOf, T.RelationText, Decides, Distinct, ChecksOf, HaveColumns,
         HaveTargets, ColumnsOfEach, C.Collected, C.SelectText, Queries, Covers;
    if plan.approvedMappings == [] { return Err(InvalidPlan); }
    var ms := Ordered(plan.approvedMappings);
    T.ValidMembers(plan);
    var parameters := new ParameterList();
    var sides := C.RenderChecks(ms, r, AllowedColumns(plan), parameters);
    if sides.Err? { return Err(sides.error); }
    var sp, tp := SourceProfile(r), TargetProfile(r);
    var sourceRelation := RenderNames(sp, [r.sourceSchema, r.sourceTable]);
    SourceFitsMeans(r);
    if sourceRelation.Err? { return Err(sourceRelation.error); }
    var targetRelation := RenderTarget(r);
    if targetRelation.Err? { return Err(targetRelation.error); }
    var sourceAlias, targetAlias := Quote(sp, r.sourceAlias), Quote(tp, r.targetAlias);
    if sourceAlias.Err? { return Err(sourceAlias.error); }
    TargetAliasFits(r, AllowedColumns(plan), ms);
    var checks := sides.value.checks;
    var sql := C.SelectText(sp, sides.value.source, sourceRelation.value, sourceAlias.value);
    var tql := C.SelectText(tp, sides.value.target, targetRelation.value, targetAlias.value);
    CollectedSides(ms, r, sides.value, parameters.items);
    CheckIdsDistinct(ms);
    var pair := (Generated(r.source, sql, parameters.items, [r.sourceSchema, r.sourceTable], IdsOf(checks), checks),
                 Generated(r.target, tql, [], [r.targetDatabase, r.targetSchema, r.targetTable], IdsOf(checks), checks));
    PrintedFaithful(ms, r, sides.value.source, sides.value.target, sql, tql);
    PairDecides(plan, ms, r, pair);
    PairQueries(ms, r, pair);
    MappingsApart(plan);
    ChecksCover(ms);
    result := Ok(pair);
  }

  lemma {:induction false} SourceFitsMeans(r: Request)
    ensures SourceFits(r) <==> AllFit(SourceProfile(r), [r.sourceSchema, r.sourceTable])
  {
  }

  lemma {:induction false} TargetAliasFits(r: Request, allowed: set<string>, ms: seq<Approval>)
    requires CheckFault(r, allowed, ms).None? && ms != []
    ensures Fits(TargetProfile(r), r.targetAlias)
  {
  }

  lemma {:induction false} CollectedSides(ms: seq<Approval>, r: Request, sides: C.Sides, parameters: seq<Scalar>)
    requires Ready(SourceProfile(r), ms) && TargetNamesOf(r).Some? && C.Collected(ms, r, sides, parameters)
    ensures sides.source == C.ItemTextsOf(SourceProfile(r), SourceStatement(ms, r).items)
    ensures sides.target == C.ItemTextsOf(TargetProfile(r), TargetStatement(ms, r).items)
    ensures sides.checks == ChecksOf(ms) && parameters == MetricParameters(ms)
  {
    hide C.ItemTextsOf, MetricItems, ChecksOf, MetricParameters, TargetNamesOf;
  }

  lemma {:induction false} PairDecides(plan: ApprovedPlan, ms: seq<Approval>, r: Request, pair: (Generated, Generated))
    requires ValidPlan(plan) && ValidationFault(plan, r).None? && ms == Ordered(plan.approvedMappings)
    requires Ready(SourceProfile(r), ms) && TargetNamesOf(r).Some? && Faithful(ms, r, pair)
    ensures forall ops, source, target ::
              HaveColumns(source, AllowedColumns(plan)) && HaveTargets(target, TargetNames(ms)) ==>
                Decides(ops, ms, r, pair, source, target)
  {
    hide ValidPlan, Ordered, Ready, TargetNamesOf, Decides, HaveColumns, HaveTargets, Read, G.Verdicts, CheckFault,
         SourceStatement, TargetStatement, ColumnsOfEach, ValidApproval, MetricParameters, ChecksOf, Distinct;
    T.ValidMembers(plan);
    C.MeasurableReady(r, AllowedColumns(plan), ms);
    ReadyParts(SourceProfile(r), ms);
    forall ops, source, target | HaveColumns(source, AllowedColumns(plan)) && HaveTargets(target, TargetNames(ms))
      ensures Decides(ops, ms, r, pair, source, target)
    {
      ColumnsHad(source, ColumnsOfEach(ExpressionsOf(ms)), AllowedColumns(plan));
      StatementsDecide(ops, ms, r, pair, source, target);
    }
  }

  /** A target that holds the image of a source with rows always passes; without rows it never does. */
  lemma {:induction false} ImagePasses(ops: Ops, ms: seq<Approval>, source: seq<Row>, target: seq<Row>)
    requires Complete(ms) && ValidExpressions(ExpressionsOf(ms)) && HoldsImage(ops, ms, source, target)
    ensures Sound(ops, ms, source, target) <==> source != []
  {
    hide HoldsImage, Agree, SourceColumns, TargetColumns, ValidExpressions, Complete;
    ImageAgrees(ops, ms, source, target);
  }

  // ---------------------------------------------------------------- the status of the report

  /** What reconciling promises about a report. */
  ghost predicate IsReport(report: R.Report, checks: seq<R.Check>, d: R.DriverRow, e: R.DriverRow) {
    && |report.results| == |checks|
    && (forall i :: 0 <= i < |checks| ==> R.Reads(report.results[i], checks[i], d, e))
    && (report.status == R.Failed <==> exists i :: 0 <= i < |report.results| && report.results[i].status == R.Mismatching)
    && (report.status == R.Passed <==> forall i :: 0 <= i < |report.results| ==> report.results[i].status == R.Matching)
  }

  predicate Differs(v: seq<Scalar>, w: seq<Scalar>, k: nat)
    requires |v| == |w| && k < |v|
  {
    v[k].Whole? && w[k].Whole? && v[k] != w[k]
  }

  /** Failing means a pair of counts that differ; passing, that all are there and equal. */
  lemma {:induction false} StatusMeans(
    report: R.Report, checks: seq<R.Check>, names: seq<string>, v: seq<Scalar>, w: seq<Scalar>, d: R.DriverRow, e: R.DriverRow)
    requires IsReport(report, checks, d, e)
    requires |checks| == |names| == |v| == |w| && Distinct(names) && AllCountable(v) && AllCountable(w)
    requires forall k :: 0 <= k < |checks| ==> checks[k].sourceAlias == checks[k].targetAlias == names[k]
    requires Delivers(d, MakeRow(names, v)) && Delivers(e, MakeRow(names, w))
    ensures report.status == R.Failed <==> exists k :: 0 <= k < |v| && Differs(v, w, k)
    ensures report.status == R.Passed <==> SameCounts(v, w)
  {
    hide MakeRow, Distinct, Delivers, R.MetricOf;
    forall k | 0 <= k < |checks|
      ensures report.results[k].status == R.Mismatching <==> Differs(v, w, k)
      ensures report.results[k].status == R.Matching <==> v[k].Whole? && v[k] == w[k]
    {
      CountAt(names, v, d, k);
      CountAt(names, w, e, k);
      assert R.Reads(report.results[k], checks[k], d, e);
      assert Countable(v[k]) && Countable(w[k]);
    }
  }

  lemma {:induction false} NoNullMetrics(ms: seq<Approval>, columns: seq<seq<Scalar>>)
    requires |ms| == |columns| && forall i :: 0 <= i < |columns| ==> columns[i] != []
    ensures forall k :: 0 <= k < |MetricValues(ms, columns)| ==> MetricValues(ms, columns)[k].Whole?
    decreases ms
  {
    hide NullsIn, KnownValues;
    if ms != [] { NoNullMetrics(ms[1..], columns[1..]); }
  }

  lemma {:induction false} FirstNullMetric(ms: seq<Approval>, columns: seq<seq<Scalar>>)
    requires |ms| == |columns| && ms != [] && columns[0] == []
    ensures |MetricValues(ms, columns)| > 0 && MetricValues(ms, columns)[0] == Null
  {
    hide KnownValues;
  }

  lemma {:induction false} TargetHeights(names: seq<string>, rows: seq<Row>)
    ensures HasHeight(TargetColumns(names, rows), |rows|)
  {
  }

  /** Without rows every column is empty. */
  lemma {:induction false} NoHeight(a: seq<seq<Scalar>>, b: seq<seq<Scalar>>)
    requires |a| == |b| && HasHeight(a, 0) && HasHeight(b, 0)
    ensures a == b
  {
    forall i | 0 <= i < |a| ensures a[i] == b[i] { assert |a[i]| == 0 && |b[i]| == 0; }
  }

  /** The metrics of both sides, the row count first. */
  lemma {:induction false} ValuesStatus(
    ms: seq<Approval>, a: seq<seq<Scalar>>, b: seq<seq<Scalar>>, n: nat, m: nat)
    requires |ms| == |a| == |b| && ms != [] && HasHeight(a, n) && HasHeight(b, m)
    ensures var v, w := [Whole(n)] + MetricValues(ms, a), [Whole(m)] + MetricValues(ms, b);
            |v| == |w| ==>
              ((!exists k :: 0 <= k < |v| && Differs(v, w, k)) && !SameCounts(v, w) <==> n == 0 && m == 0)
  {
    hide MetricValues, Differs, SameCounts;
    var v, w := [Whole(n)] + MetricValues(ms, a), [Whole(m)] + MetricValues(ms, b);
    if |v| == |w| {
      if n != m {
        CountsDiffer(v, w);
      } else if n == 0 {
        NoHeight(a, b);
        FirstNullMetric(ms, a);
        NothingDiffers(v);
      } else {
        NoNullMetrics(ms, a);
        NoNullMetrics(ms, b);
        KnownDecide(v, w);
      }
    }
  }

  lemma {:induction false} CountsDiffer(v: seq<Scalar>, w: seq<Scalar>)
    requires |v| == |w| && v != [] && v[0].Whole? && w[0].Whole? && v[0] != w[0]
    ensures exists k :: 0 <= k < |v| && Differs(v, w, k)
  {
    assert Differs(v, w, 0);
  }

  lemma {:induction false} NothingDiffers(v: seq<Scalar>)
    requires |v| > 1 && v[1] == Null
    ensures !exists k :: 0 <= k < |v| && Differs(v, v, k)
    ensures !SameCounts(v, v)
  {
  }

  lemma {:induction false} KnownDecide(v: seq<Scalar>, w: seq<Scalar>)
    requires |v| == |w| && forall k :: 0 <= k < |v| ==> v[k].Whole? && w[k].Whole?
    ensures SameCounts(v, w) || exists k :: 0 <= k < |v| && Differs(v, w, k)
  {
    if !SameCounts(v, w) {
      var k :| 0 <= k < |v| && v[k] != w[k];
      assert Differs(v, w, k);
    }
  }

  lemma {:induction false} ColumnsStatus(ops: Ops, ms: seq<Approval>, source: seq<Row>, target: seq<Row>)
    requires Complete(ms) && ValidExpressions(ExpressionsOf(ms)) && ms != []
    ensures var v := [Whole(|source|)] + MetricValues(ms, SourceColumns(ops, ExpressionsOf(ms), source));
            var w := [Whole(|target|)] + MetricValues(ms, TargetColumns(TargetNames(ms), target));
            |v| == |w| ==>
              ((!exists k :: 0 <= k < |v| && Differs(v, w, k)) && !SameCounts(v, w) <==> source == [] && target == [])
  {
    hide MetricValues, Differs, SameCounts, ValidExpressions, SourceColumns, ColumnRows;
    ColumnHeights(ops, ExpressionsOf(ms), source);
    TargetHeights(TargetNames(ms), target);
    ValuesStatus(ms, SourceColumns(ops, ExpressionsOf(ms), source), TargetColumns(TargetNames(ms), target), |source|, |target|);
  }

  /**
   * The report on a faithful pair: it passes exactly when both tables hold rows and every count
   * agrees, it is incomplete exactly when both tables are empty, and otherwise it fails.
   */
  lemma {:induction false} ReportStatus(
    ops: Ops, ms: seq<Approval>, r: Request, pair: (Generated, Generated), source: seq<Row>, target: seq<Row>,
    m: Row, n: Row, d: R.DriverRow, e: R.DriverRow, report: R.Report)
    requires Ready(SourceProfile(r), ms) && TargetNamesOf(r).Some? && Faithful(ms, r, pair)
    requires HaveColumns(source, ColumnsOfEach(ExpressionsOf(ms))) && HaveTargets(target, TargetNames(ms))
    requires Some(m) == MetricsOf(ops, SourceProfile(r), Read(QuotesOf(r.source), pair.0.sql).value, pair.0.parameters, source)
    requires Some(n) == MetricsOf(ops, TargetProfile(r), Read(QuotesOf(r.target), pair.1.sql).value, pair.1.parameters, target)
    requires Delivers(d, m) && Delivers(e, n) && IsReport(report, pair.0.checks, d, e)
    ensures report.status == R.Passed <==> Sound(ops, ms, source, target)
    ensures report.status == R.Incomplete <==> source == [] && target == []
  {
    hide Ready, TargetNamesOf, HaveColumns, HaveTargets, Read, SourceStatement, TargetStatement, MetricParameters,
         Delivers, MetricsOf, MakeRow, MetricValues, SourceColumns, TargetColumns, Sound, SameCounts, ColumnsOfEach,
         ChecksOf, Distinct, AllCountable, G.Verdicts, IsReport, Differs;
    ReadyParts(SourceProfile(r), ms);
    ReadyNotEmpty(SourceProfile(r), ms);
    SourceMetrics(ops, ms, r, source);
    TargetMetrics(ops, ms, r, target);
    ValuesDecide(ops, ms, source, target);
    CheckIdsDistinct(ms);
    ItemsNamed(ms, ColumnTrees(r.targetAlias, TargetNames(ms)));
    var v := [Whole(|source|)] + MetricValues(ms, SourceColumns(ops, ExpressionsOf(ms), source));
    var w := [Whole(|target|)] + MetricValues(ms, TargetColumns(TargetNames(ms), target));
    StatusMeans(report, ChecksOf(ms), NamesFor(ms), v, w, d, e);
    ColumnsStatus(ops, ms, source, target);
    StatusIsOneOf(report);
  }

  lemma {:induction false} StatusIsOneOf(report: R.Report)
    ensures report.status == R.Passed || report.status == R.Failed || report.status == R.Incomplete
  {
  }

  // ---------------------------------------------------------------- what passing means

  /** The values that mapping `m` gives the rows of the source, in order. */
  function Produced(ops: Ops, m: Approval, rows: seq<Row>): seq<Scalar>
    requires m.transformation.Some? && ValidExpression(m.transformation.value)
  {
    seq(|rows|, k requires 0 <= k < |rows| => Denote(ops, m.transformation.value, rows[k]))
  }

  /** The values the rows of the target hold under the target name of `m`, in order. */
  function Held(m: Approval, rows: seq<Row>): seq<Scalar>
    requires m.target.Some? && forall k :: 0 <= k < |rows| ==> m.target.value in rows[k]
  {
    seq(|rows|, k requires 0 <= k < |rows| => rows[k][m.target.value])
  }

  lemma {:induction false} ProducedColumn(ops: Ops, ms: seq<Approval>, rows: seq<Row>, i: nat)
    requires Complete(ms) && ValidExpressions(ExpressionsOf(ms)) && i < |ms|
    ensures ValidExpression(ms[i].transformation.value)
    ensures SourceColumns(ops, ExpressionsOf(ms), rows)[i] == Produced(ops, ms[i], rows)
  {
    hide Denote, ValidExpression, ValidExpressions, DenoteRows, SourceColumns;
    SourceColumnsAt(ops, ExpressionsOf(ms), rows, i);
    var e := ms[i].transformation.value;
    forall k | 0 <= k < |rows| ensures DenoteRows(ops, e, rows)[k] == Produced(ops, ms[i], rows)[k] {
      DenoteRowsAt(ops, e, rows, k);
    }
  }

  lemma {:induction false} HeldColumn(ms: seq<Approval>, rows: seq<Row>, i: nat)
    requires Complete(ms) && i < |ms| && HaveTargets(rows, TargetNames(ms))
    ensures forall k :: 0 <= k < |rows| ==> ms[i].target.value in rows[k]
    ensures TargetColumns(TargetNames(ms), rows)[i] == Held(ms[i], rows)
  {
    hide ColumnRows;
    forall k | 0 <= k < |rows| ensures ms[i].target.value in rows[k] { assert TargetNames(ms)[i] in rows[k]; }
    assert TargetColumns(TargetNames(ms), rows)[i] == ColumnRows(ms[i].target.value, rows);
  }

  /**
   * A report that passes says of each approved mapping: both tables have equally many rows, the target
   * column holds as many NULLs as the mapping gives, and, unless the compatibility is unknown, as many
   * distinct values.
   */
  lemma {:induction false} PassedCounts(
    ops: Ops, ms: seq<Approval>, r: Request, pair: (Generated, Generated), source: seq<Row>, target: seq<Row>,
    m: Row, n: Row, d: R.DriverRow, e: R.DriverRow, report: R.Report, i: nat)
    requires Ready(SourceProfile(r), ms) && TargetNamesOf(r).Some? && Faithful(ms, r, pair)
    requires HaveColumns(source, ColumnsOfEach(ExpressionsOf(ms))) && HaveTargets(target, TargetNames(ms))
    requires Some(m) == MetricsOf(ops, SourceProfile(r), Read(QuotesOf(r.source), pair.0.sql).value, pair.0.parameters, source)
    requires Some(n) == MetricsOf(ops, TargetProfile(r), Read(QuotesOf(r.target), pair.1.sql).value, pair.1.parameters, target)
    requires Delivers(d, m) && Delivers(e, n) && IsReport(report, pair.0.checks, d, e)
    requires report.status == R.Passed && i < |ms|
    ensures ValidExpression(ms[i].transformation.value)
    ensures forall k :: 0 <= k < |target| ==> ms[i].target.value in target[k]
    ensures |source| == |target| && source != []
    ensures var a, b := Produced(ops, ms[i], source), Held(ms[i], target);
            && multiset(a)[Null] == multiset(b)[Null]
            && (ms[i].compatibility != Unclear ==> |set v | v in a && v != Null| == |set v | v in b && v != Null|)
  {
    hide Ready, TargetNamesOf, HaveColumns, HaveTargets, Read, MetricParameters, Delivers, MetricsOf, SourceColumns,
         TargetColumns, ColumnsOfEach, ChecksOf, Distinct, G.Verdicts, IsReport, Faithful, Produced, Held;
    ReadyParts(SourceProfile(r), ms);
    ReportStatus(ops, ms, r, pair, source, target, m, n, d, e, report);
    ProducedColumn(ops, ms, source, i);
    HeldColumn(ms, target, i);
  }

  // ---------------------------------------------------------------- which plans can be validated

  /** The mapping can be measured in both dialects. */
  predicate Checkable(r: Request, allowed: set<string>, m: Approval) {
    && m.target.Some? && Fits(TargetProfile(r), r.targetAlias) && Fits(TargetProfile(r), m.target.value)
    && m.transformation.Some?
    && var e, p := m.transformation.value, SourceProfile(r);
       Height(e) <= MAX_DEPTH && ColumnsOf(e) <= allowed && Castable(p, e) && Quotable(p, r.sourceAlias, ColumnsOf(e))
  }

  lemma {:induction false} CheckableMeans(r: Request, allowed: set<string>, m: Approval)
    ensures Checkable(r, allowed, m) <==> C.Measurable(r, allowed, m)
  {
    hide Fits, Castable, Quotable, ColumnsOf, Height, Fault;
    if m.transformation.Some? { FaultFree(SourceProfile(r), r.sourceAlias, allowed, m.transformation.value, 0); }
  }

  /** Exactly which plans a pair of dialects can validate. */
  lemma {:induction false} ValidationCompiles(plan: ApprovedPlan, r: Request)
    ensures ValidationFault(plan, r).None?
            <==> && plan.approvedMappings != []
                 && (forall m :: m in plan.approvedMappings ==> Checkable(r, AllowedColumns(plan), m))
                 && Fits(SourceProfile(r), r.sourceSchema) && Fits(SourceProfile(r), r.sourceTable)
                 && Fits(SourceProfile(r), r.sourceAlias) && TargetFits(r)
  {
    hide Fits, Checkable, C.Measurable, TargetNamesOf, TargetFits, CheckFault, Ordered, AllFit;
    var ms, allowed := Ordered(plan.approvedMappings), AllowedColumns(plan);
    OrderedMembers(plan.approvedMappings);
    C.CheckFaultFree(r, allowed, ms);
    TargetAddressed(r);
    ThreeFit(SourceProfile(r), r.sourceSchema, r.sourceSchema, r.sourceTable);
    forall m ensures Checkable(r, allowed, m) <==> C.Measurable(r, allowed, m) { CheckableMeans(r, allowed, m); }
    assert (forall m :: m in ms ==> C.Measurable(r, allowed, m))
      <==> forall i :: 0 <= i < |ms| ==> C.Measurable(r, allowed, ms[i]);
  }
}
