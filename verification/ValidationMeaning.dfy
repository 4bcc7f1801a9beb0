/**
 * What the paired validation queries establish. The report passes exactly when both tables hold
 * rows and every measured count agrees; in particular it passes whenever the target holds the
 * plan's image of a source that is not empty.
 */
module ValidationMeaning {
  import opened Common
  import opened MappingModel
  import opened SqlTree
  import opened SqlStatement
  import opened SqlMeaning
  import opened Transformation
  import opened CompiledPlan
  import opened ValidationSql

  // ---------------------------------------------------------------- values of one mapping

  function DenoteRows(ops: Ops, e: Expression, rows: seq<Row>): (vs: seq<Scalar>)
    requires ValidExpression(e)
    ensures |vs| == |rows|
  {
    if rows == [] then [] else [Denote(ops, e, rows[0])] + DenoteRows(ops, e, rows[1..])
  }

  function ColumnRows(name: string, rows: seq<Row>): (vs: seq<Scalar>)
    ensures |vs| == |rows| && forall i :: 0 <= i < |rows| ==> vs[i] == Cell(rows[i], name)
  {
    if rows == [] then [] else [Cell(rows[0], name)] + ColumnRows(name, rows[1..])
  }

  lemma {:induction false} TreeRows(ops: Ops, p: Profile, alias: string, e: Expression, rows: seq<Row>)
    requires ValidExpression(e) && Castable(p, e) && HaveColumns(rows, ColumnsOf(e))
    ensures Holes(Tree(p, alias, e)) == |Parameters(e)|
    ensures EvalRows(ops, p, alias, Tree(p, alias, e), rows, Parameters(e)) == Some(DenoteRows(ops, e, rows))
    decreases rows
  {
    hide Tree, Denote, Parameters, ValidExpression, Castable, Eval, HasAll, ColumnsOf;
    if rows == [] {
      var row := map c | c in ColumnsOf(e) :: Null;
      AllPresent(row, ColumnsOf(e));
      TreeMeaning(Ops((_, v) => v, _ => Null, (v, _) => v), p, alias, e, row);
    } else {
      TreeMeaning(ops, p, alias, e, rows[0]);
      TreeRows(ops, p, alias, e, rows[1..]);
    }
  }

  lemma {:induction false} AllPresent(row: Row, names: set<string>)
    requires row.Keys == names
    ensures HasAll(row, names)
  {
  }

  lemma {:induction false} ColumnEval(ops: Ops, p: Profile, alias: string, name: string, rows: seq<Row>)
    requires forall i :: 0 <= i < |rows| ==> name in rows[i]
    ensures EvalRows(ops, p, alias, Column(alias, name), rows, []) == Some(ColumnRows(name, rows))
    decreases rows
  {
    if rows != [] { ColumnEval(ops, p, alias, name, rows[1..]); }
  }

  // ---------------------------------------------------------------- metrics of all mappings

  function NullMetric(vs: seq<Scalar>): Scalar {
    if vs == [] then Null else Whole(NullsIn(vs))
  }

  function DistinctMetric(vs: seq<Scalar>): Scalar {
    Whole(|KnownValues(vs)|)
  }

  function MetricValues(ms: seq<Approval>, columns: seq<seq<Scalar>>): seq<Scalar>
    requires |ms| == |columns|
    decreases ms
  {
    if ms == [] then []
    else
      [NullMetric(columns[0])] + (if HasDistinct(ms[0]) then [DistinctMetric(columns[0])] else [])
      + MetricValues(ms[1..], columns[1..])
  }

  /** The parameters of every tree, repeated where the tree is measured twice. */
  function Repeated(ms: seq<Approval>, params: seq<seq<Scalar>>): seq<Scalar>
    requires |ms| == |params|
    decreases ms
  {
    if ms == [] then []
    else params[0] + (if HasDistinct(ms[0]) then params[0] else []) + Repeated(ms[1..], params[1..])
  }

  /** Tree `i` with parameters `i` has the values of column `i` in the rows. */
  ghost predicate Measures(
    ops: Ops, p: Profile, alias: string, trees: seq<Sql>, params: seq<seq<Scalar>>, rows: seq<Row>,
    columns: seq<seq<Scalar>>)
  {
    && |trees| == |params| == |columns|
    && forall i :: 0 <= i < |trees| ==>
         && |params[i]| == Holes(trees[i])
         && EvalRows(ops, p, alias, trees[i], rows, params[i]) == Some(columns[i])
  }

  lemma {:induction false} MeasuresRest(
    ops: Ops, p: Profile, alias: string, trees: seq<Sql>, params: seq<seq<Scalar>>, rows: seq<Row>,
    columns: seq<seq<Scalar>>)
    requires Measures(ops, p, alias, trees, params, rows, columns) && trees != []
    ensures Measures(ops, p, alias, trees[1..], params[1..], rows, columns[1..])
    ensures |params[0]| == Holes(trees[0]) && |columns[0]| == |rows|
    ensures EvalRows(ops, p, alias, trees[0], rows, params[0]) == Some(columns[0])
  {
    hide EvalRows, Holes;
  }

  lemma {:induction false} OneAggregate(
    ops: Ops, p: Profile, alias: string, e: Sql, rows: seq<Row>, params: seq<Scalar>, vs: seq<Scalar>, name: string)
    requires |params| == Holes(e) && EvalRows(ops, p, alias, e, rows, params) == Some(vs)
    ensures Aggregate(ops, p, alias, NullCount(e), rows, params) == Some(NullMetric(vs))
    ensures Aggregate(ops, p, alias, DistinctCount(e), rows, params) == Some(DistinctMetric(vs))
  {
    hide EvalRows, NullsIn, KnownValues;
    assert vs == [] <==> rows == [];
  }

  lemma {:induction false} ItemsAggregate(
    ops: Ops, p: Profile, alias: string, index: nat, ms: seq<Approval>, trees: seq<Sql>, params: seq<seq<Scalar>>,
    rows: seq<Row>, columns: seq<seq<Scalar>>)
    requires |ms| == |trees| == |params| == |columns| && Measures(ops, p, alias, trees, params, rows, columns)
    ensures ItemsHoles(ItemsFrom(index, ms, trees)) == |Repeated(ms, params)|
    ensures AggregateEach(ops, p, alias, ItemsFrom(index, ms, trees), rows, Repeated(ms, params))
            == Some(MetricValues(ms, columns))
    decreases ms
  {
    hide Measures, Aggregate, Holes, NullName, DistinctName, NullMetric, DistinctMetric, EvalRows, Prepend;
    if ms == [] {
    } else {
      MeasuresRest(ops, p, alias, trees, params, rows, columns);
      ItemsAggregate(ops, p, alias, index + 1, ms[1..], trees[1..], params[1..], rows, columns[1..]);
      OneAggregate(ops, p, alias, trees[0], rows, params[0], columns[0], NullName(index));
      MappingAggregate(ops, p, alias, index, ms[0], trees[0], params[0], rows, columns[0],
                       ItemsFrom(index + 1, ms[1..], trees[1..]), Repeated(ms[1..], params[1..]),
                       MetricValues(ms[1..], columns[1..]));
    }
  }

  lemma {:induction false} MappingAggregate(
    ops: Ops, p: Profile, alias: string, index: nat, m: Approval, tree: Sql, ps: seq<Scalar>, rows: seq<Row>,
    column: seq<Scalar>, items: seq<Item>, rest: seq<Scalar>, values: seq<Scalar>)
    requires |ps| == Holes(tree) && |rest| == ItemsHoles(items)
    requires Aggregate(ops, p, alias, NullCount(tree), rows, ps) == Some(NullMetric(column))
    requires Aggregate(ops, p, alias, DistinctCount(tree), rows, ps) == Some(DistinctMetric(column))
    requires AggregateEach(ops, p, alias, items, rows, rest) == Some(values)
    ensures var nulls, counts := Item(NullCount(tree), NullName(index)), Item(DistinctCount(tree), DistinctName(index));
            var all := [nulls] + (if HasDistinct(m) then [counts] else []) + items;
            var params := ps + (if HasDistinct(m) then ps else []) + rest;
            ItemsHoles(all) == |params| &&
            AggregateEach(ops, p, alias, all, rows, params)
            == Some([NullMetric(column)] + (if HasDistinct(m) then [DistinctMetric(column)] else []) + values)
  {
    hide Aggregate, Holes, NullName, DistinctName, NullMetric, DistinctMetric, AggregateEach, ItemsHoles;
    var nulls, counts := Item(NullCount(tree), NullName(index)), Item(DistinctCount(tree), DistinctName(index));
    if HasDistinct(m) {
      AggregateFirst(ops, p, alias, counts, items, rows, ps, rest);
      AggregateFirst(ops, p, alias, nulls, [counts] + items, rows, ps, ps + rest);
      assert [nulls] + [counts] + items == [nulls] + ([counts] + items) && ps + ps + rest == ps + (ps + rest);
      assert [NullMetric(column)] + ([DistinctMetric(column)] + values)
          == [NullMetric(column)] + [DistinctMetric(column)] + values;
    } else {
      AggregateFirst(ops, p, alias, nulls, items, rows, ps, rest);
      assert [nulls] + [] + items == [nulls] + items && ps + [] + rest == ps + rest;
      assert [NullMetric(column)] + [] + values == [NullMetric(column)] + values;
    }
  }

  /** The metrics of a statement, in the order of its items. */
  lemma {:induction false} StatementAggregate(
    ops: Ops, p: Profile, alias: string, ms: seq<Approval>, trees: seq<Sql>, params: seq<seq<Scalar>>, rows: seq<Row>,
    columns: seq<seq<Scalar>>)
    requires |ms| == |trees| == |params| == |columns| && Measures(ops, p, alias, trees, params, rows, columns)
    ensures ItemsHoles(MetricItems(ms, trees)) == |Repeated(ms, params)|
    ensures AggregateEach(ops, p, alias, MetricItems(ms, trees), rows, Repeated(ms, params))
            == Some([Whole(|rows|)] + MetricValues(ms, columns))
  {
    hide Measures, MetricValues, AggregateEach, ItemsHoles, ItemsFrom;
    ItemsAggregate(ops, p, alias, 0, ms, trees, params, rows, columns);
    AggregateFirst(ops, p, alias, Item(CountAll, ROW_COUNT), ItemsFrom(0, ms, trees), rows, [], Repeated(ms, params));
    assert [] + Repeated(ms, params) == Repeated(ms, params);
  }

  // ---------------------------------------------------------------- the two sides

  function SourceColumns(ops: Ops, es: seq<Expression>, rows: seq<Row>): (columns: seq<seq<Scalar>>)
    requires ValidExpressions(es)
    ensures |columns| == |es|
    decreases es
  {
    if es == [] then [] else [DenoteRows(ops, es[0], rows)] + SourceColumns(ops, es[1..], rows)
  }

  function TargetColumns(names: seq<string>, rows: seq<Row>): (columns: seq<seq<Scalar>>)
    ensures |columns| == |names| && forall i :: 0 <= i < |names| ==> columns[i] == ColumnRows(names[i], rows)
  {
    seq(|names|, i requires 0 <= i < |names| => ColumnRows(names[i], rows))
  }

  function ParameterLists(es: seq<Expression>): (r: seq<seq<Scalar>>)
    ensures |r| == |es|
  {
    if es == [] then [] else [Parameters(es[0])] + ParameterLists(es[1..])
  }

  lemma {:induction false} ColumnsHad(rows: seq<Row>, a: set<string>, b: set<string>)
    requires HaveColumns(rows, b) && a <= b
    ensures HaveColumns(rows, a)
  {
  }

  lemma {:induction false} SourceMeasures(ops: Ops, p: Profile, alias: string, es: seq<Expression>, rows: seq<Row>)
    requires ValidExpressions(es) && CastableEach(p, es) && HaveColumns(rows, ColumnsOfEach(es))
    ensures Measures(ops, p, alias, TreeEach(p, alias, es), ParameterLists(es), rows, SourceColumns(ops, es, rows))
    decreases es
  {
    hide Tree, Parameters, ValidExpression, Castable, EvalRows, Holes, ColumnsOf, DenoteRows, HaveColumns;
    if es != [] {
      ColumnsHad(rows, ColumnsOf(es[0]), ColumnsOfEach(es));
      ColumnsHad(rows, ColumnsOfEach(es[1..]), ColumnsOfEach(es));
      TreeRows(ops, p, alias, es[0], rows);
      SourceMeasures(ops, p, alias, es[1..], rows);
    }
  }

  function Empties(n: nat): (r: seq<seq<Scalar>>)
    ensures |r| == n && forall i :: 0 <= i < n ==> r[i] == []
  {
    seq(n, _ => [])
  }

  lemma {:induction false} NothingRepeated(ms: seq<Approval>, params: seq<seq<Scalar>>)
    requires |ms| == |params| && forall i :: 0 <= i < |params| ==> params[i] == []
    ensures Repeated(ms, params) == []
    decreases ms
  {
    if ms != [] { NothingRepeated(ms[1..], params[1..]); }
  }

  lemma {:induction false} ParametersRepeated(ms: seq<Approval>)
    requires Complete(ms)
    ensures Repeated(ms, ParameterLists(ExpressionsOf(ms))) == MetricParameters(ms)
  {
    hide Parameters;
    if ms != [] {
      ParametersRepeated(ms[1..]);
      assert ParameterLists(ExpressionsOf(ms))[1..] == ParameterLists(ExpressionsOf(ms[1..]));
    }
  }

  lemma {:induction false} TargetMeasures(ops: Ops, p: Profile, alias: string, names: seq<string>, rows: seq<Row>)
    requires forall i :: 0 <= i < |rows| ==> forall j :: 0 <= j < |names| ==> names[j] in rows[i]
    ensures Measures(ops, p, alias, ColumnTrees(alias, names), Empties(|names|), rows, TargetColumns(names, rows))
  {
    hide EvalRows, ColumnRows, ColumnTrees, Cell;
    forall i | 0 <= i < |names|
      ensures Holes(ColumnTrees(alias, names)[i]) == 0
      ensures EvalRows(ops, p, alias, ColumnTrees(alias, names)[i], rows, []) == Some(ColumnRows(names[i], rows))
    {
      ColumnTreeAt(alias, names, i);
      ColumnEval(ops, p, alias, names[i], rows);
    }
  }

  // ---------------------------------------------------------------- when the counts agree

  /** Both columns have as many nulls and, unless the compatibility is unknown, as many distinct values. */
  ghost predicate Agree(ms: seq<Approval>, a: seq<seq<Scalar>>, b: seq<seq<Scalar>>) {
    && |ms| == |a| == |b|
    && forall i :: 0 <= i < |ms| ==>
         && multiset(a[i])[Null] == multiset(b[i])[Null]
         && (ms[i].compatibility != Unclear ==> |KnownValues(a[i])| == |KnownValues(b[i])|)
  }

  /** Values that count and are equal. */
  predicate SameCounts(v: seq<Scalar>, w: seq<Scalar>) {
    |v| == |w| && forall k :: 0 <= k < |v| ==> v[k].Whole? && v[k] == w[k]
  }

  ghost predicate HasHeight(columns: seq<seq<Scalar>>, n: nat) {
    forall i :: 0 <= i < |columns| ==> |columns[i]| == n
  }

  lemma {:induction false} SameCountsAppend(a: seq<Scalar>, b: seq<Scalar>, v: seq<Scalar>, w: seq<Scalar>)
    requires |a| == |b|
    ensures SameCounts(a + v, b + w) <==> SameCounts(a, b) && SameCounts(v, w)
  {
    if SameCounts(a + v, b + w) {
      assert |v| == |w|;
      forall k | 0 <= k < |a| ensures a[k].Whole? && a[k] == b[k] { assert (a + v)[k] == a[k] && (b + w)[k] == b[k]; }
      forall k | 0 <= k < |v| ensures v[k].Whole? && v[k] == w[k] {
        assert (a + v)[|a| + k] == v[k] && (b + w)[|b| + k] == w[k];
      }
    }
  }

  lemma {:induction false} MappingCounts(m: Approval, a: seq<Scalar>, b: seq<Scalar>)
    ensures SameCounts([NullMetric(a)] + (if HasDistinct(m) then [DistinctMetric(a)] else []),
                       [NullMetric(b)] + (if HasDistinct(m) then [DistinctMetric(b)] else []))
            <==> a != [] && b != [] && multiset(a)[Null] == multiset(b)[Null]
                 && (m.compatibility != Unclear ==> |KnownValues(a)| == |KnownValues(b)|)
  {
    hide NullsIn, KnownValues;
    NullsCounted(a);
    NullsCounted(b);
    var v := [NullMetric(a)] + (if HasDistinct(m) then [DistinctMetric(a)] else []);
    var w := [NullMetric(b)] + (if HasDistinct(m) then [DistinctMetric(b)] else []);
    assert v[0] == NullMetric(a) && w[0] == NullMetric(b);
    if HasDistinct(m) { assert v[1] == DistinctMetric(a) && w[1] == DistinctMetric(b); }
  }

  lemma {:induction false} MetricsAgree(ms: seq<Approval>, a: seq<seq<Scalar>>, b: seq<seq<Scalar>>, n: nat, m: nat)
    requires |ms| == |a| == |b| && HasHeight(a, n) && HasHeight(b, m)
    ensures SameCounts(MetricValues(ms, a), MetricValues(ms, b))
            <==> (ms == [] || (n > 0 && m > 0)) && Agree(ms, a, b)
    decreases ms
  {
    hide NullMetric, DistinctMetric, SameCounts, KnownValues;
    if ms == [] {
      NoCounts();
    } else {
      MetricsAgree(ms[1..], a[1..], b[1..], n, m);
      MappingCounts(ms[0], a[0], b[0]);
      SameCountsAppend([NullMetric(a[0])] + (if HasDistinct(ms[0]) then [DistinctMetric(a[0])] else []),
                       [NullMetric(b[0])] + (if HasDistinct(ms[0]) then [DistinctMetric(b[0])] else []),
                       MetricValues(ms[1..], a[1..]), MetricValues(ms[1..], b[1..]));
      AgreeFirst(ms, a, b);
    }
  }

  lemma {:induction false} NoCounts()
    ensures SameCounts([], [])
  {
  }

  lemma {:induction false} AgreeFirst(ms: seq<Approval>, a: seq<seq<Scalar>>, b: seq<seq<Scalar>>)
    requires |ms| == |a| == |b| && ms != []
    ensures Agree(ms, a, b)
            <==> && multiset(a[0])[Null] == multiset(b[0])[Null]
                 && (ms[0].compatibility != Unclear ==> |KnownValues(a[0])| == |KnownValues(b[0])|)
                 && Agree(ms[1..], a[1..], b[1..])
  {
    hide KnownValues;
    assert ms == [ms[0]] + ms[1..] && a == [a[0]] + a[1..] && b == [b[0]] + b[1..];
  }

  // ---------------------------------------------------------------- images

  /** A target row that holds the plan's value in every approved column; other columns are free. */
  ghost predicate Carries(ops: Ops, ms: seq<Approval>, source: Row, target: Row)
    requires Complete(ms)
  {
    forall i :: 0 <= i < |ms| ==>
      && ValidExpression(ms[i].transformation.value) && ms[i].target.value in target
      && target[ms[i].target.value] == Denote(ops, ms[i].transformation.value, source)
  }

  /** `target` holds, in some order, one row for every source row. */
  ghost predicate HoldsImage(ops: Ops, ms: seq<Approval>, source: seq<Row>, target: seq<Row>)
    requires Complete(ms)
  {
    exists arranged: seq<Row> ::
      && multiset(arranged) == multiset(target) && |arranged| == |source|
      && forall i :: 0 <= i < |source| ==> Carries(ops, ms, source[i], arranged[i])
  }

  lemma {:induction false} NullsCounted(vs: seq<Scalar>)
    ensures NullsIn(vs) == multiset(vs)[Null]
  {
    if vs != [] {
      NullsCounted(vs[1..]);
      assert vs == [vs[0]] + vs[1..];
    }
  }

  lemma {:induction false} KnownCounted(vs: seq<Scalar>, ws: seq<Scalar>)
    requires multiset(vs) == multiset(ws)
    ensures KnownValues(vs) == KnownValues(ws)
  {
    forall v ensures v in vs <==> v in ws { assert v in multiset(vs) <==> v in multiset(ws); }
  }

  /** Taking one column of permuted rows permutes the column. */
  lemma {:induction false} ColumnPermuted(name: string, rows: seq<Row>, others: seq<Row>)
    requires multiset(rows) == multiset(others)
    ensures multiset(ColumnRows(name, rows)) == multiset(ColumnRows(name, others))
  {
    hide Cell;
    var f := (r: Row) => Cell(r, name);
    MappedPermuted(f, rows, others);
    assert ColumnRows(name, rows) == Mapped(f, rows) && ColumnRows(name, others) == Mapped(f, others);
  }

  lemma {:induction false} DenoteRowsAt(ops: Ops, e: Expression, rows: seq<Row>, i: nat)
    requires ValidExpression(e) && i < |rows|
    ensures DenoteRows(ops, e, rows)[i] == Denote(ops, e, rows[i])
  {
    hide Denote, ValidExpression;
    if i > 0 { DenoteRowsAt(ops, e, rows[1..], i - 1); }
  }

  lemma {:induction false} SourceColumnsAt(ops: Ops, es: seq<Expression>, rows: seq<Row>, i: nat)
    requires ValidExpressions(es) && i < |es|
    ensures ValidExpression(es[i]) && SourceColumns(ops, es, rows)[i] == DenoteRows(ops, es[i], rows)
  {
    hide DenoteRows, ValidExpression;
    if i > 0 { SourceColumnsAt(ops, es[1..], rows, i - 1); }
  }

  /** If the target holds the image of the source, every measured column agrees. */
  lemma {:induction false} ImageAgrees(ops: Ops, ms: seq<Approval>, source: seq<Row>, target: seq<Row>)
    requires Complete(ms) && ValidExpressions(ExpressionsOf(ms)) && HoldsImage(ops, ms, source, target)
    ensures |source| == |target|
    ensures Agree(ms, SourceColumns(ops, ExpressionsOf(ms), source), TargetColumns(TargetNames(ms), target))
  {
    hide KnownValues, Denote, ValidExpression, ValidExpressions, ColumnRows, DenoteRows, SourceColumns, Carries;
    var arranged :| multiset(arranged) == multiset(target) && |arranged| == |source|
                    && forall i :: 0 <= i < |source| ==> Carries(ops, ms, source[i], arranged[i]);
    assert |multiset(arranged)| == |arranged| && |multiset(target)| == |target|;
    var a, b := SourceColumns(ops, ExpressionsOf(ms), source), TargetColumns(TargetNames(ms), target);
    forall i | 0 <= i < |ms|
      ensures multiset(a[i])[Null] == multiset(b[i])[Null] && |KnownValues(a[i])| == |KnownValues(b[i])|
    {
      SourceColumnsAt(ops, ExpressionsOf(ms), source, i);
      ArrangedColumn(ops, ms, source, arranged, i);
      ColumnPermuted(ms[i].target.value, arranged, target);
      KnownCounted(a[i], b[i]);
    }
  }

  lemma {:induction false} ArrangedColumn(ops: Ops, ms: seq<Approval>, source: seq<Row>, arranged: seq<Row>, i: nat)
    requires Complete(ms) && i < |ms| && |arranged| == |source|
    requires forall j :: 0 <= j < |source| ==> Carries(ops, ms, source[j], arranged[j])
    requires ValidExpression(ms[i].transformation.value)
    ensures ColumnRows(ms[i].target.value, arranged) == DenoteRows(ops, ms[i].transformation.value, source)
  {
    hide Denote, ValidExpression, DenoteRows;
    var name, e := ms[i].target.value, ms[i].transformation.value;
    forall j | 0 <= j < |source| ensures ColumnRows(name, arranged)[j] == DenoteRows(ops, e, source)[j] {
      assert Carries(ops, ms, source[j], arranged[j]);
      DenoteRowsAt(ops, e, source, j);
    }
  }
}
