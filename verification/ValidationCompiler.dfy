/** The compiler of the paired validation queries: one pass over the mappings fills both sides. */
module ValidationCompiler {
  import opened Common
  import opened MappingModel
  import opened SqlText
  import opened SqlTree
  import opened SqlStatement
  import opened SqlMeaning
  import opened Transformation
  import opened ExpressionRenderer
  import opened CompiledPlan
  import T = TransformationCompiler
  import opened ValidationSql
  import G = GeneratedSqlAccepted
  import R = Reconciliation

  // ---------------------------------------------------------------- text of the projections

  lemma {:induction false} NullEndingText()
    ensures TextOf(NullCountEnding) == " IS NULL THEN 1 ELSE 0 END)"
  {
    hide TextOf;
    IsNullText();
    ElseText();
    assert NullCountEnding[..6] + NullCountEnding[6..] == NullCountEnding;
    TextAppend(NullCountEnding[..6], NullCountEnding[6..]);
  }

  lemma {:induction false} IsNullText()
    ensures TextOf(NullCountEnding[..6]) == " IS NULL THEN"
  {
    hide TextOf;
    var a, b := [Blank(" "), Plain("IS"), Blank(" ")], [Plain("NULL"), Blank(" "), Plain("THEN")];
    T.ThreeTexts(a[0], a[1], a[2]);
    T.ThreeTexts(b[0], b[1], b[2]);
    TextAppend(a, b);
    assert a + b == NullCountEnding[..6];
  }

  lemma {:induction false} ElseText()
    ensures TextOf(NullCountEnding[6..]) == " 1 ELSE 0 END)"
  {
    hide TextOf;
    var c, d, e := [Blank(" "), Plain("1"), Blank(" ")], [Plain("ELSE"), Blank(" "), Plain("0")],
                   [Blank(" "), Plain("END"), Mark(')')];
    T.ThreeTexts(c[0], c[1], c[2]);
    T.ThreeTexts(d[0], d[1], d[2]);
    T.ThreeTexts(e[0], e[1], e[2]);
    TextAppend(c + d, e);
    TextAppend(c, d);
    assert c + d + e == NullCountEnding[6..];
  }

  lemma {:induction false} NullOpeningText()
    ensures TextOf(NullCountOpening) == "SUM(CASE WHEN "
  {
    hide TextOf;
    var a, b := [Plain("SUM"), Mark('('), Plain("CASE")], [Blank(" "), Plain("WHEN"), Blank(" ")];
    T.ThreeTexts(a[0], a[1], a[2]);
    T.ThreeTexts(b[0], b[1], b[2]);
    TextAppend(a, b);
    assert a + b == NullCountOpening;
  }

  /** A projection and the name it returns under. */
  lemma {:induction false} NamedText(q: char, ps: seq<Piece>, quote: char, name: string)
    ensures TextOf(ps + [Blank(" "), Plain("AS"), Blank(" "), Quoted(quote, name)])
            == TextOf(ps) + " AS " + PieceText(Quoted(quote, name))
  {
    hide TextOf, PieceText;
    var as_ := [Blank(" "), Plain("AS"), Blank(" ")];
    AsText();
    T.OnePieceText(Quoted(quote, name));
    TextAppend(as_, [Quoted(quote, name)]);
    assert as_ + [Quoted(quote, name)] == [Blank(" "), Plain("AS"), Blank(" "), Quoted(quote, name)];
    TextAppend(ps, as_ + [Quoted(quote, name)]);
  }

  function NullText(expression: string, name: string): string {
    "SUM(CASE WHEN " + expression + " IS NULL THEN 1 ELSE 0 END) AS " + name
  }

  function DistinctText(expression: string, name: string): string {
    "COUNT(DISTINCT " + expression + ") AS " + name
  }

  function ProjectionText(p: Profile, item: Item): string {
    TextOf(ItemPieces(QuoteOf(p.dialect), item))
  }

  function NameText(p: Profile, name: string): string {
    PieceText(Quoted(QuoteOf(p.dialect), name))
  }

  lemma {:induction false} NullItemText(p: Profile, e: Sql, name: string)
    ensures ProjectionText(p, Item(NullCount(e), name)) == NullText(TreeText(p, e), NameText(p, name))
  {
    hide TextOf, PieceText, Pieces;
    var q := QuoteOf(p.dialect);
    NullOpeningText();
    NullEndingText();
    TextAppend(NullCountOpening + Pieces(q, e), NullCountEnding);
    TextAppend(NullCountOpening, Pieces(q, e));
    NamedText(q, ProjectionPieces(q, NullCount(e)), q, name);
  }

  lemma {:induction false} DistinctItemText(p: Profile, e: Sql, name: string)
    ensures ProjectionText(p, Item(DistinctCount(e), name)) == DistinctText(TreeText(p, e), NameText(p, name))
  {
    hide TextOf, PieceText, Pieces;
    var q := QuoteOf(p.dialect);
    var opening := [Plain("COUNT"), Mark('('), Plain("DISTINCT"), Blank(" ")];
    DistinctOpeningText();
    TextAppend(opening + Pieces(q, e), [Mark(')')]);
    TextAppend(opening, Pieces(q, e));
    NamedText(q, ProjectionPieces(q, DistinctCount(e)), q, name);
  }

  lemma {:induction false} DistinctOpeningText()
    ensures TextOf([Plain("COUNT"), Mark('('), Plain("DISTINCT"), Blank(" ")]) == "COUNT(DISTINCT "
    ensures TextOf([Mark(')')]) == ")"
  {
    hide TextOf;
    T.ThreeTexts(Plain("COUNT"), Mark('('), Plain("DISTINCT"));
    T.OnePieceText(Blank(" "));
    T.OnePieceText(Mark(')'));
    TextAppend([Plain("COUNT"), Mark('('), Plain("DISTINCT")], [Blank(" ")]);
    assert [Plain("COUNT"), Mark('('), Plain("DISTINCT"), Blank(" ")]
        == [Plain("COUNT"), Mark('('), Plain("DISTINCT")] + [Blank(" ")];
  }

  lemma {:induction false} CountText()
    ensures TextOf([Plain("COUNT"), Mark('('), Mark('*'), Mark(')')]) == "COUNT(*)"
  {
    hide TextOf;
    T.ThreeTexts(Plain("COUNT"), Mark('('), Mark('*'));
    T.OnePieceText(Mark(')'));
    TextAppend([Plain("COUNT"), Mark('('), Mark('*')], [Mark(')')]);
    assert [Plain("COUNT"), Mark('('), Mark('*')] + [Mark(')')] == [Plain("COUNT"), Mark('('), Mark('*'), Mark(')')];
  }

  lemma {:induction false} RowCountText(p: Profile)
    ensures ProjectionText(p, Item(CountAll, ROW_COUNT)) == "COUNT(*) AS \"row_count\""
  {
    hide TextOf, PieceText;
    var count := [Plain("COUNT"), Mark('('), Mark('*'), Mark(')')];
    CountText();
    NamedText('"', count, '"', ROW_COUNT);
    RowCountName();
    assert ItemPieces(QuoteOf(p.dialect), Item(CountAll, ROW_COUNT))
        == count + [Blank(" "), Plain("AS"), Blank(" "), Quoted('"', ROW_COUNT)];
    assert "COUNT(*)" + " AS " == "COUNT(*) AS ";
  }

  lemma {:induction false} RowCountName()
    ensures PieceText(Quoted('"', ROW_COUNT)) == "\"row_count\""
  {
    hide Doubled;
    assert AllWordChars(ROW_COUNT);
    G.NothingDoubled(ROW_COUNT);
    assert PieceText(Quoted('"', ROW_COUNT)) == ['"'] + ROW_COUNT + ['"'];
  }

  function ItemTextsOf(p: Profile, items: seq<Item>): (r: seq<string>)
    ensures |r| == |items| && forall i :: 0 <= i < |items| ==> r[i] == ProjectionText(p, items[i])
  {
    seq(|items|, i requires 0 <= i < |items| => ProjectionText(p, items[i]))
  }

  lemma {:induction false} ItemTextsAppend(p: Profile, a: seq<Item>, b: seq<Item>)
    ensures ItemTextsOf(p, a + b) == ItemTextsOf(p, a) + ItemTextsOf(p, b)
  {
    hide ProjectionText;
  }

  function SelectText(p: Profile, projections: seq<string>, relation: string, alias: string): string {
    "SELECT\n    " + JoinText(",\n    ", projections) + "\nFROM " + relation + " AS " + alias
  }

  lemma {:induction false} SelectPiecesText(p: Profile, items: seq<Item>, from: seq<string>, alias: string)
    ensures TextOf(StatementPieces(QuoteOf(p.dialect), Select(items, from, alias)))
            == SelectText(p, ItemTextsOf(p, items), T.RelationText(p, from), NameText(p, alias))
  {
    hide TextOf, FooterPieces, Joined, ItemPieces, T.RelationText, PieceText;
    var q := QuoteOf(p.dialect);
    var body := Joined(LineGap, ItemPiecesEach(q, items));
    TextAppend(SelectOpening + body, FooterPieces(q, from, alias));
    TextAppend(SelectOpening, body);
    T.OpeningTexts();
    T.LineGapText();
    JoinedText(LineGap, ItemPiecesEach(q, items));
    assert TextsOf(ItemPiecesEach(q, items)) == ItemTextsOf(p, items);
    T.FooterPiecesText(p, from, alias);
  }

  // ---------------------------------------------------------------- one mapping

  /** What one mapping adds to a side. */
  function MappingItems(index: nat, m: Approval, tree: Sql): seq<Item> {
    [Item(NullCount(tree), NullName(index))]
    + if HasDistinct(m) then [Item(DistinctCount(tree), DistinctName(index))] else []
  }

  function MappingTexts(p: Profile, index: nat, m: Approval, text: string): seq<string> {
    [NullText(text, NameText(p, NullName(index)))]
    + if HasDistinct(m) then [DistinctText(text, NameText(p, DistinctName(index)))] else []
  }

  lemma {:induction false} MappingItemTexts(p: Profile, index: nat, m: Approval, tree: Sql)
    ensures ItemTextsOf(p, MappingItems(index, m, tree)) == MappingTexts(p, index, m, TreeText(p, tree))
  {
    hide ProjectionText, TreeText, NameText, NullText, DistinctText, NullName, DistinctName;
    NullItemText(p, tree, NullName(index));
    DistinctItemText(p, tree, DistinctName(index));
  }

  lemma {:induction false} ItemsFromStep(p: Profile, index: nat, ms: seq<Approval>, trees: seq<Sql>)
    requires |ms| == |trees| && ms != []
    ensures ItemTextsOf(p, ItemsFrom(index, ms, trees))
            == MappingTexts(p, index, ms[0], TreeText(p, trees[0]))
               + ItemTextsOf(p, ItemsFrom(index + 1, ms[1..], trees[1..]))
  {
    hide MappingTexts, TreeText, NullName, DistinctName, ItemTextsOf;
    MappingItemTexts(p, index, ms[0], trees[0]);
    ItemTextsAppend(p, MappingItems(index, ms[0], trees[0]), ItemsFrom(index + 1, ms[1..], trees[1..]));
  }

  lemma {:induction false} TreeEachAt(p: Profile, alias: string, es: seq<Expression>, i: nat)
    requires ValidExpressions(es) && CastableEach(p, es) && i < |es|
    ensures ValidExpression(es[i]) && Castable(p, es[i]) && TreeEach(p, alias, es)[i] == Tree(p, alias, es[i])
  {
    hide Tree, ValidExpression, Castable;
    if i > 0 { TreeEachAt(p, alias, es[1..], i - 1); }
  }

  /** One mapping can be measured on both sides. */
  predicate Measurable(r: Request, allowed: set<string>, m: Approval) {
    && m.target.Some? && m.transformation.Some?
    && Fits(TargetProfile(r), r.targetAlias) && Fits(TargetProfile(r), m.target.value)
    && Fault(SourceProfile(r), r.sourceAlias, allowed, m.transformation.value, 0).None?
  }

  lemma {:induction false} CheckFaultFree(r: Request, allowed: set<string>, ms: seq<Approval>)
    ensures CheckFault(r, allowed, ms).None? <==> forall i :: 0 <= i < |ms| ==> Measurable(r, allowed, ms[i])
  {
    hide Fault, Fits;
    if ms != [] {
      CheckFaultFree(r, allowed, ms[1..]);
      assert ms == [ms[0]] + ms[1..];
    }
  }

  lemma {:induction false} MeasurableReady(r: Request, allowed: set<string>, ms: seq<Approval>)
    requires ms != [] && forall i :: 0 <= i < |ms| ==> ValidApproval(ms[i])
    requires CheckFault(r, allowed, ms).None?
    ensures Ready(SourceProfile(r), ms) && ColumnsOfEach(ExpressionsOf(ms)) <= allowed
  {
    hide Fault, Fits, ValidApproval, CheckFault;
    CheckFaultFree(r, allowed, ms);
    forall i | 0 <= i < |ms| ensures Expressible(SourceProfile(r), r.sourceAlias, allowed, ms[i]) {
      assert Measurable(r, allowed, ms[i]);
    }
    ExpressionsReady(SourceProfile(r), r.sourceAlias, allowed, ms);
  }

  // ---------------------------------------------------------------- the loop

  datatype Sides = Sides(source: seq<string>, target: seq<string>, checks: seq<R.Check>)

  /** Everything the loop collects for fault-free mappings. */
  ghost predicate Collected(ms: seq<Approval>, r: Request, sides: Sides, parameters: seq<Scalar>)
    requires Ready(SourceProfile(r), ms)
  {
    var sp, tp := SourceProfile(r), TargetProfile(r);
    && sides.source == ItemTextsOf(sp, MetricItems(ms, TreeEach(sp, r.sourceAlias, ExpressionsOf(ms))))
    && sides.target == ItemTextsOf(tp, MetricItems(ms, ColumnTrees(r.targetAlias, TargetNames(ms))))
    && sides.checks == ChecksOf(ms)
    && parameters == MetricParameters(ms)
  }

  /** What is still to be collected from the mappings on from `i`. */
  ghost predicate Collecting(
    ms: seq<Approval>, trees: seq<Sql>, columns: seq<Sql>, r: Request, i: nat, sides: Sides, parameters: seq<Scalar>)
    requires i <= |ms| == |trees| == |columns| && Complete(ms)
  {
    var sp, tp := SourceProfile(r), TargetProfile(r);
    && sides.source + ItemTextsOf(sp, ItemsFrom(i, ms[i..], trees[i..])) == ItemTextsOf(sp, MetricItems(ms, trees))
    && sides.target + ItemTextsOf(tp, ItemsFrom(i, ms[i..], columns[i..])) == ItemTextsOf(tp, MetricItems(ms, columns))
    && sides.checks + ChecksFrom(i, ms[i..]) == ChecksOf(ms)
    && parameters + MetricParameters(ms[i..]) == MetricParameters(ms)
  }

  lemma {:induction false} CollectingStarts(ms: seq<Approval>, trees: seq<Sql>, columns: seq<Sql>, r: Request)
    requires |ms| == |trees| == |columns| && Complete(ms)
    ensures var first := "COUNT(*) AS \"row_count\"";
            Collecting(ms, trees, columns, r, 0, Sides([first], [first], [RowCountCheck]), [])
  {
    hide ProjectionText, ItemsFrom, ChecksFrom, MetricParameters, ItemTextsOf;
    var sp, tp, count := SourceProfile(r), TargetProfile(r), [Item(CountAll, ROW_COUNT)];
    assert ms[0..] == ms && trees[0..] == trees && columns[0..] == columns;
    RowCountText(sp);
    RowCountText(tp);
    ItemTextsAppend(sp, count, ItemsFrom(0, ms, trees));
    ItemTextsAppend(tp, count, ItemsFrom(0, ms, columns));
    OneItemText(sp, count[0]);
    OneItemText(tp, count[0]);
    assert [] + MetricParameters(ms) == MetricParameters(ms);
  }

  lemma {:induction false} OneItemText(p: Profile, item: Item)
    ensures ItemTextsOf(p, [item]) == [ProjectionText(p, item)]
  {
    hide ProjectionText;
  }

  function OwnChecks(index: nat, m: Approval): seq<R.Check> {
    [NullCheckOf(index, m)] + if HasDistinct(m) then [DistinctCheckOf(index, m)] else []
  }

  function OwnParameters(m: Approval): seq<Scalar>
    requires m.transformation.Some?
  {
    var ps := Parameters(m.transformation.value);
    ps + if HasDistinct(m) then ps else []
  }

  lemma {:induction false} CollectingAdvances(
    ms: seq<Approval>, trees: seq<Sql>, columns: seq<Sql>, r: Request, i: nat, sides: Sides, parameters: seq<Scalar>)
    requires i < |ms| == |trees| == |columns| && Complete(ms)
    requires Collecting(ms, trees, columns, r, i, sides, parameters)
    ensures var sp, tp := SourceProfile(r), TargetProfile(r);
            Collecting(ms, trees, columns, r, i + 1,
                       Sides(sides.source + MappingTexts(sp, i, ms[i], TreeText(sp, trees[i])),
                             sides.target + MappingTexts(tp, i, ms[i], TreeText(tp, columns[i])),
                             sides.checks + OwnChecks(i, ms[i])),
                       parameters + OwnParameters(ms[i]))
  {
    hide MappingTexts, TreeText, ItemTextsOf, ItemsFrom, OwnChecks, OwnParameters, MetricItems, ChecksOf, ChecksFrom,
         MetricParameters;
    assert Complete(ms[i..]) && Complete(ms[i + 1..]);
    var sp, tp := SourceProfile(r), TargetProfile(r);
    assert ms[i..][0] == ms[i] && ms[i..][1..] == ms[i + 1..];
    assert trees[i..][0] == trees[i] && trees[i..][1..] == trees[i + 1..];
    assert columns[i..][0] == columns[i] && columns[i..][1..] == columns[i + 1..];
    ItemsFromStep(sp, i, ms[i..], trees[i..]);
    ItemsFromStep(tp, i, ms[i..], columns[i..]);
    ChecksStep(i, ms[i..]);
    ParametersStep(ms[i..], ms[i]);
    Regroup(sides.source, MappingTexts(sp, i, ms[i], TreeText(sp, trees[i])),
            ItemTextsOf(sp, ItemsFrom(i + 1, ms[i + 1..], trees[i + 1..])));
    Regroup(sides.target, MappingTexts(tp, i, ms[i], TreeText(tp, columns[i])),
            ItemTextsOf(tp, ItemsFrom(i + 1, ms[i + 1..], columns[i + 1..])));
    Regroup(sides.checks, OwnChecks(i, ms[i]), ChecksFrom(i + 1, ms[i + 1..]));
    Regroup(parameters, OwnParameters(ms[i]), MetricParameters(ms[i + 1..]));
  }

  lemma {:induction false} Regroup<T>(a: seq<T>, b: seq<T>, c: seq<T>)
    ensures a + (b + c) == (a + b) + c
  {
  }

  lemma {:induction false} ChecksStep(index: nat, ms: seq<Approval>)
    requires ms != []
    ensures ChecksFrom(index, ms) == OwnChecks(index, ms[0]) + ChecksFrom(index + 1, ms[1..])
  {
  }

  lemma {:induction false} ParametersStep(ms: seq<Approval>, m: Approval)
    requires ms != [] && Complete(ms) && m == ms[0]
    ensures MetricParameters(ms) == OwnParameters(m) + MetricParameters(ms[1..])
  {
  }

  lemma {:induction false} CollectingEnds(
    ms: seq<Approval>, trees: seq<Sql>, columns: seq<Sql>, r: Request, sides: Sides, parameters: seq<Scalar>)
    requires |ms| == |trees| == |columns| && Ready(SourceProfile(r), ms)
    requires Collecting(ms, trees, columns, r, |ms|, sides, parameters)
    requires trees == TreeEach(SourceProfile(r), r.sourceAlias, ExpressionsOf(ms))
    requires columns == ColumnTrees(r.targetAlias, TargetNames(ms))
    ensures Collected(ms, r, sides, parameters)
  {
    hide ItemTextsOf, MetricItems, ChecksOf;
    var n := |ms|;
    assert ms[n..] == [] && trees[n..] == [] && columns[n..] == [];
    NoItems(SourceProfile(r));
    NoItems(TargetProfile(r));
    assert sides.source + [] == sides.source && sides.target + [] == sides.target;
    assert sides.checks + [] == sides.checks && parameters + [] == parameters;
  }

  lemma {:induction false} NoItems(p: Profile)
    ensures ItemTextsOf(p, []) == []
  {
  }

  /** Fills both sides in one pass; an expression with two metrics is rendered, and bound, twice. */
  method RenderChecks(ms: seq<Approval>, r: Request, allowed: set<string>, parameters: ParameterList)
    returns (result: Result<Sides, CompileError>)
    requires ms != [] && forall i :: 0 <= i < |ms| ==> ValidApproval(ms[i])
    requires parameters.items == []
    modifies parameters
    ensures result.Ok? ==> CheckFault(r, allowed, ms).None? && Ready(SourceProfile(r), ms)
    ensures result.Ok? ==> Collected(ms, r, result.value, parameters.items)
    ensures result.Err? ==> CheckFault(r, allowed, ms) == Some(result.error)
  {
    hide Fault, Fits, ValidApproval, Tree, TreeText, Parameters, ColumnText, ValidExpression, Castable, Collecting,
         Collected, NullText, DistinctText, NameText, NullCheckOf, DistinctCheckOf, ExpressionsOf, TargetNames, Complete,
         Ready, TreeEach;
    var sp, tp := SourceProfile(r), TargetProfile(r);
    ghost var good := CheckFault(r, allowed, ms).None?;
    ghost var trees: seq<Sql>, columns: seq<Sql> := [], [];
    var first := "COUNT(*) AS \"row_count\"";
    var sides := Sides([first], [first], [RowCountCheck]);
    if good {
      MeasurableReady(r, allowed, ms);
      ReadyParts(sp, ms);
      trees := TreeEach(sp, r.sourceAlias, ExpressionsOf(ms));
      columns := ColumnTrees(r.targetAlias, TargetNames(ms));
      CollectingStarts(ms, trees, columns, r);
    }
    var i := 0;
    while i < |ms|
      invariant 0 <= i <= |ms|
      invariant CheckFault(r, allowed, ms) == CheckFault(r, allowed, ms[i..])
      invariant good ==> |trees| == |columns| == |ms| && Complete(ms)
      invariant good ==> Collecting(ms, trees, columns, r, i, sides, parameters.items)
    {
      var item := ms[i];
      assert ms[i..][0] == item && ms[i..][1..] == ms[i + 1..];
      if item.target.None? || item.transformation.None? { return Err(InvalidPlan); }
      var target := ColumnText(tp, r.targetAlias, item.target.value);
      ColumnTextMeans(tp, r.targetAlias, item.target.value);
      if target.Err? { return Err(target.error); }
      ghost var before := parameters.items;
      T.ApprovalExpression(item);
      var source := Render(sp, item.transformation.value, r.sourceAlias, allowed, parameters, 0);
      if source.Err? { return Err(source.error); }
      var sources := [NullText(source.value, NameText(sp, NullName(i)))];
      var targets := [NullText(target.value, NameText(tp, NullName(i)))];
      var checks := [NullCheckOf(i, item)];
      if HasDistinct(item) {
        var again := Render(sp, item.transformation.value, r.sourceAlias, allowed, parameters, 0);
        sources := sources + [DistinctText(again.value, NameText(sp, DistinctName(i)))];
        targets := targets + [DistinctText(target.value, NameText(tp, DistinctName(i)))];
        checks := checks + [DistinctCheckOf(i, item)];
      }
      if good {
        TreeEachAt(sp, r.sourceAlias, ExpressionsOf(ms), i);
        ColumnTreeAt(r.targetAlias, TargetNames(ms), i);
        CollectingAdvances(ms, trees, columns, r, i, sides, before);
        assert parameters.items == before + OwnParameters(item);
        assert sources == MappingTexts(sp, i, item, TreeText(sp, trees[i]));
        assert targets == MappingTexts(tp, i, item, TreeText(tp, columns[i]));
        assert checks == OwnChecks(i, item);
      }
      sides := Sides(sides.source + sources, sides.target + targets, sides.checks + checks);
      i := i + 1;
    }
    assert ms[i..] == [];
    CollectingEnds(ms, trees, columns, r, sides, parameters.items);
    result := Ok(sides);
  }
}
