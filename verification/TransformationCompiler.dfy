/**
 * Compiling an approved plan to one statement: mappings are sorted into target order, rendered one
 * after the other into a shared parameter list, and assembled into a select or an insert-select.
 */
module TransformationCompiler {
  import opened Common
  import opened MappingModel
  import opened SqlText
  import opened SqlTree
  import opened SqlStatement
  import opened SqlMeaning
  import opened Transformation
  import opened ExpressionRenderer
  import opened CompiledPlan
  import opened SqlGuard
  import opened GeneratedSqlAccepted

  datatype Generated = Generated(
    insert: bool, sql: string, parameters: seq<Scalar>, sourceRelation: Relation, targetRelation: Relation,
    sourceColumns: seq<string>, targetColumns: seq<string>, planVersion: int)

  /** The columns the expressions name at their root, each once, in order of first use. */
  function Gather(known: seq<string>, names: seq<string>): (r: seq<string>)
    ensures known <= r
    ensures forall c :: c in r <==> c in known || c in names
    ensures Distinct(known) ==> Distinct(r)
    decreases names
  {
    if names == [] then known
    else if names[0] in known then Gather(known, names[1..])
    else Gather(known + [names[0]], names[1..])
  }

  function GatherAll(known: seq<string>, es: seq<Expression>): seq<string>
    decreases es
  {
    if es == [] then known else GatherAll(Gather(known, es[0].columns), es[1..])
  }

  // ---------------------------------------------------------------- text of the parts

  lemma {:induction false} LineGapText()
    ensures TextOf(LineGap) == ",\n    "
  {
    assert LineGap[1..] == [Blank("\n    ")] && TextOf([Blank("\n    ")]) == "\n    ";
  }

  function QuotedTexts(p: Profile, names: seq<string>): (r: seq<string>)
    ensures |r| == |names|
  {
    seq(|names|, i requires 0 <= i < |names| => PieceText(Quoted(QuoteOf(p.dialect), names[i])))
  }

  lemma {:induction false} QuotedEachTexts(p: Profile, names: seq<string>)
    ensures TextsOf(QuotedEach(QuoteOf(p.dialect), names)) == QuotedTexts(p, names)
  {
    hide PieceText;
    var q := QuoteOf(p.dialect);
    forall i | 0 <= i < |names| ensures TextsOf(QuotedEach(q, names))[i] == QuotedTexts(p, names)[i] {
      assert QuotedEach(q, names)[i] == [Quoted(q, names[i])];
      OnePieceText(Quoted(q, names[i]));
    }
  }

  lemma {:induction false} OnePieceText(a: Piece)
    ensures TextOf([a]) == PieceText(a)
  {
  }

  function RelationText(p: Profile, names: seq<string>): string {
    JoinText(".", QuotedTexts(p, names))
  }

  lemma {:induction false} RelationPiecesText(p: Profile, names: seq<string>)
    ensures TextOf(RelationPieces(QuoteOf(p.dialect), names)) == RelationText(p, names)
  {
    hide TextOf;
    QuotedEachTexts(p, names);
    OnePieceText(Mark('.'));
    JoinedText([Mark('.')], QuotedEach(QuoteOf(p.dialect), names));
  }

  function FooterText(p: Profile, from: seq<string>, alias: string): string {
    "\nFROM " + RelationText(p, from) + " AS " + PieceText(Quoted(QuoteOf(p.dialect), alias))
  }

  lemma {:induction false} FooterPiecesText(p: Profile, from: seq<string>, alias: string)
    ensures TextOf(FooterPieces(QuoteOf(p.dialect), from, alias)) == FooterText(p, from, alias)
  {
    hide TextOf, RelationPieces, RelationText, PieceText;
    var q := QuoteOf(p.dialect);
    RelationPiecesText(p, from);
    var opening, as_ := [Blank("\n"), Plain("FROM"), Blank(" ")], [Blank(" "), Plain("AS"), Blank(" ")];
    FromText();
    AsText();
    OnePieceText(Quoted(q, alias));
    TextAppend(as_, [Quoted(q, alias)]);
    assert as_ + [Quoted(q, alias)] == [Blank(" "), Plain("AS"), Blank(" "), Quoted(q, alias)];
    TextAppend(opening + RelationPieces(q, from), as_ + [Quoted(q, alias)]);
    TextAppend(opening, RelationPieces(q, from));
  }

  lemma {:induction false} FromText()
    ensures TextOf([Blank("\n"), Plain("FROM"), Blank(" ")]) == "\nFROM "
  {
    var ps := [Blank("\n"), Plain("FROM"), Blank(" ")];
    assert ps[1..] == [Plain("FROM"), Blank(" ")] && ps[1..][1..] == [Blank(" ")];
    assert TextOf([Blank(" ")]) == " " && TextOf([Plain("FROM"), Blank(" ")]) == "FROM ";
  }

  lemma {:induction false} OpeningTexts()
    ensures TextOf(SelectOpening) == "SELECT\n    "
    ensures TextOf(InsertOpening) == "INSERT INTO "
    ensures TextOf(ColumnsOpening) == " (\n    "
    ensures TextOf(ValuesOpening) == "\n)\nSELECT\n    "
  {
    hide TextOf;
    assert TextOf(SelectOpening) == "SELECT\n    " by { TwoTexts(Plain("SELECT"), Blank("\n    ")); }
    InsertText();
    ThreeTexts(Blank(" "), Mark('('), Blank("\n    "));
    ThreeTexts(Blank("\n"), Mark(')'), Blank("\n"));
    TextAppend([Blank("\n"), Mark(')'), Blank("\n")], SelectOpening);
    assert ValuesOpening == [Blank("\n"), Mark(')'), Blank("\n")] + SelectOpening;
  }

  lemma {:induction false} InsertText()
    ensures TextOf(InsertOpening) == "INSERT INTO "
  {
    hide TextOf;
    TwoTexts(Plain("INSERT"), Blank(" "));
    TwoTexts(Plain("INTO"), Blank(" "));
    TextAppend([Plain("INSERT"), Blank(" ")], [Plain("INTO"), Blank(" ")]);
    assert InsertOpening == [Plain("INSERT"), Blank(" ")] + [Plain("INTO"), Blank(" ")];
  }

  lemma {:induction false} TwoTexts(a: Piece, b: Piece)
    ensures TextOf([a, b]) == PieceText(a) + PieceText(b)
  {
    assert [a, b][1..] == [b] && TextOf([b]) == PieceText(b);
  }

  lemma {:induction false} ThreeTexts(a: Piece, b: Piece, c: Piece)
    ensures TextOf([a, b, c]) == PieceText(a) + PieceText(b) + PieceText(c)
  {
    TwoTexts(b, c);
    assert [a, b, c][1..] == [b, c];
  }

  lemma {:induction false} InsertStatementText(
    p: Profile, into: seq<string>, columns: seq<string>, values: seq<Sql>, from: seq<string>, alias: string)
    ensures TextOf(StatementPieces(QuoteOf(p.dialect), InsertSelect(into, columns, values, from, alias)))
            == "INSERT INTO " + RelationText(p, into) + " (\n    " + JoinText(",\n    ", QuotedTexts(p, columns))
               + "\n)\nSELECT\n    " + JoinText(",\n    ", TreeTexts(p, values)) + FooterText(p, from, alias)
  {
    hide TextOf, RelationPieces, RelationText, FooterPieces, FooterText, Joined, PiecesEach, QuotedTexts, TextsOf;
    var q := QuoteOf(p.dialect);
    var names, body := Joined(LineGap, QuotedEach(q, columns)), Joined(LineGap, PiecesEach(q, values));
    var top := InsertOpening + RelationPieces(q, into) + ColumnsOpening + names + ValuesOpening;
    TextAppend(top + body, FooterPieces(q, from, alias));
    TextAppend(top, body);
    TextAppend(InsertOpening + RelationPieces(q, into) + ColumnsOpening + names, ValuesOpening);
    TextAppend(InsertOpening + RelationPieces(q, into) + ColumnsOpening, names);
    TextAppend(InsertOpening + RelationPieces(q, into), ColumnsOpening);
    TextAppend(InsertOpening, RelationPieces(q, into));
    OpeningTexts();
    LineGapText();
    RelationPiecesText(p, into);
    FooterPiecesText(p, from, alias);
    QuotedEachTexts(p, columns);
    JoinedText(LineGap, QuotedEach(q, columns));
    JoinedText(LineGap, PiecesEach(q, values));
  }

  /** One projection of a select: the expression and the name it returns under. */
  function NamedTexts(p: Profile, projections: seq<string>, names: seq<string>): (r: seq<string>)
    requires |projections| == |names|
    ensures |r| == |names|
  {
    seq(|names|, i requires 0 <= i < |names| =>
      projections[i] + " AS " + PieceText(Quoted(QuoteOf(p.dialect), names[i])))
  }

  lemma {:induction false} ItemText(q: char, e: Sql, name: string)
    ensures TextOf(ItemPieces(q, Item(Value(e), name))) == TextOf(Pieces(q, e)) + " AS " + PieceText(Quoted(q, name))
  {
    hide TextOf, PieceText, Pieces;
    var as_ := [Blank(" "), Plain("AS"), Blank(" ")];
    AsText();
    OnePieceText(Quoted(q, name));
    TextAppend(as_, [Quoted(q, name)]);
    assert as_ + [Quoted(q, name)] == [Blank(" "), Plain("AS"), Blank(" "), Quoted(q, name)];
    TextAppend(Pieces(q, e), as_ + [Quoted(q, name)]);
  }

  lemma {:induction false} TreeTextsAt(p: Profile, es: seq<Sql>, i: nat)
    requires i < |es|
    ensures TreeTexts(p, es)[i] == TreeText(p, es[i])
  {
    hide Pieces;
    TreeTextsFirst(p, es[0], es[1..]);
    assert es == [es[0]] + es[1..];
    if i > 0 { TreeTextsAt(p, es[1..], i - 1); }
  }

  lemma {:induction false} ItemTexts(p: Profile, names: seq<string>, trees: seq<Sql>)
    requires |names| == |trees|
    ensures TextsOf(ItemPiecesEach(QuoteOf(p.dialect), ItemsOf(names, trees)))
            == NamedTexts(p, TreeTexts(p, trees), names)
  {
    hide TextOf, PieceText, TreeTexts, ItemPieces;
    var q := QuoteOf(p.dialect);
    var left, right := TextsOf(ItemPiecesEach(q, ItemsOf(names, trees))), NamedTexts(p, TreeTexts(p, trees), names);
    forall i | 0 <= i < |names| ensures left[i] == right[i] {
      ItemText(q, trees[i], names[i]);
      TreeTextsAt(p, trees, i);
    }
  }

  lemma {:induction false} SelectStatementText(p: Profile, names: seq<string>, trees: seq<Sql>, from: seq<string>, alias: string)
    requires |names| == |trees|
    ensures TextOf(StatementPieces(QuoteOf(p.dialect), Select(ItemsOf(names, trees), from, alias)))
            == "SELECT\n    " + JoinText(",\n    ", NamedTexts(p, TreeTexts(p, trees), names))
               + FooterText(p, from, alias)
  {
    hide TextOf, FooterPieces, FooterText, Joined, ItemPieces, NamedTexts, TreeTexts, TextsOf;
    var q := QuoteOf(p.dialect);
    var items := ItemPiecesEach(q, ItemsOf(names, trees));
    var body := Joined(LineGap, items);
    TextAppend(SelectOpening + body, FooterPieces(q, from, alias));
    TextAppend(SelectOpening, body);
    OpeningTexts();
    LineGapText();
    JoinedText(LineGap, items);
    ItemTexts(p, names, trees);
    FooterPiecesText(p, from, alias);
  }

  // ---------------------------------------------------------------- compiling

  method RenderRelation(p: Profile, r: Relation) returns (text: Result<string, CompileError>)
    ensures text.Ok? <==> RelationNames(p, r).Some?
    ensures text.Ok? ==> text.value == RelationText(p, RelationNames(p, r).value)
    ensures text.Err? ==> text.error == InvalidPlan
  {
    hide Fits, PieceText;
    if r.catalog.None? { return Err(InvalidPlan); }
    if p.dialect == MySql && r.catalog.value != r.schema { return Err(InvalidPlan); }
    var catalog, schema, table := Quote(p, r.catalog.value), Quote(p, r.schema), Quote(p, r.table);
    if catalog.Err? || schema.Err? || table.Err? { return Err(InvalidPlan); }
    if p.dialect == Snowflake {
      var parts := [catalog.value, schema.value, table.value];
      assert parts == QuotedTexts(p, [r.catalog.value, r.schema, r.table]);
      return Ok(JoinText(".", parts));
    } else {
      var parts := [schema.value, table.value];
      assert parts == QuotedTexts(p, [r.schema, r.table]);
      return Ok(JoinText(".", parts));
    }
  }

  method QuoteAll(p: Profile, names: seq<string>) returns (texts: Result<seq<string>, CompileError>)
    ensures texts.Ok? <==> AllFit(p, names)
    ensures texts.Ok? ==> texts.value == QuotedTexts(p, names)
    ensures texts.Err? ==> texts.error == InvalidPlan
  {
    hide Fits, PieceText;
    var out: seq<string> := [];
    for i := 0 to |names|
      invariant |out| == i
      invariant forall j :: 0 <= j < i ==> Fits(p, names[j]) && out[j] == PieceText(Quoted(QuoteOf(p.dialect), names[j]))
    {
      var text := Quote(p, names[i]);
      if text.Err? { return Err(text.error); }
      out := out + [text.value];
    }
    assert out == QuotedTexts(p, names);
    texts := Ok(out);
  }

  /** Renders the mappings one after the other, collecting parameters, targets and source columns. */
  method RenderMappings(
    p: Profile, ms: seq<Approval>, alias: string, allowed: set<string>, parameters: ParameterList)
    returns (r: Result<(seq<string>, seq<string>, seq<string>), CompileError>)
    requires forall i :: 0 <= i < |ms| ==> ValidApproval(ms[i])
    requires parameters.items == []
    modifies parameters
    ensures r.Ok? ==> MappingsFault(p, alias, allowed, ms).None? && Complete(ms)
                      && ValidExpressions(ExpressionsOf(ms)) && CastableEach(p, ExpressionsOf(ms))
    ensures r.Ok? ==> r.value.0 == TreeTexts(p, TreeEach(p, alias, ExpressionsOf(ms)))
                      && r.value.1 == TargetNames(ms) && r.value.2 == GatherAll([], ExpressionsOf(ms))
    ensures r.Ok? ==> parameters.items == ParametersEach(ExpressionsOf(ms))
    ensures r.Err? ==> MappingsFault(p, alias, allowed, ms) == Some(r.error)
  {
    hide Fault, TreeTexts, TreeText, Tree, Parameters, ValidApproval, ValidExpression, Castable, TreeEach, Gather;
    var projections: seq<string>, targets: seq<string>, sources: seq<string> := [], [], [];
    var i := 0;
    NoTexts(p);
    NoTrees(p, alias);
    while i < |ms|
      invariant 0 <= i <= |ms|
      invariant Complete(ms[..i]) && ValidExpressions(ExpressionsOf(ms[..i]))
      invariant CastableEach(p, ExpressionsOf(ms[..i]))
      invariant MappingsFault(p, alias, allowed, ms) == MappingsFault(p, alias, allowed, ms[i..])
      invariant projections == TreeTexts(p, TreeEach(p, alias, ExpressionsOf(ms[..i])))
      invariant targets == TargetNames(ms[..i])
      invariant sources == GatherAll([], ExpressionsOf(ms[..i]))
      invariant parameters.items == ParametersEach(ExpressionsOf(ms[..i]))
    {
      var item := ms[i];
      assert ms[i..][0] == item && ms[i..][1..] == ms[i + 1..] && ms[..i + 1] == ms[..i] + [item];
      if item.target.None? || item.transformation.None? { return Err(InvalidPlan); }
      ApprovalExpression(item);
      var rendered := Render(p, item.transformation.value, alias, allowed, parameters, 0);
      if rendered.Err? { return Err(rendered.error); }
      OneMore(p, alias, ms[..i], item);
      projections := projections + [rendered.value];
      targets := targets + [item.target.value];
      sources := Gather(sources, item.transformation.value.columns);
      i := i + 1;
    }
    assert ms[..i] == ms && ms[i..] == [];
    r := Ok((projections, targets, sources));
  }

  lemma {:induction false} NoTrees(p: Profile, alias: string)
    ensures TreeEach(p, alias, []) == []
  {
  }

  lemma {:induction false} ApprovalExpression(a: Approval)
    requires ValidApproval(a) && a.transformation.Some?
    ensures ValidExpression(a.transformation.value)
  {
  }

  /** What one more mapping adds to everything the loop collects. */
  lemma {:induction false} OneMore(p: Profile, alias: string, ms: seq<Approval>, m: Approval)
    requires Complete(ms) && ValidExpressions(ExpressionsOf(ms)) && CastableEach(p, ExpressionsOf(ms))
    requires m.target.Some? && m.transformation.Some?
    requires ValidExpression(m.transformation.value) && Castable(p, m.transformation.value)
    ensures var e, es := m.transformation.value, ExpressionsOf(ms);
            Complete(ms + [m]) && ExpressionsOf(ms + [m]) == es + [e]
            && ValidExpressions(es + [e]) && CastableEach(p, es + [e])
            && TreeTexts(p, TreeEach(p, alias, es + [e])) == TreeTexts(p, TreeEach(p, alias, es)) + [TreeText(p, Tree(p, alias, e))]
            && TargetNames(ms + [m]) == TargetNames(ms) + [m.target.value]
            && GatherAll([], es + [e]) == Gather(GatherAll([], es), e.columns)
            && ParametersEach(es + [e]) == ParametersEach(es) + Parameters(e)
  {
    hide TreeTexts, TreeText, Tree, Parameters, ValidExpression, Castable, Gather, TreeEach;
    var e, es := m.transformation.value, ExpressionsOf(ms);
    assert ExpressionsOf(ms + [m]) == es + [e];
    assert TargetNames(ms + [m]) == TargetNames(ms) + [m.target.value];
    OneMoreExpression(p, alias, [], es, e);
    var tree := Tree(p, alias, e);
    TreeTextsAppend(p, TreeEach(p, alias, es), [tree]);
    TreeTextsFirst(p, tree, []);
    NoTexts(p);
    assert [tree] + [] == [tree];
  }

  lemma {:induction false} OneMoreExpression(
    p: Profile, alias: string, known: seq<string>, es: seq<Expression>, e: Expression)
    requires ValidExpressions(es) && CastableEach(p, es) && ValidExpression(e) && Castable(p, e)
    ensures ValidExpressions(es + [e]) && CastableEach(p, es + [e])
    ensures TreeEach(p, alias, es + [e]) == TreeEach(p, alias, es) + [Tree(p, alias, e)]
    ensures GatherAll(known, es + [e]) == Gather(GatherAll(known, es), e.columns)
    ensures ParametersEach(es + [e]) == ParametersEach(es) + Parameters(e)
    decreases es
  {
    hide Tree, Parameters, ValidExpression, Castable, Gather;
    if es == [] {
      assert es + [e] == [e] && [e][1..] == [];
    } else {
      assert (es + [e])[0] == es[0] && (es + [e])[1..] == es[1..] + [e];
      OneMoreExpression(p, alias, Gather(known, es[0].columns), es[1..], e);
    }
  }

  /** The statement text from its rendered parts. */
  function Assemble(
    insert: bool, target: string, names: seq<string>, projections: seq<string>, named: seq<string>, source: string,
    alias: string): string
  {
    var footer := "\nFROM " + source + " AS " + alias;
    if insert then
      "INSERT INTO " + target + " (\n    " + JoinText(",\n    ", names) + "\n)\nSELECT\n    "
      + JoinText(",\n    ", projections) + footer
    else "SELECT\n    " + JoinText(",\n    ", named) + footer
  }

  /** What a generated statement does to the staging rows, read from its text and parameters alone. */
  ghost predicate Migrates(ops: Ops, p: Profile, g: Generated, ms: seq<Approval>, rows: seq<Row>) {
    var s := Read(QuotesOf(p.dialect), g.sql);
    && s.Some?
    && var images := RowsOf(ops, p, s.value, g.parameters, rows);
       images.Some? && AreImages(ops, ms, rows, images.value)
  }

  /** The checks an execution adapter repeats before it sends a statement. */
  predicate Accepts(p: Profile, sql: string, insert: bool) {
    Verdicts(sql, p.dialect == MySql) == Accepted && (insert ==> "INSERT INTO " <= sql)
  }

  /** The statement, read back, reads from the staging relation and writes to the target table of the plan. */
  ghost predicate Addresses(p: Profile, g: Generated, plan: ApprovedPlan, staging: Relation, alias: string) {
    var s := Read(QuotesOf(p.dialect), g.sql);
    var t := plan.targetTable;
    && s.Some? && s.value.alias == alias && s.value.InsertSelect? == g.insert
    && Addressed(s.value.from, p.dialect, staging.catalog, staging.schema, staging.table)
    && (g.insert ==> Addressed(s.value.into, p.dialect, t.catalog, t.schema, t.table) && s.value.columns == g.targetColumns)
    && g.sourceRelation == staging && g.targetRelation == Relation(t.catalog, t.schema, t.table)
    && g.planVersion == plan.version
  }

  /**
   * Compiles a plan. It fails exactly with the plan's fault; otherwise, whatever the staging rows
   * hold, the text evaluated with its parameters gives every approved target column its value.
   */
  method Compile(p: Profile, plan: ApprovedPlan, staging: Relation, alias: string, insert: bool)
    returns (r: Result<Generated, CompileError>)
    requires ValidPlan(plan)
    ensures r.Err? ==> PlanFault(p, plan, staging, alias) == Some(r.error)
    ensures r.Ok? ==> PlanFault(p, plan, staging, alias).None?
    ensures r.Ok? ==> r.value.insert == insert && Addresses(p, r.value, plan, staging, alias)
    ensures r.Ok? ==> Accepts(p, r.value.sql, insert) && AllBindable(r.value.parameters)
    ensures r.Ok? ==> forall ops, rows ::
              HaveColumns(rows, AllowedColumns(plan)) ==> Migrates(ops, p, r.value, plan.approvedMappings, rows)
    ensures r.Ok? ==> Complete(Ordered(plan.approvedMappings))
                      && r.value.targetColumns == TargetNames(Ordered(plan.approvedMappings))
                      && r.value.sourceColumns == GatherAll([], ExpressionsOf(Ordered(plan.approvedMappings)))
                      && r.value.parameters == ParametersEach(ExpressionsOf(Ordered(plan.approvedMappings)))
  {
    hide ValidPlan, Fits, ValidName, MappingsFault, RelationNames, CatalogsFit, Ordered, ValidApproval, TreeTexts,
         TreeEach, GatherAll, ParametersEach, Distinct, PieceText, StatementPieces, Read, HaveColumns, TextOf,
         Assemble, RelationText, QuotedTexts, NamedTexts, CastableEach, ValidExpressions, Migrates, Addresses, Accepts,
         AllBindable, Binds;
    if !CatalogsFit(p, staging, TargetOf(plan)) { return Err(InvalidPlan); }
    var approved := plan.approvedMappings;
    if approved == [] || !Distinct(Targets(approved)) { return Err(InvalidPlan); }
    var ms := Ordered(approved);
    ValidMembers(plan);
    var parameters := new ParameterList();
    var rendered := RenderMappings(p, ms, alias, AllowedColumns(plan), parameters);
    if rendered.Err? { return Err(rendered.error); }
    var (projections, targets, sources) := rendered.value;
    var source := RenderRelation(p, staging);
    var target := RenderRelation(p, TargetOf(plan));
    if source.Err? || target.Err? { return Err(InvalidPlan); }
    var names := QuoteAll(p, targets);
    var quotedAlias := Quote(p, alias);
    if names.Err? || quotedAlias.Err? {
      assert !Fits(p, alias) || exists i :: 0 <= i < |ms| && !Fits(p, ms[i].target.value);
      return Err(InvalidPlan);
    }
    var sql := Assemble(insert, target.value, names.value, projections, NamedTexts(p, projections, targets),
                        source.value, quotedAlias.value);
    BoundEach(ms);
    if !AllBindable(parameters.items) { return Err(UnsafeParameter); }
    if exists i :: 0 <= i < |targets| && !ValidName(targets[i]) {
      assert exists i :: 0 <= i < |ms| && !ValidName(ms[i].target.value);
      return Err(InvalidResult);
    }
    var g := Generated(insert, sql, parameters.items, staging, TargetOf(plan), sources, targets, plan.version);
    AssembledText(p, plan, ms, staging, alias, insert, sql);
    AssembledAccepted(p, plan, ms, staging, alias, insert, sql);
    AssembledMeaning(p, plan, ms, staging, alias, g);
    r := Ok(g);
  }

  lemma {:induction false} BindableAppend(vs: seq<Scalar>, ws: seq<Scalar>)
    ensures AllBindable(vs + ws) <==> AllBindable(vs) && AllBindable(ws)
  {
    hide Bindable;
    var all := vs + ws;
    if AllBindable(all) {
      forall i | 0 <= i < |vs| ensures Bindable(vs[i]) { assert all[i] == vs[i]; }
      forall i | 0 <= i < |ws| ensures Bindable(ws[i]) { assert all[|vs| + i] == ws[i]; }
    }
  }

  /** The collected parameters can be bound exactly when those of every mapping can. */
  lemma {:induction false} BoundEach(ms: seq<Approval>)
    requires Complete(ms)
    ensures AllBindable(ParametersEach(ExpressionsOf(ms))) <==> forall i :: 0 <= i < |ms| ==> Binds(ms[i])
  {
    hide Parameters, AllBindable;
    if ms == [] {
      assert AllBindable([]) by { BindableNone(); }
    } else {
      BoundEach(ms[1..]);
      assert ExpressionsOf(ms)[1..] == ExpressionsOf(ms[1..]);
      BindableAppend(Parameters(ms[0].transformation.value), ParametersEach(ExpressionsOf(ms[1..])));
      assert ms == [ms[0]] + ms[1..];
    }
  }

  lemma {:induction false} BindableNone()
    ensures AllBindable([])
  {
  }

  lemma {:induction false} ValidMembers(plan: ApprovedPlan)
    requires ValidPlan(plan)
    ensures forall i :: 0 <= i < |Ordered(plan.approvedMappings)| ==> ValidApproval(Ordered(plan.approvedMappings)[i])
    ensures |Ordered(plan.approvedMappings)| == |plan.approvedMappings|
  {
    hide ValidPlan, ValidApproval, Ordered;
    OrderedMembers(plan.approvedMappings);
    var ms := Ordered(plan.approvedMappings);
    forall i | 0 <= i < |ms| ensures ValidApproval(ms[i]) { OnlyValid(plan, ms[i]); }
  }

  lemma {:induction false} AssembledText(
    p: Profile, plan: ApprovedPlan, ms: seq<Approval>, staging: Relation, alias: string, insert: bool, sql: string)
    requires Ready(p, ms) && RelationNames(p, staging).Some? && RelationNames(p, TargetOf(plan)).Some?
    requires var names, texts := TargetNames(ms), TreeTexts(p, TreeEach(p, alias, ExpressionsOf(ms)));
             sql == Assemble(insert, RelationText(p, RelationNames(p, TargetOf(plan)).value), QuotedTexts(p, names),
                             texts, NamedTexts(p, texts, names), RelationText(p, RelationNames(p, staging).value),
                             PieceText(Quoted(QuoteOf(p.dialect), alias)))
    ensures sql == TextOf(StatementPieces(QuoteOf(p.dialect), Compiled(p, plan, ms, staging, alias, insert)))
  {
    hide RelationNames, TreeTexts, TreeEach, TextOf, StatementPieces, RelationText, QuotedTexts, NamedTexts, PieceText,
         JoinText, CastableEach, ValidExpressions;
    var names, trees := TargetNames(ms), TreeEach(p, alias, ExpressionsOf(ms));
    var from := RelationNames(p, staging).value;
    if insert {
      InsertStatementText(p, RelationNames(p, TargetOf(plan)).value, names, trees, from, alias);
    } else {
      SelectStatementText(p, names, trees, from, alias);
    }
  }

  /** Compiled text passes the guard, and an insert-select looks like one. */
  lemma {:induction false} AssembledAccepted(
    p: Profile, plan: ApprovedPlan, ms: seq<Approval>, staging: Relation, alias: string, insert: bool, sql: string)
    requires Ready(p, ms) && RelationNames(p, staging).Some? && RelationNames(p, TargetOf(plan)).Some?
    requires sql == TextOf(StatementPieces(QuoteOf(p.dialect), Compiled(p, plan, ms, staging, alias, insert)))
    ensures Accepts(p, sql, insert)
  {
    hide Ready, RelationNames, TreeEach, TextOf, StatementPieces, Verdicts, QuoteOf, PrintableStatement;
    var s := Compiled(p, plan, ms, staging, alias, insert);
    CompiledPrintable(p, plan, ms, staging, alias, insert);
    if insert {
      InsertAccepted(p.dialect, s);
      InsertOpens(QuoteOf(p.dialect), s);
    } else {
      SelectAccepted(p.dialect, s);
    }
  }

  lemma {:induction false} InsertOpens(q: char, s: Statement)
    requires s.InsertSelect?
    ensures "INSERT INTO " <= TextOf(StatementPieces(q, s))
  {
    hide TextOf, RelationPieces, FooterPieces, Joined;
    InsertText();
    assert StatementPieces(q, s) == InsertOpening + StatementPieces(q, s)[|InsertOpening|..];
    TextAppend(InsertOpening, StatementPieces(q, s)[|InsertOpening|..]);
  }

  lemma {:induction false} AssembledMeaning(
    p: Profile, plan: ApprovedPlan, ms: seq<Approval>, staging: Relation, alias: string, g: Generated)
    requires ValidPlan(plan) && PlanFault(p, plan, staging, alias).None? && ms == Ordered(plan.approvedMappings)
    requires Ready(p, ms) && RelationNames(p, staging).Some? && RelationNames(p, TargetOf(plan)).Some?
    requires g.sql == TextOf(StatementPieces(QuoteOf(p.dialect), Compiled(p, plan, ms, staging, alias, g.insert)))
    requires g.parameters == ParametersEach(ExpressionsOf(ms)) && g.targetColumns == TargetNames(ms)
    requires g.sourceRelation == staging && g.targetRelation == TargetOf(plan) && g.planVersion == plan.version
    ensures Addresses(p, g, plan, staging, alias)
    ensures forall ops, rows ::
              HaveColumns(rows, AllowedColumns(plan)) ==> Migrates(ops, p, g, plan.approvedMappings, rows)
  {
    hide ValidPlan, PlanFault, Ordered, Ready, RelationNames, TextOf, StatementPieces, ParametersEach, Read, RowsOf,
         HaveColumns, AreImages;
    CompiledReads(p, plan, ms, staging, alias, g.insert);
    RelationAddressed(p, staging);
    RelationAddressed(p, TargetOf(plan));
    ReadyParts(p, ms);
    forall ops, rows | HaveColumns(rows, AllowedColumns(plan))
      ensures Migrates(ops, p, g, plan.approvedMappings, rows)
    {
      CompiledMeaning(ops, p, plan, staging, alias, g.insert, rows);
      var images := RowsOf(ops, p, Compiled(p, plan, ms, staging, alias, g.insert), g.parameters, rows).value;
      UnorderedImages(ops, plan.approvedMappings, rows, images);
    }
  }

  lemma {:induction false} UnorderedImages(ops: Ops, xs: seq<Approval>, rows: seq<Row>, images: seq<Row>)
    requires AreImages(ops, Ordered(xs), rows, images)
    ensures AreImages(ops, xs, rows, images)
  {
    hide IsImage, Ordered;
    OrderedMembers(xs);
    forall i | 0 <= i < |rows| ensures IsImage(ops, xs, rows[i], images[i]) {
      ImagesOfMembers(ops, Ordered(xs), xs, rows[i], images[i]);
    }
  }

  /** The columns a statement reports as read are distinct and are those its expressions start from. */
  lemma {:induction false} GatherAllExact(known: seq<string>, es: seq<Expression>)
    requires Distinct(known)
    ensures Distinct(GatherAll(known, es))
    ensures forall c :: c in GatherAll(known, es) <==> c in known || exists i :: 0 <= i < |es| && c in es[i].columns
    decreases es
  {
    if es != [] {
      var more := Gather(known, es[0].columns);
      GatherAllExact(more, es[1..]);
      assert es == [es[0]] + es[1..];
      forall c
        ensures c in GatherAll(more, es[1..]) <==> c in known || exists i :: 0 <= i < |es| && c in es[i].columns
      {
        if i :| 0 <= i < |es[1..]| && c in es[1..][i].columns { assert c in es[i + 1].columns; }
        if i :| 0 <= i < |es| && c in es[i].columns { if i > 0 { assert c in es[1..][i - 1].columns; } }
      }
    }
  }
}
