/**
 * The statement an approved plan compiles to, exactly when it compiles, and what the statement does:
 * every target column receives the value of its approved expression in every staging row.
 */
module CompiledPlan {
  import opened Common
  import opened MappingModel
  import opened Ordering
  import opened SqlText
  import opened SqlTree
  import opened SqlStatement
  import opened SqlMeaning
  import opened Transformation

  datatype Relation = Relation(catalog: Option<string>, schema: string, table: string)

  function TargetOf(plan: ApprovedPlan): Relation {
    Relation(plan.targetTable.catalog, plan.targetTable.schema, plan.targetTable.table)
  }

  function PositionOf(a: Approval): Position {
    Position(a.ordinal, if a.target.Some? then a.target.value else "")
  }

  /** The approved mappings in target order. */
  function Ordered(ms: seq<Approval>): seq<Approval> {
    SortBy(ms, PositionOf)
  }

  function AllowedColumns(plan: ApprovedPlan): set<string> {
    set c | c in Sources(plan.approvals)
  }

  /** Ready to be compiled: a target column and a transformation. */
  predicate Complete(ms: seq<Approval>) {
    forall i :: 0 <= i < |ms| ==> ms[i].target.Some? && ms[i].transformation.Some?
  }

  function ExpressionsOf(ms: seq<Approval>): (es: seq<Expression>)
    requires Complete(ms)
    ensures |es| == |ms| && forall i :: 0 <= i < |ms| ==> es[i] == ms[i].transformation.value
  {
    if ms == [] then [] else [ms[0].transformation.value] + ExpressionsOf(ms[1..])
  }

  function TargetNames(ms: seq<Approval>): (names: seq<string>)
    requires Complete(ms)
    ensures |names| == |ms| && forall i :: 0 <= i < |ms| ==> names[i] == ms[i].target.value
  {
    if ms == [] then [] else [ms[0].target.value] + TargetNames(ms[1..])
  }

  // ---------------------------------------------------------------- relations

  /** The quoted names of a relation: two in MySQL and PostgreSQL, three in Snowflake. */
  function RelationNames(p: Profile, r: Relation): Option<seq<string>> {
    if r.catalog.None? then None
    else
      match p.dialect
      case MySql =>
        if r.catalog.value == r.schema && Fits(p, r.schema) && Fits(p, r.table) then Some([r.schema, r.table])
        else None
      case PostgreSql =>
        if Fits(p, r.catalog.value) && Fits(p, r.schema) && Fits(p, r.table) then Some([r.schema, r.table]) else None
      case Snowflake =>
        if Fits(p, r.catalog.value) && Fits(p, r.schema) && Fits(p, r.table)
        then Some([r.catalog.value, r.schema, r.table])
        else None
  }

  /** MySQL and PostgreSQL require staging and target in one catalog before anything else. */
  predicate CatalogsFit(p: Profile, staging: Relation, target: Relation) {
    p.dialect != Snowflake ==>
      staging.catalog.Some? && target.catalog.Some? && staging.catalog == target.catalog
  }

  /** The dialect can address the relation; MySQL calls a database a schema. */
  predicate Addressable(p: Profile, r: Relation) {
    && r.catalog.Some? && Fits(p, r.catalog.value) && Fits(p, r.schema) && Fits(p, r.table)
    && (p.dialect == MySql ==> r.catalog.value == r.schema)
  }

  /** The table last, its schema before it, and before both the catalog in Snowflake only. */
  predicate Addressed(names: seq<string>, d: Dialect, catalog: Option<string>, schema: string, table: string) {
    && |names| == (if d == Snowflake then 3 else 2)
    && names[|names| - 1] == table && names[|names| - 2] == schema
    && (d == Snowflake ==> catalog == Some(names[0]))
  }

  lemma {:induction false} RelationAddressed(p: Profile, r: Relation)
    ensures RelationNames(p, r).Some? <==> Addressable(p, r)
    ensures RelationNames(p, r).Some? ==>
              Addressed(RelationNames(p, r).value, p.dialect, r.catalog, r.schema, r.table)
  {
    hide Fits;
  }

  // ---------------------------------------------------------------- when a plan compiles

  /** The first objection to the mappings, in target order. */
  function MappingsFault(p: Profile, alias: string, allowed: set<string>, ms: seq<Approval>): Option<CompileError> {
    if ms == [] then None
    else if ms[0].target.None? || ms[0].transformation.None? then Some(InvalidPlan)
    else
      var f := Fault(p, alias, allowed, ms[0].transformation.value, 0);
      if f.Some? then f else MappingsFault(p, alias, allowed, ms[1..])
  }

  /** Every literal and separator of the mapping can be bound. */
  predicate Binds(m: Approval) {
    m.transformation.Some? && AllBindable(Parameters(m.transformation.value))
  }

  function PlanFault(p: Profile, plan: ApprovedPlan, staging: Relation, alias: string): Option<CompileError> {
    var ms := Ordered(plan.approvedMappings);
    if !CatalogsFit(p, staging, TargetOf(plan)) then Some(InvalidPlan)
    else if plan.approvedMappings == [] || !Distinct(Targets(plan.approvedMappings)) then Some(InvalidPlan)
    else
      var f := MappingsFault(p, alias, AllowedColumns(plan), ms);
      if f.Some? then f
      else if RelationNames(p, staging).None? || RelationNames(p, TargetOf(plan)).None? then Some(InvalidPlan)
      else if !Fits(p, alias) || exists i :: 0 <= i < |ms| && (ms[i].target.None? || !Fits(p, ms[i].target.value)) then
        Some(InvalidPlan)
      else if exists i :: 0 <= i < |ms| && !Binds(ms[i]) then Some(UnsafeParameter)
      else if exists i :: 0 <= i < |ms| && (ms[i].target.None? || !ValidName(ms[i].target.value)) then
        Some(InvalidResult)
      else None
  }

  /** One approved mapping that a dialect can compile. */
  predicate Compilable(p: Profile, alias: string, allowed: set<string>, m: Approval) {
    && m.target.Some? && ValidName(m.target.value) && Fits(p, m.target.value)
    && m.transformation.Some? && Binds(m)
    && var e := m.transformation.value;
       Height(e) <= MAX_DEPTH && ColumnsOf(e) <= allowed && Castable(p, e) && Quotable(p, alias, ColumnsOf(e))
  }

  predicate Expressible(p: Profile, alias: string, allowed: set<string>, m: Approval) {
    m.target.Some? && m.transformation.Some? && Fault(p, alias, allowed, m.transformation.value, 0).None?
  }

  lemma {:induction false} MappingsFaultFree(p: Profile, alias: string, allowed: set<string>, ms: seq<Approval>)
    ensures MappingsFault(p, alias, allowed, ms).None?
            <==> forall i :: 0 <= i < |ms| ==> Expressible(p, alias, allowed, ms[i])
  {
    hide Fault;
    if ms != [] {
      MappingsFaultFree(p, alias, allowed, ms[1..]);
      assert ms == [ms[0]] + ms[1..];
    }
  }

  lemma {:induction false} OrderedMembers(ms: seq<Approval>)
    ensures forall m :: m in Ordered(ms) <==> m in ms
    ensures |Ordered(ms)| == |ms|
  {
    SortByCorrect(ms, PositionOf);
    SameLength(Ordered(ms), ms);
    forall m ensures m in Ordered(ms) <==> m in ms {
      assert m in multiset(Ordered(ms)) <==> m in multiset(ms);
    }
  }

  lemma {:induction false} ExpressibleMeans(p: Profile, alias: string, allowed: set<string>, m: Approval)
    ensures Compilable(p, alias, allowed, m)
            <==> Expressible(p, alias, allowed, m) && Fits(p, m.target.value) && ValidName(m.target.value) && Binds(m)
  {
    hide Fits, ValidName, Binds;
    if m.transformation.Some? { FaultFree(p, alias, allowed, m.transformation.value, 0); }
  }

  /** Exactly which plans a dialect compiles. */
  lemma {:induction false} PlanCompiles(p: Profile, plan: ApprovedPlan, staging: Relation, alias: string)
    ensures PlanFault(p, plan, staging, alias).None?
            <==> && (p.dialect != Snowflake ==> staging.catalog == plan.targetTable.catalog)
                 && Addressable(p, staging) && Fits(p, alias)
                 && Addressable(p, Relation(plan.targetTable.catalog, plan.targetTable.schema, plan.targetTable.table))
                 && plan.approvedMappings != [] && Distinct(Targets(plan.approvedMappings))
                 && forall m :: m in plan.approvedMappings ==> Compilable(p, alias, AllowedColumns(plan), m)
  {
    hide Fits, ValidName, Compilable, Expressible, RelationNames, MappingsFault, Ordered, Binds;
    var ms, allowed := Ordered(plan.approvedMappings), AllowedColumns(plan);
    RelationAddressed(p, staging);
    RelationAddressed(p, TargetOf(plan));
    OrderedMembers(plan.approvedMappings);
    MappingsFaultFree(p, alias, allowed, ms);
    forall m ensures Compilable(p, alias, allowed, m)
                     <==> Expressible(p, alias, allowed, m) && m.target.Some? && Fits(p, m.target.value)
                          && ValidName(m.target.value) && Binds(m)
    {
      ExpressibleMeans(p, alias, allowed, m);
      ExpressibleTarget(p, alias, allowed, m);
    }
    MembersByIndex(ms, (m: Approval) => Compilable(p, alias, allowed, m));
    MembersByIndex(ms, (m: Approval) => Expressible(p, alias, allowed, m));
    MembersByIndex(ms, (m: Approval) => m.target.Some? && Fits(p, m.target.value));
    MembersByIndex(ms, (m: Approval) => m.target.Some? && ValidName(m.target.value));
    MembersByIndex(ms, (m: Approval) => Binds(m));
  }

  /** What an objection to a plan says about its mappings. */
  lemma {:induction false} PlanFaultMeans(p: Profile, plan: ApprovedPlan, staging: Relation, alias: string)
    ensures PlanFault(p, plan, staging, alias) == Some(Unsupported) ==>
              exists m :: m in plan.approvedMappings && m.transformation.Some?
                          && (Height(m.transformation.value) > MAX_DEPTH || !Castable(p, m.transformation.value))
    ensures PlanFault(p, plan, staging, alias) == Some(UnsafeParameter) ==>
              exists m :: m in plan.approvedMappings && m.transformation.Some?
                          && !AllBindable(Parameters(m.transformation.value))
    ensures PlanFault(p, plan, staging, alias) == Some(InvalidResult) ==>
              exists m :: m in plan.approvedMappings && m.target.Some? && !ValidName(m.target.value)
  {
    hide Fits, ValidName, RelationNames, CatalogsFit, Ordered, Parameters, AllBindable, MappingsFault, Castable, Height;
    var ms, allowed := Ordered(plan.approvedMappings), AllowedColumns(plan);
    OrderedMembers(plan.approvedMappings);
    MappingsFaultMeans(p, alias, allowed, ms);
    MappingsFaultFree(p, alias, allowed, ms);
  }

  lemma {:induction false} MappingsFaultMeans(p: Profile, alias: string, allowed: set<string>, ms: seq<Approval>)
    ensures MappingsFault(p, alias, allowed, ms) == Some(Unsupported) ==>
              exists m :: m in ms && m.transformation.Some?
                          && (Height(m.transformation.value) > MAX_DEPTH || !Castable(p, m.transformation.value))
    ensures MappingsFault(p, alias, allowed, ms) != Some(UnsafeParameter)
    ensures MappingsFault(p, alias, allowed, ms) != Some(InvalidResult)
  {
    hide Fault, Height, Castable;
    if ms != [] {
      MappingsFaultMeans(p, alias, allowed, ms[1..]);
      assert ms == [ms[0]] + ms[1..];
      if ms[0].transformation.Some? { FaultMeans(p, alias, allowed, ms[0].transformation.value, 0); }
    }
  }

  /** Target columns come in the order of their positions, unknown positions last, then by name. */
  lemma {:induction false} TargetsInOrder(ms: seq<Approval>, i: nat, j: nat)
    requires i < j < |Ordered(ms)|
    ensures var a, b := Ordered(ms)[i], Ordered(ms)[j];
            || (a.ordinal.Some? && (b.ordinal.None? || a.ordinal.value < b.ordinal.value))
            || (a.ordinal == b.ordinal && (a.target.Some? && b.target.Some? ==> StringLe(a.target.value, b.target.value)))
  {
    SortedFirst(ms, PositionOf, i, j);
  }

  lemma {:induction false} ExpressibleTarget(p: Profile, alias: string, allowed: set<string>, m: Approval)
    ensures Expressible(p, alias, allowed, m) ==> m.target.Some?
    ensures Compilable(p, alias, allowed, m) ==> m.target.Some?
  {
  }

  lemma {:induction false} MembersByIndex<T>(xs: seq<T>, f: T -> bool)
    ensures (forall x :: x in xs ==> f(x)) <==> (forall i :: 0 <= i < |xs| ==> f(xs[i]))
  {
  }

  // ---------------------------------------------------------------- the statement

  /** The mappings can be turned into trees. */
  predicate Ready(p: Profile, ms: seq<Approval>) {
    && Complete(ms) && ms != []
    && ValidExpressions(ExpressionsOf(ms)) && CastableEach(p, ExpressionsOf(ms))
  }

  function ItemsOf(names: seq<string>, trees: seq<Sql>): (r: seq<Item>)
    requires |names| == |trees|
    ensures |r| == |names| && forall i :: 0 <= i < |r| ==> r[i] == Item(Value(trees[i]), names[i])
  {
    seq(|names|, i requires 0 <= i < |names| => Item(Value(trees[i]), names[i]))
  }

  function Compiled(
    p: Profile, plan: ApprovedPlan, ms: seq<Approval>, staging: Relation, alias: string, insert: bool): Statement
    requires Ready(p, ms) && RelationNames(p, staging).Some? && RelationNames(p, TargetOf(plan)).Some?
  {
    var names, trees := TargetNames(ms), TreeEach(p, alias, ExpressionsOf(ms));
    var from := RelationNames(p, staging).value;
    if insert then InsertSelect(RelationNames(p, TargetOf(plan)).value, names, trees, from, alias)
    else Select(ItemsOf(names, trees), from, alias)
  }

  lemma {:induction false} ExpressionsReady(p: Profile, alias: string, allowed: set<string>, ms: seq<Approval>)
    requires forall i :: 0 <= i < |ms| ==> ValidApproval(ms[i]) && Expressible(p, alias, allowed, ms[i])
    ensures Complete(ms)
    ensures ValidExpressions(ExpressionsOf(ms)) && CastableEach(p, ExpressionsOf(ms))
    ensures ColumnsOfEach(ExpressionsOf(ms)) <= allowed
  {
    hide Fault, ValidExpression, Castable, ColumnsOf, Height;
    if ms != [] {
      ExpressionsReady(p, alias, allowed, ms[1..]);
      FaultFree(p, alias, allowed, ms[0].transformation.value, 0);
      assert ExpressionsOf(ms)[1..] == ExpressionsOf(ms[1..]);
    }
  }

  lemma {:induction false} OnlyValid(plan: ApprovedPlan, m: Approval)
    requires ValidPlan(plan) && m in plan.approvedMappings
    ensures ValidApproval(m) && m in plan.approvals && IsApproved(m)
  {
    hide ValidApproval;
  }

  /** A plan without fault is ready, reads only allowed columns and has distinct targets. */
  lemma {:induction false} PlanReady(p: Profile, plan: ApprovedPlan, staging: Relation, alias: string)
    requires ValidPlan(plan) && PlanFault(p, plan, staging, alias).None?
    ensures var ms := Ordered(plan.approvedMappings);
            Ready(p, ms) && ColumnsOfEach(ExpressionsOf(ms)) <= AllowedColumns(plan) && Distinct(TargetNames(ms))
    ensures RelationNames(p, staging).Some? && RelationNames(p, TargetOf(plan)).Some?
  {
    hide ValidPlan, Fault, ValidApproval, RelationNames, Ordered, MappingsFault, Fits, ValidName, CatalogsFit,
         Expressible;
    var ms := Ordered(plan.approvedMappings);
    OrderedMembers(plan.approvedMappings);
    MappingsFaultFree(p, alias, AllowedColumns(plan), ms);
    forall i | 0 <= i < |ms| ensures ValidApproval(ms[i]) {
      assert ms[i] in plan.approvedMappings;
      OnlyValid(plan, ms[i]);
    }
    ExpressionsReady(p, alias, AllowedColumns(plan), ms);
    DistinctTargets(plan.approvedMappings, ms);
  }

  lemma {:induction false} DistinctTargets(xs: seq<Approval>, ms: seq<Approval>)
    requires Distinct(Targets(xs)) && ms == Ordered(xs) && Complete(ms)
    ensures Distinct(TargetNames(ms))
  {
    hide Ordered;
    OrderedMembers(xs);
    assert DistinctKeys(xs, PositionOf) by {
      forall i, j | 0 <= i < j < |xs| ensures PositionOf(xs[i]) != PositionOf(xs[j]) {
        assert Targets(xs)[i] != Targets(xs)[j];
        assert xs[i] in ms && xs[j] in ms;
      }
    }
    TargetsPermuted(xs, ms);
  }

  lemma {:induction false} TargetsPermuted(xs: seq<Approval>, ms: seq<Approval>)
    requires DistinctKeys(xs, PositionOf) && Distinct(Targets(xs)) && ms == Ordered(xs) && Complete(ms)
    ensures Distinct(TargetNames(ms))
  {
    SortByCorrect(xs, PositionOf);
    DistinctKeysPermuted(xs, ms, PositionOf);
    forall i, j | 0 <= i < j < |ms| ensures TargetNames(ms)[i] != TargetNames(ms)[j] {
      assert PositionOf(ms[i]) != PositionOf(ms[j]);
      assert ms[i] in multiset(xs) && ms[j] in multiset(xs);
      var a :| 0 <= a < |xs| && xs[a] == ms[i];
      var b :| 0 <= b < |xs| && xs[b] == ms[j];
      assert a != b;
      assert Targets(xs)[a] != Targets(xs)[b];
    }
  }

  lemma {:induction false} CompiledPrintable(
    p: Profile, plan: ApprovedPlan, ms: seq<Approval>, staging: Relation, alias: string, insert: bool)
    requires Ready(p, ms) && RelationNames(p, staging).Some? && RelationNames(p, TargetOf(plan)).Some?
    ensures PrintableStatement(Compiled(p, plan, ms, staging, alias, insert))
  {
    hide Printable, Tree;
    var trees := TreeEach(p, alias, ExpressionsOf(ms));
    TreeEachPrintable(p, alias, ExpressionsOf(ms));
    forall i | 0 <= i < |trees| ensures Printable(trees[i]) { PrintableAt(trees, i); }
  }

  lemma {:induction false} PrintableAt(trees: seq<Sql>, i: nat)
    requires AllPrintable(trees) && i < |trees|
    ensures Printable(trees[i])
  {
    if i > 0 { PrintableAt(trees[1..], i - 1); }
  }

  lemma {:induction false} QuotesProper(d: Dialect)
    ensures ProperQuotes(QuotesOf(d)) && QuoteOf(d) in QuotesOf(d) && '"' in QuotesOf(d)
  {
  }

  /** Compiled text reads back as exactly the compiled statement. */
  lemma {:induction false} CompiledReads(
    p: Profile, plan: ApprovedPlan, ms: seq<Approval>, staging: Relation, alias: string, insert: bool)
    requires Ready(p, ms) && RelationNames(p, staging).Some? && RelationNames(p, TargetOf(plan)).Some?
    ensures var s := Compiled(p, plan, ms, staging, alias, insert);
            Read(QuotesOf(p.dialect), TextOf(StatementPieces(QuoteOf(p.dialect), s))) == Some(s)
  {
    hide Ready, Compiled, RelationNames, ProperQuotes, Read, StatementPieces, PrintableStatement, QuotesOf, QuoteOf;
    CompiledPrintable(p, plan, ms, staging, alias, insert);
    QuotesProper(p.dialect);
    ReadPrinted(QuotesOf(p.dialect), QuoteOf(p.dialect), Compiled(p, plan, ms, staging, alias, insert));
  }

  // ---------------------------------------------------------------- what the statement does

  /** Exactly the approved targets, each with the value of its expression. */
  ghost predicate IsImage(ops: Ops, ms: seq<Approval>, row: Row, image: Row) {
    && Complete(ms)
    && (forall c :: c in image <==> exists i :: 0 <= i < |ms| && ms[i].target.value == c)
    && (forall i :: 0 <= i < |ms| ==>
          && ValidExpression(ms[i].transformation.value)
          && ms[i].target.value in image
          && image[ms[i].target.value] == Denote(ops, ms[i].transformation.value, row))
  }

  ghost predicate AreImages(ops: Ops, ms: seq<Approval>, rows: seq<Row>, images: seq<Row>) {
    |images| == |rows| && forall i :: 0 <= i < |rows| ==> IsImage(ops, ms, rows[i], images[i])
  }

  /** Every staging row has the columns the plan may read. */
  predicate HaveColumns(rows: seq<Row>, columns: set<string>) {
    forall i :: 0 <= i < |rows| ==> HasAll(rows[i], columns)
  }

  lemma {:induction false} MakeRowHolds(columns: seq<string>, values: seq<Scalar>)
    requires |columns| == |values| && Distinct(columns)
    ensures forall c :: c in MakeRow(columns, values) <==> c in columns
    ensures forall i :: 0 <= i < |columns| ==>
              columns[i] in MakeRow(columns, values) && MakeRow(columns, values)[columns[i]] == values[i]
  {
    if columns != [] {
      var rest := MakeRow(columns[1..], values[1..]);
      MakeRowHolds(columns[1..], values[1..]);
      assert columns == [columns[0]] + columns[1..];
      forall i | 0 <= i < |columns|
        ensures columns[i] in MakeRow(columns, values) && MakeRow(columns, values)[columns[i]] == values[i]
      {
        if i > 0 { assert columns[1..][i - 1] == columns[i] && columns[0] != columns[i]; }
      }
    }
  }

  lemma {:induction false} DenoteEachAt(ops: Ops, es: seq<Expression>, row: Row, i: nat)
    requires ValidExpressions(es) && i < |es|
    ensures ValidExpression(es[i]) && DenoteEach(ops, es, row)[i] == Denote(ops, es[i], row)
  {
    hide Denote, ValidExpression;
    if i > 0 { DenoteEachAt(ops, es[1..], row, i - 1); }
  }

  lemma {:induction false} MakeRowAt(columns: seq<string>, values: seq<Scalar>, i: nat)
    requires |columns| == |values| && Distinct(columns) && i < |columns|
    ensures columns[i] in MakeRow(columns, values) && MakeRow(columns, values)[columns[i]] == values[i]
  {
    hide Distinct, MakeRow;
    MakeRowHolds(columns, values);
  }

  lemma {:induction false} MakeRowKey(columns: seq<string>, values: seq<Scalar>, c: string)
    requires |columns| == |values| && Distinct(columns)
    ensures c in MakeRow(columns, values) <==> c in columns
  {
    hide Distinct, MakeRow;
    MakeRowHolds(columns, values);
  }

  lemma {:induction false} RowIsImage(ops: Ops, ms: seq<Approval>, row: Row)
    requires Complete(ms) && ValidExpressions(ExpressionsOf(ms)) && Distinct(TargetNames(ms))
    ensures IsImage(ops, ms, row, MakeRow(TargetNames(ms), DenoteEach(ops, ExpressionsOf(ms), row)))
  {
    hide Denote, ValidExpression, ValidExpressions, DenoteEach, MakeRow, Distinct, TargetNames, ExpressionsOf;
    var names, es := TargetNames(ms), ExpressionsOf(ms);
    var values := DenoteEach(ops, es, row);
    var image := MakeRow(names, values);
    forall i | 0 <= i < |ms|
      ensures ValidExpression(ms[i].transformation.value) && ms[i].target.value in image
      ensures image[ms[i].target.value] == Denote(ops, ms[i].transformation.value, row)
    {
      DenoteEachAt(ops, es, row, i);
      MakeRowAt(names, values, i);
    }
    forall c ensures c in image <==> exists i :: 0 <= i < |ms| && ms[i].target.value == c {
      MakeRowKey(names, values, c);
      if c in names { var i :| 0 <= i < |names| && names[i] == c; assert ms[i].target.value == c; }
      if i :| 0 <= i < |ms| && ms[i].target.value == c { assert names[i] == c; }
    }
  }

  lemma {:induction false} ProjectImages(ops: Ops, p: Profile, alias: string, ms: seq<Approval>, rows: seq<Row>)
    requires Ready(p, ms) && Distinct(TargetNames(ms))
    requires HaveColumns(rows, ColumnsOfEach(ExpressionsOf(ms)))
    ensures var es := ExpressionsOf(ms);
            HolesEach(TreeEach(p, alias, es)) == |ParametersEach(es)| &&
            var out := Project(ops, p, alias, TargetNames(ms), TreeEach(p, alias, es), rows, ParametersEach(es));
            out.Some? && AreImages(ops, ms, rows, out.value)
    decreases rows
  {
    hide Denote, ValidExpression, DenoteEach, MakeRow, IsImage, Tree, TreeEach, EvalEach, ParametersEach, ColumnsOfEach,
         Distinct, Ready;
    ReadyParts(p, ms);
    var names, es := TargetNames(ms), ExpressionsOf(ms);
    if rows == [] {
      NoColumnsHoles(p, alias, es);
    } else {
      TreeEachMeaning(ops, p, alias, es, rows[0]);
      RowIsImage(ops, ms, rows[0]);
      ProjectImages(ops, p, alias, ms, rows[1..]);
    }
  }

  lemma {:induction false} ReadyParts(p: Profile, ms: seq<Approval>)
    requires Ready(p, ms)
    ensures Complete(ms) && ValidExpressions(ExpressionsOf(ms)) && CastableEach(p, ExpressionsOf(ms))
  {
  }

  lemma {:induction false} NoColumnsHoles(p: Profile, alias: string, es: seq<Expression>)
    requires ValidExpressions(es) && CastableEach(p, es)
    ensures HolesEach(TreeEach(p, alias, es)) == |ParametersEach(es)|
  {
    var row := map c | c in ColumnsOfEach(es) :: Null;
    var ops := Ops((_, v) => v, _ => Null, (v, _) => v);
    TreeEachMeaning(ops, p, alias, es, row);
  }

  /** The rows a compiled statement produces are the images of the staging rows, one each, in order. */
  lemma {:induction false} CompiledMeaning(
    ops: Ops, p: Profile, plan: ApprovedPlan, staging: Relation, alias: string, insert: bool, rows: seq<Row>)
    requires ValidPlan(plan) && PlanFault(p, plan, staging, alias).None?
    requires HaveColumns(rows, AllowedColumns(plan))
    ensures var ms := Ordered(plan.approvedMappings);
            Ready(p, ms) && RelationNames(p, staging).Some? && RelationNames(p, TargetOf(plan)).Some? &&
            var out := RowsOf(ops, p, Compiled(p, plan, ms, staging, alias, insert),
                              ParametersEach(ExpressionsOf(ms)), rows);
            out.Some? && AreImages(ops, ms, rows, out.value)
  {
    hide ValidPlan, PlanFault, Ready, AreImages, Project, Ordered, ColumnsOfEach, RelationNames, TreeEach, ParametersEach;
    var ms := Ordered(plan.approvedMappings);
    PlanReady(p, plan, staging, alias);
    ReadyParts(p, ms);
    ProjectImages(ops, p, alias, ms, rows);
    var names, trees := TargetNames(ms), TreeEach(p, alias, ExpressionsOf(ms));
    var items := ItemsOf(names, trees);
    assert NamesOf(items) == names && ValuesOf(items) == trees;
  }

  // ---------------------------------------------------------------- order does not matter

  lemma {:induction false} ImagesOfMembers(ops: Ops, ms: seq<Approval>, xs: seq<Approval>, row: Row, image: Row)
    requires IsImage(ops, ms, row, image)
    requires forall m :: m in ms <==> m in xs
    ensures IsImage(ops, xs, row, image)
  {
    hide Denote, ValidExpression;
    forall i | 0 <= i < |xs| ensures xs[i] in ms { assert xs[i] in xs; }
    forall c ensures c in image <==> exists i :: 0 <= i < |xs| && xs[i].target.value == c {
      if i :| 0 <= i < |ms| && ms[i].target.value == c {
        assert ms[i] in xs;
        var j :| 0 <= j < |xs| && xs[j] == ms[i];
      }
      if i :| 0 <= i < |xs| && xs[i].target.value == c {
        var j :| 0 <= j < |ms| && ms[j] == xs[i];
      }
    }
  }

  /** Permuting the approved mappings changes neither the statement nor its parameters. */
  lemma {:induction false} OrderIrrelevant(xs: seq<Approval>, ys: seq<Approval>)
    requires multiset(xs) == multiset(ys)
    requires Distinct(Targets(xs)) && forall i :: 0 <= i < |xs| ==> xs[i].target.Some?
    ensures Ordered(xs) == Ordered(ys)
  {
    forall i, j | 0 <= i < j < |xs| ensures PositionOf(xs[i]) != PositionOf(xs[j]) {
      assert Targets(xs)[i] != Targets(xs)[j];
    }
    SortByPermuted(xs, ys, PositionOf);
  }

  lemma {:induction false} OnlyApprovedPermuted(xs: seq<Approval>, a: Approval)
    ensures multiset(OnlyApproved(xs))[a] == if IsApproved(a) then multiset(xs)[a] else 0
  {
    if xs != [] {
      OnlyApprovedPermuted(xs[1..], a);
      assert xs == [xs[0]] + xs[1..];
      if IsApproved(xs[0]) { assert OnlyApproved(xs) == [xs[0]] + OnlyApproved(xs[1..]); }
    }
  }

  /** Plans that hold the same approvals in another order compile alike, or fail alike. */
  lemma {:induction false} PermutedPlans(p: Profile, plan: ApprovedPlan, other: ApprovedPlan, staging: Relation, alias: string)
    requires ValidPlan(plan) && ValidPlan(other) && plan.targetTable == other.targetTable
    requires multiset(plan.approvals) == multiset(other.approvals)
    ensures Ordered(plan.approvedMappings) == Ordered(other.approvedMappings)
    ensures PlanFault(p, plan, staging, alias) == PlanFault(p, other, staging, alias)
  {
    hide ValidApproval, Fits, ValidName, MappingsFault, RelationNames, CatalogsFit, SortBy, ValidIdentity, ValidNames;
    var xs, ys := plan.approvedMappings, other.approvedMappings;
    assert multiset(xs) == multiset(ys) by {
      forall a ensures multiset(xs)[a] == multiset(ys)[a] {
        OnlyApprovedPermuted(plan.approvals, a);
        OnlyApprovedPermuted(other.approvals, a);
      }
    }
    SameLength(xs, ys);
    assert forall i :: 0 <= i < |xs| ==> xs[i].target.Some? by {
      forall i | 0 <= i < |xs| ensures xs[i].target.Some? {
        OnlyValid(plan, xs[i]);
        ApprovedHasTarget(xs[i]);
      }
    }
    OrderIrrelevant(xs, ys);
    SameAllowed(plan, other);
  }

  lemma {:induction false} ApprovedHasTarget(a: Approval)
    requires ValidApproval(a) && IsApproved(a)
    ensures a.target.Some?
  {
  }

  lemma {:induction false} SameAllowed(plan: ApprovedPlan, other: ApprovedPlan)
    requires multiset(plan.approvals) == multiset(other.approvals)
    ensures AllowedColumns(plan) == AllowedColumns(other)
  {
    AllowedFrom(plan, other);
    AllowedFrom(other, plan);
  }

  lemma {:induction false} AllowedFrom(plan: ApprovedPlan, other: ApprovedPlan)
    requires multiset(plan.approvals) == multiset(other.approvals)
    ensures AllowedColumns(plan) <= AllowedColumns(other)
  {
    forall c | c in AllowedColumns(plan) ensures c in AllowedColumns(other) {
      var i :| 0 <= i < |plan.approvals| && Sources(plan.approvals)[i] == c;
      assert plan.approvals[i] in multiset(other.approvals);
      var j :| 0 <= j < |other.approvals| && other.approvals[j] == plan.approvals[i];
      assert Sources(other.approvals)[j] == c;
    }
  }
}
