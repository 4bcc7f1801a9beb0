/**
 * Approved transformation expressions: what they mean, which of them a dialect can render, the SQL
 * tree and the bound parameters they compile to. The tree with its parameters means the same.
 */
module Transformation {
  import opened Common
  import opened MappingModel
  import opened SqlText
  import opened SqlTree
  import opened SqlMeaning

  /**
   * The constructor of the generated statement refuses a parameter that cannot be bound, and then a
   * blank target name: `UnsafeParameter` and `InvalidResult`.
   */
  datatype CompileError = InvalidPlan | Unsupported | UnsafeParameter | InvalidResult

  const MAX_DEPTH := 16

  // ---------------------------------------------------------------- meaning

  function Cell(row: Row, name: string): Scalar {
    if name in row then row[name] else Null
  }

  function Cells(row: Row, names: seq<string>): (r: seq<Scalar>)
    ensures |r| == |names|
  {
    if names == [] then [] else [Cell(row, names[0])] + Cells(row, names[1..])
  }

  /** The value of an approved expression in one source row. */
  function Denote(ops: Ops, e: Expression, row: Row): Scalar
    requires ValidExpression(e)
    decreases e
  {
    match e.kind
    case SourceColumn => Cell(row, e.columns[0])
    case DirectCopy => Cell(row, e.columns[0])
    case Cast => ops.cast(e.castTo.value, Cell(row, e.columns[0]))
    case Concat =>
      if e.separator.None? then ops.concat(Cells(row, e.columns))
      else ops.concatWs(Text(e.separator.value), Cells(row, e.columns))
    case Literal => e.literal
    case Coalesce => FirstKnown(Cells(row, e.columns) + DenoteEach(ops, e.arguments, row))
  }

  function DenoteEach(ops: Ops, es: seq<Expression>, row: Row): (r: seq<Scalar>)
    requires ValidExpressions(es)
    ensures |r| == |es|
    decreases es
  {
    if es == [] then [] else [Denote(ops, es[0], row)] + DenoteEach(ops, es[1..], row)
  }

  lemma {:induction false} CellsAt(row: Row, names: seq<string>, i: nat)
    requires i < |names|
    ensures Cells(row, names)[i] == Cell(row, names[i])
  {
    if i > 0 { CellsAt(row, names[1..], i - 1); }
  }

  lemma {:induction false} ValuesAt(ops: Ops, es: seq<Expression>, row: Row, i: nat)
    requires ValidExpressions(es) && i < |es|
    ensures ValidExpression(es[i]) && DenoteEach(ops, es, row)[i] == Denote(ops, es[i], row)
  {
    if i > 0 { ValuesAt(ops, es[1..], row, i - 1); }
  }

  lemma {:induction false} FirstKnownAt(vs: seq<Scalar>, i: nat)
    requires i <= |vs| && forall j :: 0 <= j < i ==> vs[j] == Null
    requires i < |vs| ==> vs[i] != Null
    ensures FirstKnown(vs) == if i < |vs| then vs[i] else Null
  {
    if i > 0 { FirstKnownAt(vs[1..], i - 1); }
  }

  /** COALESCE takes the first column that is not NULL, and its arguments only when all columns are. */
  lemma {:induction false} CoalesceMeans(ops: Ops, e: Expression, row: Row, i: nat)
    requires ValidExpression(e) && e.kind == Coalesce && i <= |e.columns| + |e.arguments|
    requires forall j :: 0 <= j < i && j < |e.columns| ==> Cell(row, e.columns[j]) == Null
    requires forall j :: 0 <= j < i - |e.columns| ==>
               ValidExpression(e.arguments[j]) && Denote(ops, e.arguments[j], row) == Null
    ensures i < |e.columns| && Cell(row, e.columns[i]) != Null ==> Denote(ops, e, row) == Cell(row, e.columns[i])
    ensures |e.columns| <= i < |e.columns| + |e.arguments| ==>
              var argument := e.arguments[i - |e.columns|];
              && ValidExpression(argument)
              && (Denote(ops, argument, row) != Null ==> Denote(ops, e, row) == Denote(ops, argument, row))
    ensures i == |e.columns| + |e.arguments| ==> Denote(ops, e, row) == Null
  {
    var n, vs := |e.columns|, Cells(row, e.columns) + DenoteEach(ops, e.arguments, row);
    assert Denote(ops, e, row) == FirstKnown(vs);
    hide Denote, FirstKnown, ValidExpression, Cell, Cells, DenoteEach;
    forall j | 0 <= j < n ensures vs[j] == Cell(row, e.columns[j]) { CellsAt(row, e.columns, j); }
    forall j | 0 <= j < |e.arguments|
      ensures ValidExpression(e.arguments[j]) && vs[n + j] == Denote(ops, e.arguments[j], row)
    {
      ValuesAt(ops, e.arguments, row, j);
    }
    forall j | 0 <= j < i ensures vs[j] == Null { 
      if j < n { assert vs[j] == Cell(row, e.columns[j]); } else { ValuesAt(ops, e.arguments, row, j - n); }
    }
    if i == |vs| || vs[i] != Null { FirstKnownAt(vs, i); }
  }

  /** Concatenation joins the columns in the order in which they are listed, with the separator in front. */
  lemma {:induction false} ConcatMeans(ops: Ops, e: Expression, row: Row, vs: seq<Scalar>)
    requires ValidExpression(e) && e.kind == Concat && |vs| == |e.columns|
    requires forall i :: 0 <= i < |vs| ==> vs[i] == Cell(row, e.columns[i])
    ensures Denote(ops, e, row)
            == if e.separator.None? then ops.concat(vs) else ops.concatWs(Text(e.separator.value), vs)
  {
    hide Cell;
    forall i | 0 <= i < |vs| ensures vs[i] == Cells(row, e.columns)[i] { CellsAt(row, e.columns, i); }
    assert vs == Cells(row, e.columns);
  }

  // ---------------------------------------------------------------- measures

  function Height(e: Expression): nat
    decreases e
  {
    1 + HeightEach(e.arguments)
  }

  function HeightEach(es: seq<Expression>): nat
    decreases es
  {
    if es == [] then 0
    else
      var h, rest := Height(es[0]), HeightEach(es[1..]);
      if h > rest then h else rest
  }

  /** Every source column named anywhere in the tree. */
  function ColumnsOf(e: Expression): set<string>
    decreases e
  {
    (set c | c in e.columns) + ColumnsOfEach(e.arguments)
  }

  function ColumnsOfEach(es: seq<Expression>): set<string>
    decreases es
  {
    if es == [] then {} else ColumnsOf(es[0]) + ColumnsOfEach(es[1..])
  }

  /** The dialect has a name for every type the tree casts to. */
  predicate Castable(p: Profile, e: Expression)
    decreases e
  {
    (e.kind == Cast ==> e.castTo.Some? && TypeName(p, e.castTo.value).Some?) && CastableEach(p, e.arguments)
  }

  predicate CastableEach(p: Profile, es: seq<Expression>)
    decreases es
  {
    es == [] || (Castable(p, es[0]) && CastableEach(p, es[1..]))
  }

  // ---------------------------------------------------------------- identifiers

  function QuoteOf(d: Dialect): char {
    if d == MySql then '`' else '"'
  }

  /** The characters that open a quoted name in a dialect. */
  function QuotesOf(d: Dialect): set<char> {
    if d == MySql then {'`', '"'} else {'"'}
  }

  /** Names a dialect can quote; migration statements for MySQL limit their length. */
  predicate Fits(p: Profile, name: string) {
    name != [] && '\0' !in name && (p == Profile(MySql, Migrating) ==> |name| <= 64)
  }

  predicate AllFit(p: Profile, names: seq<string>) {
    forall i :: 0 <= i < |names| ==> Fits(p, names[i])
  }

  function Quote(p: Profile, name: string): Result<string, CompileError> {
    if Fits(p, name) then Ok(PieceText(Quoted(QuoteOf(p.dialect), name))) else Err(InvalidPlan)
  }

  // ---------------------------------------------------------------- compilation

  /** Placeholders are filled from left to right. */
  function Parameters(e: Expression): seq<Scalar>
    decreases e
  {
    match e.kind
    case Concat => if e.separator.None? then [] else [Text(e.separator.value)]
    case Literal => [e.literal]
    case Coalesce => ParametersEach(e.arguments)
    case _ => []
  }

  function ParametersEach(es: seq<Expression>): seq<Scalar>
    decreases es
  {
    if es == [] then [] else Parameters(es[0]) + ParametersEach(es[1..])
  }

  function ColumnTrees(alias: string, names: seq<string>): (r: seq<Sql>)
    ensures |r| == |names|
  {
    if names == [] then [] else [Column(alias, names[0])] + ColumnTrees(alias, names[1..])
  }

  lemma {:induction false} ColumnTreeAt(alias: string, names: seq<string>, i: nat)
    requires i < |names|
    ensures ColumnTrees(alias, names)[i] == Column(alias, names[i])
  {
    if i > 0 { ColumnTreeAt(alias, names[1..], i - 1); }
  }

  function Tree(p: Profile, alias: string, e: Expression): Sql
    requires ValidExpression(e) && Castable(p, e)
    decreases e
  {
    match e.kind
    case SourceColumn => Column(alias, e.columns[0])
    case DirectCopy => Column(alias, e.columns[0])
    case Cast => CastAs(alias, e.columns[0], TypeName(p, e.castTo.value).value)
    case Concat =>
      if e.separator.None? then Call(CONCAT, ColumnTrees(alias, e.columns))
      else Call(CONCAT_WS, [Bound] + ColumnTrees(alias, e.columns))
    case Literal => Bound
    case Coalesce => Call(COALESCE, ColumnTrees(alias, e.columns) + TreeEach(p, alias, e.arguments))
  }

  function TreeEach(p: Profile, alias: string, es: seq<Expression>): (r: seq<Sql>)
    requires ValidExpressions(es) && CastableEach(p, es)
    ensures |r| == |es|
    decreases es
  {
    if es == [] then [] else [Tree(p, alias, es[0])] + TreeEach(p, alias, es[1..])
  }

  /** Why an expression cannot be rendered: the first objection met on the way down. */
  function Fault(p: Profile, alias: string, allowed: set<string>, e: Expression, depth: nat): Option<CompileError>
    decreases e
  {
    if depth >= MAX_DEPTH then Some(Unsupported)
    else if exists c :: c in e.columns && c !in allowed then Some(InvalidPlan)
    else if e.kind == Cast && (e.castTo.None? || TypeName(p, e.castTo.value).None?) then Some(Unsupported)
    else if e.columns != [] && !(Fits(p, alias) && AllFit(p, e.columns)) then Some(InvalidPlan)
    else FaultEach(p, alias, allowed, e.arguments, depth + 1)
  }

  function FaultEach(p: Profile, alias: string, allowed: set<string>, es: seq<Expression>, depth: nat)
    : Option<CompileError>
    decreases es
  {
    if es == [] then None
    else
      var f := Fault(p, alias, allowed, es[0], depth);
      if f.Some? then f else FaultEach(p, alias, allowed, es[1..], depth)
  }

  /** The columns and the alias can be quoted. */
  predicate Quotable(p: Profile, alias: string, columns: set<string>) {
    columns == {} || (Fits(p, alias) && forall c :: c in columns ==> Fits(p, c))
  }

  /** Exactly which expressions a dialect renders; in particular none nested more than sixteen deep. */
  lemma {:induction false} FaultFree(p: Profile, alias: string, allowed: set<string>, e: Expression, depth: nat)
    ensures Fault(p, alias, allowed, e, depth).None?
            <==> depth + Height(e) <= MAX_DEPTH && ColumnsOf(e) <= allowed && Castable(p, e)
                 && Quotable(p, alias, ColumnsOf(e))
    decreases e
  {
    hide Fits, TypeName;
    var own := set c | c in e.columns;
    FaultFreeEach(p, alias, allowed, e.arguments, depth + 1);
    assert own == {} <==> e.columns == [] by { if e.columns != [] { assert e.columns[0] in own; } }
    assert AllFit(p, e.columns) <==> forall c :: c in own ==> Fits(p, c);
  }

  lemma {:induction false} FaultFreeEach(
    p: Profile, alias: string, allowed: set<string>, es: seq<Expression>, depth: nat)
    ensures FaultEach(p, alias, allowed, es, depth).None?
            <==> (es != [] ==> depth + HeightEach(es) <= MAX_DEPTH) && ColumnsOfEach(es) <= allowed
                 && CastableEach(p, es) && Quotable(p, alias, ColumnsOfEach(es))
    decreases es
  {
    hide Fits, Fault, Height, Castable, ColumnsOf;
    if es != [] {
      FaultFree(p, alias, allowed, es[0], depth);
      FaultFreeEach(p, alias, allowed, es[1..], depth);
    }
  }

  /** What an objection to an expression says. */
  lemma {:induction false} FaultMeans(p: Profile, alias: string, allowed: set<string>, e: Expression, depth: nat)
    ensures Fault(p, alias, allowed, e, depth) == Some(Unsupported) ==> depth + Height(e) > MAX_DEPTH || !Castable(p, e)
    ensures Fault(p, alias, allowed, e, depth) == Some(InvalidPlan) ==>
              !(ColumnsOf(e) <= allowed) || !Quotable(p, alias, ColumnsOf(e))
    ensures Fault(p, alias, allowed, e, depth) != Some(UnsafeParameter) && Fault(p, alias, allowed, e, depth) != Some(InvalidResult)
    decreases e
  {
    hide Fits, TypeName;
    var own := set c | c in e.columns;
    FaultEachMeans(p, alias, allowed, e.arguments, depth + 1);
    assert own == {} <==> e.columns == [] by { if e.columns != [] { assert e.columns[0] in own; } }
    assert AllFit(p, e.columns) <==> forall c :: c in own ==> Fits(p, c);
    assert own <= ColumnsOf(e);
  }

  lemma {:induction false} FaultEachMeans(
    p: Profile, alias: string, allowed: set<string>, es: seq<Expression>, depth: nat)
    ensures FaultEach(p, alias, allowed, es, depth) == Some(Unsupported) ==>
              depth + HeightEach(es) > MAX_DEPTH || !CastableEach(p, es)
    ensures FaultEach(p, alias, allowed, es, depth) == Some(InvalidPlan) ==>
              !(ColumnsOfEach(es) <= allowed) || !Quotable(p, alias, ColumnsOfEach(es))
    ensures FaultEach(p, alias, allowed, es, depth) != Some(UnsafeParameter)
    ensures FaultEach(p, alias, allowed, es, depth) != Some(InvalidResult)
    decreases es
  {
    hide Fits, Fault, Height, Castable, ColumnsOf;
    if es != [] {
      FaultMeans(p, alias, allowed, es[0], depth);
      FaultEachMeans(p, alias, allowed, es[1..], depth);
    }
  }

  /** Every name a plan may hold can be quoted in every statement, up to the 64 characters of MySQL. */
  lemma {:induction false} NamesFit(p: Profile, name: string)
    ensures Fits(p, name) ==> name != [] && '\0' !in name
    ensures ValidName(name) && |name| <= 64 ==> Fits(p, name)
    ensures ValidName(name) && |name| > 64 ==> (Fits(p, name) <==> p.dialect != MySql || p.purpose == Validating)
  {
  }

  // ---------------------------------------------------------------- types read back

  lemma {:induction false} NamedProper(name: string)
    requires IsWord(name)
    ensures ProperType(Named(name).value)
  {
  }

  lemma {:induction false} SnowflakeTypesProper(t: CanonicalType)
    ensures SnowflakeType(t).Some? ==> ProperType(SnowflakeType(t).value)
  {
    hide ProperType;
    match t {
      case INTEGER => assert ProperType(SqlType(["NUMBER"], ["38", "0"])) by { NumberProper(); }
      case UNKNOWN =>
      case _ => NamedProper(SnowflakeType(t).value.words[0]);
    }
  }

  lemma {:induction false} NumberProper()
    ensures ProperType(SqlType(["NUMBER"], ["38", "0"]))
    ensures ProperType(SqlType(["DECIMAL"], ["65", "30"]))
    ensures ProperType(SqlType(["DOUBLE", "PRECISION"], []))
  {
  }

  lemma {:induction false} PostgreSqlTypesProper(t: CanonicalType, purpose: Purpose)
    ensures PostgreSqlType(t, purpose).Some? ==> ProperType(PostgreSqlType(t, purpose).value)
  {
    hide ProperType;
    match t {
      case FLOAT => NumberProper();
      case UNKNOWN =>
      case _ => NamedProper(PostgreSqlType(t, purpose).value.words[0]);
    }
  }

  lemma {:induction false} MySqlTypesProper(t: CanonicalType, purpose: Purpose)
    ensures MySqlType(t, purpose).Some? ==> ProperType(MySqlType(t, purpose).value)
  {
    hide ProperType;
    match t {
      case DECIMAL =>
        if purpose == Migrating { NamedProper("DECIMAL"); } else { NumberProper(); }
      case UNKNOWN =>
      case TIMESTAMP_TZ =>
      case _ => NamedProper(MySqlType(t, purpose).value.words[0]);
    }
  }

  lemma {:induction false} TypesProper(p: Profile, t: CanonicalType)
    ensures TypeName(p, t).Some? ==> ProperType(TypeName(p, t).value)
  {
    hide ProperType, SnowflakeType, PostgreSqlType, MySqlType;
    SnowflakeTypesProper(t);
    PostgreSqlTypesProper(t, p.purpose);
    MySqlTypesProper(t, p.purpose);
  }

  lemma {:induction false} TypesDiffer(p: Profile, t: CanonicalType, u: CanonicalType)
    requires TypeName(p, t).Some? && TypeName(p, t) == TypeName(p, u)
    ensures t == u
  {
    match p.dialect {
      case Snowflake =>
      case PostgreSql =>
      case MySql =>
    }
  }

  lemma {:induction false} TypeFound(p: Profile, t: CanonicalType, types: seq<CanonicalType>)
    requires TypeName(p, t).Some? && t in types
    ensures TypeAmong(p, TypeName(p, t).value, types) == Some(t)
  {
    hide TypeName;
    if TypeName(p, types[0]) == TypeName(p, t) {
      TypesDiffer(p, t, types[0]);
    } else {
      assert t in types[1..];
      TypeFound(p, t, types[1..]);
    }
  }

  /** A dialect's type name stands for one canonical type only. */
  lemma {:induction false} TypeRoundTrip(p: Profile, t: CanonicalType)
    requires TypeName(p, t).Some?
    ensures TypeMeant(p, TypeName(p, t).value) == Some(t)
  {
    assert t in AllTypes by {
      assert AllTypes[0] == STRING && AllTypes[1] == INTEGER && AllTypes[2] == DECIMAL && AllTypes[3] == FLOAT;
      assert AllTypes[4] == BOOLEAN && AllTypes[5] == DATE && AllTypes[6] == TIME && AllTypes[7] == TIMESTAMP;
      assert AllTypes[8] == TIMESTAMP_TZ && AllTypes[9] == BINARY && AllTypes[10] == SEMI_STRUCTURED;
      assert TypeName(p, UNKNOWN).None?;
    }
    TypeFound(p, t, AllTypes);
  }

  // ---------------------------------------------------------------- the tree means the expression

  predicate HasAll(row: Row, names: set<string>) {
    forall c :: c in names ==> c in row
  }

  lemma {:induction false} ColumnTreesMeaning(ops: Ops, p: Profile, alias: string, names: seq<string>, row: Row)
    requires forall i :: 0 <= i < |names| ==> names[i] in row
    ensures HolesEach(ColumnTrees(alias, names)) == 0
    ensures EvalEach(ops, p, alias, ColumnTrees(alias, names), row, []) == Some(Cells(row, names))
  {
    if names != [] {
      ColumnTreesMeaning(ops, p, alias, names[1..], row);
      var none: seq<Scalar> := [];
      EvalEachFirst(ops, p, alias, Column(alias, names[0]), ColumnTrees(alias, names[1..]), row, none, none);
      assert none + none == none;
      }
  }

  lemma {:induction false} ConcatWsMeaning(ops: Ops, p: Profile, alias: string, separator: string, names: seq<string>, row: Row)
    requires forall i :: 0 <= i < |names| ==> names[i] in row
    ensures var e := Call(CONCAT_WS, [Bound] + ColumnTrees(alias, names));
            Holes(e) == 1 &&
            Eval(ops, p, alias, e, row, [Text(separator)]) == Some(ops.concatWs(Text(separator), Cells(row, names)))
  {
    var trees, sep := ColumnTrees(alias, names), Text(separator);
    ColumnTreesMeaning(ops, p, alias, names, row);
    EvalEachFirst(ops, p, alias, Bound, trees, row, [sep], []);
    assert [sep] + [] == [sep];
    var vs := [sep] + Cells(row, names);
    assert vs[0] == sep && vs[1..] == Cells(row, names);
  }

  /** Evaluating the tree with its own parameters gives the value of the expression. */
  lemma {:induction false} TreeMeaning(ops: Ops, p: Profile, alias: string, e: Expression, row: Row)
    requires ValidExpression(e) && Castable(p, e) && HasAll(row, ColumnsOf(e))
    ensures Holes(Tree(p, alias, e)) == |Parameters(e)|
    ensures Eval(ops, p, alias, Tree(p, alias, e), row, Parameters(e)) == Some(Denote(ops, e, row))
    decreases e
  {
    hide TypeName, TypeMeant, FirstKnown;
    forall i | 0 <= i < |e.columns| ensures e.columns[i] in row { assert e.columns[i] in ColumnsOf(e); }
    match e.kind
    case SourceColumn =>
    case DirectCopy =>
    case Literal =>
    case Cast => TypeRoundTrip(p, e.castTo.value);
    case Concat =>
      if e.separator.Some? {
        ConcatWsMeaning(ops, p, alias, e.separator.value, e.columns, row);
      } else {
        ColumnTreesMeaning(ops, p, alias, e.columns, row);
      }
    case Coalesce =>
      assert HasAll(row, ColumnsOfEach(e.arguments));
      TreeEachMeaning(ops, p, alias, e.arguments, row);
      CoalesceMeaning(ops, p, alias, e.columns, e.arguments, row);
  }

  lemma {:induction false} CoalesceMeaning(ops: Ops, p: Profile, alias: string, names: seq<string>, es: seq<Expression>, row: Row)
    requires forall i :: 0 <= i < |names| ==> names[i] in row
    requires ValidExpressions(es) && CastableEach(p, es)
    requires HolesEach(TreeEach(p, alias, es)) == |ParametersEach(es)|
    requires EvalEach(ops, p, alias, TreeEach(p, alias, es), row, ParametersEach(es)) == Some(DenoteEach(ops, es, row))
    ensures var e := Call(COALESCE, ColumnTrees(alias, names) + TreeEach(p, alias, es));
            Holes(e) == |ParametersEach(es)| &&
            Eval(ops, p, alias, e, row, ParametersEach(es))
            == Some(FirstKnown(Cells(row, names) + DenoteEach(ops, es, row)))
  {
    hide FirstKnown, EvalEach, TreeEach, DenoteEach, ParametersEach, HolesEach, CastableEach, ValidExpressions;
    var a, b, ps := ColumnTrees(alias, names), TreeEach(p, alias, es), ParametersEach(es);
    ColumnTreesMeaning(ops, p, alias, names, row);
    EvalEachAppend(ops, p, alias, a, b, row, [], ps);
    assert [] + ps == ps;
  }

  lemma {:induction false} TreeEachMeaning(ops: Ops, p: Profile, alias: string, es: seq<Expression>, row: Row)
    requires ValidExpressions(es) && CastableEach(p, es) && HasAll(row, ColumnsOfEach(es))
    ensures HolesEach(TreeEach(p, alias, es)) == |ParametersEach(es)|
    ensures EvalEach(ops, p, alias, TreeEach(p, alias, es), row, ParametersEach(es)) == Some(DenoteEach(ops, es, row))
    decreases es
  {
    hide Tree, Denote, Parameters, Eval, ColumnsOf, Castable, ValidExpression, Holes;
    if es != [] {
      assert HasAll(row, ColumnsOf(es[0])) && HasAll(row, ColumnsOfEach(es[1..]));
      TreeMeaning(ops, p, alias, es[0], row);
      TreeEachMeaning(ops, p, alias, es[1..], row);
      EvalEachFirst(ops, p, alias, Tree(p, alias, es[0]), TreeEach(p, alias, es[1..]), row,
                    Parameters(es[0]), ParametersEach(es[1..]));
    }
  }

  // ---------------------------------------------------------------- the tree can be printed

  lemma {:induction false} ColumnTreesPrintable(alias: string, names: seq<string>)
    ensures AllPrintable(ColumnTrees(alias, names))
  {
    if names != [] { ColumnTreesPrintable(alias, names[1..]); }
  }

  lemma {:induction false} AllPrintableAppend(a: seq<Sql>, b: seq<Sql>)
    requires AllPrintable(a) && AllPrintable(b)
    ensures AllPrintable(a + b)
    decreases a
  {
    if a == [] {
      assert a + b == b;
    } else {
      assert (a + b)[0] == a[0] && (a + b)[1..] == a[1..] + b;
      AllPrintableAppend(a[1..], b);
    }
  }

  lemma {:induction false} TreePrintable(p: Profile, alias: string, e: Expression)
    requires ValidExpression(e) && Castable(p, e)
    ensures Printable(Tree(p, alias, e))
    decreases e
  {
    hide TypeName, ProperType;
    ColumnTreesPrintable(alias, e.columns);
    match e.kind
    case SourceColumn =>
    case DirectCopy =>
    case Literal =>
    case Cast => TypesProper(p, e.castTo.value);
    case Concat => AllPrintableAppend([Bound], ColumnTrees(alias, e.columns));
    case Coalesce =>
      TreeEachPrintable(p, alias, e.arguments);
      AllPrintableAppend(ColumnTrees(alias, e.columns), TreeEach(p, alias, e.arguments));
  }

  lemma {:induction false} TreeEachPrintable(p: Profile, alias: string, es: seq<Expression>)
    requires ValidExpressions(es) && CastableEach(p, es)
    ensures AllPrintable(TreeEach(p, alias, es))
    decreases es
  {
    if es != [] {
      TreePrintable(p, alias, es[0]);
      TreeEachPrintable(p, alias, es[1..]);
      assert TreeEach(p, alias, es)[1..] == TreeEach(p, alias, es[1..]);
    }
  }

  // ---------------------------------------------------------------- dialects agree

  /** A tree without its type names. */
  function Shape(e: Sql): Sql
    decreases e
  {
    match e
    case CastAs(alias, name, _) => CastAs(alias, name, SqlType([], []))
    case Call(fn, args) => Call(fn, ShapeEach(args))
    case _ => e
  }

  function ShapeEach(es: seq<Sql>): seq<Sql>
    decreases es
  {
    if es == [] then [] else [Shape(es[0])] + ShapeEach(es[1..])
  }

  lemma {:induction false} ShapeEachAppend(a: seq<Sql>, b: seq<Sql>)
    ensures ShapeEach(a + b) == ShapeEach(a) + ShapeEach(b)
    decreases a
  {
    if a == [] {
      assert a + b == b;
    } else {
      assert (a + b)[0] == a[0] && (a + b)[1..] == a[1..] + b;
      ShapeEachAppend(a[1..], b);
    }
  }

  /** Two dialects that both render an expression build the same tree, up to type names. */
  lemma {:induction false} SameShape(p: Profile, q: Profile, alias: string, e: Expression)
    requires ValidExpression(e) && Castable(p, e) && Castable(q, e)
    ensures Shape(Tree(p, alias, e)) == Shape(Tree(q, alias, e))
    decreases e
  {
    hide TypeName;
    if e.kind == Coalesce {
      SameShapeEach(p, q, alias, e.arguments);
      ShapeEachAppend(ColumnTrees(alias, e.columns), TreeEach(p, alias, e.arguments));
      ShapeEachAppend(ColumnTrees(alias, e.columns), TreeEach(q, alias, e.arguments));
    }
  }

  lemma {:induction false} SameShapeEach(p: Profile, q: Profile, alias: string, es: seq<Expression>)
    requires ValidExpressions(es) && CastableEach(p, es) && CastableEach(q, es)
    ensures ShapeEach(TreeEach(p, alias, es)) == ShapeEach(TreeEach(q, alias, es))
    decreases es
  {
    hide Tree, Castable, ValidExpression;
    if es != [] {
      SameShape(p, q, alias, es[0]);
      SameShapeEach(p, q, alias, es[1..]);
    }
  }
}
