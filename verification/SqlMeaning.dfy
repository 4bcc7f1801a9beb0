/**
 * What the generated SQL computes. Casting and concatenation are the same uninterpreted
 * operations in every dialect; the i-th placeholder stands for the i-th bound parameter.
 */
module SqlMeaning {
  import opened Common
  import opened MappingModel
  import opened SqlTree
  import opened SqlStatement

  datatype Dialect = Snowflake | PostgreSql | MySql

  /** Migration statements and validation statements use slightly different type names and limits. */
  datatype Purpose = Migrating | Validating

  datatype Profile = Profile(dialect: Dialect, purpose: Purpose)

  function Named(name: string): Option<SqlType> {
    Some(SqlType([name], []))
  }

  function SnowflakeType(t: CanonicalType): Option<SqlType> {
    match t
    case BOOLEAN => Named("BOOLEAN")
    case INTEGER => Some(SqlType(["NUMBER"], ["38", "0"]))
    case DECIMAL => Named("NUMBER")
    case FLOAT => Named("FLOAT")
    case STRING => Named("VARCHAR")
    case DATE => Named("DATE")
    case TIME => Named("TIME")
    case TIMESTAMP => Named("TIMESTAMP_NTZ")
    case TIMESTAMP_TZ => Named("TIMESTAMP_TZ")
    case BINARY => Named("BINARY")
    case SEMI_STRUCTURED => Named("VARIANT")
    case UNKNOWN => None
  }

  function PostgreSqlType(t: CanonicalType, purpose: Purpose): Option<SqlType> {
    match t
    case BOOLEAN => Named("BOOLEAN")
    case INTEGER => Named("BIGINT")
    case DECIMAL => if purpose == Migrating then Named("NUMERIC") else Named("DECIMAL")
    case FLOAT => Some(SqlType(["DOUBLE", "PRECISION"], []))
    case STRING => Named("TEXT")
    case DATE => Named("DATE")
    case TIME => Named("TIME")
    case TIMESTAMP => Named("TIMESTAMP")
    case TIMESTAMP_TZ => Named("TIMESTAMPTZ")
    case BINARY => Named("BYTEA")
    case SEMI_STRUCTURED => Named("JSONB")
    case UNKNOWN => None
  }

  /** MySQL has no time zone type, and its casts use other names than its column types. */
  function MySqlType(t: CanonicalType, purpose: Purpose): Option<SqlType> {
    match t
    case BOOLEAN => if purpose == Migrating then Named("BOOLEAN") else Named("UNSIGNED")
    case INTEGER => if purpose == Migrating then Named("BIGINT") else Named("SIGNED")
    case DECIMAL => if purpose == Migrating then Named("DECIMAL") else Some(SqlType(["DECIMAL"], ["65", "30"]))
    case FLOAT => Named("DOUBLE")
    case STRING => if purpose == Migrating then Named("TEXT") else Named("CHAR")
    case DATE => Named("DATE")
    case TIME => Named("TIME")
    case TIMESTAMP => Named("DATETIME")
    case TIMESTAMP_TZ => None
    case BINARY => if purpose == Migrating then Named("LONGBLOB") else Named("BINARY")
    case SEMI_STRUCTURED => Named("JSON")
    case UNKNOWN => None
  }

  function TypeName(p: Profile, t: CanonicalType): Option<SqlType> {
    match p.dialect
    case Snowflake => SnowflakeType(t)
    case PostgreSql => PostgreSqlType(t, p.purpose)
    case MySql => MySqlType(t, p.purpose)
  }

  const AllTypes := [STRING, INTEGER, DECIMAL, FLOAT, BOOLEAN, DATE, TIME, TIMESTAMP, TIMESTAMP_TZ, BINARY,
                     SEMI_STRUCTURED]

  function TypeAmong(p: Profile, name: SqlType, types: seq<CanonicalType>): Option<CanonicalType> {
    if types == [] then None
    else if TypeName(p, types[0]) == Some(name) then Some(types[0])
    else TypeAmong(p, name, types[1..])
  }

  /** The canonical type a type name stands for. */
  function TypeMeant(p: Profile, name: SqlType): Option<CanonicalType> {
    TypeAmong(p, name, AllTypes)
  }

  // ---------------------------------------------------------------- values

  type Row = map<string, Scalar>

  datatype Ops = Ops(
    cast: (CanonicalType, Scalar) -> Scalar,
    concat: seq<Scalar> -> Scalar,
    concatWs: (Scalar, seq<Scalar>) -> Scalar)

  /** The first value that is not null. */
  function FirstKnown(vs: seq<Scalar>): Scalar {
    if vs == [] then Null else if vs[0] != Null then vs[0] else FirstKnown(vs[1..])
  }

  // ---------------------------------------------------------------- expressions

  /** Number of placeholders. */
  function Holes(e: Sql): nat
    decreases e
  {
    match e
    case Column(_, _) => 0
    case Bound => 1
    case CastAs(_, _, _) => 0
    case Call(_, args) => HolesEach(args)
  }

  function HolesEach(es: seq<Sql>): nat
    decreases es
  {
    if es == [] then 0 else Holes(es[0]) + HolesEach(es[1..])
  }

  function ApplyFunction(ops: Ops, fn: Function, vs: seq<Scalar>): Option<Scalar> {
    match fn
    case CONCAT => Some(ops.concat(vs))
    case CONCAT_WS => if vs == [] then None else Some(ops.concatWs(vs[0], vs[1..]))
    case COALESCE => Some(FirstKnown(vs))
  }

  /** Unknown aliases, columns and types are errors. */
  function Eval(ops: Ops, p: Profile, alias: string, e: Sql, row: Row, params: seq<Scalar>): Option<Scalar>
    requires |params| == Holes(e)
    decreases e
  {
    match e
    case Column(a, n) => if a == alias && n in row then Some(row[n]) else None
    case Bound => Some(params[0])
    case CastAs(a, n, to) =>
      var t :- TypeMeant(p, to);
      if a == alias && n in row then Some(ops.cast(t, row[n])) else None
    case Call(fn, args) =>
      var vs :- EvalEach(ops, p, alias, args, row, params);
      ApplyFunction(ops, fn, vs)
  }

  function Prepend<T>(x: Option<T>, xs: Option<seq<T>>): (r: Option<seq<T>>)
    ensures r.Some? <==> x.Some? && xs.Some?
    ensures r.Some? ==> |r.value| == 1 + |xs.value|
  {
    if x.None? || xs.None? then None else Some([x.value] + xs.value)
  }

  function EvalEach(ops: Ops, p: Profile, alias: string, es: seq<Sql>, row: Row, params: seq<Scalar>)
    : (r: Option<seq<Scalar>>)
    requires |params| == HolesEach(es)
    ensures r.Some? ==> |r.value| == |es|
    decreases es
  {
    if es == [] then Some([])
    else
      Prepend(Eval(ops, p, alias, es[0], row, params[..Holes(es[0])]),
              EvalEach(ops, p, alias, es[1..], row, params[Holes(es[0])..]))
  }

  lemma {:induction false} EvalEachFirst(
    ops: Ops, p: Profile, alias: string, e: Sql, es: seq<Sql>, row: Row, pe: seq<Scalar>, ps: seq<Scalar>)
    requires |pe| == Holes(e) && |ps| == HolesEach(es)
    ensures HolesEach([e] + es) == |pe + ps|
    ensures EvalEach(ops, p, alias, [e] + es, row, pe + ps)
            == Prepend(Eval(ops, p, alias, e, row, pe), EvalEach(ops, p, alias, es, row, ps))
  {
    hide Eval, Holes, Prepend;
    assert ([e] + es)[0] == e && ([e] + es)[1..] == es;
    assert (pe + ps)[..|pe|] == pe && (pe + ps)[|pe|..] == ps;
  }

  function Both<T>(xs: Option<seq<T>>, ys: Option<seq<T>>): Option<seq<T>> {
    if xs.None? || ys.None? then None else Some(xs.value + ys.value)
  }

  lemma {:induction false} BothEmpty<T>(ys: Option<seq<T>>)
    ensures Both(Some([]), ys) == ys
  {
    assert ys.Some? ==> [] + ys.value == ys.value;
  }

  lemma {:induction false} BothPrepend<T>(x: Option<T>, xs: Option<seq<T>>, ys: Option<seq<T>>)
    ensures Both(Prepend(x, xs), ys) == Prepend(x, Both(xs, ys))
  {
    assert x.Some? && xs.Some? && ys.Some? ==> ([x.value] + xs.value) + ys.value == [x.value] + (xs.value + ys.value);
  }

  lemma {:induction false} HolesAppend(a: seq<Sql>, b: seq<Sql>)
    ensures HolesEach(a + b) == HolesEach(a) + HolesEach(b)
    decreases a
  {
    hide Holes;
    if a == [] {
      assert a + b == b;
    } else {
      assert (a + b)[0] == a[0] && (a + b)[1..] == a[1..] + b;
      HolesAppend(a[1..], b);
    }
  }

  /** Parameters of consecutive expressions follow each other. */
  lemma {:induction false} EvalEachAppend(
    ops: Ops, p: Profile, alias: string, a: seq<Sql>, b: seq<Sql>, row: Row, pa: seq<Scalar>, pb: seq<Scalar>)
    requires |pa| == HolesEach(a) && |pb| == HolesEach(b)
    ensures HolesEach(a + b) == |pa + pb|
    ensures EvalEach(ops, p, alias, a + b, row, pa + pb)
            == Both(EvalEach(ops, p, alias, a, row, pa), EvalEach(ops, p, alias, b, row, pb))
    decreases a
  {
    hide Eval, Holes, Both, Prepend;
    HolesAppend(a, b);
    var ys := EvalEach(ops, p, alias, b, row, pb);
    if a == [] {
      assert a + b == b && pa + pb == pb;
      BothEmpty(ys);
    } else {
      var n := Holes(a[0]);
      var qa := pa[n..];
      assert |qa| == HolesEach(a[1..]) && |pa[..n]| == n;
      assert a == [a[0]] + a[1..] && pa == pa[..n] + qa;
      assert a + b == [a[0]] + (a[1..] + b) && pa + pb == pa[..n] + (qa + pb);
      hide EvalEach, HolesEach;
      EvalEachFirst(ops, p, alias, a[0], a[1..], row, pa[..n], qa);
      EvalEachAppend(ops, p, alias, a[1..], b, row, qa, pb);
      EvalEachFirst(ops, p, alias, a[0], a[1..] + b, row, pa[..n], qa + pb);
      BothPrepend(Eval(ops, p, alias, a[0], row, pa[..n]), EvalEach(ops, p, alias, a[1..], row, qa), ys);
    }
  }

  // ---------------------------------------------------------------- statements

  /** One row whose columns have the given values. */
  function MakeRow(columns: seq<string>, values: seq<Scalar>): Row
    requires |columns| == |values|
  {
    if columns == [] then map[]
    else MakeRow(columns[1..], values[1..])[columns[0] := values[0]]
  }

  /** One row per source row, each value under its column. */
  function Project(
    ops: Ops, p: Profile, alias: string, columns: seq<string>, values: seq<Sql>, rows: seq<Row>, params: seq<Scalar>)
    : Option<seq<Row>>
    requires |columns| == |values| && |params| == HolesEach(values)
  {
    if rows == [] then Some([])
    else
      var vs := EvalEach(ops, p, alias, values, rows[0], params);
      var row := if vs.Some? then Some(MakeRow(columns, vs.value)) else None;
      Prepend(row, Project(ops, p, alias, columns, values, rows[1..], params))
  }

  function NamesOf(items: seq<Item>): (r: seq<string>)
    ensures |r| == |items| && forall i :: 0 <= i < |items| ==> r[i] == items[i].name
  {
    seq(|items|, i requires 0 <= i < |items| => items[i].name)
  }

  predicate AllValues(items: seq<Item>) {
    forall i :: 0 <= i < |items| ==> items[i].projection.Value?
  }

  function ValuesOf(items: seq<Item>): (r: seq<Sql>)
    requires AllValues(items)
    ensures |r| == |items| && forall i :: 0 <= i < |items| ==> r[i] == items[i].projection.e
  {
    seq(|items|, i requires 0 <= i < |items| => items[i].projection.e)
  }

  /**
   * The rows a migration statement produces from the rows of its source relation: inserted into the
   * target for an insert-select, returned for a select. A wrong number of parameters is an error.
   */
  function RowsOf(ops: Ops, p: Profile, s: Statement, params: seq<Scalar>, rows: seq<Row>): Option<seq<Row>> {
    match s
    case InsertSelect(_, columns, values, _, alias) =>
      if |columns| != |values| || |params| != HolesEach(values) then None
      else Project(ops, p, alias, columns, values, rows, params)
    case Select(items, _, alias) =>
      if !AllValues(items) || |params| != HolesEach(ValuesOf(items)) then None
      else Project(ops, p, alias, NamesOf(items), ValuesOf(items), rows, params)
  }

  function ItemHoles(item: Item): nat {
    if item.projection.CountAll? then 0 else Holes(item.projection.e)
  }

  function ItemsHoles(items: seq<Item>): nat {
    if items == [] then 0 else ItemHoles(items[0]) + ItemsHoles(items[1..])
  }

  /** The values of one expression in every row. */
  function EvalRows(ops: Ops, p: Profile, alias: string, e: Sql, rows: seq<Row>, params: seq<Scalar>)
    : (r: Option<seq<Scalar>>)
    requires |params| == Holes(e)
    ensures r.Some? ==> |r.value| == |rows|
  {
    if rows == [] then Some([])
    else
      Prepend(Eval(ops, p, alias, e, rows[0], params), EvalRows(ops, p, alias, e, rows[1..], params))
  }

  function NullsIn(vs: seq<Scalar>): nat {
    if vs == [] then 0 else (if vs[0] == Null then 1 else 0) + NullsIn(vs[1..])
  }

  /** The values that are not null, each once. */
  function KnownValues(vs: seq<Scalar>): set<Scalar> {
    set v | v in vs && v != Null
  }

  /** An aggregate over all rows; a sum over no row is null. */
  function Aggregate(ops: Ops, p: Profile, alias: string, pr: Projection, rows: seq<Row>, params: seq<Scalar>)
    : Option<Scalar>
    requires !pr.Value?
    requires |params| == if pr.CountAll? then 0 else Holes(pr.e)
  {
    match pr
    case CountAll => Some(Whole(|rows|))
    case NullCount(e) =>
      var vs :- EvalRows(ops, p, alias, e, rows, params);
      Some(if rows == [] then Null else Whole(NullsIn(vs)))
    case DistinctCount(e) =>
      var vs :- EvalRows(ops, p, alias, e, rows, params);
      Some(Whole(|KnownValues(vs)|))
  }

  /** One aggregate after the other, each with its own share of the parameters. */
  function AggregateEach(ops: Ops, p: Profile, alias: string, items: seq<Item>, rows: seq<Row>, params: seq<Scalar>)
    : (r: Option<seq<Scalar>>)
    requires |params| == ItemsHoles(items)
    ensures r.Some? ==> |r.value| == |items|
  {
    if items == [] then Some([])
    else if items[0].projection.Value? then None
    else
      var n := ItemHoles(items[0]);
      Prepend(Aggregate(ops, p, alias, items[0].projection, rows, params[..n]),
              AggregateEach(ops, p, alias, items[1..], rows, params[n..]))
  }

  /** The single row of metrics an aggregate statement returns. */
  function MetricsOf(ops: Ops, p: Profile, s: Statement, params: seq<Scalar>, rows: seq<Row>): Option<Row> {
    if !s.Select? || |params| != ItemsHoles(s.items) then None
    else
      var vs := AggregateEach(ops, p, s.alias, s.items, rows, params);
      if vs.None? then None else Some(MakeRow(NamesOf(s.items), vs.value))
  }

  lemma {:induction false} AggregateFirst(
    ops: Ops, p: Profile, alias: string, item: Item, items: seq<Item>, rows: seq<Row>, pa: seq<Scalar>, pb: seq<Scalar>)
    requires |pa| == ItemHoles(item) && |pb| == ItemsHoles(items) && !item.projection.Value?
    ensures ItemsHoles([item] + items) == |pa + pb|
    ensures AggregateEach(ops, p, alias, [item] + items, rows, pa + pb)
            == Prepend(Aggregate(ops, p, alias, item.projection, rows, pa),
                       AggregateEach(ops, p, alias, items, rows, pb))
  {
    hide Aggregate, Holes, Prepend;
    assert ([item] + items)[0] == item && ([item] + items)[1..] == items;
    assert (pa + pb)[..|pa|] == pa && (pa + pb)[|pa|..] == pb;
  }
}
