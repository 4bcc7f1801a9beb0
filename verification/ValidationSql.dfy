/**
 * Compiling an approved plan to a pair of aggregate queries with identical metric names: a row
 * count, a null count for every mapping and, unless its compatibility is unknown, a distinct count.
 */
module ValidationSql {
  import opened Common
  import opened Digits
  import opened MappingModel
  import opened SqlTree
  import opened SqlStatement
  import opened SqlMeaning
  import opened Transformation
  import opened CompiledPlan
  import R = Reconciliation

  // ---------------------------------------------------------------- names of metrics

  function NullName(index: nat): string {
    "m" + Padded(index) + "_" + "null_count"
  }

  function DistinctName(index: nat): string {
    "m" + Padded(index) + "_" + "distinct_count"
  }

  const ROW_COUNT := "row_count"

  lemma {:induction false} MetricNames(i: nat, x: string, j: nat, y: string)
    requires "m" + Padded(i) + "_" + x == "m" + Padded(j) + "_" + y
    ensures i == j && x == y
  {
    hide Padded;
    var s, t := "m" + Padded(i) + "_" + x, "m" + Padded(j) + "_" + y;
    assert s[1..] == Padded(i) + "_" + x && t[1..] == Padded(j) + "_" + y;
    DigitsBefore(Padded(i), x, Padded(j), y);
    PaddedValue(i);
    PaddedValue(j);
  }

  lemma {:induction false} SuffixesDiffer()
    ensures "null_count" != "distinct_count"
  {
    assert "null_count"[0] != "distinct_count"[0];
  }

  // ---------------------------------------------------------------- checks and projections

  predicate HasDistinct(m: Approval) {
    m.compatibility != Unclear
  }

  const RowCountCheck := R.Check(ROW_COUNT, R.RowCheck, None, None, ROW_COUNT, ROW_COUNT)

  function NullCheckOf(index: nat, m: Approval): R.Check {
    R.Check(NullName(index), R.NullCheck, Some(m.source), m.target, NullName(index), NullName(index))
  }

  function DistinctCheckOf(index: nat, m: Approval): R.Check {
    R.Check(DistinctName(index), R.DistinctCheck, Some(m.source), m.target, DistinctName(index), DistinctName(index))
  }

  /** The checks of the mappings from `index` on. */
  function ChecksFrom(index: nat, ms: seq<Approval>): seq<R.Check>
    decreases ms
  {
    if ms == [] then []
    else
      [NullCheckOf(index, ms[0])] + (if HasDistinct(ms[0]) then [DistinctCheckOf(index, ms[0])] else [])
      + ChecksFrom(index + 1, ms[1..])
  }

  function ChecksOf(ms: seq<Approval>): seq<R.Check> {
    [RowCountCheck] + ChecksFrom(0, ms)
  }

  /** The projections that measure one tree per mapping. */
  function ItemsFrom(index: nat, ms: seq<Approval>, trees: seq<Sql>): seq<Item>
    requires |ms| == |trees|
    decreases ms
  {
    if ms == [] then []
    else
      [Item(NullCount(trees[0]), NullName(index))]
      + (if HasDistinct(ms[0]) then [Item(DistinctCount(trees[0]), DistinctName(index))] else [])
      + ItemsFrom(index + 1, ms[1..], trees[1..])
  }

  function MetricItems(ms: seq<Approval>, trees: seq<Sql>): seq<Item>
    requires |ms| == |trees|
  {
    [Item(CountAll, ROW_COUNT)] + ItemsFrom(0, ms, trees)
  }

  /** An expression is rendered, and its parameters are bound, once or twice. */
  function MetricParameters(ms: seq<Approval>): seq<Scalar>
    requires Complete(ms)
  {
    if ms == [] then []
    else
      var ps := Parameters(ms[0].transformation.value);
      ps + (if HasDistinct(ms[0]) then ps else []) + MetricParameters(ms[1..])
  }

  lemma {:induction false} ItemNames(index: nat, ms: seq<Approval>, trees: seq<Sql>)
    requires |ms| == |trees|
    ensures |ItemsFrom(index, ms, trees)| == |ChecksFrom(index, ms)|
    ensures forall k :: 0 <= k < |ChecksFrom(index, ms)| ==>
              var c := ChecksFrom(index, ms)[k];
              ItemsFrom(index, ms, trees)[k].name == c.id == c.sourceAlias == c.targetAlias
    decreases ms
  {
    hide NullName, DistinctName;
    if ms != [] { ItemNames(index + 1, ms[1..], trees[1..]); }
  }

  function IdsOf(cs: seq<R.Check>): (ids: seq<string>)
    ensures |ids| == |cs| && forall i :: 0 <= i < |cs| ==> ids[i] == cs[i].id
  {
    seq(|cs|, i requires 0 <= i < |cs| => cs[i].id)
  }

  /** A metric name at or after `index`. */
  ghost predicate NameFrom(index: nat, s: string) {
    exists i: nat :: index <= i && (s == NullName(i) || s == DistinctName(i))
  }

  lemma {:induction false} ChecksFromNames(index: nat, ms: seq<Approval>)
    ensures forall k :: 0 <= k < |ChecksFrom(index, ms)| ==> NameFrom(index, ChecksFrom(index, ms)[k].id)
    decreases ms
  {
    hide NullName, DistinctName;
    if ms != [] {
      ChecksFromNames(index + 1, ms[1..]);
      var rest := ChecksFrom(index + 1, ms[1..]);
      var front: seq<R.Check> := [NullCheckOf(index, ms[0])] + (if HasDistinct(ms[0]) then [DistinctCheckOf(index, ms[0])] else []);
      forall k | 0 <= k < |front + rest| ensures NameFrom(index, (front + rest)[k].id) {
        if k >= |front| { LaterName(index, rest[k - |front|].id); }
      }
    }
  }

  lemma {:induction false} LaterName(index: nat, s: string)
    requires NameFrom(index + 1, s)
    ensures NameFrom(index, s)
  {
    hide NullName, DistinctName;
    var i: nat :| index + 1 <= i && (s == NullName(i) || s == DistinctName(i));
    assert index <= i;
  }

  lemma {:induction false} NamesApart(index: nat, s: string)
    requires NameFrom(index + 1, s)
    ensures s != NullName(index) && s != DistinctName(index)
  {
    var i: nat :| index + 1 <= i && (s == NullName(i) || s == DistinctName(i));
    var x := if s == NullName(i) then "null_count" else "distinct_count";
    assert s == "m" + Padded(i) + "_" + x;
    if s == NullName(index) { MetricNames(index, "null_count", i, x); }
    if s == DistinctName(index) { MetricNames(index, "distinct_count", i, x); }
  }

  lemma {:induction false} OwnNamesApart(index: nat)
    ensures NullName(index) != DistinctName(index)
  {
    SuffixesDiffer();
    if NullName(index) == DistinctName(index) { MetricNames(index, "null_count", index, "distinct_count"); }
  }

  lemma {:induction false} ChecksFromDistinct(index: nat, ms: seq<Approval>)
    ensures Distinct(IdsOf(ChecksFrom(index, ms)))
    decreases ms
  {
    hide NullName, DistinctName, NameFrom;
    if ms != [] {
      var rest := ChecksFrom(index + 1, ms[1..]);
      ChecksFromDistinct(index + 1, ms[1..]);
      ChecksFromNames(index + 1, ms[1..]);
      forall k | 0 <= k < |rest| ensures rest[k].id != NullName(index) && rest[k].id != DistinctName(index) {
        NamesApart(index, rest[k].id);
      }
      OwnNamesApart(index);
      PrependDistinct(NullCheckOf(index, ms[0]),
                      if HasDistinct(ms[0]) then [DistinctCheckOf(index, ms[0])] else [], rest);
    }
  }

  lemma {:induction false} PrependDistinct(a: R.Check, b: seq<R.Check>, rest: seq<R.Check>)
    requires Distinct(IdsOf(rest)) && |b| <= 1
    requires forall k :: 0 <= k < |rest| ==> rest[k].id != a.id && (b != [] ==> rest[k].id != b[0].id)
    requires b != [] ==> a.id != b[0].id
    ensures Distinct(IdsOf([a] + b + rest))
  {
    var all := [a] + b + rest;
    forall i, j | 0 <= i < j < |all| ensures all[i].id != all[j].id {
      if i > |b| { assert IdsOf(rest)[i - 1 - |b|] != IdsOf(rest)[j - 1 - |b|]; }
    }
  }

  /** Metric names never collide, however many mappings there are. */
  lemma {:induction false} CheckIdsDistinct(ms: seq<Approval>)
    ensures Distinct(IdsOf(ChecksOf(ms)))
  {
    hide NullName, DistinctName;
    var rest := ChecksFrom(0, ms);
    ChecksFromDistinct(0, ms);
    ChecksFromNames(0, ms);
    forall k | 0 <= k < |rest| ensures rest[k].id != ROW_COUNT { NotRowCount(rest[k].id); }
    PrependDistinct(RowCountCheck, [], rest);
    assert [RowCountCheck] + [] + rest == ChecksOf(ms);
  }

  lemma {:induction false} NotRowCount(s: string)
    requires NameFrom(0, s)
    ensures s != ROW_COUNT
  {
    var i: nat :| s == NullName(i) || s == DistinctName(i);
    assert s[0] == 'm' && ROW_COUNT[0] == 'r';
  }

  // ---------------------------------------------------------------- what is checked

  predicate IsCheckOf(c: R.Check, kind: R.CheckKind, m: Approval) {
    c.kind == kind && c.sourceColumn == Some(m.source) && c.targetColumn == m.target
  }

  ghost predicate HasCheck(checks: seq<R.Check>, kind: R.CheckKind, m: Approval) {
    exists c :: c in checks && IsCheckOf(c, kind, m)
  }

  /** The check counts NULLs or distinct values for one of the mappings. */
  ghost predicate ChecksSome(c: R.Check, ms: seq<Approval>) {
    exists m ::
      && m in ms
      && (IsCheckOf(c, R.NullCheck, m) || (IsCheckOf(c, R.DistinctCheck, m) && m.compatibility != Unclear))
  }

  /**
   * One row count, a null count for each mapping, a distinct count for each mapping unless its
   * compatibility is unknown, and nothing else.
   */
  ghost predicate Covers(checks: seq<R.Check>, ms: seq<Approval>) {
    && checks != [] && checks[0].kind == R.RowCheck
    && (forall m :: m in ms ==>
          HasCheck(checks, R.NullCheck, m) && (HasCheck(checks, R.DistinctCheck, m) <==> m.compatibility != Unclear))
    && forall k :: 0 < k < |checks| ==> ChecksSome(checks[k], ms)
  }

  predicate SourcesApart(ms: seq<Approval>) {
    forall i, j :: 0 <= i < j < |ms| ==> ms[i].source != ms[j].source
  }

  lemma {:induction false} HasMore(front: seq<R.Check>, rest: seq<R.Check>, kind: R.CheckKind, m: Approval)
    requires HasCheck(rest, kind, m)
    ensures HasCheck(front + rest, kind, m)
  {
    hide IsCheckOf;
    var c :| c in rest && IsCheckOf(c, kind, m);
    assert c in front + rest;
  }

  lemma {:induction false} SomeMore(c: R.Check, ms: seq<Approval>)
    requires ms != [] && ChecksSome(c, ms[1..])
    ensures ChecksSome(c, ms)
  {
    hide IsCheckOf;
  }

  /** The checks of one mapping. */
  lemma {:induction false} OwnChecks(index: nat, m: Approval, rest: seq<R.Check>, ms: seq<Approval>)
    requires ms != [] && ms[0] == m
    ensures var front := [NullCheckOf(index, m)] + (if HasDistinct(m) then [DistinctCheckOf(index, m)] else []);
            && HasCheck(front + rest, R.NullCheck, m)
            && (m.compatibility != Unclear ==> HasCheck(front + rest, R.DistinctCheck, m))
            && forall c :: c in front ==> ChecksSome(c, ms)
  {
    hide NullName, DistinctName;
    var front := [NullCheckOf(index, m)] + (if HasDistinct(m) then [DistinctCheckOf(index, m)] else []);
    assert NullCheckOf(index, m) in front + rest && IsCheckOf(NullCheckOf(index, m), R.NullCheck, m);
    assert IsCheckOf(DistinctCheckOf(index, m), R.DistinctCheck, m);
    assert m.compatibility != Unclear ==> front[1] == DistinctCheckOf(index, m) && front[1] in front + rest;
  }

  /** The checks of the mappings from `index` on, for each of them and for nothing else. */
  lemma {:induction false} ChecksFromCover(index: nat, ms: seq<Approval>)
    ensures forall m :: m in ms ==>
              && HasCheck(ChecksFrom(index, ms), R.NullCheck, m)
              && (m.compatibility != Unclear ==> HasCheck(ChecksFrom(index, ms), R.DistinctCheck, m))
    ensures forall c :: c in ChecksFrom(index, ms) ==> ChecksSome(c, ms)
    decreases ms
  {
    hide NullName, DistinctName, NullCheckOf, DistinctCheckOf, HasCheck, ChecksSome, IsCheckOf;
    if ms != [] {
      var rest := ChecksFrom(index + 1, ms[1..]);
      var front: seq<R.Check> := [NullCheckOf(index, ms[0])] + (if HasDistinct(ms[0]) then [DistinctCheckOf(index, ms[0])] else []);
      ChecksFromCover(index + 1, ms[1..]);
      OwnChecks(index, ms[0], rest, ms);
      assert ms == [ms[0]] + ms[1..];
      forall m | m in ms[1..]
        ensures HasCheck(front + rest, R.NullCheck, m)
        ensures m.compatibility != Unclear ==> HasCheck(front + rest, R.DistinctCheck, m)
      {
        HasMore(front, rest, R.NullCheck, m);
        if m.compatibility != Unclear { HasMore(front, rest, R.DistinctCheck, m); }
      }
      forall c | c in rest ensures ChecksSome(c, ms) { SomeMore(c, ms); }
    }
  }

  lemma {:induction false} OneMapping(ms: seq<Approval>, m: Approval, n: Approval)
    requires SourcesApart(ms) && m in ms && n in ms && m.source == n.source
    ensures m == n
  {
  }

  /** The checks cover every mapping in the way its compatibility asks for. */
  lemma {:induction false} ChecksCover(ms: seq<Approval>)
    requires SourcesApart(ms)
    ensures Covers(ChecksOf(ms), ms)
  {
    hide ChecksFrom, SourcesApart;
    var rest, all := ChecksFrom(0, ms), ChecksOf(ms);
    ChecksFromCover(0, ms);
    forall m | m in ms
      ensures HasCheck(all, R.NullCheck, m) && (HasCheck(all, R.DistinctCheck, m) <==> m.compatibility != Unclear)
    {
      HasMore([RowCountCheck], rest, R.NullCheck, m);
      if m.compatibility != Unclear { HasMore([RowCountCheck], rest, R.DistinctCheck, m); }
      if HasCheck(all, R.DistinctCheck, m) {
        var c :| c in all && IsCheckOf(c, R.DistinctCheck, m);
        assert c in rest && ChecksSome(c, ms);
        var n :| n in ms && IsCheckOf(c, R.DistinctCheck, n) && n.compatibility != Unclear;
        OneMapping(ms, m, n);
      }
    }
    forall k | 0 < k < |all| ensures ChecksSome(all[k], ms) { assert all[k] == rest[k - 1]; }
  }

  // ---------------------------------------------------------------- the pair of statements

  datatype Side = Side(profile: Profile, alias: string)

  datatype Request = Request(
    source: Dialect, target: Dialect, sourceSchema: string, sourceTable: string,
    targetDatabase: string, targetSchema: string, targetTable: string, sourceAlias: string, targetAlias: string)

  datatype Generated = Generated(
    dialect: Dialect, sql: string, parameters: seq<Scalar>, relation: seq<string>, aliases: seq<string>,
    checks: seq<R.Check>)

  function SourceProfile(r: Request): Profile {
    Profile(r.source, Validating)
  }

  function TargetProfile(r: Request): Profile {
    Profile(r.target, Validating)
  }

  /** The quoted names of the target relation; MySQL has one name for catalog and schema. */
  function TargetNamesOf(r: Request): Option<seq<string>> {
    var p := TargetProfile(r);
    match r.target
    case PostgreSql => if AllFit(p, [r.targetSchema, r.targetTable]) then Some([r.targetSchema, r.targetTable]) else None
    case MySql =>
      if r.targetDatabase == r.targetSchema && AllFit(p, [r.targetDatabase, r.targetTable])
      then Some([r.targetDatabase, r.targetTable])
      else None
    case Snowflake =>
      if AllFit(p, [r.targetDatabase, r.targetSchema, r.targetTable])
      then Some([r.targetDatabase, r.targetSchema, r.targetTable])
      else None
  }

  predicate SourceFits(r: Request) {
    AllFit(SourceProfile(r), [r.sourceSchema, r.sourceTable])
  }

  /** The first objection to the mappings: the target column is quoted before its source is rendered. */
  function CheckFault(r: Request, allowed: set<string>, ms: seq<Approval>): Option<CompileError> {
    if ms == [] then None
    else if ms[0].target.None? || ms[0].transformation.None? then Some(InvalidPlan)
    else if !Fits(TargetProfile(r), r.targetAlias) || !Fits(TargetProfile(r), ms[0].target.value) then Some(InvalidPlan)
    else
      var f := Fault(SourceProfile(r), r.sourceAlias, allowed, ms[0].transformation.value, 0);
      if f.Some? then f else CheckFault(r, allowed, ms[1..])
  }

  function ValidationFault(plan: ApprovedPlan, r: Request): Option<CompileError> {
    if plan.approvedMappings == [] then Some(InvalidPlan)
    else
      var f := CheckFault(r, AllowedColumns(plan), Ordered(plan.approvedMappings));
      if f.Some? then f
      else if !SourceFits(r) || TargetNamesOf(r).None? || !Fits(SourceProfile(r), r.sourceAlias) then Some(InvalidPlan)
      else None
  }

  /** The target relation can be named; MySQL calls a database a schema. */
  predicate TargetFits(r: Request) {
    var p := TargetProfile(r);
    match r.target
    case PostgreSql => Fits(p, r.targetSchema) && Fits(p, r.targetTable)
    case MySql => r.targetDatabase == r.targetSchema && Fits(p, r.targetDatabase) && Fits(p, r.targetTable)
    case Snowflake => Fits(p, r.targetDatabase) && Fits(p, r.targetSchema) && Fits(p, r.targetTable)
  }

  lemma {:induction false} TargetAddressed(r: Request)
    ensures TargetNamesOf(r).Some? <==> TargetFits(r)
    ensures TargetNamesOf(r).Some? ==>
              Addressed(TargetNamesOf(r).value, r.target, Some(r.targetDatabase), r.targetSchema, r.targetTable)
  {
    hide Fits;
    ThreeFit(TargetProfile(r), r.targetDatabase, r.targetSchema, r.targetTable);
  }

  lemma {:induction false} ThreeFit(p: Profile, a: string, b: string, c: string)
    ensures AllFit(p, [a, b, c]) <==> Fits(p, a) && Fits(p, b) && Fits(p, c)
    ensures AllFit(p, [a, c]) <==> Fits(p, a) && Fits(p, c)
    ensures AllFit(p, [b, c]) <==> Fits(p, b) && Fits(p, c)
  {
    hide Fits;
    assert [a, b, c][0] == a && [a, b, c][1] == b && [a, b, c][2] == c;
    assert [a, c][0] == a && [a, c][1] == c && [b, c][0] == b && [b, c][1] == c;
  }

  function SourceStatement(ms: seq<Approval>, r: Request): Statement
    requires Ready(SourceProfile(r), ms)
  {
    Select(MetricItems(ms, TreeEach(SourceProfile(r), r.sourceAlias, ExpressionsOf(ms))),
           [r.sourceSchema, r.sourceTable], r.sourceAlias)
  }

  function TargetStatement(ms: seq<Approval>, r: Request): Statement
    requires Complete(ms) && TargetNamesOf(r).Some?
  {
    Select(MetricItems(ms, ColumnTrees(r.targetAlias, TargetNames(ms))), TargetNamesOf(r).value, r.targetAlias)
  }
}
