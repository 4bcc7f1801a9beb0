/**
 * Comparing the metrics of two independently executed aggregate queries. Drivers hand over counts
 * as integers, decimals or text; whatever does not read as a count stays unavailable.
 */
module Reconciliation {
  import opened Common
  import opened Digits

  datatype DriverValue =
    | Nothing | Bool(b: bool) | Int(i: int) | Decimal(x: real) | NotFinite | Str(s: string) | Unusual

  predicate IsNumber(s: string) {
    s != [] &&
    if s[0] == '+' || s[0] == '-' then |s| > 1 && AllDigits(s[1..]) else AllDigits(s)
  }

  function NumberOf(s: string): int
    requires IsNumber(s)
  {
    var digits := if s[0] == '+' || s[0] == '-' then s[1..] else s;
    var size: int := ValueOf(digits);
    if s[0] == '-' then -size else size
  }

  /** The count a driver value stands for. */
  function Count(v: DriverValue): Option<nat> {
    match v
    case Int(i) => if i >= 0 then Some(i) else None
    case Decimal(x) => if x == x.Floor as real && x.Floor >= 0 then Some(x.Floor) else None
    case Str(s) => if IsNumber(s) && NumberOf(s) >= 0 then Some(NumberOf(s)) else None
    case _ => None
  }

  /** The forms in which a driver may return a count. */
  predicate Stands(v: DriverValue, n: nat) {
    v == Int(n) || v == Decimal(n as real) || v == Str(Numeral(n))
  }

  lemma {:induction false} CountReads(v: DriverValue, n: nat)
    requires Stands(v, n)
    ensures Count(v) == Some(n)
  {
    NumeralValue(n);
    if v == Decimal(n as real) { assert (n as real).Floor == n; }
    if v == Str(Numeral(n)) { assert IsDigit(Numeral(n)[0]); }
  }

  /** An optional sign, any number of zeros and the numeral; a minus only before zero. */
  ghost predicate Spells(s: string, n: nat) {
    exists k: nat ::
      s == Zeros(k) + Numeral(n) || s == "+" + (Zeros(k) + Numeral(n)) || (n == 0 && s == "-" + (Zeros(k) + Numeral(n)))
  }

  /** Exactly what reads as a count: truth values, fractions, negative numbers and other texts do not. */
  lemma {:induction false} CountExactly(v: DriverValue, n: nat)
    ensures Count(v) == Some(n)
            <==> v == Int(n) || (v.Decimal? && v.x == n as real) || (v.Str? && Spells(v.s, n))
  {
    match v {
      case Str(s) =>
        SpelledReads(s, n);
        if Count(v) == Some(n) { ReadsSpelled(s, n); }
      case Decimal(x) => assert (n as real).Floor == n;
      case _ =>
    }
  }

  lemma {:induction false} SpelledReads(s: string, n: nat)
    ensures Spells(s, n) ==> Count(Str(s)) == Some(n)
  {
    hide Zeros, Numeral, ValueOf;
    if Spells(s, n) {
      var k: nat :| s == Zeros(k) + Numeral(n) || s == "+" + (Zeros(k) + Numeral(n))
                    || (n == 0 && s == "-" + (Zeros(k) + Numeral(n)));
      var digits := Zeros(k) + Numeral(n);
      NumeralValue(n);
      ZerosWorthless(k, Numeral(n));
      assert IsDigit(digits[0]);
      if s != digits { assert s[1..] == digits; }
    }
  }

  lemma {:induction false} ReadsSpelled(s: string, n: nat)
    requires Count(Str(s)) == Some(n)
    ensures Spells(s, n)
  {
    hide Zeros, Numeral, ValueOf;
    var signed := s[0] == '+' || s[0] == '-';
    var digits := if signed then s[1..] else s;
    var k := DigitsSpell(digits);
    if signed {
      assert s == [s[0]] + digits;
      assert s[0] == '+' ==> s == "+" + (Zeros(k) + Numeral(n));
      assert s[0] == '-' ==> s == "-" + (Zeros(k) + Numeral(n));
    }
  }

  datatype CheckKind = RowCheck | NullCheck | DistinctCheck

  datatype Check = Check(
    id: string, kind: CheckKind, sourceColumn: Option<string>, targetColumn: Option<string>,
    sourceAlias: string, targetAlias: string)

  datatype CheckStatus = Matching | Mismatching | Unavailable

  datatype CheckResult = CheckResult(
    check: Check, sourceValue: Option<nat>, targetValue: Option<nat>, status: CheckStatus, difference: Option<int>)

  datatype ReportStatus = Passed | Failed | Incomplete

  datatype Report = Report(
    results: seq<CheckResult>, status: ReportStatus, matched: nat, mismatched: nat, unavailable: nat,
    planVersion: int)

  type DriverRow = map<string, DriverValue>

  function MetricOf(row: DriverRow, alias: string): Option<nat> {
    Count(if alias in row then row[alias] else Nothing)
  }

  /** A result agrees with its check and with both metric rows. */
  predicate Reads(r: CheckResult, c: Check, source: DriverRow, target: DriverRow) {
    && r.check == c
    && r.sourceValue == MetricOf(source, c.sourceAlias) && r.targetValue == MetricOf(target, c.targetAlias)
    && (r.status == Unavailable <==> r.sourceValue.None? || r.targetValue.None?)
    && (r.status == Matching <==> r.sourceValue.Some? && r.sourceValue == r.targetValue)
    && r.difference == if r.status == Unavailable then None else Some(r.targetValue.value - r.sourceValue.value)
  }

  function Tally(rs: seq<CheckResult>, s: CheckStatus): nat {
    if rs == [] then 0 else Tally(rs[..|rs| - 1], s) + if rs[|rs| - 1].status == s then 1 else 0
  }

  lemma {:induction false} TallyPositive(rs: seq<CheckResult>, s: CheckStatus)
    ensures Tally(rs, s) > 0 <==> exists i :: 0 <= i < |rs| && rs[i].status == s
  {
    if rs != [] {
      var front, last := rs[..|rs| - 1], rs[|rs| - 1];
      TallyPositive(front, s);
      if i :| 0 <= i < |rs| && rs[i].status == s { assert i < |front| ==> front[i].status == s; }
      if i :| 0 <= i < |front| && front[i].status == s { assert rs[i].status == s; }
    }
  }

  lemma {:induction false} TallySum(rs: seq<CheckResult>)
    ensures Tally(rs, Matching) + Tally(rs, Mismatching) + Tally(rs, Unavailable) == |rs|
  {
    if rs != [] { TallySum(rs[..|rs| - 1]); }
  }

  method CompareAll(checks: seq<Check>, source: DriverRow, target: DriverRow) returns (results: seq<CheckResult>)
    ensures |results| == |checks|
    ensures forall i :: 0 <= i < |checks| ==> Reads(results[i], checks[i], source, target)
  {
    hide Count;
    results := [];
    for i := 0 to |checks|
      invariant |results| == i
      invariant forall j :: 0 <= j < i ==> Reads(results[j], checks[j], source, target)
    {
      var c := checks[i];
      var sourceValue, targetValue := MetricOf(source, c.sourceAlias), MetricOf(target, c.targetAlias);
      var status := if sourceValue.None? || targetValue.None? then Unavailable
                    else if sourceValue == targetValue then Matching else Mismatching;
      var difference: Option<int> := None;
      if status != Unavailable {
        var before: int, after: int := sourceValue.value, targetValue.value;
        difference := Some(after - before);
      }
      results := results + [CheckResult(c, sourceValue, targetValue, status, difference)];
    }
  }

  /**
   * Compares every check. Any mismatch fails the report; without one, missing evidence leaves it
   * incomplete, and it passes only when every pair of counts is present and equal.
   */
  method Reconcile(checks: seq<Check>, source: DriverRow, target: DriverRow, planVersion: int) returns (r: Report)
    ensures |r.results| == |checks|
    ensures forall i :: 0 <= i < |checks| ==> Reads(r.results[i], checks[i], source, target)
    ensures r.status == Failed <==> exists i :: 0 <= i < |r.results| && r.results[i].status == Mismatching
    ensures r.status == Passed <==> forall i :: 0 <= i < |r.results| ==> r.results[i].status == Matching
    ensures r.matched == Tally(r.results, Matching) && r.mismatched == Tally(r.results, Mismatching)
    ensures r.unavailable == Tally(r.results, Unavailable) && r.planVersion == planVersion
  {
    var results := CompareAll(checks, source, target);
    var matched, mismatched := 0, 0;
    for i := 0 to |results|
      invariant matched == Tally(results[..i], Matching) && mismatched == Tally(results[..i], Mismatching)
    {
      assert results[..i + 1][..i] == results[..i];
      if results[i].status == Matching { matched := matched + 1; }
      if results[i].status == Mismatching { mismatched := mismatched + 1; }
    }
    assert results[..|results|] == results;
    TallySum(results);
    TallyPositive(results, Mismatching);
    TallyPositive(results, Unavailable);
    var unavailable := |results| - matched - mismatched;
    var status := if mismatched > 0 then Failed else if unavailable > 0 then Incomplete else Passed;
    r := Report(results, status, matched, mismatched, unavailable, planVersion);
  }

  /** A report passes exactly when both rows hold the same count under every check. */
  predicate AllCountsEqual(checks: seq<Check>, source: DriverRow, target: DriverRow) {
    forall i :: 0 <= i < |checks| ==>
      && MetricOf(source, checks[i].sourceAlias).Some?
      && MetricOf(source, checks[i].sourceAlias) == MetricOf(target, checks[i].targetAlias)
  }

  lemma {:induction false} PassedMeans(checks: seq<Check>, source: DriverRow, target: DriverRow, r: Report)
    requires |r.results| == |checks|
    requires forall i :: 0 <= i < |checks| ==> Reads(r.results[i], checks[i], source, target)
    requires r.status == Passed <==> forall i :: 0 <= i < |r.results| ==> r.results[i].status == Matching
    ensures r.status == Passed <==> AllCountsEqual(checks, source, target)
  {
    hide Count, MetricOf;
    forall i | 0 <= i < |checks|
      ensures r.results[i].status == Matching
              <==> MetricOf(source, checks[i].sourceAlias).Some?
                   && MetricOf(source, checks[i].sourceAlias) == MetricOf(target, checks[i].targetAlias)
    {
      assert Reads(r.results[i], checks[i], source, target);
    }
  }
}
