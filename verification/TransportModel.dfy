/**
 * Batches, cumulative progress and transport results with the invariants of their constructors, and
 * the derivation of staging table names.
 */
module TransportModel {
  import opened Common
  import opened MappingModel

  type DataRow = seq<Scalar>

  datatype Relation = Relation(catalog: Option<string>, schema: string, table: string)

  predicate ValidRelation(r: Relation) {
    (r.catalog.Some? ==> ValidName(r.catalog.value)) && ValidName(r.schema) && ValidName(r.table)
  }

  datatype DataBatch = DataBatch(number: int, columns: seq<string>, rows: seq<DataRow>)

  predicate ValidBatch(b: DataBatch) {
    && b.number >= 1 && b.columns != [] && ValidNames(b.columns)
    && b.rows != [] && forall i :: 0 <= i < |b.rows| ==> |b.rows[i]| == |b.columns|
  }

  datatype WriteResult = WriteResult(number: int, received: int, written: int)

  datatype Progress = Progress(batches: int, read: int, written: int, estimate: Option<int>)

  predicate ValidProgress(p: Progress) {
    && p.batches >= 0 && p.read >= 0 && p.written >= 0
    && (p.estimate.Some? ==> p.estimate.value >= 0)
    && p.read == p.written && (p.batches == 0 <==> p.read == 0)
  }

  /** A bounded estimate, or nothing when no total is known. */
  function Percent(p: Progress): Option<int> {
    if p.estimate.None? then None
    else if p.estimate.value == 0 then Some(100)
    else
      var share := p.read * 100 / p.estimate.value;
      Some(if share > 100 then 100 else share)
  }

  lemma {:induction false} ProductMonotone(a: int, b: int, n: nat)
    requires a <= b
    ensures a * n <= b * n
  {
  }

  lemma {:induction false} DivisionMonotone(a: nat, b: nat, n: nat)
    requires a <= b && n > 0
    ensures 0 <= a / n <= b / n
  {
    var q, r := a / n, b / n;
    assert a == q * n + a % n && b == r * n + b % n;
    assert (r + 1) * n == r * n + n;
    if r + 1 <= q { ProductMonotone(r + 1, q, n); }
  }

  /** The percentage stays within bounds and never falls while more rows arrive. */
  lemma {:induction false} PercentMonotone(p: Progress, q: Progress)
    requires ValidProgress(p) && ValidProgress(q) && p.estimate == q.estimate && p.read <= q.read
    ensures Percent(p).Some? <==> p.estimate.Some?
    ensures Percent(q).Some? <==> q.estimate.Some?
    ensures Percent(p).Some? ==> 0 <= Percent(p).value <= Percent(q).value <= 100
  {
    if p.estimate.Some? && p.estimate.value > 0 {
      DivisionMonotone(p.read * 100, q.read * 100, p.estimate.value);
    }
  }

  /** The percentage is the share of the estimate that has been read, rounded down, and full once all is read. */
  lemma {:induction false} PercentMeans(p: Progress)
    requires ValidProgress(p) && p.estimate.Some?
    ensures Percent(p) == Some(100) <==> p.read >= p.estimate.value
    ensures p.read < p.estimate.value ==>
              Percent(p).value * p.estimate.value <= 100 * p.read < (Percent(p).value + 1) * p.estimate.value
  {
    var e := p.estimate.value;
    if e > 0 {
      var share := p.read * 100 / e;
      Quotient(p.read * 100, e);
      if p.read >= e {
        if share < 100 { ProductMonotone(share + 1, 100, e); }
      } else if share >= 100 {
        ProductMonotone(100, share, e);
      }
    }
  }

  lemma {:induction false} Quotient(a: nat, n: nat)
    requires n > 0
    ensures a / n * n <= a < (a / n + 1) * n
  {
    assert a == a / n * n + a % n;
    assert (a / n + 1) * n == a / n * n + n;
  }

  /** The repository takes a report only when every counter moved on and the estimate is the same. */
  predicate Newer(previous: Option<Progress>, p: Progress) {
    && p.batches > 0 && p.read > 0
    && (previous.Some? ==>
          && p.batches > previous.value.batches && p.read > previous.value.read
          && p.written > previous.value.written && p.estimate == previous.value.estimate)
  }

  datatype TransportResult = TransportResult(
    id: nat, source: Relation, staging: Relation, batchSize: int, batches: int, columns: int, read: int, written: int)

  predicate ValidResult(r: TransportResult) {
    && r.batchSize >= 1 && r.batches >= 0 && r.columns >= 1 && r.read >= 0 && r.written >= 0
    && r.read == r.written && (r.batches == 0 <==> r.read == 0)
  }

  // ---------------------------------------------------------------- staging names

  predicate IsHex(c: char) {
    '0' <= c <= '9' || 'A' <= c <= 'F'
  }

  function HexChar(n: nat): (c: char)
    requires n < 16
    ensures IsHex(c) && HexValue(c) == n
  {
    if n < 10 then '0' + n as char else 'A' + (n - 10) as char
  }

  function HexValue(c: char): (n: nat)
    requires IsHex(c)
    ensures n < 16
  {
    if '0' <= c <= '9' then c as int - '0' as int else c as int - 'A' as int + 10
  }

  function Power16(digits: nat): nat {
    if digits == 0 then 1 else 16 * Power16(digits - 1)
  }

  /** The last `digits` hexadecimal digits of a number. */
  function Hex(n: nat, digits: nat): (s: string)
    ensures |s| == digits && forall i :: 0 <= i < digits ==> IsHex(s[i])
  {
    if digits == 0 then [] else Hex(n / 16, digits - 1) + [HexChar(n % 16)]
  }

  predicate AllHex(s: string) {
    forall i :: 0 <= i < |s| ==> IsHex(s[i])
  }

  function HexNumber(s: string): nat
    requires AllHex(s)
  {
    if s == [] then 0 else 16 * HexNumber(s[..|s| - 1]) + HexValue(s[|s| - 1])
  }

  lemma {:induction false} HexBack(n: nat, digits: nat)
    requires n < Power16(digits)
    ensures HexNumber(Hex(n, digits)) == n
  {
    if digits > 0 {
      HexBack(n / 16, digits - 1);
      var s := Hex(n, digits);
      assert s[..|s| - 1] == Hex(n / 16, digits - 1);
    }
  }

  lemma {:induction false} HexCovers(s: string)
    requires AllHex(s)
    ensures HexNumber(s) < Power16(|s|) && Hex(HexNumber(s), |s|) == s
  {
    if s != [] {
      var front, last := s[..|s| - 1], s[|s| - 1];
      HexCovers(front);
      assert HexNumber(s) / 16 == HexNumber(front) && HexNumber(s) % 16 == HexValue(last);
      CharBack(last);
      assert s == front + [last];
    }
  }

  lemma {:induction false} CharBack(c: char)
    requires IsHex(c)
    ensures HexChar(HexValue(c)) == c
  {
  }

  const PREFIX := "SB_STAGE_"

  /** The number of a 128-bit identifier. */
  predicate IsId(id: nat) {
    id < Power16(32)
  }

  function StagingName(id: nat): string {
    PREFIX + Hex(id, 32)
  }

  /** The names cleanup may touch. */
  predicate Managed(name: string) {
    |name| == 41 && name[..9] == PREFIX && AllHex(name[9..])
  }

  /** Different transports never share a staging table. */
  lemma {:induction false} StagingNamesInjective(a: nat, b: nat)
    requires IsId(a) && IsId(b) && StagingName(a) == StagingName(b)
    ensures a == b
  {
    hide Hex, HexNumber, Power16;
    assert StagingName(a)[9..] == Hex(a, 32) && StagingName(b)[9..] == Hex(b, 32);
    HexBack(a, 32);
    HexBack(b, 32);
  }

  /** Cleanup may touch exactly the derived names. */
  lemma {:induction false} ManagedMeans(name: string)
    ensures Managed(name) <==> exists id :: IsId(id) && name == StagingName(id)
  {
    hide Hex, HexNumber, Power16;
    if Managed(name) {
      HexCovers(name[9..]);
      assert name == name[..9] + name[9..];
      assert IsId(HexNumber(name[9..])) && name == StagingName(HexNumber(name[9..]));
    }
    if id :| IsId(id) && name == StagingName(id) {
      assert name[9..] == Hex(id, 32) && name[..9] == PREFIX;
    }
  }
}
