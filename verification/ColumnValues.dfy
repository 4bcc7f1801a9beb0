/**
 * What a column can hold, read off its canonical type and its dimensions, and when every value of one
 * column is a value of another. This is what the classification of conversions is measured against.
 */
module ColumnValues {
  import opened Common
  import opened MappingModel
  import opened Columns
  import opened Digits

  // ---------------------------------------------------------------- values

  /** `Amount` is any number, `Instant` a point in time and `Clock` a time of day, both in seconds. */
  datatype Datum =
    | Characters(text: string) | Octets(data: seq<bv8>) | Amount(x: real) | Truth(b: bool)
    | Instant(t: real) | Clock(t: real) | Zoned(t: real, offset: int) | Document(text: string)

  /** The number with digits `u` and `k` places after the point; a negative `k` appends zeros. */
  function Scaled(u: int, k: int): real {
    if k >= 0 then u as real / Power10(k) as real else (u * Power10(-k)) as real
  }

  /** At most `precision` digits, and exactly `scale` of them after the point, as far as they are known. */
  ghost predicate IsDecimal(x: real, precision: Option<nat>, scale: Option<int>) {
    exists u: int, k: int ::
      && x == Scaled(u, k)
      && (scale.Some? ==> k == scale.value)
      && (precision.Some? ==> u < Power10(precision.value) && -u < Power10(precision.value))
  }

  /** A whole number of ticks, if the fraction of a second is limited. */
  ghost predicate OnTick(t: real, places: Option<nat>) {
    places.Some? ==> exists n: int :: t == Scaled(n, places.value)
  }

  ghost predicate IsMidnight(t: real) {
    exists day: int :: t == (86400 * day) as real
  }

  /** The column can hold the value. */
  ghost predicate Holds(c: Column, v: Datum) {
    match c.ctype
    case STRING => v.Characters? && (c.length.Some? ==> |v.text| <= c.length.value)
    case BINARY => v.Octets? && (c.length.Some? ==> |v.data| <= c.length.value)
    case INTEGER => v.Amount? && IsDecimal(v.x, c.precision, Some(0))
    case DECIMAL => v.Amount? && IsDecimal(v.x, c.precision, c.scale)
    case FLOAT => v.Amount?
    case BOOLEAN => v.Truth?
    case DATE => v.Instant? && IsMidnight(v.t)
    case TIME => v.Clock? && 0.0 <= v.t < 86400.0 && OnTick(v.t, c.datetimePrecision)
    case TIMESTAMP => v.Instant? && OnTick(v.t, c.datetimePrecision)
    case TIMESTAMP_TZ => v.Zoned? && OnTick(v.t, c.datetimePrecision)
    case SEMI_STRUCTURED => v.Document?
    case UNKNOWN => false
  }

  /** Every value of the source column is a value of the target column. */
  ghost predicate KeepsAll(s: Column, t: Column) {
    forall v :: Holds(s, v) ==> Holds(t, v)
  }

  // ---------------------------------------------------------------- scales

  lemma {:induction false} ScaleOne(u: int, k: int)
    ensures Scaled(u, k) == Scaled(10 * u, k + 1)
  {
    if k >= 0 {
      var a, d := u as real, Power10(k) as real;
      assert Power10(k + 1) == 10 * Power10(k);
      assert (10 * Power10(k)) as real == 10.0 * d && (10 * u) as real == 10.0 * a;
      Cancel(a, d);
    } else if k == -1 {
      assert Power10(1) == 10 * Power10(0);
    } else {
      assert Power10(-k) == 10 * Power10(-k - 1);
    }
  }

  lemma {:induction false} Cancel(a: real, d: real)
    requires d > 0.0
    ensures a / d == (10.0 * a) / (10.0 * d)
  {
    var q := a / d;
    assert q * d == a;
    assert q * (10.0 * d) == 10.0 * a;
  }

  /** Zeros may be appended after the point. */
  lemma {:induction false} ScaleUp(u: int, k: int, d: nat)
    ensures Scaled(u, k) == Scaled(u * Power10(d), k + d)
    decreases d
  {
    hide Scaled;
    if d > 0 {
      ScaleUp(u, k, d - 1);
      ScaleOne(u * Power10(d - 1), k + d - 1);
      assert 10 * (u * Power10(d - 1)) == u * Power10(d);
    }
  }

  lemma {:induction false} ScaledOnce(u: int, w: int, k: int)
    requires Scaled(u, k) == Scaled(w, k)
    ensures u == w
  {
    if k >= 0 {
      var d := Power10(k) as real;
      assert (u as real / d) * d == u as real && (w as real / d) * d == w as real;
    } else {
      assert (u - w) * Power10(-k) == u * Power10(-k) - w * Power10(-k);
      ZeroFactor(u - w, Power10(-k));
    }
  }

  lemma {:induction false} ZeroFactor(a: int, n: nat)
    requires n > 0 && a * n == 0
    ensures a == 0
  {
  }

  /** Two ways to write a number differ by zeros. */
  lemma {:induction false} SameNumber(u: int, k: int, w: int, j: int)
    requires Scaled(u, k) == Scaled(w, j) && k <= j
    ensures u * Power10(j - k) == w
  {
    hide Scaled;
    ScaleUp(u, k, j - k);
    ScaledOnce(u * Power10(j - k), w, j);
  }

  // ---------------------------------------------------------------- decimals

  /**
   * Numbers of `n` digits with `r` places all have at most `m` digits with `q` places: the places do
   * not get fewer, and neither do the digits before the point.
   */
  predicate RoomyDecimal(n: Option<nat>, r: Option<int>, m: Option<nat>, q: Option<int>) {
    || n == Some(0)
    || (&& (q.Some? ==> r.Some? && r.value <= q.value)
        && (m.Some? ==> n.Some? && if q.Some? then n.value - r.value <= m.value - q.value else n.value <= m.value))
  }

  lemma {:induction false} DecimalKept(x: real, n: Option<nat>, r: Option<int>, m: Option<nat>, q: Option<int>)
    requires IsDecimal(x, n, r) && RoomyDecimal(n, r, m, q)
    ensures IsDecimal(x, m, q)
  {
    hide Scaled, Power10;
    var u, k :| x == Scaled(u, k) && (r.Some? ==> k == r.value) && (n.Some? ==> u < Power10(n.value) && -u < Power10(n.value));
    if n == Some(0) {
      ZeroEverywhere(u, k, if q.Some? then q.value else k, if m.Some? then m.value else 0);
      assert x == Scaled(0, if q.Some? then q.value else k);
    } else if q.Some? {
      var d := q.value - k;
      ScaleUp(u, k, d);
      if m.Some? { DigitsAdded(u, n.value, d, m.value); }
      assert x == Scaled(u * Power10(d), q.value);
    } else if m.Some? {
      PowerGrows(n.value, m.value);
    }
  }

  lemma {:induction false} ZeroEverywhere(u: int, k: int, j: int, m: nat)
    requires u < Power10(0) && -u < Power10(0)
    ensures Scaled(u, k) == Scaled(0, j) && 0 < Power10(m)
  {
  }

  lemma {:induction false} DigitsAdded(u: int, n: nat, d: nat, m: nat)
    requires u < Power10(n) && -u < Power10(n) && n + d <= m
    ensures u * Power10(d) < Power10(m) && -(u * Power10(d)) < Power10(m)
  {
    hide Power10;
    PowerSum(n, d);
    PowerGrows(n + d, m);
    ProductBelow(u, Power10(n), Power10(d));
    ProductBelow(-u, Power10(n), Power10(d));
    assert (-u) * Power10(d) == -(u * Power10(d));
  }

  lemma {:induction false} ProductBelow(a: int, b: nat, c: nat)
    requires a < b && c > 0
    ensures a * c < b * c
  {
  }

  /** A number that does not fit: too many places, or too many digits. */
  lemma {:induction false} DecimalLost(n: Option<nat>, r: Option<int>, m: Option<nat>, q: Option<int>) returns (x: real)
    requires !RoomyDecimal(n, r, m, q)
    ensures IsDecimal(x, n, r) && !IsDecimal(x, m, q)
  {
    hide Scaled, Power10;
    if q.Some? && (r.None? || r.value > q.value) {
      var k := if r.Some? then r.value else q.value + 1;
      x := Scaled(1, k);
      OneDigit(n);
      TooManyPlaces(k, m, q.value);
    } else if q.Some? {
      var u := if n.None? then Power10(m.value) else Power10(n.value) - 1;
      x := Scaled(u, r.value);
      if n.Some? { NinesLost(n.value, q.value - r.value, m.value); } else { AppendedZeros(m.value, q.value - r.value); }
      TooManyDigits(u, r.value, m, q.value);
    } else {
      var k := if r.Some? then r.value else 0;
      x := Scaled(Power10(m.value) + 1, k);
      if n.Some? { OneDigitMore(m.value, n.value); }
      TooManyFigures(k, m.value);
    }
  }

  lemma {:induction false} OneDigit(n: Option<nat>)
    requires n != Some(0)
    ensures n.Some? ==> 1 < Power10(n.value)
  {
    if n.Some? { PowerGrows(1, n.value); }
  }

  /** The number with one digit in place `k` has no form with fewer places. */
  lemma {:induction false} TooManyPlaces(k: int, m: Option<nat>, q: int)
    requires q < k
    ensures !IsDecimal(Scaled(1, k), m, Some(q))
  {
    hide Scaled, Power10;
    if IsDecimal(Scaled(1, k), m, Some(q)) {
      var w :| Scaled(1, k) == Scaled(w, q);
      SameNumber(w, q, 1, k);
      NeverOne(w, k - q);
    }
  }

  lemma {:induction false} NeverOne(w: int, d: nat)
    requires d > 0
    ensures w * Power10(d) != 1
  {
    assert w * Power10(d) == 10 * (w * Power10(d - 1));
  }

  lemma {:induction false} NinesLost(n: nat, d: nat, m: nat)
    requires n > 0 && n + d > m
    ensures (Power10(n) - 1) * Power10(d) >= Power10(m)
  {
    hide Power10;
    PowerSum(1, n - 1);
    PowerOne();
    PowerSum(n - 1, d);
    PowerGrows(m, n - 1 + d);
    ProductAtLeast(Power10(n) - 1, Power10(n - 1), Power10(d));
  }

  lemma {:induction false} ProductAtLeast(a: int, b: nat, c: nat)
    requires a >= b
    ensures a * c >= b * c
  {
  }

  lemma {:induction false} AppendedZeros(m: nat, d: nat)
    ensures Power10(m) * Power10(d) >= Power10(m)
  {
    hide Power10;
    PowerSum(m, d);
    PowerGrows(m, m + d);
  }

  lemma {:induction false} TooManyDigits(u: int, r: int, m: Option<nat>, q: int)
    requires m.Some? && r <= q && u * Power10(q - r) >= Power10(m.value)
    ensures !IsDecimal(Scaled(u, r), m, Some(q))
  {
    hide Scaled, Power10;
    if IsDecimal(Scaled(u, r), m, Some(q)) {
      var w :| Scaled(u, r) == Scaled(w, q) && w < Power10(m.value);
      SameNumber(u, r, w, q);
    }
  }

  lemma {:induction false} OneDigitMore(m: nat, n: nat)
    requires m < n
    ensures Power10(m) + 1 < Power10(n)
  {
    hide Power10;
    PowerSum(1, m);
    PowerOne();
    PowerGrows(m + 1, n);
  }

  /** A one, zeros and a one cannot be written with fewer figures. */
  lemma {:induction false} TooManyFigures(k: int, m: nat)
    ensures !IsDecimal(Scaled(Power10(m) + 1, k), Some(m), None)
  {
    hide Scaled, Power10;
    if IsDecimal(Scaled(Power10(m) + 1, k), Some(m), None) {
      var w, j :| Scaled(Power10(m) + 1, k) == Scaled(w, j) && w < Power10(m);
      if k <= j {
        SameNumber(Power10(m) + 1, k, w, j);
        ProductAtLeast(Power10(m) + 1, Power10(m) + 1, Power10(j - k));
        AtLeastItself(Power10(m) + 1, Power10(j - k));
      } else {
        SameNumber(w, j, Power10(m) + 1, k);
        PowerSum(1, k - j - 1);
        PowerOne();
        assert w * Power10(k - j) == 10 * (w * Power10(k - j - 1));
        LastFigure(m, w * Power10(k - j - 1));
      }
    }
  }

  lemma {:induction false} AtLeastItself(a: nat, c: nat)
    requires c > 0
    ensures a * c >= a
  {
  }

  lemma {:induction false} LastFigure(m: nat, a: int)
    ensures Power10(m) + 1 != 10 * a
  {
  }

  // ---------------------------------------------------------------- whole columns

  /** Both columns measure the same thing, whatever their dimensions. */
  predicate Comparable(s: Column, t: Column) {
    s.ctype != UNKNOWN && (s.ctype == t.ctype || (s.ctype == INTEGER && t.ctype == DECIMAL) || (s.ctype == DATE && t.ctype == TIMESTAMP))
  }

  /** The source limits at least what the target limits. */
  predicate Within(a: Option<nat>, b: Option<nat>) {
    b.Some? ==> a.Some? && a.value <= b.value
  }

  function Places(c: Column): Option<int> {
    if c.ctype == INTEGER then Some(0) else c.scale
  }

  /** The dimensions of the target leave room for every value of the source. */
  predicate Roomy(s: Column, t: Column) {
    match t.ctype
    case STRING => Within(s.length, t.length)
    case BINARY => Within(s.length, t.length)
    case INTEGER => RoomyDecimal(s.precision, Places(s), t.precision, Places(t))
    case DECIMAL => RoomyDecimal(s.precision, Places(s), t.precision, Places(t))
    case TIME => Within(s.datetimePrecision, t.datetimePrecision)
    case TIMESTAMP => s.ctype == DATE || Within(s.datetimePrecision, t.datetimePrecision)
    case TIMESTAMP_TZ => Within(s.datetimePrecision, t.datetimePrecision)
    case _ => true
  }

  lemma {:induction false} TickKept(t: real, a: Option<nat>, b: Option<nat>)
    requires OnTick(t, a) && Within(a, b)
    ensures OnTick(t, b)
  {
    hide Scaled, Power10;
    if b.Some? {
      var n :| t == Scaled(n, a.value);
      ScaleUp(n, a.value, b.value - a.value);
    }
  }

  lemma {:induction false} MidnightKept(t: real, b: Option<nat>)
    requires IsMidnight(t)
    ensures OnTick(t, b)
  {
    hide Power10;
    if b.Some? {
      var day :| t == (86400 * day) as real;
      WholeScaled(86400 * day);
      ScaleUp(86400 * day, 0, b.value);
    }
  }

  lemma {:induction false} WholeScaled(n: int)
    ensures Scaled(n, 0) == n as real
  {
    assert Power10(0) == 1;
  }

  /** A fraction of a second that the target does not have. */
  lemma {:induction false} TickLost(a: Option<nat>, b: Option<nat>) returns (t: real)
    requires !Within(a, b)
    ensures 0.0 <= t < 86400.0 && OnTick(t, a) && !OnTick(t, b)
  {
    hide Scaled;
    var k := if a.Some? then a.value else b.value + 1;
    t := Scaled(1, k);
    SmallTick(k);
    if n :| t == Scaled(n, b.value) {
      SameNumber(n, b.value, 1, k);
      NeverOne(n, k - b.value);
    }
  }

  lemma {:induction false} SmallTick(k: nat)
    ensures 0.0 <= Scaled(1, k) <= 1.0
  {
    var d := Power10(k) as real;
    assert d >= 1.0 && (1.0 / d) * d == 1.0;
  }

  lemma {:induction false} RoomKeeps(s: Column, t: Column, v: Datum)
    requires Comparable(s, t) && Roomy(s, t) && Holds(s, v)
    ensures Holds(t, v)
  {
    hide IsDecimal, RoomyDecimal, OnTick, Within, IsMidnight;
    match t.ctype {
      case STRING => LimitKept(|v.text|, s.length, t.length);
      case BINARY => LimitKept(|v.data|, s.length, t.length);
      case INTEGER => DecimalKept(v.x, s.precision, Places(s), t.precision, Places(t));
      case DECIMAL => DecimalKept(v.x, s.precision, Places(s), t.precision, Places(t));
      case TIME => TickKept(v.t, s.datetimePrecision, t.datetimePrecision);
      case TIMESTAMP =>
        if s.ctype == DATE {
          MidnightKept(v.t, t.datetimePrecision);
        } else {
          TickKept(v.t, s.datetimePrecision, t.datetimePrecision);
        }
      case TIMESTAMP_TZ => TickKept(v.t, s.datetimePrecision, t.datetimePrecision);
      case _ =>
    }
  }

  lemma {:induction false} LimitKept(n: nat, a: Option<nat>, b: Option<nat>)
    requires Within(a, b) && (a.Some? ==> n <= a.value)
    ensures b.Some? ==> n <= b.value
  {
  }

  /** A length the source has and the target has not. */
  lemma {:induction false} LengthLost(a: Option<nat>, b: Option<nat>) returns (n: nat)
    requires !Within(a, b)
    ensures (a.Some? ==> n <= a.value) && b.Some? && n > b.value
  {
    n := if a.Some? then a.value else b.value + 1;
  }

  lemma {:induction false} NoRoomLoses(s: Column, t: Column) returns (v: Datum)
    requires Comparable(s, t) && !Roomy(s, t)
    ensures Holds(s, v) && !Holds(t, v)
  {
    hide IsDecimal, RoomyDecimal, OnTick, Within;
    match t.ctype {
      case STRING =>
        var n := LengthLost(s.length, t.length);
        v := Characters(seq(n, _ => 'a'));
      case BINARY =>
        var n := LengthLost(s.length, t.length);
        v := Octets(seq(n, _ => 0));
      case INTEGER =>
        var x := DecimalLost(s.precision, Places(s), t.precision, Places(t));
        v := Amount(x);
      case DECIMAL =>
        var x := DecimalLost(s.precision, Places(s), t.precision, Places(t));
        v := Amount(x);
      case TIME =>
        var x := TickLost(s.datetimePrecision, t.datetimePrecision);
        v := Clock(x);
      case TIMESTAMP =>
        var x := TickLost(s.datetimePrecision, t.datetimePrecision);
        v := Instant(x);
      case TIMESTAMP_TZ =>
        var x := TickLost(s.datetimePrecision, t.datetimePrecision);
        v := Zoned(x, 0);
      case _ => v := Truth(true);
    }
  }

  /** Every value of the source fits exactly when the target has room for it. */
  lemma {:induction false} RoomMeans(s: Column, t: Column)
    requires Comparable(s, t)
    ensures KeepsAll(s, t) <==> Roomy(s, t)
  {
    hide Holds, Roomy, Comparable;
    if Roomy(s, t) {
      forall v | Holds(s, v) ensures Holds(t, v) { RoomKeeps(s, t, v); }
    } else {
      var v := NoRoomLoses(s, t);
    }
  }

  // ---------------------------------------------------------------- what a classification means

  /** A dimension known on both sides gets smaller. */
  predicate Shrinks(s: Column, t: Column) {
    || (s.length.Some? && t.length.Some? && t.length.value < s.length.value)
    || (s.precision.Some? && t.precision.Some? && t.precision.value < s.precision.value)
    || (s.scale.Some? && t.scale.Some? && t.scale.value < s.scale.value)
    || (s.datetimePrecision.Some? && t.datetimePrecision.Some? && t.datetimePrecision.value < s.datetimePrecision.value)
  }

  /** A dimension is known on both sides. */
  predicate Shared(s: Column, t: Column) {
    || (s.length.Some? && t.length.Some?) || (s.precision.Some? && t.precision.Some?)
    || (s.scale.Some? && t.scale.Some?) || (s.datetimePrecision.Some? && t.datetimePrecision.Some?)
  }

  /** Exactly which conversions get which classification. */
  lemma {:induction false} ClassifiedExactly(s: Column, t: Column)
    ensures var (c, proven) := TypeCompatibility(s, t);
            && (c == Unclear <==> s.ctype == UNKNOWN || t.ctype == UNKNOWN)
            && (c == Exact <==> s.ctype == t.ctype && s.ctype != UNKNOWN && !Shrinks(s, t))
            && (c == Safe <==> || (s.ctype == INTEGER && t.ctype == DECIMAL && !Shrinks(s, t))
                               || (s.ctype == DATE && t.ctype == TIMESTAMP))
            && (c == Lossy <==> || (s.ctype == t.ctype && s.ctype != UNKNOWN && Shrinks(s, t))
                                || (s.ctype == INTEGER && t.ctype == DECIMAL && Shrinks(s, t))
                                || (s.ctype == DECIMAL && t.ctype == INTEGER)
                                || ((s.ctype == DECIMAL || s.ctype == INTEGER) && t.ctype == FLOAT))
            && (proven <==> c != Unclear && !Shrinks(s, t) && Shared(s, t)
                            && (s.ctype == t.ctype || (s.ctype == INTEGER && t.ctype == DECIMAL)))
  {
  }

  /** What an exact or safe conversion leaves open: the limits of the target the source does not state. */
  predicate LimitsStated(s: Column, t: Column) {
    match t.ctype
    case STRING => t.length.Some? ==> s.length.Some?
    case BINARY => t.length.Some? ==> s.length.Some?
    case INTEGER => t.precision.Some? ==> s.precision.Some?
    case DECIMAL =>
      || s.precision == Some(0)
      || (&& (t.precision.Some? ==> s.precision.Some?)
          && (t.scale.Some? ==> Places(s).Some? && Places(s).value <= t.scale.value)
          && (t.precision.Some? && t.scale.Some? ==>
                s.precision.value - Places(s).value <= t.precision.value - t.scale.value))
    case TIME => t.datetimePrecision.Some? ==> s.datetimePrecision.Some?
    case TIMESTAMP => s.ctype == DATE || (t.datetimePrecision.Some? ==> s.datetimePrecision.Some?)
    case TIMESTAMP_TZ => t.datetimePrecision.Some? ==> s.datetimePrecision.Some?
    case _ => true
  }

  /**
   * A conversion called exact or safe keeps every value of the source exactly when the source states
   * each limit the target has and, for decimals, the digits before the point do not get fewer.
   */
  lemma {:induction false} SafeKeeps(s: Column, t: Column)
    requires TypeCompatibility(s, t).0 == Exact || TypeCompatibility(s, t).0 == Safe
    ensures KeepsAll(s, t) <==> LimitsStated(s, t)
  {
    hide KeepsAll, TypeCompatibility;
    ClassifiedExactly(s, t);
    RoomMeans(s, t);
  }

  /** A decimal column with ten digits, `scale` of them after the point. */
  function TenDigits(scale: int): Column {
    Column("amount", None, DECIMAL, None, None, Some(10), Some(scale), None)
  }

  /** More places at the same precision: called exact, and eight digits before the point are lost. */
  lemma {:induction false} ExactLoses()
    ensures TypeCompatibility(TenDigits(2), TenDigits(4)) == (Exact, true)
    ensures Holds(TenDigits(2), Amount(99999999.99)) && !Holds(TenDigits(4), Amount(99999999.99))
  {
    hide Power10, Scaled;
    HundredAndMore();
    assert Scaled(9999999999, 2) == 99999999.99 by { InHundredths(9999999999); }
    assert Holds(TenDigits(2), Amount(99999999.99));
    TooManyDigits(9999999999, 2, Some(10), 4);
  }

  lemma {:induction false} HundredAndMore()
    ensures Power10(2) == 100 && Power10(10) == 10000000000
  {
    hide Power10;
    PowerOne();
    PowerSum(1, 1);
    PowerSum(2, 2);
    PowerSum(4, 4);
    PowerSum(8, 2);
  }

  lemma {:induction false} InHundredths(u: int)
    ensures Scaled(u, 2) == u as real / 100.0
  {
    HundredAndMore();
  }

  /** A length the source does not state: called exact, and long texts are lost. */
  lemma {:induction false} UnstatedLoses(n: nat)
    ensures var s := Column("name", None, STRING, None, None, None, None, None);
            var t := s.(length := Some(n));
            TypeCompatibility(s, t) == (Exact, false) && !KeepsAll(s, t)
  {
    var s := Column("name", None, STRING, None, None, None, None, None);
    RoomMeans(s, s.(length := Some(n)));
  }
}
