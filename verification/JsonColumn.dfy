/**
 * The column artifacts are stored in: it refuses texts that hold NUL, keeps the members of an object
 * in an order of its own, and writes every number as a plain decimal without a sign on zero. A number
 * of more than sixteen digits before the point is written with an exponent when it is encoded and has
 * no fraction, so it comes back from the column as an integer.
 */
module JsonColumn {
  import opened Common
  import opened Digits
  import opened CanonicalJson
  import opened JsonLeaves

  // ---------------------------------------------------------------- the column

  const EXPONENT_FROM := 10000000000000000.0

  /** A text without NUL. */
  predicate Clear(j: Json) {
    j.JText? ==> '\0' !in j.s
  }

  /** A number other than negative zero that is written without an exponent, or with a negative one. */
  predicate Plain(j: Json) {
    j.JReal? ==> j.x.Finite? && -EXPONENT_FROM < j.x.x < EXPONENT_FROM
  }

  /** A finite number is plain exactly when it has at most sixteen digits before the point. */
  lemma {:induction false} PlainMeans(x: real)
    ensures var whole: int := if x < 0.0 then (-x).Floor else x.Floor;
            whole >= 0 && (Plain(JReal(Finite(x))) <==> |Numeral(whole)| <= 16)
  {
    var whole: int := if x < 0.0 then (-x).Floor else x.Floor;
    NumeralLength(whole, 16);
    PowerOne();
    PowerSum(1, 1);
    PowerSum(2, 2);
    PowerSum(4, 4);
    PowerSum(8, 8);
  }

  /** What the column keeps of a text it takes. */
  function InColumn(j: Json): Json
    decreases j
  {
    match j
    case JReal(x) => if Plain(j) then j else if x.NegativeZero? then JReal(Finite(0.0)) else JInt(x.x.Floor)
    case JList(items) => JList(InColumnEach(items))
    case JObject(ms) => JObject(InColumnMembers(ms))
    case _ => j
  }

  function InColumnEach(js: seq<Json>): (r: seq<Json>)
    ensures |r| == |js|
    decreases js
  {
    if js == [] then [] else [InColumn(js[0])] + InColumnEach(js[1..])
  }

  function InColumnMembers(ms: seq<Member>): (r: seq<Member>)
    ensures |r| == |ms| && forall i :: 0 <= i < |ms| ==> r[i].key == ms[i].key
    decreases ms
  {
    if ms == [] then [] else [Member(ms[0].key, InColumn(ms[0].value))] + InColumnMembers(ms[1..])
  }

  /** The column takes `j` and may give it back as `stored`. */
  ghost predicate Fetched(j: Json, stored: Json) {
    Everywhere(Clear, j) && SameJson(stored, InColumn(j))
  }

  lemma {:induction false} PlainStays(j: Json)
    requires Everywhere(Plain, j)
    ensures InColumn(j) == j
    decreases j
  {
    match j
    case JList(items) => PlainStaysEach(items);
    case JObject(ms) => PlainStaysMembers(ms);
    case _ =>
  }

  lemma {:induction false} PlainStaysEach(js: seq<Json>)
    requires EverywhereEach(Plain, js)
    ensures InColumnEach(js) == js
    decreases js
  {
    hide Everywhere, InColumn, Plain;
    if js != [] {
      PlainStays(js[0]);
      PlainStaysEach(js[1..]);
    }
  }

  lemma {:induction false} PlainStaysMembers(ms: seq<Member>)
    requires EverywhereMembers(Plain, ms)
    ensures InColumnMembers(ms) == ms
    decreases ms
  {
    hide Everywhere, InColumn, Plain;
    if ms != [] {
      PlainStays(ms[0].value);
      PlainStaysMembers(ms[1..]);
    }
  }

  /** Only plain numbers come back. */
  lemma {:induction false} ColumnPlain(j: Json)
    ensures Everywhere(Plain, InColumn(j))
    decreases j
  {
    match j
    case JList(items) => ColumnPlainEach(items);
    case JObject(ms) => ColumnPlainMembers(ms);
    case _ =>
  }

  lemma {:induction false} ColumnPlainEach(js: seq<Json>)
    ensures EverywhereEach(Plain, InColumnEach(js))
    decreases js
  {
    hide Everywhere, InColumn, Plain;
    if js != [] {
      ColumnPlain(js[0]);
      ColumnPlainEach(js[1..]);
    }
  }

  lemma {:induction false} ColumnPlainMembers(ms: seq<Member>)
    ensures EverywhereMembers(Plain, InColumnMembers(ms))
    decreases ms
  {
    hide Everywhere, InColumn;
    if ms != [] {
      ColumnPlain(ms[0].value);
      ColumnPlainMembers(ms[1..]);
    }
  }

  lemma {:induction false} ColumnClean(j: Json)
    requires Clean(j)
    ensures Clean(InColumn(j))
    decreases j
  {
    match j
    case JList(items) => ColumnCleanEach(items);
    case JObject(ms) => ColumnCleanMembers(ms);
    case _ =>
  }

  lemma {:induction false} ColumnCleanEach(js: seq<Json>)
    requires CleanEach(js)
    ensures CleanEach(InColumnEach(js))
    decreases js
  {
    hide Clean, InColumn;
    if js != [] {
      ColumnClean(js[0]);
      ColumnCleanEach(js[1..]);
    }
  }

  lemma {:induction false} ColumnCleanMembers(ms: seq<Member>)
    requires CleanMembers(ms)
    ensures CleanMembers(InColumnMembers(ms))
    decreases ms
  {
    hide Clean, InColumn;
    if ms != [] {
      ColumnClean(ms[0].value);
      ColumnCleanMembers(ms[1..]);
    }
  }

  /** Every JSON value may come back as it was kept. */
  lemma {:induction false} SameReflexive(j: Json)
    requires Clean(j)
    ensures SameJson(j, j)
    decreases j
  {
    hide DistinctMembers;
    match j
    case JList(items) => SameReflexiveEach(items);
    case JObject(ms) => SameReflexiveMembers(ms, ms);
    case _ =>
  }

  lemma {:induction false} SameReflexiveEach(js: seq<Json>)
    requires CleanEach(js)
    ensures forall i :: 0 <= i < |js| ==> SameJson(js[i], js[i])
    decreases js
  {
    hide SameJson, Clean;
    if js != [] {
      SameReflexive(js[0]);
      SameReflexiveEach(js[1..]);
    }
  }

  lemma {:induction false} SameReflexiveMembers(all: seq<Member>, ms: seq<Member>)
    requires CleanMembers(ms) && forall m :: m in all ==> m in ms
    ensures SameMembers(all, all)
    decreases ms, |ms|
  {
    hide SameJson, Clean, CleanMembers;
    forall i | 0 <= i < |all| ensures HasTwin(all, all, i) && HasOrigin(all, all, i) {
      assert all[i] in ms;
      SameMemberReflexive(ms, all[i]);
    }
  }

  lemma {:induction false} SameMemberReflexive(ms: seq<Member>, m: Member)
    requires CleanMembers(ms) && m in ms
    ensures SameJson(m.value, m.value)
    decreases ms, 0
  {
    hide SameJson, Clean;
    if m == ms[0] {
      SameReflexive(ms[0].value);
    } else {
      assert m in ms[1..];
      SameMemberReflexive(ms[1..], m);
    }
  }

  lemma {:induction false} ColumnTreeHolds(v: Value, stored: Json)
    requires Keyed(v) && Encode(v).Some? && SameJson(stored, InColumn(Encode(v).value))
    ensures Encode(FromJson(stored)) == Encode(v) <==> Everywhere(Plain, Encode(v).value)
  {
    hide Canonical, FromJson, SortedJson, Clean, Keyed, SameJson, InColumn, Everywhere, Plain;
    var c := Canonical(v).value;
    var e := SortedJson(c);
    if Everywhere(Plain, e) {
      PlainStays(e);
      StoredHashHolds(v, stored);
    }
    if Encode(FromJson(stored)) == Encode(v) {
      CanonicalClean(v);
      SortedClean(c);
      ColumnClean(e);
      SameClean(stored, InColumn(e));
      CanonicalFromJson(stored);
      SortedTwice(stored);
      SortedSame(stored, InColumn(e));
      ColumnPlain(e);
      EverywhereSorted(Plain, InColumn(e));
    }
  }

  /**
   * The hash of an artifact that was read back is the stored one exactly when no number in the
   * artifact reaches the exponent form or is negative zero.
   */
  lemma {:induction false} ColumnHashHolds(v: Value, stored: Json)
    requires Keyed(v) && Dump(v).Some? && SameJson(stored, InColumn(Dump(v).value))
    ensures Dump(FromJson(stored)) == Dump(v) <==> Everywhere(Plain, Dump(v).value)
  {
    hide Encode, FromJson, Keyed, SameJson, InColumn, Everywhere;
    ColumnTreeHolds(v, stored);
  }
}
