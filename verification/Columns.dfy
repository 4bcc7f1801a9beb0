/** Discovered columns, their review order, and the conservative classification of conversions. */
module Columns {
  import opened Common
  import opened MappingModel
  import opened Ordering

  datatype Column = Column(
    name: string, ordinal: Option<nat>, ctype: CanonicalType, nullable: Option<bool>, length: Option<nat>,
    precision: Option<nat>, scale: Option<int>, datetimePrecision: Option<nat>)

  datatype Table = Table(identity: TableIdentity, columns: seq<Column>)

  function PlaceOf(c: Column): Position {
    Position(c.ordinal, c.name)
  }

  function OrderedColumns(cs: seq<Column>): seq<Column> {
    SortBy(cs, PlaceOf)
  }

  predicate UniqueNames(cs: seq<Column>) {
    forall i, j :: 0 <= i < j < |cs| ==> cs[i].name != cs[j].name
  }

  predicate ValidColumns(cs: seq<Column>) {
    forall i :: 0 <= i < |cs| ==> ValidName(cs[i].name)
  }

  predicate ValidTable(t: Table) {
    ValidIdentity(t.identity) && ValidColumns(t.columns)
  }

  function NamesOfColumns(cs: seq<Column>): (r: seq<string>)
    ensures |r| == |cs| && forall i :: 0 <= i < |cs| ==> r[i] == cs[i].name
  {
    seq(|cs|, i requires 0 <= i < |cs| => cs[i].name)
  }

  /** Sorting keeps the columns and their uniqueness. */
  lemma {:induction false} OrderedKeeps(cs: seq<Column>)
    requires UniqueNames(cs)
    ensures UniqueNames(OrderedColumns(cs)) && |OrderedColumns(cs)| == |cs|
    ensures forall c :: c in OrderedColumns(cs) <==> c in cs
  {
    SortByCorrect(cs, PlaceOf);
    var sorted := OrderedColumns(cs);
    SameLength(sorted, cs);
    forall c ensures c in sorted <==> c in cs { assert c in multiset(sorted) <==> c in multiset(cs); }
    forall i, j | 0 <= i < j < |sorted| ensures sorted[i].name != sorted[j].name {
      assert sorted[i] in cs && sorted[j] in cs;
      var a :| 0 <= a < |cs| && cs[a] == sorted[i];
      var b :| 0 <= b < |cs| && cs[b] == sorted[j];
      if a == b {
        TwiceCounted(sorted, i, j);
        assert forall k :: 0 <= k < |cs| && k != a ==> cs[k] != cs[a];
        OnceCounted(cs, a);
      }
    }
  }

  /** The review order does not depend on the order in which columns were delivered. */
  lemma {:induction false} OrderedPermuted(cs: seq<Column>, ds: seq<Column>)
    requires UniqueNames(cs) && multiset(cs) == multiset(ds)
    ensures OrderedColumns(cs) == OrderedColumns(ds)
  {
    SortByPermuted(cs, ds, PlaceOf);
  }

  /** Review goes by position, unknown positions last, then by name. */
  lemma {:induction false} ReviewOrder(cs: seq<Column>, i: nat, j: nat)
    requires i < j < |OrderedColumns(cs)|
    ensures var a, b := OrderedColumns(cs)[i], OrderedColumns(cs)[j];
            || (a.ordinal.Some? && (b.ordinal.None? || a.ordinal.value < b.ordinal.value))
            || (a.ordinal == b.ordinal && StringLe(a.name, b.name))
  {
    SortedFirst(cs, PlaceOf, i, j);
  }

  // ---------------------------------------------------------------- type compatibility

  predicate Narrows(a: Option<int>, b: Option<int>) {
    a.Some? && b.Some? && b.value < a.value
  }

  predicate BothKnown(a: Option<int>, b: Option<int>) {
    a.Some? && b.Some?
  }

  predicate AnyNarrows(s: Column, t: Column) {
    || Narrows(s.length, t.length) || Narrows(s.precision, t.precision) || Narrows(s.scale, t.scale)
    || Narrows(s.datetimePrecision, t.datetimePrecision)
  }

  predicate AnyKnown(s: Column, t: Column) {
    || BothKnown(s.length, t.length) || BothKnown(s.precision, t.precision) || BothKnown(s.scale, t.scale)
    || BothKnown(s.datetimePrecision, t.datetimePrecision)
  }

  /** A narrowing classification, and whether known dimensions prove compatibility. */
  function DimensionCompatibility(s: Column, t: Column): (Option<Compatibility>, bool) {
    if AnyNarrows(s, t) then (Some(Lossy), false) else (None, AnyKnown(s, t))
  }

  /** A conversion is classified as no better than its types and dimensions allow. */
  function TypeCompatibility(s: Column, t: Column): (Compatibility, bool) {
    if s.ctype == UNKNOWN || t.ctype == UNKNOWN then (Unclear, false)
    else if s.ctype == t.ctype then
      var (narrowing, proven) := DimensionCompatibility(s, t);
      (if narrowing.Some? then narrowing.value else Exact, proven)
    else if s.ctype == INTEGER && t.ctype == DECIMAL then
      var (narrowing, proven) := DimensionCompatibility(s, t);
      (if narrowing.Some? then narrowing.value else Safe, proven)
    else if s.ctype == DATE && t.ctype == TIMESTAMP then (Safe, false)
    else if s.ctype == DECIMAL && (t.ctype == INTEGER || t.ctype == FLOAT) then (Lossy, false)
    else if s.ctype == INTEGER && t.ctype == FLOAT then (Lossy, false)
    else (Incompatible, false)
  }
}
