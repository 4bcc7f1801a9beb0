/**
 * The artifact of an approved plan: how a plan is written as a record, how the stored object is
 * decoded, and that decoding gives back the plan, for expression trees of any depth, exactly when
 * every literal is a JSON scalar.
 */
module PlanCodec {
  import opened Common
  import opened MappingModel
  import opened CanonicalJson
  import opened JsonTree
  import opened JsonLeaves

  // ---------------------------------------------------------------- names of enumerations

  function KindName(k: ExpressionKind): string {
    match k
    case SourceColumn => "SOURCE_COLUMN"
    case Literal => "LITERAL"
    case Cast => "CAST"
    case Concat => "CONCAT"
    case Coalesce => "COALESCE"
    case DirectCopy => "DIRECT_COPY"
  }

  const KINDS := [SourceColumn, Literal, Cast, Concat, Coalesce, DirectCopy]

  function TypeText(t: CanonicalType): string {
    match t
    case STRING => "STRING"
    case INTEGER => "INTEGER"
    case DECIMAL => "DECIMAL"
    case FLOAT => "FLOAT"
    case BOOLEAN => "BOOLEAN"
    case DATE => "DATE"
    case TIME => "TIME"
    case TIMESTAMP => "TIMESTAMP"
    case TIMESTAMP_TZ => "TIMESTAMP_TZ"
    case BINARY => "BINARY"
    case SEMI_STRUCTURED => "SEMI_STRUCTURED"
    case UNKNOWN => "UNKNOWN"
  }

  const TYPES := [STRING, INTEGER, DECIMAL, FLOAT, BOOLEAN, DATE, TIME, TIMESTAMP, TIMESTAMP_TZ, BINARY,
                  SEMI_STRUCTURED, UNKNOWN]

  function StatusName(s: ApprovalStatus): string {
    match s
    case Pending => "PENDING"
    case Approved => "APPROVED"
    case Rejected => "REJECTED"
    case Overridden => "OVERRIDDEN"
  }

  const STATUSES := [Pending, Approved, Rejected, Overridden]

  function CompatibilityName(c: Compatibility): string {
    match c
    case Exact => "EXACT"
    case Safe => "SAFE"
    case Lossy => "LOSSY"
    case Incompatible => "INCOMPATIBLE"
    case Unclear => "UNKNOWN"
  }

  const COMPATIBILITIES := [Exact, Safe, Lossy, Incompatible, Unclear]

  /** The member of an enumeration with a given name. */
  function Named<T>(name: T -> string, members: seq<T>, s: string): Option<T> {
    if members == [] then None
    else if name(members[0]) == s then Some(members[0])
    else Named(name, members[1..], s)
  }

  lemma {:induction false} NamedBack<T>(name: T -> string, members: seq<T>, x: T)
    requires x in members
    requires forall y :: y in members && name(y) == name(x) ==> y == x
    ensures Named(name, members, name(x)) == Some(x)
  {
    if members[0] != x { NamedBack(name, members[1..], x); }
  }

  function AsNamed<T>(name: T -> string, members: seq<T>, t: Tree): Option<T> {
    if t.TText? then Named(name, members, t.s) else None
  }

  lemma {:induction false} KindBack(k: ExpressionKind)
    ensures AsNamed(KindName, KINDS, TText(KindName(k))) == Some(k)
  {
    assert k in KINDS by {
      assert KINDS[0] == SourceColumn && KINDS[1] == Literal && KINDS[2] == Cast && KINDS[3] == Concat;
      assert KINDS[4] == Coalesce && KINDS[5] == DirectCopy;
    }
    forall y: ExpressionKind | y in KINDS && KindName(y) == KindName(k) ensures y == k { KindsDiffer(y, k); }
    NamedBack(KindName, KINDS, k);
  }

  lemma {:induction false} KindsDiffer(a: ExpressionKind, b: ExpressionKind)
    requires KindName(a) == KindName(b)
    ensures a == b
  {
  }

  lemma {:induction false} TypeBack(t: CanonicalType)
    ensures AsNamed(TypeText, TYPES, TText(TypeText(t))) == Some(t)
  {
    hide TypeText;
    assert t in TYPES by {
      assert TYPES[0] == STRING && TYPES[1] == INTEGER && TYPES[2] == DECIMAL && TYPES[3] == FLOAT;
      assert TYPES[4] == BOOLEAN && TYPES[5] == DATE && TYPES[6] == TIME && TYPES[7] == TIMESTAMP;
      assert TYPES[8] == TIMESTAMP_TZ && TYPES[9] == BINARY && TYPES[10] == SEMI_STRUCTURED && TYPES[11] == UNKNOWN;
    }
    forall y: CanonicalType | y in TYPES && TypeText(y) == TypeText(t) ensures y == t { TypesDiffer(y, t); }
    NamedBack(TypeText, TYPES, t);
  }

  lemma {:induction false} TypesDiffer(a: CanonicalType, b: CanonicalType)
    requires TypeText(a) == TypeText(b)
    ensures a == b
  {
  }

  lemma {:induction false} StatusBack(s: ApprovalStatus)
    ensures AsNamed(StatusName, STATUSES, TText(StatusName(s))) == Some(s)
  {
    assert s in STATUSES by {
      assert STATUSES[0] == Pending && STATUSES[1] == Approved && STATUSES[2] == Rejected && STATUSES[3] == Overridden;
    }
    forall y: ApprovalStatus | y in STATUSES && StatusName(y) == StatusName(s) ensures y == s { StatusesDiffer(y, s); }
    NamedBack(StatusName, STATUSES, s);
  }

  lemma {:induction false} StatusesDiffer(a: ApprovalStatus, b: ApprovalStatus)
    requires StatusName(a) == StatusName(b)
    ensures a == b
  {
  }

  lemma {:induction false} CompatibilityBack(c: Compatibility)
    ensures AsNamed(CompatibilityName, COMPATIBILITIES, TText(CompatibilityName(c))) == Some(c)
  {
    assert c in COMPATIBILITIES by {
      assert COMPATIBILITIES[0] == Exact && COMPATIBILITIES[1] == Safe && COMPATIBILITIES[2] == Lossy;
      assert COMPATIBILITIES[3] == Incompatible && COMPATIBILITIES[4] == Unclear;
    }
    forall y: Compatibility | y in COMPATIBILITIES && CompatibilityName(y) == CompatibilityName(c) ensures y == c {
      CompatibilitiesDiffer(y, c);
    }
    NamedBack(CompatibilityName, COMPATIBILITIES, c);
  }

  lemma {:induction false} CompatibilitiesDiffer(a: Compatibility, b: Compatibility)
    requires CompatibilityName(a) == CompatibilityName(b)
    ensures a == b
  {
  }

  // ---------------------------------------------------------------- expressions

  /** A literal as it is stored; decimals, dates and identifiers become text, and some literals are refused. */
  function ScalarValue(v: Scalar): Value {
    match v
    case Null => Nothing
    case Text(s) => Value.Text(s)
    case Whole(i) => Int(i)
    case Number(x) => Real(x)
    case Flag(b) => Bool(b)
    case FiniteDecimal(digits) => Decimal(digits)
    case NonFinite => NotFinite
    case Calendar(iso) => Date(iso)
    case Moment(iso, aware) => if aware then AwareTime(iso) else NaiveTime
    case Identifier(id) => Code(id)
    case Raw(_) => Value.Other
  }

  function AsScalar(t: Tree): Option<Scalar> {
    match t
    case TNull => Some(Null)
    case TBool(b) => Some(Flag(b))
    case TInt(i) => Some(Whole(i))
    case TReal(x) => Some(Number(x))
    case TText(s) => Some(Scalar.Text(s))
    case _ => None
  }

  function OptionalType(t: Option<CanonicalType>): Value {
    if t.None? then Nothing else Code(TypeText(t.value))
  }

  function AsOptionalType(t: Tree): Option<Option<CanonicalType>> {
    if t.TNull? then Some(None)
    else
      var c := AsNamed(TypeText, TYPES, t);
      if c.None? then None else Some(c)
  }

  function OptionalBool(b: Option<bool>): Value {
    if b.None? then Nothing else Bool(b.value)
  }

  const EXPRESSION_NAMES := ["expression_type", "source_columns", "literal_value", "target_canonical_type", "arguments",
                             "separator", "nullable", "description"]

  function ExpressionFields(e: Expression, arguments: seq<Value>): seq<Entry> {
    [Entry("expression_type", Code(KindName(e.kind))), Entry("source_columns", List(TextsValue(e.columns))),
     Entry("literal_value", ScalarValue(e.literal)), Entry("target_canonical_type", OptionalType(e.castTo)),
     Entry("arguments", List(arguments)), Entry("separator", OptionalText(e.separator)),
     Entry("nullable", OptionalBool(e.nullable)), Entry("description", OptionalText(e.description))]
  }

  function ExpressionValue(e: Expression): Value
    decreases e
  {
    Record(ExpressionFields(e, ExpressionValues(e.arguments)))
  }

  function ExpressionValues(es: seq<Expression>): (r: seq<Value>)
    ensures |r| == |es|
    decreases es
  {
    if es == [] then [] else [ExpressionValue(es[0])] + ExpressionValues(es[1..])
  }

  /** Everything of a node but its arguments, and the check of its constructor. */
  function ReadNode(m: map<string, Tree>, arguments: seq<Expression>): Option<Expression> {
    if !OnlyKeys(m, EXPRESSION_NAMES) || "expression_type" !in m then None
    else
      var kind := AsNamed(KindName, KINDS, m["expression_type"]);
      var columns := AsTextList(Get(m, "source_columns", TList([])));
      var literal := AsScalar(Get(m, "literal_value", TNull));
      var castTo := AsOptionalType(Get(m, "target_canonical_type", TNull));
      var separator := AsOptionalText(Get(m, "separator", TNull));
      var nullable := AsOptionalBool(Get(m, "nullable", TNull));
      var description := AsOptionalText(Get(m, "description", TNull));
      if kind.None? || columns.None? || literal.None? || castTo.None? || separator.None? || nullable.None?
         || description.None?
      then None
      else
        var e := Expression(kind.value, columns.value, literal.value, castTo.value, arguments, separator.value,
                            nullable.value, description.value);
        if ValidNode(e) then Some(e) else None
  }

  function DecodeExpression(t: Tree): Option<Expression>
    decreases t
  {
    if !t.TObject? then None
    else if "arguments" in t.members && !t.members["arguments"].TList? then None
    else
      var arguments := if "arguments" in t.members then DecodeExpressions(t.members["arguments"].items) else Some([]);
      if arguments.None? then None else ReadNode(t.members, arguments.value)
  }

  function DecodeExpressions(ts: seq<Tree>): (r: Option<seq<Expression>>)
    ensures r.Some? ==> |r.value| == |ts|
    decreases ts
  {
    if ts == [] then Some([])
    else
      var first, rest := DecodeExpression(ts[0]), DecodeExpressions(ts[1..]);
      if first.None? || rest.None? then None else Some([first.value] + rest.value)
  }

  /** Literals that JSON has a value of its own for. */
  predicate JsonScalar(v: Scalar) {
    v.Null? || v.Text? || v.Whole? || v.Number? || v.Flag?
  }

  /** Literals that can be encoded at all. */
  predicate EncodableScalar(v: Scalar) {
    !v.NonFinite? && !v.Raw? && (v.Moment? ==> v.aware)
  }

  predicate JsonLiterals(e: Expression)
    decreases e
  {
    JsonScalar(e.literal) && JsonLiteralsEach(e.arguments)
  }

  predicate JsonLiteralsEach(es: seq<Expression>)
    decreases es
  {
    es == [] || (JsonLiterals(es[0]) && JsonLiteralsEach(es[1..]))
  }

  predicate EncodableLiterals(e: Expression)
    decreases e
  {
    EncodableScalar(e.literal) && EncodableLiteralsEach(e.arguments)
  }

  predicate EncodableLiteralsEach(es: seq<Expression>)
    decreases es
  {
    es == [] || (EncodableLiterals(es[0]) && EncodableLiteralsEach(es[1..]))
  }

  lemma {:induction false} JsonIsEncodable(e: Expression)
    requires JsonLiterals(e)
    ensures EncodableLiterals(e)
    decreases e
  {
    JsonIsEncodableEach(e.arguments);
  }

  lemma {:induction false} JsonIsEncodableEach(es: seq<Expression>)
    requires JsonLiteralsEach(es)
    ensures EncodableLiteralsEach(es)
    decreases es
  {
    hide JsonLiterals, EncodableLiterals;
    if es != [] {
      JsonIsEncodable(es[0]);
      JsonIsEncodableEach(es[1..]);
    }
  }

  // ---------------------------------------------------------------- names of fields

  function KeysOf(fs: seq<Entry>): (r: seq<string>)
    ensures |r| == |fs| && forall i :: 0 <= i < |fs| ==> r[i] == fs[i].key
  {
    seq(|fs|, i requires 0 <= i < |fs| => fs[i].key)
  }

  /** Names that fit a record: each once, and none that is dropped. */
  predicate FieldNames(names: seq<string>) {
    Distinct(names) && forall i :: 0 <= i < |names| ==> names[i] != VENDOR
  }

  lemma {:induction false} FieldsDistinct(fs: seq<Entry>, names: seq<string>)
    requires KeysOf(fs) == names && FieldNames(names)
    ensures DistinctEntries(fs) && OnlyKeys(ViewEntries(fs), names)
    ensures forall i :: 0 <= i < |fs| ==> fs[i].key != VENDOR
  {
    hide ViewEntries;
    forall i, j | 0 <= i < j < |fs| ensures fs[i].key != fs[j].key { assert names[i] != names[j]; }
    forall k | k in ViewEntries(fs) ensures k in names {
      ViewKey(fs, k);
      var i :| 0 <= i < |fs| && fs[i].key == k;
      assert names[i] == k;
    }
  }

  lemma {:induction false} FieldRead(fs: seq<Entry>, names: seq<string>, i: nat, missing: Tree)
    requires KeysOf(fs) == names && FieldNames(names) && i < |fs|
    ensures names[i] in ViewEntries(fs) && ViewEntries(fs)[names[i]] == View(fs[i].value)
    ensures Get(ViewEntries(fs), names[i], missing) == View(fs[i].value)
  {
    hide ViewEntries, FieldNames, View;
    FieldsDistinct(fs, names);
    ViewField(fs, i);
  }

  lemma {:induction false} FieldsEncodable(fs: seq<Entry>)
    requires forall i :: 0 <= i < |fs| ==> fs[i].key != VENDOR && Encodable(fs[i].value) && Keyed(fs[i].value)
    ensures EncodableEntries(fs) && KeyedMembers(fs)
  {
    hide Encodable, Keyed;
    if fs != [] { FieldsEncodable(fs[1..]); }
  }

  /** Values that can be written whatever their context: no duplicate and no dropped member anywhere in them. */
  predicate Storable(v: Value) {
    Encodable(v) && Keyed(v)
  }

  lemma {:induction false} RecordStorable(fs: seq<Entry>, names: seq<string>)
    requires KeysOf(fs) == names && FieldNames(names)
    requires forall i :: 0 <= i < |fs| ==> Storable(fs[i].value)
    ensures Storable(Record(fs))
  {
    hide EncodableEntries, KeyedMembers, FieldNames, DistinctEntries, ViewEntries;
    FieldsDistinct(fs, names);
    FieldsEncodable(fs);
  }

  lemma {:induction false} ListStorable(vs: seq<Value>)
    requires EncodableEach(vs) && KeyedEach(vs)
    ensures Storable(List(vs))
  {
    hide EncodableEach, KeyedEach;
  }

  lemma {:induction false} LeafStorable(v: Value)
    requires v.Text? || v.Int? || v.Real? || v.Code? || v.Nothing?
    ensures Storable(v)
  {
  }

  /** Names of different lengths differ; names of the same length are told apart by one letter. */
  lemma {:induction false} ExpressionNamesFit()
    ensures FieldNames(EXPRESSION_NAMES)
  {
    var n := EXPRESSION_NAMES;
    assert |n[0]| == 15 && |n[1]| == 14 && |n[2]| == 13 && |n[3]| == 21 && |n[4]| == 9 && |n[5]| == 9;
    assert |n[6]| == 8 && |n[7]| == 11 && |VENDOR| == 15;
    assert n[4][0] == 'a' && n[5][0] == 's' && n[0][0] == 'e' && VENDOR[0] == 'v';
  }

  // ---------------------------------------------------------------- round trip of expressions

  lemma {:induction false} ScalarBack(v: Scalar)
    requires JsonScalar(v)
    ensures AsScalar(View(ScalarValue(v))) == Some(v)
  {
  }

  lemma {:induction false} PartsBack(e: Expression)
    ensures AsTextList(View(List(TextsValue(e.columns)))) == Some(e.columns)
    ensures AsOptionalType(View(OptionalType(e.castTo))) == Some(e.castTo)
    ensures AsOptionalText(View(OptionalText(e.separator))) == Some(e.separator)
    ensures AsOptionalText(View(OptionalText(e.description))) == Some(e.description)
    ensures AsOptionalBool(View(OptionalBool(e.nullable))) == Some(e.nullable)
    ensures AsNamed(KindName, KINDS, View(Code(KindName(e.kind)))) == Some(e.kind)
  {
    hide KindName, TypeText;
    TextsBack(e.columns);
    if e.castTo.Some? { TypeBack(e.castTo.value); }
    KindBack(e.kind);
  }

  /** Reading the fields of a written node gives the node. */
  lemma {:induction false} NodeBack(e: Expression, arguments: seq<Value>)
    requires ValidNode(e) && JsonScalar(e.literal)
    ensures var m := ViewEntries(ExpressionFields(e, arguments));
            ReadNode(m, e.arguments) == Some(e) && "arguments" in m && m["arguments"] == TList(ViewEach(arguments))
  {
    hide ViewEntries, FieldNames, ValidNode, View, AsNamed, AsTextList, AsOptionalType, AsOptionalText, AsOptionalBool,
         AsScalar, ScalarValue, OptionalType, OptionalText, OptionalBool, KindName, Get, ViewEach, TextsValue;
    var fs := ExpressionFields(e, arguments);
    var m := ViewEntries(fs);
    ExpressionNamesFit();
    assert KeysOf(fs) == EXPRESSION_NAMES;
    FieldsDistinct(fs, EXPRESSION_NAMES);
    FieldRead(fs, EXPRESSION_NAMES, 0, TNull);
    FieldRead(fs, EXPRESSION_NAMES, 1, TList([]));
    FieldRead(fs, EXPRESSION_NAMES, 2, TNull);
    FieldRead(fs, EXPRESSION_NAMES, 3, TNull);
    FieldRead(fs, EXPRESSION_NAMES, 4, TNull);
    FieldRead(fs, EXPRESSION_NAMES, 5, TNull);
    FieldRead(fs, EXPRESSION_NAMES, 6, TNull);
    FieldRead(fs, EXPRESSION_NAMES, 7, TNull);
    PartsBack(e);
    ScalarBack(e.literal);
    ListView(arguments);
  }

  lemma {:induction false} ListView(vs: seq<Value>)
    ensures View(List(vs)) == TList(ViewEach(vs))
  {
  }

  /** Decoding a written expression gives it back, whatever its depth. */
  lemma {:induction false} ExpressionBack(e: Expression)
    requires ValidExpression(e) && JsonLiterals(e)
    ensures DecodeExpression(View(ExpressionValue(e))) == Some(e)
    decreases e
  {
    hide ViewEntries, ReadNode, ExpressionFields, ValidNode, JsonScalar;
    ExpressionsBack(e.arguments);
    NodeBack(e, ExpressionValues(e.arguments));
    RecordView(ExpressionFields(e, ExpressionValues(e.arguments)));
  }

  lemma {:induction false} RecordView(fs: seq<Entry>)
    ensures View(Record(fs)) == TObject(ViewEntries(fs))
  {
  }

  lemma {:induction false} ExpressionsBack(es: seq<Expression>)
    requires ValidExpressions(es) && JsonLiteralsEach(es)
    ensures DecodeExpressions(ViewEach(ExpressionValues(es))) == Some(es)
    decreases es
  {
    hide ExpressionValue, DecodeExpression, View, ValidExpression, JsonLiterals;
    if es != [] {
      ExpressionBack(es[0]);
      ExpressionsBack(es[1..]);
      assert es == [es[0]] + es[1..];
    }
  }

  /** A decoder only ever returns JSON scalars. */
  lemma {:induction false} DecodedLiterals(t: Tree)
    requires DecodeExpression(t).Some?
    ensures JsonLiterals(DecodeExpression(t).value)
    decreases t
  {
    hide ValidNode, AsNamed, AsTextList, AsOptionalType, AsOptionalText, AsOptionalBool;
    if "arguments" in t.members { DecodedLiteralsEach(t.members["arguments"].items); }
  }

  lemma {:induction false} DecodedLiteralsEach(ts: seq<Tree>)
    requires DecodeExpressions(ts).Some?
    ensures JsonLiteralsEach(DecodeExpressions(ts).value)
    decreases ts
  {
    hide DecodeExpression, JsonLiterals;
    if ts != [] {
      DecodedLiterals(ts[0]);
      DecodedLiteralsEach(ts[1..]);
    }
  }

  /** Exactly the expressions with JSON literals, and no integer too long to be written, come back. */
  lemma {:induction false} ExpressionRoundTrip(e: Expression)
    requires ValidExpression(e)
    ensures var j := Dump(ExpressionValue(e));
            j.Some? && DecodeExpression(Loads(j.value)) == Some(e)
            <==> JsonLiterals(e) && Throughout(Writable, ExpressionValue(e))
  {
    hide DecodeExpression, ExpressionValue, View, JsonLiterals, ValidExpression, Encodable, Keyed, Loads, EncodableLiterals,
         Dump, Throughout;
    var j := Dump(ExpressionValue(e));
    if JsonLiterals(e) {
      ExpressionBack(e);
      JsonIsEncodable(e);
      ExpressionEncodable(e);
      DumpMeans(ExpressionValue(e));
    }
    if j.Some? && DecodeExpression(Loads(j.value)) == Some(e) { DecodedLiterals(Loads(j.value)); }
  }

  lemma {:induction false} ExpressionEncodable(e: Expression)
    requires EncodableLiterals(e)
    ensures Encodable(ExpressionValue(e)) && Keyed(ExpressionValue(e))
    decreases e
  {
    hide ExpressionFields, DistinctEntries, EncodableEntries, KeyedMembers, EncodableScalar;
    ExpressionsEncodable(e.arguments);
    ExpressionFieldsEncodable(e, ExpressionValues(e.arguments));
  }

  lemma {:induction false} ExpressionsEncodable(es: seq<Expression>)
    requires EncodableLiteralsEach(es)
    ensures EncodableEach(ExpressionValues(es)) && KeyedEach(ExpressionValues(es))
    decreases es
  {
    hide Encodable, Keyed, ExpressionValue, EncodableLiterals;
    if es != [] {
      ExpressionEncodable(es[0]);
      ExpressionsEncodable(es[1..]);
    }
  }

  lemma {:induction false} ExpressionFieldsEncodable(e: Expression, arguments: seq<Value>)
    requires EncodableEach(arguments) && KeyedEach(arguments) && EncodableScalar(e.literal)
    ensures var fs := ExpressionFields(e, arguments); EncodableEntries(fs) && KeyedMembers(fs) && DistinctEntries(fs)
  {
    hide EncodableEntries, KeyedMembers, FieldNames, EncodableEach, KeyedEach, TextsValue, KindName, TypeText,
         DistinctEntries, ViewEntries;
    var fs := ExpressionFields(e, arguments);
    ExpressionNamesFit();
    assert KeysOf(fs) == EXPRESSION_NAMES;
    FieldsDistinct(fs, EXPRESSION_NAMES);
    TextsBack(e.columns);
    FieldsEncodable(fs);
  }
}
