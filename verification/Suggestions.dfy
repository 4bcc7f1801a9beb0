/**
 * Deterministic mapping suggestions: every pair of columns is scored, and a pair is suggested only
 * when it clears the threshold, is type-safe, and beats every other viable pair of either column by
 * more than the margin. Scores are counted in hundredths.
 */
module Suggestions {
  import opened Common
  import opened MappingModel
  import opened Ordering
  import opened Columns

  const THRESHOLD := 72
  const MARGIN := 8

  datatype Code =
    | EXACT_NATIVE_NAME | CASE_INSENSITIVE_NAME | NORMALIZED_NAME | TOKEN_NAME_MATCH
    | EXACT_CANONICAL_TYPE | SAFE_TYPE_COMPATIBILITY | LOSSY_TYPE_COMPATIBILITY | INCOMPATIBLE_TYPE | UNKNOWN_TYPE
    | LENGTH_OR_PRECISION_COMPATIBLE | NULLABILITY_COMPATIBLE | NULLABILITY_MISMATCH | ORDINAL_PROXIMITY
    | AMBIGUOUS_CANDIDATE | NO_VIABLE_CANDIDATE

  /** The fixed contribution of a piece of evidence. */
  function Weight(c: Code): int {
    match c
    case EXACT_NATIVE_NAME => 58
    case CASE_INSENSITIVE_NAME => 50
    case NORMALIZED_NAME => 46
    case TOKEN_NAME_MATCH => 18
    case EXACT_CANONICAL_TYPE => 28
    case SAFE_TYPE_COMPATIBILITY => 20
    case LOSSY_TYPE_COMPATIBILITY => 4
    case ORDINAL_PROXIMITY => 4
    case NULLABILITY_COMPATIBLE => 4
    case NULLABILITY_MISMATCH => -22
    case LENGTH_OR_PRECISION_COMPATIBLE => 4
    case _ => 0
  }

  predicate IsNameEvidence(c: Code) {
    c == EXACT_NATIVE_NAME || c == CASE_INSENSITIVE_NAME || c == NORMALIZED_NAME || c == TOKEN_NAME_MATCH
  }

  // ---------------------------------------------------------------- names

  predicate IsSeparator(c: char) {
    c == '_' || c == '-' || IsSpace(c)
  }

  predicate IsUpper(c: char) {
    'A' <= c <= 'Z'
  }

  predicate IsLowerOrDigit(c: char) {
    'a' <= c <= 'z' || '0' <= c <= '9'
  }

  /** The words of a name: split at separators and before a capital that follows a small letter or digit. */
  function Words(s: string): seq<string> {
    if s == [] then []
    else
      var rest := Words(s[..|s| - 1]);
      var last := s[|s| - 1];
      if IsSeparator(last) then rest
      else if |s| == 1 || IsSeparator(s[|s| - 2]) || (IsLowerOrDigit(s[|s| - 2]) && IsUpper(last)) || rest == [] then
        rest + [Folded([last])]
      else rest[|rest| - 1 := rest[|rest| - 1] + Folded([last])]
  }

  predicate SameWords(a: string, b: string) {
    Words(a) == Words(b) && Words(a) != []
  }

  /** Equal, equal when case is ignored, or the same words in the same order. */
  predicate NamesAgree(a: string, b: string) {
    a == b || Folded(a) == Folded(b) || SameWords(a, b)
  }

  function NameEvidence(a: string, b: string): seq<Code> {
    if a == b then [EXACT_NATIVE_NAME]
    else if Folded(a) == Folded(b) then [CASE_INSENSITIVE_NAME]
    else if SameWords(a, b) then [NORMALIZED_NAME]
    else if Words(a) != [] && Words(b) != [] && (set w | w in Words(a)) == (set w | w in Words(b)) then
      [TOKEN_NAME_MATCH]
    else []
  }

  // ---------------------------------------------------------------- candidates

  datatype Candidate = Candidate(
    source: Column, target: Column, confidence: int, compatibility: Compatibility, codes: seq<Code>)

  function TypeEvidence(c: Compatibility): Code {
    match c
    case Exact => EXACT_CANONICAL_TYPE
    case Safe => SAFE_TYPE_COMPATIBILITY
    case Lossy => LOSSY_TYPE_COMPATIBILITY
    case Incompatible => INCOMPATIBLE_TYPE
    case Unclear => UNKNOWN_TYPE
  }

  function NullEvidence(s: Column, t: Column): seq<Code> {
    if s.nullable.None? || t.nullable.None? then []
    else if s.nullable == t.nullable || (!s.nullable.value && t.nullable.value) then [NULLABILITY_COMPATIBLE]
    else [NULLABILITY_MISMATCH]
  }

  predicate Adjacent(s: Column, t: Column) {
    s.ordinal.Some? && t.ordinal.Some? && -1 <= s.ordinal.value - t.ordinal.value <= 1
  }

  function EvidenceFor(s: Column, t: Column): seq<Code> {
    var (compatibility, proven) := TypeCompatibility(s, t);
    NameEvidence(s.name, t.name) + [TypeEvidence(compatibility)]
    + (if proven then [LENGTH_OR_PRECISION_COMPATIBLE] else [])
    + NullEvidence(s, t) + (if Adjacent(s, t) then [ORDINAL_PROXIMITY] else [])
  }

  function Total(cs: seq<Code>): int {
    if cs == [] then 0 else Total(cs[..|cs| - 1]) + Weight(cs[|cs| - 1])
  }

  function Clamped(n: int): (r: int)
    ensures 0 <= r <= 100
  {
    if n < 0 then 0 else if n > 100 then 100 else n
  }

  function CandidateOf(s: Column, t: Column): Candidate {
    Candidate(s, t, Clamped(Total(EvidenceFor(s, t))), TypeCompatibility(s, t).0, EvidenceFor(s, t))
  }

  method GatherNames(a: string, b: string) returns (codes: seq<Code>)
    ensures codes == NameEvidence(a, b)
  {
    hide Words, Folded;
    codes := [];
    if a == b {
      codes := codes + [EXACT_NATIVE_NAME];
    } else if Folded(a) == Folded(b) {
      codes := codes + [CASE_INSENSITIVE_NAME];
    } else {
      var v, w := Words(a), Words(b);
      if v == w && v != [] {
        codes := codes + [NORMALIZED_NAME];
      } else if v != [] && w != [] && (set x | x in v) == (set x | x in w) {
        codes := codes + [TOKEN_NAME_MATCH];
      }
    }
  }

  method GatherNullability(s: Column, t: Column) returns (codes: seq<Code>)
    ensures codes == NullEvidence(s, t)
  {
    codes := [];
    if s.nullable.Some? && t.nullable.Some? {
      if s.nullable == t.nullable || (!s.nullable.value && t.nullable.value) {
        codes := codes + [NULLABILITY_COMPATIBLE];
      } else {
        codes := codes + [NULLABILITY_MISMATCH];
      }
    }
  }

  /** Adds up the contributions, one after the other. */
  method AddWeights(codes: seq<Code>) returns (sum: int)
    ensures sum == Total(codes)
  {
    sum := 0;
    for i := 0 to |codes|
      invariant sum == Total(codes[..i])
    {
      assert codes[..i + 1][..i] == codes[..i];
      sum := sum + Weight(codes[i]);
    }
    assert codes[..|codes|] == codes;
  }

  /** Gathers evidence rule by rule and adds up its weights. */
  method Score(s: Column, t: Column) returns (c: Candidate)
    ensures c == CandidateOf(s, t)
  {
    hide NameEvidence, TypeCompatibility, NullEvidence, Total, Adjacent;
    var codes := GatherNames(s.name, t.name);
    var (compatibility, proven) := TypeCompatibility(s, t);
    codes := codes + [TypeEvidence(compatibility)];
    codes := codes + if proven then [LENGTH_OR_PRECISION_COMPATIBLE] else [];
    var nullability := GatherNullability(s, t);
    codes := codes + nullability;
    codes := codes + if Adjacent(s, t) then [ORDINAL_PROXIMITY] else [];
    var sum := AddWeights(codes);
    c := Candidate(s, t, Clamped(sum), compatibility, codes);
  }

  function Priority(c: Compatibility): nat {
    match c
    case Exact => 4
    case Safe => 3
    case Lossy => 2
    case Unclear => 1
    case Incompatible => 0
  }

  /** Better or equal: more confidence, then a safer conversion, then names. */
  predicate RankLe(c: Candidate, d: Candidate) {
    if c.confidence != d.confidence then c.confidence > d.confidence
    else if Priority(c.compatibility) != Priority(d.compatibility) then
      Priority(c.compatibility) > Priority(d.compatibility)
    else if c.source.name != d.source.name then StringLe(c.source.name, d.source.name)
    else StringLe(c.target.name, d.target.name)
  }

  // ---------------------------------------------------------------- what is suggested

  predicate Viable(s: Column, t: Column) {
    TypeCompatibility(s, t).0 != Incompatible
  }

  function Confidence(s: Column, t: Column): int {
    CandidateOf(s, t).confidence
  }

  predicate Automatic(s: Column, t: Column) {
    Confidence(s, t) >= THRESHOLD && (TypeCompatibility(s, t).0 == Exact || TypeCompatibility(s, t).0 == Safe)
  }

  /** The pair beats every other viable pair of either column by more than the margin. */
  ghost predicate Wins(sources: seq<Column>, targets: seq<Column>, s: Column, t: Column) {
    && s in sources && t in targets && Viable(s, t) && Automatic(s, t)
    && (forall u :: u in targets && u != t && Viable(s, u) ==> Confidence(s, t) - Confidence(s, u) > MARGIN)
    && (forall r :: r in sources && r != s && Viable(r, t) ==> Confidence(s, t) - Confidence(r, t) > MARGIN)
  }

  lemma {:induction false} WinsOnce(sources: seq<Column>, targets: seq<Column>, s: Column, t: Column, r: Column, u: Column)
    requires Wins(sources, targets, s, t) && Wins(sources, targets, r, u) && (s == r || t == u)
    ensures s == r && t == u
  {
    hide Confidence, Viable, Automatic;
  }

  /** A suggested pair has the same name up to case and word separators. */
  lemma {:induction false} WinsByName(sources: seq<Column>, targets: seq<Column>, s: Column, t: Column)
    requires Wins(sources, targets, s, t)
    ensures NamesAgree(s.name, t.name)
  {
    hide Words, Folded, TypeCompatibility, Viable;
    NameCarries(s, t);
  }

  lemma {:induction false} TotalAppend(a: seq<Code>, b: seq<Code>)
    ensures Total(a + b) == Total(a) + Total(b)
    decreases |b|
  {
    if b == [] {
      assert a + b == a;
    } else {
      assert (a + b)[..|a + b| - 1] == a + b[..|b| - 1];
      TotalAppend(a, b[..|b| - 1]);
    }
  }

  /** Everything but the name is worth at most forty hundredths. */
  lemma {:induction false} NameCarries(s: Column, t: Column)
    ensures Total(EvidenceFor(s, t)) <= Total(NameEvidence(s.name, t.name)) + 40
    ensures !NamesAgree(s.name, t.name) ==> Total(NameEvidence(s.name, t.name)) <= 18
  {
    hide Words, Folded, TypeCompatibility, Total, NullEvidence, TypeEvidence, Adjacent;
    var (compatibility, proven) := TypeCompatibility(s, t);
    var a, b := NameEvidence(s.name, t.name), [TypeEvidence(compatibility)];
    var c := if proven then [LENGTH_OR_PRECISION_COMPATIBLE] else [];
    var d := NullEvidence(s, t);
    var e := if Adjacent(s, t) then [ORDINAL_PROXIMITY] else [];
    TotalAppend(a + b + c + d, e);
    TotalAppend(a + b + c, d);
    TotalAppend(a + b, c);
    TotalAppend(a, b);
    PartsBounded(s, t, compatibility);
    OneTotal(TOKEN_NAME_MATCH);
  }

  lemma {:induction false} PartsBounded(s: Column, t: Column, c: Compatibility)
    ensures Total([TypeEvidence(c)]) <= 28 && Total(NullEvidence(s, t)) <= 4
    ensures Total([LENGTH_OR_PRECISION_COMPATIBLE]) == 4 && Total([ORDINAL_PROXIMITY]) == 4 && Total([]) == 0
  {
    hide Total;
    OneTotal(TypeEvidence(c));
    OneTotal(LENGTH_OR_PRECISION_COMPATIBLE);
    OneTotal(ORDINAL_PROXIMITY);
    OneTotal(NULLABILITY_COMPATIBLE);
    OneTotal(NULLABILITY_MISMATCH);
  }

  lemma {:induction false} OneTotal(c: Code)
    ensures Total([c]) == Weight(c)
    ensures Total([]) == 0
  {
    assert [c][..0] == [];
  }
}
