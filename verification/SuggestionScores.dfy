/**
 * What the names and the scores of suggestions come to: how a name falls into words, which evidence a
 * pair of columns has, and exactly which pairs are good enough to be suggested.
 */
module SuggestionScores {
  import opened Common
  import opened MappingModel
  import opened Columns
  import opened Suggestions
  import opened SuggestionService
  import V = ColumnValues

  // ---------------------------------------------------------------- names

  /** The same Latin letter, once as a capital. */
  predicate OtherCase(c: char, d: char) {
    ('A' <= c <= 'Z' && d as int == c as int + 32) || ('A' <= d <= 'Z' && c as int == d as int + 32)
  }

  /** Names are equal when case is ignored exactly when they differ in the case of letters at most. */
  lemma {:induction false} FoldedMeans(a: string, b: string)
    ensures Folded(a) == Folded(b)
            <==> |a| == |b| && forall i :: 0 <= i < |a| ==> a[i] == b[i] || OtherCase(a[i], b[i])
  {
    forall i | 0 <= i < |a| && i < |b|
      ensures Folded(a)[i] == Folded(b)[i] <==> a[i] == b[i] || OtherCase(a[i], b[i])
    {
      FoldedChars(a[i], b[i]);
    }
  }

  lemma {:induction false} FoldedChars(c: char, d: char)
    ensures FoldedChar(c) == FoldedChar(d) <==> c == d || OtherCase(c, d)
  {
  }

  /** A word ends between these characters. */
  predicate Breaks(a: char, b: char) {
    IsSeparator(a) || IsSeparator(b) || (('a' <= a <= 'z' || '0' <= a <= '9') && 'A' <= b <= 'Z')
  }

  /** The last word of one list and the first of another run together. */
  function Fused(v: seq<string>, w: seq<string>): seq<string>
    requires v != [] && w != []
  {
    v[..|v| - 1] + [v[|v| - 1] + w[0]] + w[1..]
  }

  lemma {:induction false} LastWord(s: string)
    requires s != [] && !IsSeparator(s[|s| - 1])
    ensures Words(s) != []
  {
  }

  lemma {:induction false} FirstWord(s: string)
    requires s != [] && !IsSeparator(s[0])
    ensures Words(s) != []
  {
    if |s| > 1 { FirstWord(s[..|s| - 1]); }
  }

  /** Names fall into words at separators and before a capital after a small letter or digit, and nowhere else. */
  lemma {:induction false} WordsJoin(a: string, b: string)
    ensures a == [] || b == [] || Breaks(a[|a| - 1], b[0]) ==> Words(a + b) == Words(a) + Words(b)
    ensures a != [] && b != [] && !Breaks(a[|a| - 1], b[0]) ==>
              Words(a) != [] && Words(b) != [] && Words(a + b) == Fused(Words(a), Words(b))
    decreases |b|
  {
    hide Folded;
    if b == [] {
      assert a + b == a;
      assert Words(a) + [] == Words(a);
    } else if a == [] {
      assert a + b == b;
    } else {
      if !IsSeparator(a[|a| - 1]) { LastWord(a); }
      if !IsSeparator(b[0]) { FirstWord(b); }
      var front, last := b[..|b| - 1], b[|b| - 1];
      assert (a + b)[..|a + b| - 1] == a + front && (a + b)[|a + b| - 1] == last;
      WordsJoin(a, front);
      if front != [] {
        assert front[0] == b[0];
        if !IsSeparator(front[0]) { FirstWord(front); }
        OneMoreLetter(a, b);
      } else {
        assert Words([]) == [];
        FirstLetter(a, b);
      }
    }
  }

  lemma {:induction false} FirstLetter(a: string, b: string)
    requires a != [] && |b| == 1
    ensures Breaks(a[|a| - 1], b[0]) ==> Words(a + b) == Words(a) + Words(b)
    ensures !Breaks(a[|a| - 1], b[0]) ==> Words(a) != [] && Words(b) != [] && Words(a + b) == Fused(Words(a), Words(b))
  {
    hide Folded;
    assert (a + b)[..|a|] == a && (a + b)[|a|] == b[0] && b[..0] == [];
    assert Words([]) == [];
    if !IsSeparator(a[|a| - 1]) { LastWord(a); }
  }

  /** The words once one more character has been read. */
  function Grown(words: seq<string>, previous: char, c: char): seq<string> {
    if IsSeparator(c) then words
    else if Breaks(previous, c) || words == [] then words + [Folded([c])]
    else words[|words| - 1 := words[|words| - 1] + Folded([c])]
  }

  lemma {:induction false} WordsGrow(s: string)
    requires |s| > 1
    ensures Words(s) == Grown(Words(s[..|s| - 1]), s[|s| - 2], s[|s| - 1])
  {
    hide Folded;
  }

  lemma {:induction false} GrownBehind(v: seq<string>, w: seq<string>, previous: char, c: char)
    requires w != [] || IsSeparator(previous)
    ensures Grown(v + w, previous, c) == v + Grown(w, previous, c)
  {
    hide Folded;
    if w == [] {
      assert v + w == v && v + ([] + [Folded([c])]) == v + [Folded([c])];
    } else {
      assert (v + w)[|v + w| - 1] == w[|w| - 1];
    }
  }

  lemma {:induction false} GrownFused(v: seq<string>, w: seq<string>, previous: char, c: char)
    requires v != [] && w != []
    ensures Grown(w, previous, c) != [] && Grown(Fused(v, w), previous, c) == Fused(v, Grown(w, previous, c))
  {
    hide Folded;
    var f, init, joined := Fused(v, w), v[..|v| - 1], v[|v| - 1] + w[0];
    if |w| == 1 {
      assert w[1..] == [] && f == init + [joined] && f[|f| - 1] == joined;
      assert joined + Folded([c]) == v[|v| - 1] + (w[0] + Folded([c]));
    } else {
      assert f[|f| - 1] == w[|w| - 1];
    }
  }

  lemma {:induction false} OneMoreLetter(a: string, b: string)
    requires a != [] && |b| > 1
    requires var front := b[..|b| - 1];
             if Breaks(a[|a| - 1], b[0]) then Words(a + front) == Words(a) + Words(front)
             else Words(a) != [] && Words(front) != [] && Words(a + front) == Fused(Words(a), Words(front))
    ensures Breaks(a[|a| - 1], b[0]) ==> Words(a + b) == Words(a) + Words(b)
    ensures !Breaks(a[|a| - 1], b[0]) ==> Words(a) != [] && Words(b) != [] && Words(a + b) == Fused(Words(a), Words(b))
  {
    hide Words, Grown, Fused, Breaks;
    var front, s := b[..|b| - 1], a + b;
    var previous, last := b[|b| - 2], b[|b| - 1];
    assert s[..|s| - 1] == a + front && s[|s| - 1] == last && s[|s| - 2] == previous;
    WordsGrow(s);
    WordsGrow(b);
    if !IsSeparator(previous) { assert front[|front| - 1] == previous; LastWord(front); }
    if Breaks(a[|a| - 1], b[0]) {
      GrownBehind(Words(a), Words(front), previous, last);
    } else {
      GrownFused(Words(a), Words(front), previous, last);
    }
  }

  /** Names are compared by their letters alone: nothing but separators and case is lost. */
  function Bare(s: string): string {
    if s == [] then []
    else Bare(s[..|s| - 1]) + if IsSeparator(s[|s| - 1]) then [] else [FoldedChar(s[|s| - 1])]
  }

  lemma {:induction false} WordsKeepLetters(s: string)
    ensures Flatten(Words(s)) == Bare(s)
    ensures forall w :: w in Words(s) ==> w != []
  {
    hide Flatten;
    NoWords();
    if |s| == 1 {
      assert s[..0] == [] && Words([]) == [] && Bare([]) == [];
      GrownLetters([], ' ', s[0]);
    } else if |s| > 1 {
      var front, last := s[..|s| - 1], s[|s| - 1];
      WordsKeepLetters(front);
      WordsGrow(s);
      GrownLetters(Words(front), s[|s| - 2], last);
    }
  }

  lemma {:induction false} NoWords()
    ensures Flatten<char>([]) == []
  {
  }

  lemma {:induction false} GrownLetters(words: seq<string>, previous: char, c: char)
    requires forall w :: w in words ==> w != []
    ensures Flatten(Grown(words, previous, c)) == Flatten(words) + if IsSeparator(c) then [] else [FoldedChar(c)]
    ensures forall w :: w in Grown(words, previous, c) ==> w != []
  {
    hide Flatten;
    assert Folded([c]) == [FoldedChar(c)];
    var letter := [FoldedChar(c)];
    if IsSeparator(c) {
      assert Flatten(words) + [] == Flatten(words);
    } else if Breaks(previous, c) || words == [] {
      FlattenAppend(words, [letter]);
      FlattenOne(letter);
    } else {
      var init, end := words[..|words| - 1], words[|words| - 1];
      assert words == init + [end] && Grown(words, previous, c) == init + [end + letter];
      FlattenAppend(init, [end]);
      FlattenAppend(init, [end + letter]);
      FlattenOne(end);
      FlattenOne(end + letter);
      assert Flatten(init) + (end + letter) == (Flatten(init) + end) + letter;
      forall w | w in init + [end + letter] ensures w != [] { if w in init { assert w in words; } }
    }
  }

  lemma {:induction false} FlattenOne(w: string)
    ensures Flatten([w]) == w
  {
    assert [w][1..] == [];
  }

  // ---------------------------------------------------------------- evidence

  /** A value that may be NULL meets a column that takes none. */
  predicate NullsRefused(s: Column, t: Column) {
    s.nullable == Some(true) && t.nullable == Some(false)
  }

  predicate NullsAccepted(s: Column, t: Column) {
    s.nullable.Some? && t.nullable.Some? && !NullsRefused(s, t)
  }

  lemma {:induction false} SameFlag(a: Option<bool>, b: Option<bool>)
    requires a.Some? && b.Some? && a.value == b.value
    ensures a == b
  {
  }

  lemma {:induction false} NullEvidenceMeans(s: Column, t: Column)
    ensures NullEvidence(s, t) == if NullsRefused(s, t) then [NULLABILITY_MISMATCH]
                                  else if NullsAccepted(s, t) then [NULLABILITY_COMPATIBLE] else []
  {
    if NullsAccepted(s, t) && s.nullable.value == t.nullable.value { SameFlag(s.nullable, t.nullable); }
  }

  /** The words of two names are the same, in whatever order and however often. */
  ghost predicate SameWordSet(a: string, b: string) {
    Words(a) != [] && Words(b) != [] && forall w :: w in Words(a) <==> w in Words(b)
  }

  lemma {:induction false} NameEvidenceMeans(a: string, b: string)
    ensures var codes := NameEvidence(a, b);
            && (EXACT_NATIVE_NAME in codes <==> a == b)
            && (CASE_INSENSITIVE_NAME in codes <==> a != b && Folded(a) == Folded(b))
            && (NORMALIZED_NAME in codes <==> Folded(a) != Folded(b) && SameWords(a, b))
            && (TOKEN_NAME_MATCH in codes <==> Folded(a) != Folded(b) && !SameWords(a, b) && SameWordSet(a, b))
            && forall c :: c in codes ==> IsNameEvidence(c)
  {
    hide Words, Folded;
    FoldedEqual(a, b);
    SameSets(Words(a), Words(b));
  }

  /** The evidence that does not come from the names. */
  function OtherEvidence(s: Column, t: Column): seq<Code> {
    [TypeEvidence(TypeCompatibility(s, t).0)]
    + (if TypeCompatibility(s, t).1 then [LENGTH_OR_PRECISION_COMPATIBLE] else [])
    + NullEvidence(s, t) + (if Adjacent(s, t) then [ORDINAL_PROXIMITY] else [])
  }

  lemma {:induction false} EvidenceParts(s: Column, t: Column)
    ensures EvidenceFor(s, t) == NameEvidence(s.name, t.name) + OtherEvidence(s, t)
  {
    hide NameEvidence, TypeEvidence, TypeCompatibility, NullEvidence, Adjacent;
  }

  lemma {:induction false} OtherEvidenceMeans(s: Column, t: Column)
    ensures forall x :: x in OtherEvidence(s, t)
                        <==> || x == TypeEvidence(TypeCompatibility(s, t).0)
                             || (x == LENGTH_OR_PRECISION_COMPATIBLE && TypeCompatibility(s, t).1)
                             || (x == NULLABILITY_COMPATIBLE && NullsAccepted(s, t))
                             || (x == NULLABILITY_MISMATCH && NullsRefused(s, t))
                             || (x == ORDINAL_PROXIMITY && Adjacent(s, t))
  {
    hide TypeCompatibility, TypeEvidence, NullEvidence, NullsAccepted, NullsRefused, Adjacent;
    NullEvidenceMeans(s, t);
    NotBoth(s, t);
  }

  lemma {:induction false} NotBoth(s: Column, t: Column)
    ensures !(NullsAccepted(s, t) && NullsRefused(s, t))
  {
  }

  /** Exactly which evidence a pair of columns has. */
  lemma {:induction false} EvidenceMeans(s: Column, t: Column)
    ensures var codes, c := EvidenceFor(s, t), TypeCompatibility(s, t).0;
            && (EXACT_NATIVE_NAME in codes <==> s.name == t.name)
            && (CASE_INSENSITIVE_NAME in codes <==> s.name != t.name && Folded(s.name) == Folded(t.name))
            && (NORMALIZED_NAME in codes <==> Folded(s.name) != Folded(t.name) && SameWords(s.name, t.name))
            && (TOKEN_NAME_MATCH in codes <==>
                  Folded(s.name) != Folded(t.name) && !SameWords(s.name, t.name) && SameWordSet(s.name, t.name))
            && (EXACT_CANONICAL_TYPE in codes <==> c == Exact) && (SAFE_TYPE_COMPATIBILITY in codes <==> c == Safe)
            && (LOSSY_TYPE_COMPATIBILITY in codes <==> c == Lossy) && (INCOMPATIBLE_TYPE in codes <==> c == Incompatible)
            && (UNKNOWN_TYPE in codes <==> c == Unclear)
            && (LENGTH_OR_PRECISION_COMPATIBLE in codes <==> TypeCompatibility(s, t).1)
            && (NULLABILITY_COMPATIBLE in codes <==> NullsAccepted(s, t))
            && (NULLABILITY_MISMATCH in codes <==> NullsRefused(s, t))
            && (ORDINAL_PROXIMITY in codes <==>
                  s.ordinal.Some? && t.ordinal.Some? && s.ordinal.value <= t.ordinal.value + 1 && t.ordinal.value <= s.ordinal.value + 1)
  {
    hide SameWords, SameWordSet, Folded, TypeCompatibility, EvidenceFor, NameEvidence, OtherEvidence, NullsAccepted,
         NullsRefused;
    EvidenceParts(s, t);
    NameEvidenceMeans(s.name, t.name);
    OtherEvidenceMeans(s, t);
  }

  lemma {:induction false} FoldedEqual(a: string, b: string)
    ensures a == b ==> Folded(a) == Folded(b)
  {
  }

  lemma {:induction false} SameSets(v: seq<string>, w: seq<string>)
    ensures (set x | x in v) == (set x | x in w) <==> forall x :: x in v <==> x in w
  {
    var a, b := set x | x in v, set x | x in w;
    if a == b {
      forall x ensures x in v <==> x in w { assert x in a <==> x in b; }
    }
    if forall x :: x in v <==> x in w { assert a == b; }
  }

  // ---------------------------------------------------------------- scores

  /** How many of the three minor indications speak for a pair. */
  function Minor(s: Column, t: Column): nat {
    (if TypeCompatibility(s, t).1 then 1 else 0) + (if NullsAccepted(s, t) then 1 else 0)
    + (if Adjacent(s, t) then 1 else 0)
  }

  /** What the name and the type contribute, before the minor indications. */
  function Major(s: Column, t: Column): int {
    Total(NameEvidence(s.name, t.name)) + Weight(TypeEvidence(TypeCompatibility(s, t).0))
  }

  lemma {:induction false} ScoreParts(s: Column, t: Column)
    ensures Total(EvidenceFor(s, t)) == Major(s, t) + 4 * Minor(s, t) - (if NullsRefused(s, t) then 22 else 0)
  {
    hide Words, Folded, TypeCompatibility, Total, Adjacent, TypeEvidence, NameEvidence, Weight, NullEvidence;
    var (c, proven) := TypeCompatibility(s, t);
    var a, b := NameEvidence(s.name, t.name), [TypeEvidence(c)];
    var d := if proven then [LENGTH_OR_PRECISION_COMPATIBLE] else [];
    var e, f := NullEvidence(s, t), if Adjacent(s, t) then [ORDINAL_PROXIMITY] else [];
    NullEvidenceMeans(s, t);
    assert EvidenceFor(s, t) == a + b + d + e + f;
    TotalAppend(a + b + d + e, f);
    TotalAppend(a + b + d, e);
    TotalAppend(a + b, d);
    TotalAppend(a, b);
    OneTotal(TypeEvidence(c));
    MinorWeights();
    assert Total(b) == Weight(TypeEvidence(c));
    assert Total(e) == (if NullsAccepted(s, t) then 4 else 0) - (if NullsRefused(s, t) then 22 else 0);
  }

  lemma {:induction false} MinorWeights()
    ensures Total([LENGTH_OR_PRECISION_COMPATIBLE]) == 4 && Total([ORDINAL_PROXIMITY]) == 4 && Total([]) == 0
    ensures Total([NULLABILITY_COMPATIBLE]) == 4 && Total([NULLABILITY_MISMATCH]) == -22
  {
    hide Total;
    OneTotal(LENGTH_OR_PRECISION_COMPATIBLE);
    OneTotal(ORDINAL_PROXIMITY);
    OneTotal(NULLABILITY_COMPATIBLE);
    OneTotal(NULLABILITY_MISMATCH);
  }

  lemma {:induction false} NameWeights(a: string, b: string)
    ensures Total(NameEvidence(a, b))
            == if a == b then 58 else if Folded(a) == Folded(b) then 50 else if SameWords(a, b) then 46
               else if SameWordSet(a, b) then 18 else 0
  {
    hide Words, Folded, Total;
    OneTotal(EXACT_NATIVE_NAME);
    OneTotal(CASE_INSENSITIVE_NAME);
    OneTotal(NORMALIZED_NAME);
    OneTotal(TOKEN_NAME_MATCH);
    SameSets(Words(a), Words(b));
  }

  /**
   * Exactly which pairs are good enough. The same name and an exact type suffice, and even survive
   * refused NULLs when everything else agrees; the weaker the name and the type, the more of the minor
   * indications are needed. No other pair is ever automatic.
   */
  lemma {:induction false} AutomaticExactly(s: Column, t: Column)
    ensures var c, refused := TypeCompatibility(s, t).0, NullsRefused(s, t);
            Automatic(s, t)
            <==> || (c == Exact && s.name == t.name && (refused ==> Minor(s, t) == 2))
                 || (c == Exact && NamesAgree(s.name, t.name) && !refused)
                 || (c == Safe && s.name == t.name && !refused)
                 || (c == Safe && Folded(s.name) == Folded(t.name) && !refused && Minor(s, t) >= 1)
                 || (c == Safe && SameWords(s.name, t.name) && !refused && Minor(s, t) >= 2)
  {
    hide Words, Folded, TypeCompatibility, Total, Adjacent, EvidenceFor;
    ScoreParts(s, t);
    NameWeights(s.name, t.name);
  }

  /** Of two targets that differ in their names alone, a change of case keeps the call too close to make. */
  lemma {:induction false} CaseTooClose(ss: seq<Column>, ts: seq<Column>, s: Column, t: Column, name: string)
    requires t in ts && t.(name := name) in ts && t.name == s.name && name != s.name && Folded(name) == Folded(s.name)
    ensures !Wins(ss, ts, s, t) && !Wins(ss, ts, s, t.(name := name))
  {
    hide Words, Folded, TypeCompatibility, Total, Adjacent, EvidenceFor, Automatic;
    var u := t.(name := name);
    SameDimensions(s, t, name);
    ScoreParts(s, t);
    ScoreParts(s, u);
    NameWeights(s.name, t.name);
    NameWeights(s.name, u.name);
    BestConfidence(s, t);
    BestConfidence(s, u);
  }

  /** A different spelling of the same words is no rival of the name itself. */
  lemma {:induction false} SpellingClear(s: Column, t: Column, name: string)
    requires t.name == s.name && Folded(name) != Folded(s.name) && SameWords(s.name, name)
    requires TypeCompatibility(s, t).0 == Exact || TypeCompatibility(s, t).0 == Safe
    ensures Confidence(s, t) - Confidence(s, t.(name := name)) > MARGIN
  {
    hide Words, Folded, TypeCompatibility, Total, Adjacent, EvidenceFor;
    var u := t.(name := name);
    SameDimensions(s, t, name);
    FoldedEqual(s.name, name);
    ScoreParts(s, t);
    ScoreParts(s, u);
    NameWeights(s.name, t.name);
    NameWeights(s.name, u.name);
  }

  lemma {:induction false} SameDimensions(s: Column, t: Column, name: string)
    ensures TypeCompatibility(s, t.(name := name)) == TypeCompatibility(s, t)
    ensures Adjacent(s, t.(name := name)) == Adjacent(s, t)
  {
  }

  // ---------------------------------------------------------------- suggestions and values

  /** A suggested pair has a lossless type, up to the limits the source leaves unstated. */
  lemma {:induction false} SuggestedKeeps(ss: seq<Column>, ts: seq<Column>, s: Column, t: Column)
    requires Wins(ss, ts, s, t)
    ensures V.KeepsAll(s, t) <==> V.LimitsStated(s, t)
  {
    hide Viable, Confidence, TypeCompatibility, V.KeepsAll, V.LimitsStated;
    V.SafeKeeps(s, t);
  }

  /** The diagnosis of a column without a match names the score of its best candidate. */
  lemma {:induction false} DiagnosisIsBest(s: Column, ts: seq<Column>)
    requires ts != []
    ensures AmbiguousFor(s, ts).target.None? && AmbiguousFor(s, ts).source == s.name
    ensures exists t :: t in ts && AmbiguousFor(s, ts).confidence == Share(Confidence(s, t))
                        && AmbiguousFor(s, ts).compatibility == TypeCompatibility(s, t).0
                        && forall u :: u in ts ==> Confidence(s, u) <= Confidence(s, t)
  {
    hide BestOf, EvidenceFor, Total, TypeCompatibility;
    var all := CandidatesOf(s, ts);
    var best := BestOf(all);
    var i :| 0 <= i < |all| && all[i] == best;
    BestConfidence(s, ts[i]);
    forall u | u in ts ensures Confidence(s, u) <= Confidence(s, ts[i]) {
      var j :| 0 <= j < |ts| && ts[j] == u;
      assert all[j] in all;
      BestIsBest(all, all[j]);
      HigherRank(best, all[j]);
      BestConfidence(s, u);
    }
  }
}
