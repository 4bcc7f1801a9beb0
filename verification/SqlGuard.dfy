/**
 * The lexical guard for single statements: quoted content is masked by four substitutions, and the
 * rest must hold no comment and no second statement. Every generated statement passes, whatever
 * its names contain.
 *
 * Why: count the dialect's quote characters. Doubling keeps the count even, so outside a name the
 * count so far is even and only harmless characters occur there. A pattern for another kind of
 * quote can only match between two positions inside names, which keeps the count's parity, and the
 * pattern for the dialect's own quote then removes everything that is not harmless.
 */
module SqlGuard {
  import opened Common
  import opened SqlText

  // ---------------------------------------------------------------- masking quoted content

  /** A quoting style: an optional `N` before the opening character; the closing one is doubled. */
  datatype Pattern = Pattern(prefixed: bool, open: char, close: char)

  const STRING_PATTERN := Pattern(true, '\'', '\'')
  const DOUBLE_QUOTE_PATTERN := Pattern(false, '"', '"')
  const BRACKET_PATTERN := Pattern(false, '[', ']')
  const BACKTICK_PATTERN := Pattern(false, '`', '`')
  const PATTERNS := [STRING_PATTERN, DOUBLE_QUOTE_PATTERN, BRACKET_PATTERN, BACKTICK_PATTERN]

  /**
   * What follows the closing character of quoted content: the match is greedy, and when nothing
   * closes it any more it gives back the last doubled pair and ends between its two characters.
   */
  function AfterClose(s: string, close: char): (r: Option<string>)
    ensures r.Some? ==> |r.value| < |s|
    decreases |s|
  {
    if s == [] then None
    else if s[0] != close then AfterClose(s[1..], close)
    else if |s| > 1 && s[1] == close then
      var deeper := AfterClose(s[2..], close);
      if deeper.Some? then deeper else Some(s[1..])
    else Some(s[1..])
  }

  /** What follows a match that starts at the front of `s`. */
  function AfterMatch(s: string, p: Pattern): (r: Option<string>)
    ensures r.Some? ==> |r.value| < |s|
  {
    if s == [] then None
    else if p.prefixed && |s| > 1 && s[0] == 'N' && s[1] == p.open then AfterClose(s[2..], p.close)
    else if s[0] == p.open then AfterClose(s[1..], p.close)
    else None
  }

  /** Replaces every match, from left to right, by two apostrophes. */
  function Substitute(s: string, p: Pattern): string
    decreases |s|
  {
    if s == [] then []
    else
      var rest := AfterMatch(s, p);
      if rest.Some? then "''" + Substitute(rest.value, p) else [s[0]] + Substitute(s[1..], p)
  }

  function SubstituteAll(s: string, ps: seq<Pattern>): string
    decreases |ps|
  {
    if ps == [] then s else SubstituteAll(Substitute(s, ps[0]), ps[1..])
  }

  method StripQuotedContent(s: string) returns (stripped: string)
    ensures stripped == SubstituteAll(s, PATTERNS)
  {
    stripped := s;
    for i := 0 to |PATTERNS|
      invariant SubstituteAll(s, PATTERNS) == SubstituteAll(stripped, PATTERNS[i..])
    {
      assert PATTERNS[i..][0] == PATTERNS[i] && PATTERNS[i..][1..] == PATTERNS[i + 1..];
      stripped := Substitute(stripped, PATTERNS[i]);
    }
  }

  // ---------------------------------------------------------------- the guard

  function DropFront(s: string): string {
    if s != [] && IsSpace(s[0]) then DropFront(s[1..]) else s
  }

  function DropBack(s: string): string {
    if s != [] && IsSpace(s[|s| - 1]) then DropBack(s[..|s| - 1]) else s
  }

  function Strip(s: string): string {
    DropBack(DropFront(s))
  }

  function DropSemicolons(s: string): string {
    if s != [] && s[|s| - 1] == ';' then DropSemicolons(s[..|s| - 1]) else s
  }

  function Normalized(s: string): string {
    Strip(DropSemicolons(Strip(s)))
  }

  predicate HasPair(s: string, a: char, b: char) {
    exists i :: 0 <= i < |s| - 1 && s[i] == a && s[i + 1] == b
  }

  predicate HasComment(s: string) {
    HasPair(s, '-', '-') || HasPair(s, '/', '*') || HasPair(s, '*', '/')
  }

  /** The parts between semicolons. */
  function Split(s: string): (parts: seq<string>)
    ensures parts != []
  {
    if s == [] then [[]]
    else
      var parts := Split(s[1..]);
      if s[0] == ';' then [[]] + parts else [[s[0]] + parts[0]] + parts[1..]
  }

  function StatementCount(parts: seq<string>): nat {
    if parts == [] then 0 else (if IsBlank(parts[0]) then 0 else 1) + StatementCount(parts[1..])
  }

  datatype Verdict = Accepted | EmptyQuery | CommentFound | SeveralStatements

  function Judge(stripped: string, mysql: bool): Verdict {
    if HasComment(stripped) || (mysql && '#' in stripped) then CommentFound
    else if StatementCount(Split(stripped)) > 1 then SeveralStatements
    else Accepted
  }

  /** The verdict on a statement for a MySQL profile, or for one that is neither MySQL nor SQL Server. */
  function Verdicts(s: string, mysql: bool): Verdict {
    if IsBlank(s) || Normalized(s) == [] then EmptyQuery
    else Judge(SubstituteAll(Normalized(s), PATTERNS), mysql)
  }

  method ValidateQuery(s: string, mysql: bool) returns (verdict: Verdict)
    ensures verdict == Verdicts(s, mysql)
  {
    if IsBlank(s) { return EmptyQuery; }
    var normalized := Normalized(s);
    if normalized == [] { return EmptyQuery; }
    var stripped := StripQuotedContent(normalized);
    if HasComment(stripped) { return CommentFound; }
    if mysql && '#' in stripped { return CommentFound; }
    var parts := Split(stripped);
    var count := 0;
    var i := 0;
    while i < |parts|
      invariant 0 <= i <= |parts|
      invariant count + StatementCount(parts[i..]) == StatementCount(parts)
    {
      assert parts[i..][0] == parts[i] && parts[i..][1..] == parts[i + 1..];
      if !IsBlank(parts[i]) { count := count + 1; }
      i := i + 1;
    }
    assert parts[i..] == [];
    verdict := if count > 1 then SeveralStatements else Accepted;
  }

  // ---------------------------------------------------------------- harmless text

  /** What generated statements hold outside quoted names. */
  predicate Harmless(c: char) {
    IsWordChar(c) || IsGap(c) || IsSymbol(c) || c == '%'
  }

  predicate AllHarmless(s: string) {
    forall i :: 0 <= i < |s| ==> Harmless(s[i])
  }

  /** Text after masking: harmless characters and apostrophes. */
  predicate Clean(s: string) {
    forall i :: 0 <= i < |s| ==> Harmless(s[i]) || s[i] == '\''
  }

  lemma {:induction false} CleanAccepted(s: string, mysql: bool)
    requires Clean(s)
    ensures Judge(s, mysql) == Accepted
  {
    NoSemicolon(s);
    assert [s][1..] == [] && StatementCount([]) == 0;
    assert StatementCount(Split(s)) <= 1;
    assert '#' !in s;
  }

  lemma {:induction false} NoSemicolon(s: string)
    requires Clean(s)
    ensures Split(s) == [s]
  {
    if s != [] {
      NoSemicolon(s[1..]);
      assert s == [s[0]] + s[1..] && s[0] != ';';
    }
  }

  /** Characters that open or close nothing are kept. */
  lemma {:induction false} Untouched(s: string, rest: string, p: Pattern)
    requires forall i :: 0 <= i < |s| ==> s[i] != p.open
    requires s == [] || rest == [] || rest[0] != p.open || s[|s| - 1] != 'N' || !p.prefixed
    ensures Substitute(s + rest, p) == s + Substitute(rest, p)
    decreases s
  {
    if s == [] {
      assert s + rest == rest && [] + Substitute(rest, p) == Substitute(rest, p);
    } else {
      var t := s + rest;
      assert t[0] == s[0] && t[1..] == s[1..] + rest;
      assert |s| == 1 ==> (|t| > 1 ==> t[1] == rest[0]);
      assert AfterMatch(t, p).None?;
      Untouched(s[1..], rest, p);
      assert s == [s[0]] + s[1..];
    }
  }

  lemma {:induction false} CleanUntouched(s: string, p: Pattern)
    requires Clean(s) && !Harmless(p.open) && p.open != '\''
    ensures Substitute(s, p) == s
  {
    Untouched(s, [], p);
    assert s + [] == s;
  }

  // ---------------------------------------------------------------- counting quotes

  /**
   * Reading on from an even (or odd) number of quote characters: harmless wherever the number is
   * even, and even at the end.
   */
  predicate Balanced(s: string, q: char, even: bool) {
    if s == [] then even
    else if s[0] == q then Balanced(s[1..], q, !even)
    else (even ==> Harmless(s[0])) && Balanced(s[1..], q, even)
  }

  predicate OddCount(s: string, q: char) {
    s != [] && if s[0] == q then !OddCount(s[1..], q) else OddCount(s[1..], q)
  }

  lemma {:induction false} HarmlessBalanced(s: string, rest: string, q: char)
    requires AllHarmless(s) && !Harmless(q)
    ensures Balanced(s + rest, q, true) == Balanced(rest, q, true)
  {
    if s == [] {
      assert s + rest == rest;
    } else {
      assert (s + rest)[0] == s[0] && (s + rest)[1..] == s[1..] + rest;
      HarmlessBalanced(s[1..], rest, q);
    }
  }

  lemma {:induction false} DoubledBalanced(name: string, rest: string, q: char)
    ensures Balanced(Doubled(name, q) + rest, q, false) == Balanced(rest, q, false)
  {
    hide Balanced, Harmless;
    if name == [] {
      assert Doubled(name, q) + rest == rest;
    } else {
      DoubledBalanced(name[1..], rest, q);
      DoubledFront(name, rest, q);
      var t := Doubled(name[1..], q) + rest;
      if name[0] == q {
        BalancedFront(q, [q] + t, q, false);
        BalancedFront(q, t, q, true);
      } else {
        BalancedFront(name[0], t, q, false);
      }
    }
  }

  lemma {:induction false} BalancedFront(c: char, t: string, q: char, even: bool)
    ensures Balanced([c] + t, q, even) == if c == q then Balanced(t, q, !even) else (even ==> Harmless(c)) && Balanced(t, q, even)
  {
    assert ([c] + t)[1..] == t;
  }

  lemma {:induction false} DoubledFront(name: string, rest: string, q: char)
    requires name != []
    ensures Doubled(name, q) + rest == (if name[0] == q then [q] + ([q] + (Doubled(name[1..], q) + rest))
                                        else [name[0]] + (Doubled(name[1..], q) + rest))
  {
  }

  lemma {:induction false} QuotedBalanced(q: char, name: string, rest: string)
    ensures Balanced(PieceText(Quoted(q, name)) + rest, q, true) == Balanced(rest, q, true)
  {
    hide Doubled;
    var s := PieceText(Quoted(q, name)) + rest;
    assert s[0] == q && s[1..] == Doubled(name, q) + ([q] + rest);
    DoubledBalanced(name, [q] + rest, q);
    assert ([q] + rest)[1..] == rest;
  }

  /** All names of the pieces are quoted with `q`. */
  predicate QuotedWith(ps: seq<Piece>, q: char) {
    forall i :: 0 <= i < |ps| ==> ps[i].Quoted? ==> ps[i].quote == q
  }

  lemma {:induction false} OtherPieceHarmless(quotes: set<char>, p: Piece)
    requires ProperPiece(quotes, p) && !p.Quoted?
    ensures AllHarmless(PieceText(p))
  {
  }

  lemma {:induction false} PiecesBalanced(quotes: set<char>, ps: seq<Piece>, q: char)
    requires Proper(quotes, ps) && QuotedWith(ps, q) && !Harmless(q)
    ensures Balanced(TextOf(ps), q, true)
  {
    if ps != [] {
      hide PieceText, Harmless;
      assert ProperPiece(quotes, ps[0]);
      PiecesBalanced(quotes, ps[1..], q);
      if ps[0].Quoted? {
        QuotedBalanced(q, ps[0].name, TextOf(ps[1..]));
      } else {
        OtherPieceHarmless(quotes, ps[0]);
        HarmlessBalanced(PieceText(ps[0]), TextOf(ps[1..]), q);
      }
    }
  }

  /** A pattern whose delimiters are neither harmless nor the counted quote. */
  predicate Foreign(p: Pattern, q: char) {
    p.open != q && p.close != q && !Harmless(p.open) && !Harmless(p.close) && q != '\'' && !Harmless(q)
  }

  lemma {:induction false} ForeignClose(s: string, p: Pattern, q: char, even: bool)
    requires Foreign(p, q) && Balanced(s, q, even) && AfterClose(s, p.close).Some?
    ensures Balanced(AfterClose(s, p.close).value, q, false)
    decreases |s|
  {
    if s[0] != p.close {
      ForeignClose(s[1..], p, q, if s[0] == q then !even else even);
    } else if |s| > 1 && s[1] == p.close {
      assert s[1..][0] == s[1] && s[1..][1..] == s[2..];
      if AfterClose(s[2..], p.close).Some? { ForeignClose(s[2..], p, q, even); }
    }
  }

  lemma {:induction false} ForeignMatch(s: string, p: Pattern, q: char, even: bool)
    requires Foreign(p, q) && Balanced(s, q, even) && AfterMatch(s, p).Some?
    ensures !even && Balanced(AfterMatch(s, p).value, q, false)
  {
    hide Harmless;
    if p.prefixed && |s| > 1 && s[0] == 'N' && s[1] == p.open {
      NotQuote(q);
      assert s[1..][0] == s[1] && s[1..][1..] == s[2..];
      ForeignClose(s[2..], p, q, even);
    } else {
      ForeignClose(s[1..], p, q, even);
    }
  }

  lemma {:induction false} NotQuote(q: char)
    requires !Harmless(q)
    ensures q != 'N'
  {
  }

  /** Masking another kind of quote keeps the text balanced. */
  lemma {:induction false} ForeignKeeps(s: string, p: Pattern, q: char, even: bool)
    requires Foreign(p, q) && Balanced(s, q, even)
    ensures Balanced(Substitute(s, p), q, even)
    decreases |s|
  {
    hide AfterMatch, Harmless;
    if s != [] {
      var rest := AfterMatch(s, p);
      if rest.Some? {
        ForeignMatch(s, p, q, even);
        ForeignKeeps(rest.value, p, q, false);
        var t := "''" + Substitute(rest.value, p);
        assert t[1..] == "'" + Substitute(rest.value, p) && t[1..][1..] == Substitute(rest.value, p);
      } else {
        ForeignKeeps(s[1..], p, q, if s[0] == q then !even else even);
        var t := [s[0]] + Substitute(s[1..], p);
        assert t[1..] == Substitute(s[1..], p);
      }
    }
  }

  lemma {:induction false} OwnClose(s: string, q: char)
    requires Balanced(s, q, false)
    ensures AfterClose(s, q).Some? && Balanced(AfterClose(s, q).value, q, true)
    decreases |s|
  {
    if s[0] != q {
      OwnClose(s[1..], q);
    } else if |s| > 1 && s[1] == q {
      assert s[1..][0] == s[1] && s[1..][1..] == s[2..];
      OwnClose(s[2..], q);
    }
  }

  /** Masking the dialect's own quotes leaves only clean text. */
  lemma {:induction false} OwnCleans(s: string, q: char)
    requires Balanced(s, q, true) && !Harmless(q)
    ensures Clean(Substitute(s, Pattern(false, q, q)))
    decreases |s|
  {
    hide Harmless;
    var p := Pattern(false, q, q);
    if s != [] {
      if s[0] == q {
        OwnClose(s[1..], q);
        var rest := AfterClose(s[1..], q).value;
        OwnCleans(rest, q);
      } else {
        OwnCleans(s[1..], q);
      }
    }
  }

  // ---------------------------------------------------------------- normalisation

  /** Neither white space nor a semicolon at either end. */
  predicate Trimmed(s: string) {
    s != [] && !IsSpace(s[0]) && !IsSpace(s[|s| - 1]) && s[|s| - 1] != ';'
  }

  lemma {:induction false} TrimmedNormal(s: string)
    requires Trimmed(s)
    ensures Normalized(s) == s && !IsBlank(s)
  {
    assert DropFront(s) == s && DropBack(s) == s && DropSemicolons(s) == s;
    assert Strip(s) == s;
    assert Normalized(s) == s;
    assert IsSpace(s[0]) == false;
    assert !IsBlank(s);
  }

  lemma {:induction false} PatternsInOrder(s: string)
    ensures SubstituteAll(s, PATTERNS)
            == Substitute(Substitute(Substitute(Substitute(s, STRING_PATTERN), DOUBLE_QUOTE_PATTERN),
                                     BRACKET_PATTERN), BACKTICK_PATTERN)
  {
    hide Substitute;
    var rest := [DOUBLE_QUOTE_PATTERN, BRACKET_PATTERN, BACKTICK_PATTERN];
    assert PATTERNS[1..] == rest && rest[1..] == [BRACKET_PATTERN, BACKTICK_PATTERN];
    var t1 := Substitute(s, STRING_PATTERN);
    var t2 := Substitute(t1, DOUBLE_QUOTE_PATTERN);
    var t3 := Substitute(t2, BRACKET_PATTERN);
    assert SubstituteAll(s, PATTERNS) == SubstituteAll(t1, rest);
    assert SubstituteAll(t1, rest) == SubstituteAll(t2, [BRACKET_PATTERN, BACKTICK_PATTERN]);
    assert [BRACKET_PATTERN, BACKTICK_PATTERN][1..] == [BACKTICK_PATTERN];
    assert SubstituteAll(t2, [BRACKET_PATTERN, BACKTICK_PATTERN]) == SubstituteAll(t3, [BACKTICK_PATTERN]);
    assert [BACKTICK_PATTERN][1..] == [];
    assert SubstituteAll(t3, [BACKTICK_PATTERN]) == SubstituteAll(Substitute(t3, BACKTICK_PATTERN), []);
  }

  lemma {:induction false} ForeignPatterns()
    ensures Foreign(STRING_PATTERN, '"') && Foreign(STRING_PATTERN, '`')
    ensures Foreign(DOUBLE_QUOTE_PATTERN, '`') && Foreign(BRACKET_PATTERN, '`')
  {
  }

  /** Text whose names are all in double quotes, or all in backticks, is masked to clean text. */
  lemma {:induction false} BalancedCleans(s: string, q: char)
    requires q == '"' || q == '`'
    requires Balanced(s, q, true)
    ensures Clean(SubstituteAll(s, PATTERNS))
  {
    hide Substitute, Foreign, Balanced, Clean, SubstituteAll;
    PatternsInOrder(s);
    ForeignPatterns();
    ForeignKeeps(s, STRING_PATTERN, q, true);
    var t := Substitute(s, STRING_PATTERN);
    if q == '"' {
      OwnCleans(t, q);
      CleanUntouched(Substitute(t, DOUBLE_QUOTE_PATTERN), BRACKET_PATTERN);
      CleanUntouched(Substitute(t, DOUBLE_QUOTE_PATTERN), BACKTICK_PATTERN);
    } else {
      ForeignKeeps(t, DOUBLE_QUOTE_PATTERN, q, true);
      ForeignKeeps(Substitute(t, DOUBLE_QUOTE_PATTERN), BRACKET_PATTERN, q, true);
      OwnCleans(Substitute(Substitute(t, DOUBLE_QUOTE_PATTERN), BRACKET_PATTERN), q);
    }
  }

  /** The guard accepts any text printed from pieces whose names all carry the dialect's quote. */
  lemma {:induction false} PiecesAccepted(quotes: set<char>, ps: seq<Piece>, q: char, mysql: bool)
    requires Proper(quotes, ps) && QuotedWith(ps, q) && (q == '"' || q == '`')
    requires Trimmed(TextOf(ps))
    ensures Verdicts(TextOf(ps), mysql) == Accepted
  {
    hide SubstituteAll, Proper, QuotedWith, Trimmed, Judge, Clean, Balanced, TextOf, Normalized, IsBlank;
    PiecesBalanced(quotes, ps, q);
    TrimmedNormal(TextOf(ps));
    TrimmedNotEmpty(TextOf(ps));
    BalancedCleans(TextOf(ps), q);
    CleanAccepted(SubstituteAll(TextOf(ps), PATTERNS), mysql);
  }

  lemma {:induction false} TrimmedNotEmpty(s: string)
    requires Trimmed(s)
    ensures s != []
  {
  }
}
