/**
 * SQL as text and as tokens. A statement is built from pieces; its text lexes back to exactly the
 * tokens of the pieces when no two words or two quoted names touch. Inside a quoted name the quote
 * character is doubled (subclause 5.2 of ISO/IEC 9075-2).
 */
module SqlText {
  import opened Common

  datatype Token = Word(text: string) | Name(name: string) | Param | Sym(c: char)

  datatype Piece = Blank(text: string) | Plain(text: string) | Quoted(quote: char, name: string) | Hole | Mark(c: char)

  function Doubled(s: string, q: char): string {
    if s == [] then [] else (if s[0] == q then [q, q] else [s[0]]) + Doubled(s[1..], q)
  }

  function PieceText(p: Piece): (s: string)
    ensures p.Quoted? || p.Hole? || p.Mark? ==> s != []
  {
    match p
    case Blank(t) => t
    case Plain(t) => t
    case Quoted(q, n) => [q] + Doubled(n, q) + [q]
    case Hole => "%s"
    case Mark(c) => [c]
  }

  /** The text of a sequence of pieces. */
  function TextOf(ps: seq<Piece>): string {
    if ps == [] then [] else PieceText(ps[0]) + TextOf(ps[1..])
  }

  lemma {:induction false} TextAppend(a: seq<Piece>, b: seq<Piece>)
    ensures TextOf(a + b) == TextOf(a) + TextOf(b)
  {
    if a == [] {
      assert a + b == b;
    } else {
      assert (a + b)[0] == a[0] && (a + b)[1..] == a[1..] + b;
      TextAppend(a[1..], b);
    }
  }

  function TokenOf(p: Piece): seq<Token> {
    match p
    case Blank(_) => []
    case Plain(t) => [Word(t)]
    case Quoted(_, n) => [Name(n)]
    case Hole => [Param]
    case Mark(c) => [Sym(c)]
  }

  function Tokens(ps: seq<Piece>): seq<Token> {
    if ps == [] then [] else TokenOf(ps[0]) + Tokens(ps[1..])
  }

  lemma {:induction false} TokensAppend(a: seq<Piece>, b: seq<Piece>)
    ensures Tokens(a + b) == Tokens(a) + Tokens(b)
  {
    if a == [] {
      assert a + b == b;
    } else {
      assert (a + b)[0] == a[0] && (a + b)[1..] == a[1..] + b;
      TokensAppend(a[1..], b);
    }
  }

  // ---------------------------------------------------------------- lexing

  predicate IsWordChar(c: char) {
    'A' <= c <= 'Z' || 'a' <= c <= 'z' || '0' <= c <= '9' || c == '_'
  }

  predicate IsGap(c: char) {
    c == ' ' || c == '\n'
  }

  predicate IsSymbol(c: char) {
    c == '(' || c == ')' || c == ',' || c == '.' || c == '*'
  }

  function WordLength(s: string): (n: nat)
    ensures n <= |s|
  {
    if s == [] || !IsWordChar(s[0]) then 0 else 1 + WordLength(s[1..])
  }

  /** Reads a quoted name after its opening quote: the name and what follows the closing quote. */
  function ScanQuoted(s: string, q: char): (r: Option<(string, string)>)
    ensures r.Some? ==> |r.value.1| < |s|
  {
    if s == [] then None
    else if s[0] != q then
      var (name, rest) :- ScanQuoted(s[1..], q);
      Some(([s[0]] + name, rest))
    else if |s| > 1 && s[1] == q then
      var (name, rest) :- ScanQuoted(s[2..], q);
      Some(([q] + name, rest))
    else Some(([], s[1..]))
  }

  /** Splits a statement into tokens; `quotes` are the characters that open a quoted name. */
  function Lex(quotes: set<char>, s: string): Option<seq<Token>>
    decreases |s|
  {
    if s == [] then Some([])
    else if IsGap(s[0]) then Lex(quotes, s[1..])
    else if s[0] in quotes then
      var (name, rest) :- ScanQuoted(s[1..], s[0]);
      var ts :- Lex(quotes, rest);
      Some([Name(name)] + ts)
    else if IsWordChar(s[0]) then
      var n := WordLength(s);
      var ts :- Lex(quotes, s[n..]);
      Some([Word(s[..n])] + ts)
    else if s[0] == '%' && |s| > 1 && s[1] == 's' then
      var ts :- Lex(quotes, s[2..]);
      Some([Param] + ts)
    else if IsSymbol(s[0]) then
      var ts :- Lex(quotes, s[1..]);
      Some([Sym(s[0])] + ts)
    else None
  }

  predicate AllGaps(s: string) {
    forall i :: 0 <= i < |s| ==> IsGap(s[i])
  }

  predicate AllWordChars(s: string) {
    forall i :: 0 <= i < |s| ==> IsWordChar(s[i])
  }

  /** The quotes are none of the characters that mean something else outside a name. */
  predicate ProperQuotes(quotes: set<char>) {
    forall c :: c in quotes ==> !IsGap(c) && !IsWordChar(c) && !IsSymbol(c) && c != '%'
  }

  predicate ProperPiece(quotes: set<char>, p: Piece) {
    match p
    case Blank(t) => t != [] && AllGaps(t)
    case Plain(t) => t != [] && AllWordChars(t)
    case Quoted(q, _) => q in quotes
    case Hole => true
    case Mark(c) => IsSymbol(c)
  }

  predicate Proper(quotes: set<char>, ps: seq<Piece>) {
    forall i :: 0 <= i < |ps| ==> ProperPiece(quotes, ps[i])
  }

  /** A piece that would merge with one of its own kind. */
  predicate Sticky(p: Piece) {
    p.Plain? || p.Quoted?
  }

  predicate Apart(ps: seq<Piece>) {
    forall i :: 0 <= i < |ps| - 1 ==> !(Sticky(ps[i]) && Sticky(ps[i + 1]))
  }

  lemma {:induction false} ApartAppend(a: seq<Piece>, b: seq<Piece>)
    requires Apart(a) && Apart(b)
    requires a == [] || b == [] || !Sticky(a[|a| - 1]) || !Sticky(b[0])
    ensures Apart(a + b)
  {
    forall i | 0 <= i < |a + b| - 1 ensures !(Sticky((a + b)[i]) && Sticky((a + b)[i + 1])) {
      if i < |a| - 1 {
        assert (a + b)[i] == a[i] && (a + b)[i + 1] == a[i + 1];
      } else if i >= |a| {
        assert (a + b)[i] == b[i - |a|] && (a + b)[i + 1] == b[i + 1 - |a|];
      }
    }
  }

  lemma {:induction false} ScanDoubled(name: string, q: char, rest: string)
    requires rest == [] || rest[0] != q
    ensures ScanQuoted(Doubled(name, q) + [q] + rest, q) == Some((name, rest))
  {
    var s := Doubled(name, q) + [q] + rest;
    if name == [] {
      assert s == [q] + rest;
    } else {
      ScanDoubled(name[1..], q, rest);
      var t := Doubled(name[1..], q) + [q] + rest;
      assert name == [name[0]] + name[1..];
      if name[0] == q {
        assert s == [q, q] + t && s[2..] == t;
      } else {
        assert s == [name[0]] + t && s[1..] == t;
      }
    }
  }

  lemma {:induction false} WordEnds(w: string, rest: string)
    requires AllWordChars(w)
    requires rest == [] || !IsWordChar(rest[0])
    ensures WordLength(w + rest) == |w|
  {
    if w == [] {
      assert w + rest == rest;
    } else {
      assert (w + rest)[0] == w[0] && (w + rest)[1..] == w[1..] + rest;
      WordEnds(w[1..], rest);
    }
  }

  lemma {:induction false} LexSkipsGaps(quotes: set<char>, gap: string, rest: string)
    requires AllGaps(gap)
    ensures Lex(quotes, gap + rest) == Lex(quotes, rest)
  {
    if gap == [] {
      assert gap + rest == rest;
    } else {
      assert (gap + rest)[0] == gap[0] && (gap + rest)[1..] == gap[1..] + rest;
      LexSkipsGaps(quotes, gap[1..], rest);
    }
  }

  /** The text of the pieces after a sticky one does not continue it. */
  lemma {:induction false} NothingContinues(quotes: set<char>, ps: seq<Piece>, q: char)
    requires Proper(quotes, ps) && ProperQuotes(quotes) && q in quotes
    requires ps == [] || !Sticky(ps[0])
    ensures TextOf(ps) == [] || (!IsWordChar(TextOf(ps)[0]) && TextOf(ps)[0] != q)
  {
    if ps != [] {
      assert ProperPiece(quotes, ps[0]);
      assert PieceText(ps[0]) != [] && TextOf(ps)[0] == PieceText(ps[0])[0];
    }
  }

  lemma {:induction false} LexQuoted(quotes: set<char>, q: char, name: string, rest: string)
    requires ProperQuotes(quotes) && q in quotes
    requires rest == [] || rest[0] != q
    requires Lex(quotes, rest).Some?
    ensures Lex(quotes, PieceText(Quoted(q, name)) + rest) == Some([Name(name)] + Lex(quotes, rest).value)
  {
    hide Doubled, ScanQuoted, WordLength, IsWordChar, IsSymbol;
    var s := PieceText(Quoted(q, name)) + rest;
    assert s == [q] + (Doubled(name, q) + [q] + rest);
    assert s[0] == q && s[1..] == Doubled(name, q) + [q] + rest;
    ScanDoubled(name, q, rest);
  }

  lemma {:induction false} LexWord(quotes: set<char>, w: string, rest: string)
    requires ProperQuotes(quotes) && w != [] && AllWordChars(w)
    requires rest == [] || !IsWordChar(rest[0])
    requires Lex(quotes, rest).Some?
    ensures Lex(quotes, w + rest) == Some([Word(w)] + Lex(quotes, rest).value)
  {
    WordEnds(w, rest);
    assert (w + rest)[0] == w[0] && (w + rest)[..|w|] == w && (w + rest)[|w|..] == rest;
  }

  lemma {:induction false} LexHole(quotes: set<char>, rest: string)
    requires ProperQuotes(quotes) && Lex(quotes, rest).Some?
    ensures Lex(quotes, "%s" + rest) == Some([Param] + Lex(quotes, rest).value)
  {
    var s := "%s" + rest;
    assert s[0] == '%' && s[1] == 's' && s[2..] == rest;
    assert !IsGap(s[0]) && !IsWordChar(s[0]) && s[0] !in quotes;
  }

  lemma {:induction false} LexSymbol(quotes: set<char>, c: char, rest: string)
    requires ProperQuotes(quotes) && IsSymbol(c) && Lex(quotes, rest).Some?
    ensures Lex(quotes, [c] + rest) == Some([Sym(c)] + Lex(quotes, rest).value)
  {
    var s := [c] + rest;
    assert s[0] == c && s[1..] == rest;
    assert !IsGap(c) && !IsWordChar(c) && c !in quotes && c != '%';
  }

  /** Printing and lexing undo each other. */
  lemma {:induction false} LexPrinted(quotes: set<char>, ps: seq<Piece>, q: char)
    requires ProperQuotes(quotes) && q in quotes && Proper(quotes, ps) && Apart(ps)
    ensures Lex(quotes, TextOf(ps)) == Some(Tokens(ps))
  {
    hide Lex, WordLength, ScanQuoted, IsWordChar, IsSymbol, IsGap;
    if ps == [] {
      EmptyText(quotes);
    } else {
      var p, rest := ps[0], ps[1..];
      assert ProperPiece(quotes, p);
      assert Apart(rest) by {
        forall i | 0 <= i < |rest| - 1 ensures !(Sticky(rest[i]) && Sticky(rest[i + 1])) {
          assert rest[i] == ps[i + 1] && rest[i + 1] == ps[i + 2];
        }
      }
      LexPrinted(quotes, rest, q);
      if Sticky(p) {
        assert rest == [] || !Sticky(rest[0]);
        NothingContinues(quotes, rest, if p.Quoted? then p.quote else q);
      }
      LexFront(quotes, p, TextOf(rest));
    }
  }

  lemma {:induction false} EmptyText(quotes: set<char>)
    ensures Lex(quotes, []) == Some([])
  {
  }

  lemma {:induction false} LexFront(quotes: set<char>, p: Piece, rest: string)
    requires ProperQuotes(quotes) && ProperPiece(quotes, p)
    requires Lex(quotes, rest).Some?
    requires p.Plain? ==> rest == [] || !IsWordChar(rest[0])
    requires p.Quoted? ==> rest == [] || rest[0] != p.quote
    ensures Lex(quotes, PieceText(p) + rest) == Some(TokenOf(p) + Lex(quotes, rest).value)
  {
    match p
    case Blank(t) =>
      LexSkipsGaps(quotes, t, rest);
      assert TokenOf(p) + Lex(quotes, rest).value == Lex(quotes, rest).value;
    case Plain(t) => LexWord(quotes, t, rest);
    case Quoted(q, n) => LexQuoted(quotes, q, n, rest);
    case Hole => LexHole(quotes, rest);
    case Mark(c) => LexSymbol(quotes, c, rest);
  }

  // ---------------------------------------------------------------- lists

  /** Pieces of a list with a separator between its items. */
  function Joined(sep: seq<Piece>, items: seq<seq<Piece>>): seq<Piece> {
    if items == [] then [] else if |items| == 1 then items[0] else items[0] + sep + Joined(sep, items[1..])
  }

  function JoinText(sep: string, items: seq<string>): string {
    if items == [] then [] else if |items| == 1 then items[0] else items[0] + sep + JoinText(sep, items[1..])
  }

  function TextsOf(items: seq<seq<Piece>>): (r: seq<string>)
    ensures |r| == |items| && forall i :: 0 <= i < |items| ==> r[i] == TextOf(items[i])
  {
    seq(|items|, i requires 0 <= i < |items| => TextOf(items[i]))
  }

  lemma {:induction false} JoinedText(sep: seq<Piece>, items: seq<seq<Piece>>)
    ensures TextOf(Joined(sep, items)) == JoinText(TextOf(sep), TextsOf(items))
  {
    if |items| > 1 {
      JoinedText(sep, items[1..]);
      assert TextsOf(items)[1..] == TextsOf(items[1..]);
      TextAppend(items[0] + sep, Joined(sep, items[1..]));
      TextAppend(items[0], sep);
    }
  }

  /** Every item is proper, apart and not empty, so the list is as well. */
  ghost predicate GoodItems(quotes: set<char>, items: seq<seq<Piece>>) {
    forall i :: 0 <= i < |items| ==> items[i] != [] && Proper(quotes, items[i]) && Apart(items[i])
  }

  lemma {:induction false} JoinedGood(quotes: set<char>, sep: seq<Piece>, items: seq<seq<Piece>>)
    requires GoodItems(quotes, items) && items != []
    requires sep != [] && Proper(quotes, sep) && Apart(sep) && !Sticky(sep[0]) && !Sticky(sep[|sep| - 1])
    ensures Joined(sep, items) != [] && Proper(quotes, Joined(sep, items)) && Apart(Joined(sep, items))
  {
    if |items| > 1 {
      JoinedGood(quotes, sep, items[1..]);
      ApartAppend(items[0], sep);
      ApartAppend(items[0] + sep, Joined(sep, items[1..]));
    }
  }
}
