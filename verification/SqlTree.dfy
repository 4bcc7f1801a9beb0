/**
 * Syntax trees of the generated SQL: how a tree is printed and how its tokens are read back.
 * Reading what was printed gives the same tree.
 */
module SqlTree {
  import opened Common
  import opened SqlText

  /** A type name such as `DOUBLE PRECISION` or `NUMBER(38,0)`. */
  datatype SqlType = SqlType(words: seq<string>, args: seq<string>)

  datatype Function = CONCAT | CONCAT_WS | COALESCE

  function FunctionName(f: Function): string {
    match f
    case CONCAT => "CONCAT"
    case CONCAT_WS => "CONCAT_WS"
    case COALESCE => "COALESCE"
  }

  function FunctionNamed(s: string): Option<Function> {
    if s == "CONCAT" then Some(CONCAT)
    else if s == "CONCAT_WS" then Some(CONCAT_WS)
    else if s == "COALESCE" then Some(COALESCE)
    else None
  }

  datatype Sql =
    | Column(alias: string, name: string)
    | Bound
    | CastAs(alias: string, name: string, to: SqlType)
    | Call(fn: Function, args: seq<Sql>)

  predicate IsWord(w: string) {
    w != [] && AllWordChars(w)
  }

  predicate ProperType(t: SqlType) {
    && t.words != []
    && (forall i :: 0 <= i < |t.words| ==> IsWord(t.words[i]))
    && (forall i :: 0 <= i < |t.args| ==> IsWord(t.args[i]))
  }

  /** Calls have arguments and type names are words. */
  predicate Printable(e: Sql)
    decreases e
  {
    match e
    case Column(_, _) => true
    case Bound => true
    case CastAs(_, _, to) => ProperType(to)
    case Call(_, args) => args != [] && AllPrintable(args)
  }

  predicate AllPrintable(es: seq<Sql>)
    decreases es
  {
    es == [] || (Printable(es[0]) && AllPrintable(es[1..]))
  }

  // ---------------------------------------------------------------- printing

  const CommaGap := [Mark(','), Blank(" ")]

  function Words(ws: seq<string>): (r: seq<seq<Piece>>)
    ensures |r| == |ws| && forall i :: 0 <= i < |ws| ==> r[i] == [Plain(ws[i])]
  {
    seq(|ws|, i requires 0 <= i < |ws| => [Plain(ws[i])])
  }

  function TypePieces(t: SqlType): seq<Piece> {
    Joined([Blank(" ")], Words(t.words))
    + if t.args == [] then [] else [Mark('(')] + Joined([Mark(',')], Words(t.args)) + [Mark(')')]
  }

  function Qualified(q: char, alias: string, name: string): seq<Piece> {
    [Quoted(q, alias), Mark('.'), Quoted(q, name)]
  }

  function Pieces(q: char, e: Sql): seq<Piece>
    decreases e
  {
    match e
    case Column(alias, name) => Qualified(q, alias, name)
    case Bound => [Hole]
    case CastAs(alias, name, to) =>
      [Plain("CAST"), Mark('(')] + Qualified(q, alias, name) + [Blank(" "), Plain("AS"), Blank(" ")]
      + TypePieces(to) + [Mark(')')]
    case Call(fn, args) => [Plain(FunctionName(fn)), Mark('(')] + Joined(CommaGap, PiecesEach(q, args)) + [Mark(')')]
  }

  function PiecesEach(q: char, es: seq<Sql>): (r: seq<seq<Piece>>)
    ensures |r| == |es|
    decreases es
  {
    if es == [] then [] else [Pieces(q, es[0])] + PiecesEach(q, es[1..])
  }

  // ---------------------------------------------------------------- tokens

  function WordTokens(ws: seq<string>): (r: seq<Token>)
    ensures |r| == |ws|
  {
    if ws == [] then [] else [Word(ws[0])] + WordTokens(ws[1..])
  }

  function WordList(ws: seq<string>): seq<Token> {
    if ws == [] then [] else if |ws| == 1 then [Word(ws[0])] else [Word(ws[0]), Sym(',')] + WordList(ws[1..])
  }

  function TypeTokens(t: SqlType): seq<Token> {
    WordTokens(t.words) + if t.args == [] then [] else [Sym('(')] + WordList(t.args) + [Sym(')')]
  }

  function SqlTokens(e: Sql): seq<Token>
    decreases e
  {
    match e
    case Column(alias, name) => [Name(alias), Sym('.'), Name(name)]
    case Bound => [Param]
    case CastAs(alias, name, to) =>
      [Word("CAST"), Sym('('), Name(alias), Sym('.'), Name(name), Word("AS")] + TypeTokens(to) + [Sym(')')]
    case Call(fn, args) => [Word(FunctionName(fn)), Sym('(')] + ListTokens(args) + [Sym(')')]
  }

  function ListTokens(es: seq<Sql>): seq<Token>
    decreases es
  {
    if es == [] then []
    else if |es| == 1 then SqlTokens(es[0])
    else SqlTokens(es[0]) + [Sym(',')] + ListTokens(es[1..])
  }

  lemma {:induction false} WordsJoined(ws: seq<string>)
    ensures Tokens(Joined([Blank(" ")], Words(ws))) == WordTokens(ws)
    ensures Tokens(Joined([Mark(',')], Words(ws))) == WordList(ws)
  {
    if |ws| > 1 {
      WordsJoined(ws[1..]);
      assert Words(ws)[1..] == Words(ws[1..]);
      var first := [Plain(ws[0])];
      TokensAppend(first + [Blank(" ")], Joined([Blank(" ")], Words(ws[1..])));
      TokensAppend(first + [Mark(',')], Joined([Mark(',')], Words(ws[1..])));
      assert Tokens(first + [Blank(" ")]) == [Word(ws[0])] by { TokensAppend(first, [Blank(" ")]); }
      assert Tokens(first + [Mark(',')]) == [Word(ws[0]), Sym(',')] by { TokensAppend(first, [Mark(',')]); }
    } else if |ws| == 1 {
      assert Words(ws)[0] == [Plain(ws[0])];
    }
  }

  lemma {:induction false} TypePiecesTokens(t: SqlType)
    ensures Tokens(TypePieces(t)) == TypeTokens(t)
  {
    WordsJoined(t.words);
    WordsJoined(t.args);
    if t.args != [] {
      var inner := Joined([Mark(',')], Words(t.args));
      TokensAppend([Mark('(')] + inner, [Mark(')')]);
      TokensAppend([Mark('(')], inner);
      TokensAppend(Joined([Blank(" ")], Words(t.words)), [Mark('(')] + inner + [Mark(')')]);
    } else {
      TokensAppend(Joined([Blank(" ")], Words(t.words)), []);
    }
  }

  lemma {:induction false} PiecesTokens(q: char, e: Sql)
    ensures Tokens(Pieces(q, e)) == SqlTokens(e)
    decreases e
  {
    match e
    case Column(alias, name) => QualifiedTokens(q, alias, name);
    case Bound =>
    case CastAs(alias, name, to) => CastTokens(q, alias, name, to);
    case Call(fn, args) =>
      CommaGapTokens();
      ListPiecesTokens(q, args, CommaGap);
      CallTokens(fn, Joined(CommaGap, PiecesEach(q, args)));
  }

  lemma {:induction false} CommaGapTokens()
    ensures Tokens(CommaGap) == [Sym(',')]
  {
    hide Tokens;
    TokensOfThree(Mark(','), Blank(" "), Blank(" "));
  }

  lemma {:induction false} CallTokens(fn: Function, inner: seq<Piece>)
    ensures Tokens([Plain(FunctionName(fn)), Mark('(')] + inner + [Mark(')')])
            == [Word(FunctionName(fn)), Sym('(')] + Tokens(inner) + [Sym(')')]
  {
    hide Tokens, FunctionName;
    var opening := [Plain(FunctionName(fn)), Mark('(')];
    TokensOfThree(opening[0], opening[1], opening[1]);
    OneToken(Mark(')'));
    TokensAppend(opening + inner, [Mark(')')]);
    TokensAppend(opening, inner);
  }

  lemma {:induction false} TokensOfThree(a: Piece, b: Piece, c: Piece)
    ensures Tokens([a, b]) == TokenOf(a) + TokenOf(b)
    ensures Tokens([a, b, c]) == TokenOf(a) + TokenOf(b) + TokenOf(c)
  {
    assert [a, b][1..] == [b] && [a, b, c][1..] == [b, c] && [b, c][1..] == [c];
    assert Tokens([b]) == TokenOf(b) && Tokens([c]) == TokenOf(c);
  }

  lemma {:induction false} QualifiedTokens(q: char, alias: string, name: string)
    ensures Tokens(Qualified(q, alias, name)) == [Name(alias), Sym('.'), Name(name)]
  {
    hide Tokens;
    TokensOfThree(Quoted(q, alias), Mark('.'), Quoted(q, name));
  }

  lemma {:induction false} CastTokens(q: char, alias: string, name: string, to: SqlType)
    ensures Tokens(Pieces(q, CastAs(alias, name, to))) == SqlTokens(CastAs(alias, name, to))
  {
    hide Qualified, TypePieces, TypeTokens, Tokens;
    var opening, between := [Plain("CAST"), Mark('(')], [Blank(" "), Plain("AS"), Blank(" ")];
    var column, type_ := Qualified(q, alias, name), TypePieces(to);
    TokensOfThree(Plain("CAST"), Mark('('), Mark(')'));
    TokensOfThree(Blank(" "), Plain("AS"), Blank(" "));
    QualifiedTokens(q, alias, name);
    TypePiecesTokens(to);
    assert Tokens([Mark(')')]) == [Sym(')')] by { OneToken(Mark(')')); }
    TokensOfFive(opening, column, between, type_, [Mark(')')]);
  }

  lemma {:induction false} OneToken(p: Piece)
    ensures Tokens([p]) == TokenOf(p)
  {
  }

  lemma {:induction false} NoTokens()
    ensures Tokens([]) == []
  {
  }

  lemma {:induction false} TokensOfFive(a: seq<Piece>, b: seq<Piece>, c: seq<Piece>, d: seq<Piece>, e: seq<Piece>)
    ensures Tokens(a + b + c + d + e) == Tokens(a) + Tokens(b) + Tokens(c) + Tokens(d) + Tokens(e)
  {
    hide Tokens;
    TokensAppend(a + b + c + d, e);
    TokensAppend(a + b + c, d);
    TokensAppend(a + b, c);
    TokensAppend(a, b);
  }

  lemma {:induction false} ListPiecesTokens(q: char, es: seq<Sql>, sep: seq<Piece>)
    requires Tokens(sep) == [Sym(',')]
    ensures Tokens(Joined(sep, PiecesEach(q, es))) == ListTokens(es)
    decreases es
  {
    if es != [] {
      PiecesTokens(q, es[0]);
      if |es| > 1 {
        ListPiecesTokens(q, es[1..], sep);
        assert PiecesEach(q, es)[1..] == PiecesEach(q, es[1..]);
        var first, rest := Pieces(q, es[0]), Joined(sep, PiecesEach(q, es[1..]));
        TokensAppend(first + sep, rest);
        TokensAppend(first, sep);
      }
    }
  }

  // ---------------------------------------------------------------- reading

  function TakeWords(ts: seq<Token>): (r: (seq<string>, seq<Token>))
    ensures |r.1| <= |ts|
  {
    if ts != [] && ts[0].Word? then
      var (ws, rest) := TakeWords(ts[1..]);
      ([ts[0].text] + ws, rest)
    else ([], ts)
  }

  function ParseWordList(ts: seq<Token>): (r: Option<(seq<string>, seq<Token>)>)
    ensures r.Some? ==> |r.value.1| < |ts|
    decreases |ts|
  {
    if ts == [] || !ts[0].Word? then None
    else if |ts| > 1 && ts[1] == Sym(',') then
      var (ws, rest) :- ParseWordList(ts[2..]);
      Some(([ts[0].text] + ws, rest))
    else Some(([ts[0].text], ts[1..]))
  }

  function ParseType(ts: seq<Token>): (r: Option<(SqlType, seq<Token>)>)
    ensures r.Some? ==> |r.value.1| <= |ts|
  {
    var (words, rest) := TakeWords(ts);
    if rest == [] || rest[0] != Sym('(') then Some((SqlType(words, []), rest))
    else
      var (args, tail) :- ParseWordList(rest[1..]);
      if tail == [] || tail[0] != Sym(')') then None else Some((SqlType(words, args), tail[1..]))
  }

  function ParseSql(ts: seq<Token>): (r: Option<(Sql, seq<Token>)>)
    ensures r.Some? ==> |r.value.1| < |ts|
    decreases |ts|, 0
  {
    if ts == [] then None
    else if ts[0] == Param then Some((Bound, ts[1..]))
    else if |ts| >= 3 && ts[0].Name? && ts[1] == Sym('.') && ts[2].Name? then
      Some((Column(ts[0].name, ts[2].name), ts[3..]))
    else if |ts| < 2 || !ts[0].Word? || ts[1] != Sym('(') then None
    else if ts[0].text == "CAST" then ParseCast(ts)
    else
      var fn :- FunctionNamed(ts[0].text);
      var (args, rest) :- ParseList(ts[2..]);
      if rest == [] || rest[0] != Sym(')') then None else Some((Call(fn, args), rest[1..]))
  }

  function ParseCast(ts: seq<Token>): (r: Option<(Sql, seq<Token>)>)
    requires |ts| >= 2
    ensures r.Some? ==> |r.value.1| < |ts|
  {
    if |ts| < 6 || !ts[2].Name? || ts[3] != Sym('.') || !ts[4].Name? || ts[5] != Word("AS") then None
    else
      var (to, rest) :- ParseType(ts[6..]);
      if rest == [] || rest[0] != Sym(')') then None else Some((CastAs(ts[2].name, ts[4].name, to), rest[1..]))
  }

  function ParseList(ts: seq<Token>): (r: Option<(seq<Sql>, seq<Token>)>)
    ensures r.Some? ==> |r.value.1| < |ts|
    decreases |ts|, 1
  {
    var (e, rest) :- ParseSql(ts);
    if rest != [] && rest[0] == Sym(',') then
      var (es, tail) :- ParseList(rest[1..]);
      Some(([e] + es, tail))
    else Some(([e], rest))
  }

  // ---------------------------------------------------------------- reading what was printed

  lemma {:induction false} TakeWordsBack(ws: seq<string>, rest: seq<Token>)
    requires rest == [] || !rest[0].Word?
    ensures TakeWords(WordTokens(ws) + rest) == (ws, rest)
  {
    hide WordTokens;
    if ws == [] {
      WordTokensFront(ws, rest);
    } else {
      WordTokensFront(ws, rest);
      TakeWordsBack(ws[1..], rest);
      assert ws == [ws[0]] + ws[1..];
    }
  }

  lemma {:induction false} WordTokensFront(ws: seq<string>, rest: seq<Token>)
    ensures var ts := WordTokens(ws) + rest;
            if ws == [] then ts == rest else |ts| > 0 && ts[0] == Word(ws[0]) && ts[1..] == WordTokens(ws[1..]) + rest
  {
    if ws == [] {
      assert WordTokens(ws) + rest == rest;
    } else {
      assert WordTokens(ws) + rest == [Word(ws[0])] + (WordTokens(ws[1..]) + rest);
    }
  }

  lemma {:induction false} ParseWordListBack(ws: seq<string>, rest: seq<Token>)
    requires ws != []
    requires rest == [] || rest[0] != Sym(',')
    ensures ParseWordList(WordList(ws) + rest) == Some((ws, rest))
  {
    var ts := WordList(ws) + rest;
    if |ws| == 1 {
      assert ts == [Word(ws[0])] + rest;
      assert ts[0] == Word(ws[0]) && ts[1..] == rest && ws == [ws[0]];
      assert |ts| > 1 ==> ts[1] == rest[0];
    } else {
      var more := WordList(ws[1..]) + rest;
      ParseWordListBack(ws[1..], rest);
      assert ts == [Word(ws[0]), Sym(',')] + more;
      assert ts[0] == Word(ws[0]) && ts[1] == Sym(',') && ts[2..] == more;
      assert ws == [ws[0]] + ws[1..];
    }
  }

  lemma {:induction false} ParseTypeBack(t: SqlType, rest: seq<Token>)
    requires ProperType(t)
    requires rest != [] && rest[0] == Sym(')')
    ensures ParseType(TypeTokens(t) + rest) == Some((t, rest))
  {
    if t.args == [] {
      assert TypeTokens(t) + rest == WordTokens(t.words) + rest;
      TakeWordsBack(t.words, rest);
    } else {
      var tail := [Sym('(')] + WordList(t.args) + [Sym(')')] + rest;
      assert TypeTokens(t) + rest == WordTokens(t.words) + tail;
      TakeWordsBack(t.words, tail);
      assert tail[1..] == WordList(t.args) + ([Sym(')')] + rest);
      ParseWordListBack(t.args, [Sym(')')] + rest);
      assert ([Sym(')')] + rest)[1..] == rest;
    }
  }

  lemma {:induction false} ParseSqlBack(e: Sql, rest: seq<Token>)
    requires Printable(e)
    ensures ParseSql(SqlTokens(e) + rest) == Some((e, rest))
    decreases e, 0
  {
    var ts := SqlTokens(e) + rest;
    match e
    case Column(alias, name) => assert ts[..3] == [Name(alias), Sym('.'), Name(name)] && ts[3..] == rest;
    case Bound => assert ts[0] == Param && ts[1..] == rest;
    case CastAs(alias, name, to) => ParseCastBack(alias, name, to, rest);
    case Call(fn, args) =>
      var tail := [Sym(')')] + rest;
      ParseListBack(args, tail);
      assert ts[2..] == ListTokens(args) + tail && ts[0] == Word(FunctionName(fn)) && ts[1] == Sym('(');
      assert tail[1..] == rest;
  }

  lemma {:induction false} ParseCastBack(alias: string, name: string, to: SqlType, rest: seq<Token>)
    requires ProperType(to)
    ensures ParseSql(SqlTokens(CastAs(alias, name, to)) + rest) == Some((CastAs(alias, name, to), rest))
  {
    hide ProperType, TypeTokens, ParseType;
    var ts := SqlTokens(CastAs(alias, name, to)) + rest;
    var tail := [Sym(')')] + rest;
    var opening := [Word("CAST"), Sym('('), Name(alias), Sym('.'), Name(name), Word("AS")];
    assert ts == opening + (TypeTokens(to) + tail);
    ParseTypeBack(to, tail);
    assert ts[6..] == TypeTokens(to) + tail && tail[1..] == rest;
    assert ts[0] == opening[0] && ts[1] == opening[1] && ts[2] == opening[2] && ts[3] == opening[3];
    assert ts[4] == opening[4] && ts[5] == opening[5];
  }

  lemma {:induction false} ParseListBack(es: seq<Sql>, rest: seq<Token>)
    requires es != [] && AllPrintable(es)
    requires rest == [] || rest[0] != Sym(',')
    ensures ParseList(ListTokens(es) + rest) == Some((es, rest))
    decreases es, 1
  {
    hide ParseSql, SqlTokens, ListTokens, Printable;
    ListFront(es, rest);
    if |es| == 1 {
      ParseSqlBack(es[0], rest);
      assert es == [es[0]];
    } else {
      var tail := ListTokens(es[1..]) + rest;
      ParseSqlBack(es[0], [Sym(',')] + tail);
      ParseListBack(es[1..], rest);
      assert ([Sym(',')] + tail)[1..] == tail && es == [es[0]] + es[1..];
    }
  }

  lemma {:induction false} ListFront(es: seq<Sql>, rest: seq<Token>)
    requires es != []
    ensures ListTokens(es) + rest
            == SqlTokens(es[0]) + if |es| == 1 then rest else [Sym(',')] + (ListTokens(es[1..]) + rest)
  {
    hide SqlTokens;
  }

  // ---------------------------------------------------------------- shape of the pieces

  lemma {:induction false} WordsGood(quotes: set<char>, ws: seq<string>)
    requires forall i :: 0 <= i < |ws| ==> IsWord(ws[i])
    ensures GoodItems(quotes, Words(ws))
  {
  }

  lemma {:induction false} TypePiecesGood(quotes: set<char>, t: SqlType)
    requires ProperType(t)
    ensures TypePieces(t) != [] && Proper(quotes, TypePieces(t)) && Apart(TypePieces(t))
  {
    WordsGood(quotes, t.words);
    JoinedGood(quotes, [Blank(" ")], Words(t.words));
    if t.args != [] {
      WordsGood(quotes, t.args);
      JoinedGood(quotes, [Mark(',')], Words(t.args));
      var inner := Joined([Mark(',')], Words(t.args));
      ApartAppend([Mark('(')], inner);
      ApartAppend([Mark('(')] + inner, [Mark(')')]);
      ApartAppend(Joined([Blank(" ")], Words(t.words)), [Mark('(')] + inner + [Mark(')')]);
    }
  }

  lemma {:induction false} PiecesGood(quotes: set<char>, q: char, e: Sql)
    requires Printable(e) && q in quotes
    ensures Pieces(q, e) != [] && Proper(quotes, Pieces(q, e)) && Apart(Pieces(q, e))
    decreases e
  {
    match e
    case Column(_, _) =>
    case Bound =>
    case CastAs(alias, name, to) => CastGood(quotes, q, alias, name, to);
    case Call(fn, args) =>
      PiecesEachGood(quotes, q, args);
      JoinedGood(quotes, CommaGap, PiecesEach(q, args));
      CallGood(quotes, fn, Joined(CommaGap, PiecesEach(q, args)));
  }

  lemma {:induction false} CallGood(quotes: set<char>, fn: Function, inner: seq<Piece>)
    requires Proper(quotes, inner) && Apart(inner)
    ensures Proper(quotes, [Plain(FunctionName(fn)), Mark('(')] + inner + [Mark(')')])
    ensures Apart([Plain(FunctionName(fn)), Mark('(')] + inner + [Mark(')')])
  {
    var opening := [Plain(FunctionName(fn)), Mark('(')];
    ApartAppend(opening, inner);
    ApartAppend(opening + inner, [Mark(')')]);
  }

  lemma {:induction false} CastGood(quotes: set<char>, q: char, alias: string, name: string, to: SqlType)
    requires ProperType(to) && q in quotes
    ensures var ps := Pieces(q, CastAs(alias, name, to)); Proper(quotes, ps) && Apart(ps)
  {
    hide ProperType, TypePieces;
    var opening, between := [Plain("CAST"), Mark('(')], [Blank(" "), Plain("AS"), Blank(" ")];
    var column, type_ := Qualified(q, alias, name), TypePieces(to);
    TypePiecesGood(quotes, to);
    ApartAppend(opening, column);
    ApartAppend(opening + column, between);
    ApartAppend(opening + column + between, type_);
    ApartAppend(opening + column + between + type_, [Mark(')')]);
  }

  lemma {:induction false} PiecesEachGood(quotes: set<char>, q: char, es: seq<Sql>)
    requires AllPrintable(es) && q in quotes
    ensures GoodItems(quotes, PiecesEach(q, es))
    decreases es
  {
    if es != [] {
      PiecesGood(quotes, q, es[0]);
      PiecesEachGood(quotes, q, es[1..]);
    }
  }
}
