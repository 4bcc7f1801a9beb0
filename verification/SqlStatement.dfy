/**
 * The statements the compilers generate: how they are printed, and how their text is read back.
 */
module SqlStatement {
  import opened Common
  import opened SqlText
  import opened SqlTree

  datatype Projection = Value(e: Sql) | CountAll | NullCount(e: Sql) | DistinctCount(e: Sql)

  datatype Item = Item(projection: Projection, name: string)

  /** Relations are sequences of one to three names. */
  datatype Statement =
    | Select(items: seq<Item>, from: seq<string>, alias: string)
    | InsertSelect(into: seq<string>, columns: seq<string>, values: seq<Sql>, from: seq<string>, alias: string)

  predicate PrintableProjection(p: Projection) {
    p.CountAll? || Printable(p.e)
  }

  predicate PrintableStatement(s: Statement) {
    && s.from != []
    && match s
       case Select(items, _, _) =>
         items != [] && forall i :: 0 <= i < |items| ==> PrintableProjection(items[i].projection)
       case InsertSelect(into, columns, values, _, _) =>
         into != [] && columns != [] && values != [] && AllPrintable(values)
  }

  // ---------------------------------------------------------------- printing

  const LineGap := [Mark(','), Blank("\n    ")]

  function QuotedEach(q: char, names: seq<string>): (r: seq<seq<Piece>>)
    ensures |r| == |names| && forall i :: 0 <= i < |names| ==> r[i] == [Quoted(q, names[i])]
  {
    seq(|names|, i requires 0 <= i < |names| => [Quoted(q, names[i])])
  }

  function RelationPieces(q: char, names: seq<string>): seq<Piece> {
    Joined([Mark('.')], QuotedEach(q, names))
  }

  const NullCountOpening :=
    [Plain("SUM"), Mark('('), Plain("CASE"), Blank(" "), Plain("WHEN"), Blank(" ")]

  const NullCountEnding :=
    [Blank(" "), Plain("IS"), Blank(" "), Plain("NULL"), Blank(" "), Plain("THEN"), Blank(" "), Plain("1"),
     Blank(" "), Plain("ELSE"), Blank(" "), Plain("0"), Blank(" "), Plain("END"), Mark(')')]

  function ProjectionPieces(q: char, p: Projection): seq<Piece> {
    match p
    case Value(e) => Pieces(q, e)
    case CountAll => [Plain("COUNT"), Mark('('), Mark('*'), Mark(')')]
    case NullCount(e) =>
      NullCountOpening + Pieces(q, e) + NullCountEnding
    case DistinctCount(e) =>
      [Plain("COUNT"), Mark('('), Plain("DISTINCT"), Blank(" ")] + Pieces(q, e) + [Mark(')')]
  }

  /** The row count is named in double quotes in every dialect. */
  function ItemPieces(q: char, item: Item): seq<Piece> {
    ProjectionPieces(q, item.projection)
    + [Blank(" "), Plain("AS"), Blank(" "), Quoted(if item.projection.CountAll? then '"' else q, item.name)]
  }

  function ItemPiecesEach(q: char, items: seq<Item>): (r: seq<seq<Piece>>)
    ensures |r| == |items| && forall i :: 0 <= i < |items| ==> r[i] == ItemPieces(q, items[i])
  {
    seq(|items|, i requires 0 <= i < |items| => ItemPieces(q, items[i]))
  }

  function FooterPieces(q: char, from: seq<string>, alias: string): seq<Piece> {
    [Blank("\n"), Plain("FROM"), Blank(" ")] + RelationPieces(q, from)
    + [Blank(" "), Plain("AS"), Blank(" "), Quoted(q, alias)]
  }

  const InsertOpening := [Plain("INSERT"), Blank(" "), Plain("INTO"), Blank(" ")]
  const ColumnsOpening := [Blank(" "), Mark('('), Blank("\n    ")]
  const ValuesOpening := [Blank("\n"), Mark(')'), Blank("\n"), Plain("SELECT"), Blank("\n    ")]
  const SelectOpening := [Plain("SELECT"), Blank("\n    ")]

  function StatementPieces(q: char, s: Statement): seq<Piece> {
    match s
    case Select(items, from, alias) =>
      SelectOpening + Joined(LineGap, ItemPiecesEach(q, items)) + FooterPieces(q, from, alias)
    case InsertSelect(into, columns, values, from, alias) =>
      InsertOpening + RelationPieces(q, into) + ColumnsOpening + Joined(LineGap, QuotedEach(q, columns))
      + ValuesOpening + Joined(LineGap, PiecesEach(q, values)) + FooterPieces(q, from, alias)
  }

  // ---------------------------------------------------------------- tokens

  function NameTokens(names: seq<string>, c: char): seq<Token> {
    if names == [] then []
    else if |names| == 1 then [Name(names[0])]
    else [Name(names[0]), Sym(c)] + NameTokens(names[1..], c)
  }

  const NullTail :=
    [Word("IS"), Word("NULL"), Word("THEN"), Word("1"), Word("ELSE"), Word("0"), Word("END"), Sym(')')]

  function ProjectionTokens(p: Projection): seq<Token> {
    match p
    case Value(e) => SqlTokens(e)
    case CountAll => [Word("COUNT"), Sym('('), Sym('*'), Sym(')')]
    case NullCount(e) => [Word("SUM"), Sym('('), Word("CASE"), Word("WHEN")] + SqlTokens(e) + NullTail
    case DistinctCount(e) => [Word("COUNT"), Sym('('), Word("DISTINCT")] + SqlTokens(e) + [Sym(')')]
  }

  function ItemsTokens(items: seq<Item>): seq<Token> {
    if items == [] then []
    else
      var first := ProjectionTokens(items[0].projection) + [Word("AS"), Name(items[0].name)];
      if |items| == 1 then first else first + [Sym(',')] + ItemsTokens(items[1..])
  }

  function FooterTokens(from: seq<string>, alias: string): seq<Token> {
    [Word("FROM")] + NameTokens(from, '.') + [Word("AS"), Name(alias)]
  }

  function StatementTokens(s: Statement): seq<Token> {
    match s
    case Select(items, from, alias) => [Word("SELECT")] + ItemsTokens(items) + FooterTokens(from, alias)
    case InsertSelect(into, columns, values, from, alias) =>
      [Word("INSERT"), Word("INTO")] + NameTokens(into, '.') + [Sym('(')] + NameTokens(columns, ',')
      + [Sym(')'), Word("SELECT")] + ListTokens(values) + FooterTokens(from, alias)
  }

  lemma {:induction false} NamesJoined(q: char, names: seq<string>, c: char, sep: seq<Piece>)
    requires Tokens(sep) == [Sym(c)]
    ensures Tokens(Joined(sep, QuotedEach(q, names))) == NameTokens(names, c)
  {
    if |names| > 1 {
      NamesJoined(q, names[1..], c, sep);
      assert QuotedEach(q, names)[1..] == QuotedEach(q, names[1..]);
      var first := [Quoted(q, names[0])];
      TokensAppend(first + sep, Joined(sep, QuotedEach(q, names[1..])));
      TokensAppend(first, sep);
      OneToken(first[0]);
    } else if |names| == 1 {
      assert QuotedEach(q, names)[0] == [Quoted(q, names[0])];
      OneToken(Quoted(q, names[0]));
    }
  }

  lemma {:induction false} RelationTokens(q: char, names: seq<string>)
    ensures Tokens(RelationPieces(q, names)) == NameTokens(names, '.')
  {
    OneToken(Mark('.'));
    NamesJoined(q, names, '.', [Mark('.')]);
  }

  lemma {:induction false} LineGapTokens()
    ensures Tokens(LineGap) == [Sym(',')]
  {
    hide Tokens;
    TokensOfThree(Mark(','), Blank("\n    "), Blank(" "));
  }

  lemma {:induction false} NullCountTail()
    ensures Tokens(NullCountEnding) == NullTail
  {
    hide Tokens;
    var a, b, c := [Blank(" "), Plain("IS"), Blank(" ")], [Plain("NULL"), Blank(" "), Plain("THEN")],
                   [Blank(" "), Plain("1"), Blank(" ")];
    var d, e := [Plain("ELSE"), Blank(" "), Plain("0")], [Blank(" "), Plain("END"), Mark(')')];
    TokensOfThree(a[0], a[1], a[2]);
    TokensOfThree(b[0], b[1], b[2]);
    TokensOfThree(c[0], c[1], c[2]);
    TokensOfThree(d[0], d[1], d[2]);
    TokensOfThree(e[0], e[1], e[2]);
    TokensOfFive(a, b, c, d, e);
    assert a + b + c + d + e == NullCountEnding;
  }

  lemma {:induction false} ProjectionPiecesTokens(q: char, p: Projection)
    ensures Tokens(ProjectionPieces(q, p)) == ProjectionTokens(p)
  {
    match p
    case Value(e) => PiecesTokens(q, e);
    case CountAll => CountAllTokens();
    case NullCount(e) => NullCountTokens(q, e);
    case DistinctCount(e) => DistinctCountTokens(q, e);
  }

  lemma {:induction false} CountAllTokens()
    ensures Tokens([Plain("COUNT"), Mark('('), Mark('*'), Mark(')')]) == [Word("COUNT"), Sym('('), Sym('*'), Sym(')')]
  {
    hide Tokens;
    TokensOfThree(Plain("COUNT"), Mark('('), Mark('*'));
    OneToken(Mark(')'));
    TokensAppend([Plain("COUNT"), Mark('('), Mark('*')], [Mark(')')]);
    assert [Plain("COUNT"), Mark('('), Mark('*')] + [Mark(')')] == [Plain("COUNT"), Mark('('), Mark('*'), Mark(')')];
  }

  lemma {:induction false} NullCountTokens(q: char, e: Sql)
    ensures Tokens(ProjectionPieces(q, NullCount(e))) == ProjectionTokens(NullCount(e))
  {
    hide Tokens, Pieces, SqlTokens;
    var a, b := [Plain("SUM"), Mark('('), Plain("CASE")], [Blank(" "), Plain("WHEN"), Blank(" ")];
    TokensOfThree(a[0], a[1], a[2]);
    TokensOfThree(b[0], b[1], b[2]);
    TokensAppend(a, b);
    assert a + b == NullCountOpening;
    PiecesTokens(q, e);
    NullCountTail();
    TokensAppend(NullCountOpening + Pieces(q, e), NullCountEnding);
    TokensAppend(NullCountOpening, Pieces(q, e));
  }

  lemma {:induction false} DistinctCountTokens(q: char, e: Sql)
    ensures Tokens(ProjectionPieces(q, DistinctCount(e))) == ProjectionTokens(DistinctCount(e))
  {
    hide Tokens, Pieces, SqlTokens;
    DistinctOpeningTokens();
    OneToken(Mark(')'));
    PiecesTokens(q, e);
    var opening := [Plain("COUNT"), Mark('('), Plain("DISTINCT"), Blank(" ")];
    TokensAppend(opening + Pieces(q, e), [Mark(')')]);
    TokensAppend(opening, Pieces(q, e));
  }

  lemma {:induction false} DistinctOpeningTokens()
    ensures Tokens([Plain("COUNT"), Mark('('), Plain("DISTINCT"), Blank(" ")])
            == [Word("COUNT"), Sym('('), Word("DISTINCT")]
  {
    hide Tokens;
    TokensOfThree(Plain("COUNT"), Mark('('), Plain("DISTINCT"));
    OneToken(Blank(" "));
    TokensAppend([Plain("COUNT"), Mark('('), Plain("DISTINCT")], [Blank(" ")]);
    assert [Plain("COUNT"), Mark('('), Plain("DISTINCT")] + [Blank(" ")]
        == [Plain("COUNT"), Mark('('), Plain("DISTINCT"), Blank(" ")];
  }

  lemma {:induction false} ItemPiecesTokens(q: char, item: Item)
    ensures Tokens(ItemPieces(q, item)) == ProjectionTokens(item.projection) + [Word("AS"), Name(item.name)]
  {
    hide Tokens, ProjectionPieces, ProjectionTokens;
    ProjectionPiecesTokens(q, item.projection);
    var c := Quoted(if item.projection.CountAll? then '"' else q, item.name);
    TokensOfThree(Blank(" "), Plain("AS"), Blank(" "));
    OneToken(c);
    TokensAppend([Blank(" "), Plain("AS"), Blank(" ")], [c]);
    assert [Blank(" "), Plain("AS"), Blank(" ")] + [c] == [Blank(" "), Plain("AS"), Blank(" "), c];
    TokensAppend(ProjectionPieces(q, item.projection), [Blank(" "), Plain("AS"), Blank(" "), c]);
  }

  lemma {:induction false} ItemsJoined(q: char, items: seq<Item>)
    ensures Tokens(Joined(LineGap, ItemPiecesEach(q, items))) == ItemsTokens(items)
  {
    hide Tokens, ItemPieces, ProjectionTokens;
    if items == [] {
      NoTokens();
    } else {
      ItemPiecesTokens(q, items[0]);
      if |items| > 1 {
        ItemsJoined(q, items[1..]);
        assert ItemPiecesEach(q, items)[1..] == ItemPiecesEach(q, items[1..]);
        LineGapTokens();
        var first := ItemPieces(q, items[0]);
        TokensAppend(first + LineGap, Joined(LineGap, ItemPiecesEach(q, items[1..])));
        TokensAppend(first, LineGap);
      }
    }
  }

  lemma {:induction false} FooterPiecesTokens(q: char, from: seq<string>, alias: string)
    ensures Tokens(FooterPieces(q, from, alias)) == FooterTokens(from, alias)
  {
    hide Tokens, RelationPieces, NameTokens;
    RelationTokens(q, from);
    TokensOfThree(Blank("\n"), Plain("FROM"), Blank(" "));
    TokensOfThree(Blank(" "), Plain("AS"), Blank(" "));
    OneToken(Quoted(q, alias));
    TokensAppend([Blank(" "), Plain("AS"), Blank(" ")], [Quoted(q, alias)]);
    assert [Blank(" "), Plain("AS"), Blank(" ")] + [Quoted(q, alias)]
        == [Blank(" "), Plain("AS"), Blank(" "), Quoted(q, alias)];
    TokensAppend([Blank("\n"), Plain("FROM"), Blank(" ")] + RelationPieces(q, from),
                 [Blank(" "), Plain("AS"), Blank(" "), Quoted(q, alias)]);
    TokensAppend([Blank("\n"), Plain("FROM"), Blank(" ")], RelationPieces(q, from));
  }

  lemma {:induction false} OpeningTokens()
    ensures Tokens(InsertOpening) == [Word("INSERT"), Word("INTO")]
    ensures Tokens(ColumnsOpening) == [Sym('(')]
    ensures Tokens(ValuesOpening) == [Sym(')'), Word("SELECT")]
    ensures Tokens(SelectOpening) == [Word("SELECT")]
  {
    hide Tokens;
    TokensOfThree(Plain("INSERT"), Blank(" "), Plain("INTO"));
    OneToken(Blank(" "));
    TokensAppend([Plain("INSERT"), Blank(" "), Plain("INTO")], [Blank(" ")]);
    assert InsertOpening == [Plain("INSERT"), Blank(" "), Plain("INTO")] + [Blank(" ")];
    TokensOfThree(Blank(" "), Mark('('), Blank("\n    "));
    TokensOfThree(Blank("\n"), Mark(')'), Blank("\n"));
    TokensOfThree(Plain("SELECT"), Blank("\n    "), Blank(" "));
    TokensAppend([Blank("\n"), Mark(')'), Blank("\n")], SelectOpening);
    assert ValuesOpening == [Blank("\n"), Mark(')'), Blank("\n")] + SelectOpening;
  }

  lemma {:induction false} StatementPiecesTokens(q: char, s: Statement)
    ensures Tokens(StatementPieces(q, s)) == StatementTokens(s)
  {
    hide Tokens, FooterPieces, FooterTokens, RelationPieces, NameTokens, Joined, ItemsTokens, ListTokens;
    OpeningTokens();
    FooterPiecesTokens(q, s.from, s.alias);
    match s
    case Select(items, from, alias) =>
      ItemsJoined(q, items);
      var body := Joined(LineGap, ItemPiecesEach(q, items));
      TokensAppend(SelectOpening + body, FooterPieces(q, from, alias));
      TokensAppend(SelectOpening, body);
    case InsertSelect(into, columns, values, from, alias) =>
      LineGapTokens();
      RelationTokens(q, into);
      NamesJoined(q, columns, ',', LineGap);
      ListPiecesTokens(q, values, LineGap);
      var names, body := Joined(LineGap, QuotedEach(q, columns)), Joined(LineGap, PiecesEach(q, values));
      var top := InsertOpening + RelationPieces(q, into) + ColumnsOpening + names + ValuesOpening;
      TokensOfFive(InsertOpening, RelationPieces(q, into), ColumnsOpening, names, ValuesOpening);
      TokensAppend(top + body, FooterPieces(q, from, alias));
      TokensAppend(top, body);
  }

  // ---------------------------------------------------------------- reading

  function Expect(ts: seq<Token>, t: Token): (r: Option<seq<Token>>)
    ensures r.Some? ==> |r.value| < |ts|
  {
    if ts != [] && ts[0] == t then Some(ts[1..]) else None
  }

  function ExpectAll(ts: seq<Token>, prefix: seq<Token>): (r: Option<seq<Token>>)
    ensures r.Some? ==> |r.value| <= |ts|
  {
    if prefix <= ts then Some(ts[|prefix|..]) else None
  }

  function ParseNames(ts: seq<Token>, c: char): (r: Option<(seq<string>, seq<Token>)>)
    ensures r.Some? ==> |r.value.1| < |ts|
    decreases |ts|
  {
    if ts == [] || !ts[0].Name? then None
    else if |ts| > 1 && ts[1] == Sym(c) then
      var (names, rest) :- ParseNames(ts[2..], c);
      Some(([ts[0].name] + names, rest))
    else Some(([ts[0].name], ts[1..]))
  }

  function ParseProjection(ts: seq<Token>): (r: Option<(Projection, seq<Token>)>)
    ensures r.Some? ==> |r.value.1| < |ts|
  {
    if [Word("COUNT"), Sym('('), Sym('*'), Sym(')')] <= ts then Some((CountAll, ts[4..]))
    else if [Word("COUNT"), Sym('('), Word("DISTINCT")] <= ts then
      var (e, rest) :- ParseSql(ts[3..]);
      var tail :- Expect(rest, Sym(')'));
      Some((DistinctCount(e), tail))
    else if [Word("SUM"), Sym('('), Word("CASE"), Word("WHEN")] <= ts then
      var (e, rest) :- ParseSql(ts[4..]);
      var tail :- ExpectAll(rest, NullTail);
      Some((NullCount(e), tail))
    else
      var (e, rest) :- ParseSql(ts);
      Some((Value(e), rest))
  }

  function ParseItems(ts: seq<Token>): (r: Option<(seq<Item>, seq<Token>)>)
    ensures r.Some? ==> |r.value.1| < |ts|
    decreases |ts|
  {
    var (p, rest) :- ParseProjection(ts);
    var named :- Expect(rest, Word("AS"));
    if named == [] || !named[0].Name? then None
    else
      var item := Item(p, named[0].name);
      if |named| > 1 && named[1] == Sym(',') then
        var (items, tail) :- ParseItems(named[2..]);
        Some(([item] + items, tail))
      else Some(([item], named[1..]))
  }

  /** The source relation and its alias, with nothing behind them. */
  function ParseFooter(ts: seq<Token>): Option<(seq<string>, string)> {
    var ts1 :- Expect(ts, Word("FROM"));
    var (from, ts2) :- ParseNames(ts1, '.');
    var ts3 :- Expect(ts2, Word("AS"));
    if |ts3| == 1 && ts3[0].Name? then Some((from, ts3[0].name)) else None
  }

  function ParseSelect(ts: seq<Token>): Option<Statement> {
    var (items, rest) :- ParseItems(ts);
    var (from, alias) :- ParseFooter(rest);
    Some(Select(items, from, alias))
  }

  function ParseInsert(ts: seq<Token>): Option<Statement> {
    var (into, ts1) :- ParseNames(ts, '.');
    var ts2 :- Expect(ts1, Sym('('));
    var (columns, ts3) :- ParseNames(ts2, ',');
    var ts4 :- ExpectAll(ts3, [Sym(')'), Word("SELECT")]);
    var (values, ts5) :- ParseList(ts4);
    var (from, alias) :- ParseFooter(ts5);
    Some(InsertSelect(into, columns, values, from, alias))
  }

  function ParseStatement(ts: seq<Token>): Option<Statement> {
    if [Word("INSERT"), Word("INTO")] <= ts then ParseInsert(ts[2..])
    else
      var rest :- Expect(ts, Word("SELECT"));
      ParseSelect(rest)
  }

  /** The statement a text stands for. */
  function Read(quotes: set<char>, text: string): Option<Statement> {
    var ts :- Lex(quotes, text);
    ParseStatement(ts)
  }

  // ---------------------------------------------------------------- reading what was printed

  lemma {:induction false} ParseNamesBack(names: seq<string>, c: char, rest: seq<Token>)
    requires names != []
    requires rest == [] || rest[0] != Sym(c)
    ensures ParseNames(NameTokens(names, c) + rest, c) == Some((names, rest))
  {
    var ts := NameTokens(names, c) + rest;
    if |names| == 1 {
      assert ts[0] == Name(names[0]) && ts[1..] == rest && names == [names[0]];
      assert |ts| > 1 ==> ts[1] == rest[0];
    } else {
      assert ts[0] == Name(names[0]) && ts[1] == Sym(c) && ts[2..] == NameTokens(names[1..], c) + rest;
      ParseNamesBack(names[1..], c, rest);
      assert names == [names[0]] + names[1..];
    }
  }

  /** A printed expression starts like none of the aggregates. */
  lemma {:induction false} SqlTokensStart(e: Sql, rest: seq<Token>)
    ensures var ts := SqlTokens(e) + rest; |ts| > 0 && (ts[0].Word? ==> ts[0].text != "COUNT" && ts[0].text != "SUM")
  {
    match e
    case Column(_, _) =>
    case Bound =>
    case CastAs(_, _, _) =>
    case Call(fn, args) => assert (SqlTokens(e) + rest)[0] == Word(FunctionName(fn));
  }

  lemma {:induction false} ParseValueBack(e: Sql, rest: seq<Token>)
    requires Printable(e)
    ensures ParseProjection(SqlTokens(e) + rest) == Some((Value(e), rest))
  {
    hide ParseSql, SqlTokens, Printable;
    var ts := SqlTokens(e) + rest;
    SqlTokensStart(e, rest);
    ParseSqlBack(e, rest);
    assert ts[0] != Word("COUNT") && ts[0] != Word("SUM");
  }

  lemma {:induction false} ParseNullCountBack(e: Sql, rest: seq<Token>)
    requires Printable(e)
    ensures ParseProjection(ProjectionTokens(NullCount(e)) + rest) == Some((NullCount(e), rest))
  {
    hide ParseSql, SqlTokens, Printable;
    var opening, tail := [Word("SUM"), Sym('('), Word("CASE"), Word("WHEN")], NullTail + rest;
    var ts := ProjectionTokens(NullCount(e)) + rest;
    ParseSqlBack(e, tail);
    assert ts == opening + (SqlTokens(e) + tail);
    assert ts[0] == opening[0] && ts[0] != Word("COUNT");
    assert opening <= ts && ts[4..] == SqlTokens(e) + tail;
    assert NullTail <= tail && tail[|NullTail|..] == rest;
  }

  lemma {:induction false} ParseDistinctCountBack(e: Sql, rest: seq<Token>)
    requires Printable(e)
    ensures ParseProjection(ProjectionTokens(DistinctCount(e)) + rest) == Some((DistinctCount(e), rest))
  {
    hide ParseSql, SqlTokens, Printable;
    var opening, tail := [Word("COUNT"), Sym('('), Word("DISTINCT")], [Sym(')')] + rest;
    var ts := ProjectionTokens(DistinctCount(e)) + rest;
    ParseSqlBack(e, tail);
    assert ts == opening + (SqlTokens(e) + tail);
    assert ts[2] == opening[2] && ts[2] != Sym('*');
    assert opening <= ts && ts[3..] == SqlTokens(e) + tail;
    assert tail[0] == Sym(')') && tail[1..] == rest;
  }

  lemma {:induction false} ParseProjectionBack(p: Projection, rest: seq<Token>)
    requires PrintableProjection(p)
    ensures ParseProjection(ProjectionTokens(p) + rest) == Some((p, rest))
  {
    match p
    case Value(e) => ParseValueBack(e, rest);
    case CountAll => assert (ProjectionTokens(p) + rest)[4..] == rest;
    case NullCount(e) => ParseNullCountBack(e, rest);
    case DistinctCount(e) => ParseDistinctCountBack(e, rest);
  }

  lemma {:induction false} ParseItemsBack(items: seq<Item>, rest: seq<Token>)
    requires items != [] && forall i :: 0 <= i < |items| ==> PrintableProjection(items[i].projection)
    requires rest == [] || rest[0] != Sym(',')
    ensures ParseItems(ItemsTokens(items) + rest) == Some((items, rest))
  {
    hide ParseProjection, ProjectionTokens, PrintableProjection;
    var p, name := items[0].projection, items[0].name;
    if |items| == 1 {
      var tail := [Word("AS"), Name(name)] + rest;
      ParseProjectionBack(p, tail);
      assert ItemsTokens(items) + rest == ProjectionTokens(p) + tail;
      assert tail[1..][0] == Name(name) && tail[1..][1..] == rest && items == [items[0]];
    } else {
      var more := ItemsTokens(items[1..]) + rest;
      var tail := [Word("AS"), Name(name), Sym(',')] + more;
      ParseProjectionBack(p, tail);
      assert ItemsTokens(items) + rest == ProjectionTokens(p) + tail;
      ParseItemsBack(items[1..], rest);
      assert tail[1..][0] == Name(name) && tail[1..][1] == Sym(',') && tail[1..][2..] == more;
      assert items == [items[0]] + items[1..];
    }
  }

  lemma {:induction false} ParseFooterBack(from: seq<string>, alias: string)
    requires from != []
    ensures ParseFooter(FooterTokens(from, alias)) == Some((from, alias))
  {
    hide NameTokens, ParseNames;
    var tail := [Word("AS"), Name(alias)];
    assert FooterTokens(from, alias)[1..] == NameTokens(from, '.') + tail;
    ParseNamesBack(from, '.', tail);
    assert tail[1..] == [Name(alias)];
  }

  lemma {:induction false} ParseSelectBack(items: seq<Item>, from: seq<string>, alias: string)
    requires PrintableStatement(Select(items, from, alias))
    ensures ParseStatement(StatementTokens(Select(items, from, alias))) == Some(Select(items, from, alias))
  {
    hide ItemsTokens, ParseItems, ParseFooter, PrintableProjection;
    var footer := FooterTokens(from, alias);
    assert footer[0] == Word("FROM");
    ParseItemsBack(items, footer);
    ParseFooterBack(from, alias);
    var ts := StatementTokens(Select(items, from, alias));
    assert ts == [Word("SELECT")] + (ItemsTokens(items) + footer);
    assert ts[0] == Word("SELECT") && ts[1..] == ItemsTokens(items) + footer;
  }

  lemma {:induction false} ParseInsertBack(into: seq<string>, columns: seq<string>, values: seq<Sql>, from: seq<string>, alias: string)
    requires PrintableStatement(InsertSelect(into, columns, values, from, alias))
    ensures var s := InsertSelect(into, columns, values, from, alias); ParseStatement(StatementTokens(s)) == Some(s)
  {
    hide NameTokens, ParseNames, ListTokens, ParseList, ParseFooter, FooterTokens, AllPrintable;
    var s := InsertSelect(into, columns, values, from, alias);
    var footer := FooterTokens(from, alias);
    assert footer != [] && footer[0] == Word("FROM") by { FooterStart(from, alias); }
    var ts4 := ListTokens(values) + footer;
    var ts3 := [Sym(')'), Word("SELECT")] + ts4;
    var ts2 := NameTokens(columns, ',') + ts3;
    var ts1 := [Sym('(')] + ts2;
    var ts0 := NameTokens(into, '.') + ts1;
    assert StatementTokens(s) == [Word("INSERT"), Word("INTO")] + ts0;
    assert StatementTokens(s)[2..] == ts0 && ts1[1..] == ts2 && ts3[2..] == ts4;
    ParseNamesBack(into, '.', ts1);
    ParseNamesBack(columns, ',', ts3);
    ParseListBack(values, footer);
    ParseFooterBack(from, alias);
  }

  lemma {:induction false} FooterStart(from: seq<string>, alias: string)
    ensures FooterTokens(from, alias) != [] && FooterTokens(from, alias)[0] == Word("FROM")
  {
  }

  // ---------------------------------------------------------------- shape of the pieces

  lemma {:induction false} QuotedEachGood(quotes: set<char>, q: char, names: seq<string>)
    requires q in quotes
    ensures GoodItems(quotes, QuotedEach(q, names))
  {
  }

  lemma {:induction false} ProjectionGood(quotes: set<char>, q: char, p: Projection)
    requires q in quotes && PrintableProjection(p)
    ensures var ps := ProjectionPieces(q, p); ps != [] && Proper(quotes, ps) && Apart(ps)
  {
    hide Pieces, Printable, Sticky;
    if !p.CountAll? { PiecesGood(quotes, q, p.e); }
    match p
    case Value(_) =>
    case CountAll => assert !Sticky(Mark('(')) && !Sticky(Mark('*')) && !Sticky(Mark(')')) by { MarksGood(); }
    case NullCount(e) => NullCountGood(quotes, q, e);
    case DistinctCount(e) => DistinctCountGood(quotes, q, e);
  }

  lemma {:induction false} MarksGood()
    ensures forall c :: !Sticky(Mark(c))
    ensures forall t :: !Sticky(Blank(t))
  {
  }

  lemma {:induction false} NullCountEndingGood(quotes: set<char>)
    ensures Proper(quotes, NullCountEnding) && Apart(NullCountEnding)
  {
    var a := [Blank(" "), Plain("IS"), Blank(" "), Plain("NULL"), Blank(" "), Plain("THEN"), Blank(" ")];
    var b := [Plain("1"), Blank(" "), Plain("ELSE"), Blank(" "), Plain("0"), Blank(" "), Plain("END"), Mark(')')];
    ApartAppend(a, b);
    assert a + b == NullCountEnding;
  }

  lemma {:induction false} NullCountGood(quotes: set<char>, q: char, e: Sql)
    requires Pieces(q, e) != [] && Proper(quotes, Pieces(q, e)) && Apart(Pieces(q, e))
    ensures var ps := ProjectionPieces(q, NullCount(e)); Proper(quotes, ps) && Apart(ps)
  {
    hide Pieces;
    NullCountEndingGood(quotes);
    ApartAppend(NullCountOpening, Pieces(q, e));
    ApartAppend(NullCountOpening + Pieces(q, e), NullCountEnding);
  }

  lemma {:induction false} DistinctCountGood(quotes: set<char>, q: char, e: Sql)
    requires Pieces(q, e) != [] && Proper(quotes, Pieces(q, e)) && Apart(Pieces(q, e))
    ensures var ps := ProjectionPieces(q, DistinctCount(e)); Proper(quotes, ps) && Apart(ps)
  {
    hide Pieces;
    var opening := [Plain("COUNT"), Mark('('), Plain("DISTINCT"), Blank(" ")];
    ApartAppend(opening, Pieces(q, e));
    ApartAppend(opening + Pieces(q, e), [Mark(')')]);
  }

  lemma {:induction false} ItemsGood(quotes: set<char>, q: char, items: seq<Item>)
    requires q in quotes && '"' in quotes
    requires forall i :: 0 <= i < |items| ==> PrintableProjection(items[i].projection)
    ensures GoodItems(quotes, ItemPiecesEach(q, items))
  {
    forall i | 0 <= i < |items|
      ensures var ps := ItemPiecesEach(q, items)[i]; ps != [] && Proper(quotes, ps) && Apart(ps)
    {
      ItemGood(quotes, q, items[i]);
    }
  }

  lemma {:induction false} ItemGood(quotes: set<char>, q: char, item: Item)
    requires q in quotes && '"' in quotes && PrintableProjection(item.projection)
    ensures var ps := ItemPieces(q, item); ps != [] && Proper(quotes, ps) && Apart(ps)
  {
    hide ProjectionPieces, PrintableProjection;
    ProjectionGood(quotes, q, item.projection);
    ApartAppend(ProjectionPieces(q, item.projection),
                [Blank(" "), Plain("AS"), Blank(" "), Quoted(if item.projection.CountAll? then '"' else q, item.name)]);
  }

  lemma {:induction false} FooterGood(quotes: set<char>, q: char, from: seq<string>, alias: string)
    requires q in quotes && from != []
    ensures var ps := FooterPieces(q, from, alias);
            ps != [] && Proper(quotes, ps) && Apart(ps) && ps[0] == Blank("\n")
  {
    hide Joined;
    QuotedEachGood(quotes, q, from);
    JoinedGood(quotes, [Mark('.')], QuotedEach(q, from));
    var opening := [Blank("\n"), Plain("FROM"), Blank(" ")];
    ApartAppend(opening, RelationPieces(q, from));
    ApartAppend(opening + RelationPieces(q, from), [Blank(" "), Plain("AS"), Blank(" "), Quoted(q, alias)]);
  }

  /** Chaining two parts when the first does not end, or the second does not begin, with a sticky piece. */
  lemma {:induction false} GoodAppend(quotes: set<char>, a: seq<Piece>, b: seq<Piece>)
    requires Proper(quotes, a) && Apart(a) && Proper(quotes, b) && Apart(b) && a != [] && b != []
    requires a[|a| - 1].Blank? || b[0].Blank?
    ensures Proper(quotes, a + b) && Apart(a + b) && a + b != [] && (a + b)[|a + b| - 1] == b[|b| - 1]
  {
    hide Apart;
    ApartAppend(a, b);
  }

  lemma {:induction false} OpeningsGood(quotes: set<char>)
    ensures Proper(quotes, InsertOpening) && Apart(InsertOpening)
    ensures Proper(quotes, ColumnsOpening) && Apart(ColumnsOpening)
    ensures Proper(quotes, ValuesOpening) && Apart(ValuesOpening)
    ensures Proper(quotes, SelectOpening) && Apart(SelectOpening)
    ensures Proper(quotes, LineGap) && Apart(LineGap)
  {
  }

  lemma {:induction false} SelectGood(quotes: set<char>, q: char, items: seq<Item>, from: seq<string>, alias: string)
    requires q in quotes && '"' in quotes && PrintableStatement(Select(items, from, alias))
    ensures var ps := StatementPieces(q, Select(items, from, alias)); Proper(quotes, ps) && Apart(ps)
  {
    hide Joined, Proper, Apart, FooterPieces, PrintableProjection, GoodItems;
    OpeningsGood(quotes);
    FooterGood(quotes, q, from, alias);
    ItemsGood(quotes, q, items);
    JoinedGood(quotes, LineGap, ItemPiecesEach(q, items));
    var body := Joined(LineGap, ItemPiecesEach(q, items));
    GoodAppend(quotes, SelectOpening, body);
    GoodAppend(quotes, SelectOpening + body, FooterPieces(q, from, alias));
  }

  lemma {:induction false} InsertGood(
    quotes: set<char>, q: char, into: seq<string>, columns: seq<string>, values: seq<Sql>, from: seq<string>,
    alias: string)
    requires q in quotes && PrintableStatement(InsertSelect(into, columns, values, from, alias))
    ensures var ps := StatementPieces(q, InsertSelect(into, columns, values, from, alias));
            Proper(quotes, ps) && Apart(ps)
  {
    hide Joined, Proper, Apart, FooterPieces, AllPrintable, GoodItems;
    OpeningsGood(quotes);
    FooterGood(quotes, q, from, alias);
    QuotedEachGood(quotes, q, columns);
    JoinedGood(quotes, LineGap, QuotedEach(q, columns));
    PiecesEachGood(quotes, q, values);
    JoinedGood(quotes, LineGap, PiecesEach(q, values));
    RelationGood(quotes, q, into);
    var names, body := Joined(LineGap, QuotedEach(q, columns)), Joined(LineGap, PiecesEach(q, values));
    var top := InsertOpening + RelationPieces(q, into);
    GoodAppend(quotes, InsertOpening, RelationPieces(q, into));
    GoodAppend(quotes, top, ColumnsOpening);
    GoodAppend(quotes, top + ColumnsOpening, names);
    GoodAppend(quotes, top + ColumnsOpening + names, ValuesOpening);
    GoodAppend(quotes, top + ColumnsOpening + names + ValuesOpening, body);
    GoodAppend(quotes, top + ColumnsOpening + names + ValuesOpening + body, FooterPieces(q, from, alias));
  }

  lemma {:induction false} RelationGood(quotes: set<char>, q: char, names: seq<string>)
    requires q in quotes && names != []
    ensures var ps := RelationPieces(q, names); ps != [] && Proper(quotes, ps) && Apart(ps)
  {
    hide Joined;
    QuotedEachGood(quotes, q, names);
    JoinedGood(quotes, [Mark('.')], QuotedEach(q, names));
  }

  /** The text of a statement reads back as exactly that statement. */
  lemma {:induction false} ReadPrinted(quotes: set<char>, q: char, s: Statement)
    requires ProperQuotes(quotes) && q in quotes && (s.Select? ==> '"' in quotes) && PrintableStatement(s)
    ensures Read(quotes, TextOf(StatementPieces(q, s))) == Some(s)
  {
    hide Lex, ParseStatement, PrintableStatement, StatementPieces, StatementTokens, Proper, Apart, ProperQuotes;
    match s {
      case Select(items, from, alias) =>
        SelectGood(quotes, q, items, from, alias);
        ParseSelectBack(items, from, alias);
      case InsertSelect(into, columns, values, from, alias) =>
        InsertGood(quotes, q, into, columns, values, from, alias);
        ParseInsertBack(into, columns, values, from, alias);
    }
    LexPrinted(quotes, StatementPieces(q, s), q);
    StatementPiecesTokens(q, s);
  }
}
