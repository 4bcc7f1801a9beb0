/**
 * The ordered, bounded key query: how its text is built and what a reader of the text finds in it.
 */
module KeyBatchSql {
  import opened Common
  import opened Digits
  import opened SqlText
  import opened SqlTree
  import opened SqlStatement
  import opened SqlMeaning
  import opened Transformation
  import T = TransformationCompiler
  import G = SqlGuard
  import A = GeneratedSqlAccepted

  datatype BatchQuery = BatchQuery(
    relation: seq<string>, keys: seq<string>, aliases: seq<string>, limit: nat, offset: nat)

  function KeyAlias(index: nat): string {
    "key_" + Padded(index)
  }

  function KeyAliases(n: nat): (r: seq<string>)
    ensures |r| == n && forall i :: 0 <= i < n ==> r[i] == KeyAlias(i)
  {
    seq(n, i requires 0 <= i < n => KeyAlias(i))
  }

  /** Result columns never share a name. */
  lemma {:induction false} KeyAliasesDistinct(n: nat)
    ensures Distinct(KeyAliases(n))
  {
    hide Padded;
    forall i, j | 0 <= i < j < n ensures KeyAlias(i) != KeyAlias(j) {
      if KeyAlias(i) == KeyAlias(j) {
        assert KeyAlias(i)[4..] == Padded(i) && KeyAlias(j)[4..] == Padded(j);
        PaddedValue(i);
        PaddedValue(j);
      }
    }
  }

  predicate WellShaped(q: BatchQuery) {
    q.relation != [] && q.keys != [] && |q.keys| == |q.aliases|
  }

  // ---------------------------------------------------------------- printing

  function AliasedPieces(c: char, keys: seq<string>, aliases: seq<string>): (r: seq<seq<Piece>>)
    requires |keys| == |aliases|
    ensures |r| == |keys|
    ensures forall i :: 0 <= i < |r| ==>
              r[i] == [Quoted(c, keys[i]), Blank(" "), Plain("AS"), Blank(" "), Quoted(c, aliases[i])]
  {
    seq(|keys|, i requires 0 <= i < |keys| =>
      [Quoted(c, keys[i]), Blank(" "), Plain("AS"), Blank(" "), Quoted(c, aliases[i])])
  }

  function AscendingPieces(c: char, keys: seq<string>): (r: seq<seq<Piece>>)
    ensures |r| == |keys|
    ensures forall i :: 0 <= i < |r| ==> r[i] == [Quoted(c, keys[i]), Blank(" "), Plain("ASC")]
  {
    seq(|keys|, i requires 0 <= i < |keys| => [Quoted(c, keys[i]), Blank(" "), Plain("ASC")])
  }

  const Opening := [Plain("SELECT"), Blank(" ")]
  const FromPieces := [Blank(" "), Plain("FROM"), Blank(" ")]
  const OrderPieces := [Blank(" "), Plain("ORDER"), Blank(" "), Plain("BY"), Blank(" ")]

  function WindowPieces(limit: nat, offset: nat): seq<Piece> {
    [Blank(" "), Plain("LIMIT"), Blank(" "), Plain(Numeral(limit)), Blank(" "), Plain("OFFSET"), Blank(" "),
     Plain(Numeral(offset))]
  }

  function BatchPieces(c: char, q: BatchQuery): seq<Piece>
    requires |q.keys| == |q.aliases|
  {
    Opening + Joined(CommaGap, AliasedPieces(c, q.keys, q.aliases)) + FromPieces + RelationPieces(c, q.relation)
    + OrderPieces + Joined(CommaGap, AscendingPieces(c, q.keys)) + WindowPieces(q.limit, q.offset)
  }

  // ---------------------------------------------------------------- tokens

  function AliasedTokens(keys: seq<string>, aliases: seq<string>): seq<Token>
    requires |keys| == |aliases|
  {
    if keys == [] then []
    else
      var first := [Name(keys[0]), Word("AS"), Name(aliases[0])];
      if |keys| == 1 then first else first + [Sym(',')] + AliasedTokens(keys[1..], aliases[1..])
  }

  function AscendingTokens(keys: seq<string>): seq<Token> {
    if keys == [] then []
    else
      var first := [Name(keys[0]), Word("ASC")];
      if |keys| == 1 then first else first + [Sym(',')] + AscendingTokens(keys[1..])
  }

  function WindowTokens(limit: nat, offset: nat): seq<Token> {
    [Word("LIMIT"), Word(Numeral(limit)), Word("OFFSET"), Word(Numeral(offset))]
  }

  function BatchTokens(q: BatchQuery): seq<Token>
    requires |q.keys| == |q.aliases|
  {
    [Word("SELECT")] + AliasedTokens(q.keys, q.aliases) + [Word("FROM")] + NameTokens(q.relation, '.')
    + [Word("ORDER"), Word("BY")] + AscendingTokens(q.keys) + WindowTokens(q.limit, q.offset)
  }

  lemma {:induction false} AliasedOne(c: char, key: string, alias: string)
    ensures Tokens([Quoted(c, key), Blank(" "), Plain("AS"), Blank(" "), Quoted(c, alias)])
            == [Name(key), Word("AS"), Name(alias)]
  {
    hide Tokens;
    var a, b := [Quoted(c, key), Blank(" "), Plain("AS")], [Blank(" "), Quoted(c, alias)];
    TokensOfThree(a[0], a[1], a[2]);
    TokensOfThree(b[0], b[1], b[1]);
    TokensAppend(a, b);
    assert a + b == [Quoted(c, key), Blank(" "), Plain("AS"), Blank(" "), Quoted(c, alias)];
  }

  lemma {:induction false} AliasedJoined(c: char, keys: seq<string>, aliases: seq<string>)
    requires |keys| == |aliases|
    ensures Tokens(Joined(CommaGap, AliasedPieces(c, keys, aliases))) == AliasedTokens(keys, aliases)
  {
    hide Tokens;
    var items := AliasedPieces(c, keys, aliases);
    if keys == [] {
      NoTokens();
    } else {
      AliasedOne(c, keys[0], aliases[0]);
      if |keys| > 1 {
        AliasedJoined(c, keys[1..], aliases[1..]);
        assert items[1..] == AliasedPieces(c, keys[1..], aliases[1..]);
        CommaGapTokens();
        TokensAppend(items[0] + CommaGap, Joined(CommaGap, items[1..]));
        TokensAppend(items[0], CommaGap);
      }
    }
  }

  lemma {:induction false} AscendingJoined(c: char, keys: seq<string>)
    ensures Tokens(Joined(CommaGap, AscendingPieces(c, keys))) == AscendingTokens(keys)
  {
    hide Tokens;
    var items := AscendingPieces(c, keys);
    if keys == [] {
      NoTokens();
    } else {
      TokensOfThree(Quoted(c, keys[0]), Blank(" "), Plain("ASC"));
      if |keys| > 1 {
        AscendingJoined(c, keys[1..]);
        assert items[1..] == AscendingPieces(c, keys[1..]);
        CommaGapTokens();
        TokensAppend(items[0] + CommaGap, Joined(CommaGap, items[1..]));
        TokensAppend(items[0], CommaGap);
      }
    }
  }

  lemma {:induction false} FixedTokens(limit: nat, offset: nat)
    ensures Tokens(Opening) == [Word("SELECT")] && Tokens(FromPieces) == [Word("FROM")]
    ensures Tokens(OrderPieces) == [Word("ORDER"), Word("BY")]
    ensures Tokens(WindowPieces(limit, offset)) == WindowTokens(limit, offset)
  {
    hide Tokens, Numeral;
    TokensOfThree(Plain("SELECT"), Blank(" "), Blank(" "));
    TokensOfThree(Blank(" "), Plain("FROM"), Blank(" "));
    OrderTokens();
    var a, b := [Blank(" "), Plain("LIMIT"), Blank(" ")], [Plain(Numeral(limit)), Blank(" "), Plain("OFFSET")];
    var d := [Blank(" "), Plain(Numeral(offset))];
    TokensOfThree(a[0], a[1], a[2]);
    TokensOfThree(b[0], b[1], b[2]);
    TokensOfThree(d[0], d[1], d[1]);
    TokensAppend(a + b, d);
    TokensAppend(a, b);
    assert a + b + d == WindowPieces(limit, offset);
  }

  lemma {:induction false} OrderTokens()
    ensures Tokens(OrderPieces) == [Word("ORDER"), Word("BY")]
  {
    hide Tokens;
    var a, b := [Blank(" "), Plain("ORDER"), Blank(" ")], [Plain("BY"), Blank(" ")];
    TokensOfThree(a[0], a[1], a[2]);
    TokensOfThree(b[0], b[1], b[1]);
    TokensAppend(a, b);
    assert a + b == OrderPieces;
  }

  lemma {:induction false} BatchPiecesTokens(c: char, q: BatchQuery)
    requires |q.keys| == |q.aliases|
    ensures Tokens(BatchPieces(c, q)) == BatchTokens(q)
  {
    hide Tokens, Joined, AliasedTokens, AscendingTokens, NameTokens, WindowTokens, WindowPieces, RelationPieces;
    FixedTokens(q.limit, q.offset);
    AliasedJoined(c, q.keys, q.aliases);
    AscendingJoined(c, q.keys);
    RelationTokens(c, q.relation);
    var items, order := Joined(CommaGap, AliasedPieces(c, q.keys, q.aliases)), Joined(CommaGap, AscendingPieces(c, q.keys));
    var front := Opening + items + FromPieces + RelationPieces(c, q.relation) + OrderPieces;
    TokensOfFive(Opening, items, FromPieces, RelationPieces(c, q.relation), OrderPieces);
    TokensAppend(front + order, WindowPieces(q.limit, q.offset));
    TokensAppend(front, order);
  }

  // ---------------------------------------------------------------- reading

  function ParseAliased(ts: seq<Token>): (r: Option<(seq<string>, seq<string>, seq<Token>)>)
    ensures r.Some? ==> |r.value.2| < |ts|
    decreases |ts|
  {
    if |ts| < 3 || !ts[0].Name? || ts[1] != Word("AS") || !ts[2].Name? then None
    else if |ts| > 3 && ts[3] == Sym(',') then
      var (keys, aliases, rest) :- ParseAliased(ts[4..]);
      Some(([ts[0].name] + keys, [ts[2].name] + aliases, rest))
    else Some(([ts[0].name], [ts[2].name], ts[3..]))
  }

  function ParseAscending(ts: seq<Token>): (r: Option<(seq<string>, seq<Token>)>)
    ensures r.Some? ==> |r.value.1| < |ts|
    decreases |ts|
  {
    if |ts| < 2 || !ts[0].Name? || ts[1] != Word("ASC") then None
    else if |ts| > 2 && ts[2] == Sym(',') then
      var (keys, rest) :- ParseAscending(ts[3..]);
      Some(([ts[0].name] + keys, rest))
    else Some(([ts[0].name], ts[2..]))
  }

  function ParseWindow(ts: seq<Token>): Option<(nat, nat)> {
    if |ts| == 4 && ts[0] == Word("LIMIT") && ts[1].Word? && AllDigits(ts[1].text)
       && ts[2] == Word("OFFSET") && ts[3].Word? && AllDigits(ts[3].text)
    then Some((ValueOf(ts[1].text), ValueOf(ts[3].text)))
    else None
  }

  /** Rows are ordered by the columns that are read. */
  function ParseBatch(ts: seq<Token>): Option<BatchQuery> {
    var ts1 :- Expect(ts, Word("SELECT"));
    var (keys, aliases, ts2) :- ParseAliased(ts1);
    var ts3 :- Expect(ts2, Word("FROM"));
    var (relation, ts4) :- ParseNames(ts3, '.');
    var ts5 :- ExpectAll(ts4, [Word("ORDER"), Word("BY")]);
    var (order, ts6) :- ParseAscending(ts5);
    var (limit, offset) :- ParseWindow(ts6);
    if order == keys then Some(BatchQuery(relation, keys, aliases, limit, offset)) else None
  }

  function ReadBatch(d: Dialect, text: string): Option<BatchQuery> {
    var ts :- Lex(QuotesOf(d), text);
    ParseBatch(ts)
  }

  lemma {:induction false} ParseAliasedOne(key: string, alias: string, rest: seq<Token>)
    requires rest == [] || rest[0] != Sym(',')
    ensures ParseAliased([Name(key), Word("AS"), Name(alias)] + rest) == Some(([key], [alias], rest))
  {
    var ts := [Name(key), Word("AS"), Name(alias)] + rest;
    assert ts[3..] == rest;
    assert |ts| > 3 ==> ts[3] == rest[0];
  }

  lemma {:induction false} ParseAliasedMore(
    key: string, alias: string, more: seq<Token>, keys: seq<string>, aliases: seq<string>, rest: seq<Token>)
    requires ParseAliased(more) == Some((keys, aliases, rest))
    ensures ParseAliased([Name(key), Word("AS"), Name(alias), Sym(',')] + more)
            == Some(([key] + keys, [alias] + aliases, rest))
  {
    var ts := [Name(key), Word("AS"), Name(alias), Sym(',')] + more;
    assert ts[4..] == more && ts[3] == Sym(',');
  }

  lemma {:induction false} AliasedSplit(keys: seq<string>, aliases: seq<string>, rest: seq<Token>)
    requires |keys| > 1 && |keys| == |aliases|
    ensures AliasedTokens(keys, aliases) + rest
            == [Name(keys[0]), Word("AS"), Name(aliases[0]), Sym(',')] + (AliasedTokens(keys[1..], aliases[1..]) + rest)
    ensures keys == [keys[0]] + keys[1..] && aliases == [aliases[0]] + aliases[1..]
  {
  }

  lemma {:induction false} ParseAliasedBack(keys: seq<string>, aliases: seq<string>, rest: seq<Token>)
    requires keys != [] && |keys| == |aliases| && (rest == [] || rest[0] != Sym(','))
    ensures ParseAliased(AliasedTokens(keys, aliases) + rest) == Some((keys, aliases, rest))
  {
    if |keys| == 1 {
      ParseAliasedOne(keys[0], aliases[0], rest);
      assert keys == [keys[0]] && aliases == [aliases[0]];
    } else {
      hide AliasedTokens, ParseAliased;
      ParseAliasedBack(keys[1..], aliases[1..], rest);
      AliasedSplit(keys, aliases, rest);
      ParseAliasedMore(keys[0], aliases[0], AliasedTokens(keys[1..], aliases[1..]) + rest, keys[1..], aliases[1..], rest);
    }
  }

  lemma {:induction false} ParseAscendingOne(key: string, rest: seq<Token>)
    requires rest == [] || rest[0] != Sym(',')
    ensures ParseAscending([Name(key), Word("ASC")] + rest) == Some(([key], rest))
  {
    var ts := [Name(key), Word("ASC")] + rest;
    assert ts[2..] == rest;
    assert |ts| > 2 ==> ts[2] == rest[0];
  }

  lemma {:induction false} ParseAscendingMore(key: string, more: seq<Token>, keys: seq<string>, rest: seq<Token>)
    requires ParseAscending(more) == Some((keys, rest))
    ensures ParseAscending([Name(key), Word("ASC"), Sym(',')] + more) == Some(([key] + keys, rest))
  {
    var ts := [Name(key), Word("ASC"), Sym(',')] + more;
    assert ts[3..] == more && ts[2] == Sym(',');
  }

  lemma {:induction false} AscendingSplit(keys: seq<string>, rest: seq<Token>)
    requires |keys| > 1
    ensures AscendingTokens(keys) + rest
            == [Name(keys[0]), Word("ASC"), Sym(',')] + (AscendingTokens(keys[1..]) + rest)
    ensures keys == [keys[0]] + keys[1..]
  {
  }

  lemma {:induction false} ParseAscendingBack(keys: seq<string>, rest: seq<Token>)
    requires keys != [] && (rest == [] || rest[0] != Sym(','))
    ensures ParseAscending(AscendingTokens(keys) + rest) == Some((keys, rest))
  {
    if |keys| == 1 {
      ParseAscendingOne(keys[0], rest);
      assert keys == [keys[0]];
    } else {
      hide AscendingTokens, ParseAscending;
      ParseAscendingBack(keys[1..], rest);
      AscendingSplit(keys, rest);
      ParseAscendingMore(keys[0], AscendingTokens(keys[1..]) + rest, keys[1..], rest);
    }
  }

  lemma {:induction false} ParseBatchBack(q: BatchQuery)
    requires WellShaped(q)
    ensures ParseBatch(BatchTokens(q)) == Some(q)
  {
    hide AliasedTokens, AscendingTokens, NameTokens, ParseAliased, ParseAscending, ParseNames, ValueOf, Numeral;
    NumeralValue(q.limit);
    NumeralValue(q.offset);
    var ts6 := WindowTokens(q.limit, q.offset);
    var ts5 := AscendingTokens(q.keys) + ts6;
    var ts4 := [Word("ORDER"), Word("BY")] + ts5;
    var ts3 := NameTokens(q.relation, '.') + ts4;
    var ts2 := [Word("FROM")] + ts3;
    var ts1 := AliasedTokens(q.keys, q.aliases) + ts2;
    assert BatchTokens(q) == [Word("SELECT")] + ts1;
    assert ts4[2..] == ts5 && ts2[1..] == ts3 && BatchTokens(q)[1..] == ts1;
    ParseAliasedBack(q.keys, q.aliases, ts2);
    ParseNamesBack(q.relation, '.', ts4);
    ParseAscendingBack(q.keys, ts6);
  }

  // ---------------------------------------------------------------- shape

  lemma {:induction false} NumeralWord(n: nat)
    ensures IsWord(Numeral(n))
  {
  }

  lemma {:induction false} FixedGood(quotes: set<char>, limit: nat, offset: nat)
    ensures Proper(quotes, Opening) && Apart(Opening)
    ensures Proper(quotes, FromPieces) && Apart(FromPieces)
    ensures Proper(quotes, OrderPieces) && Apart(OrderPieces)
    ensures Proper(quotes, WindowPieces(limit, offset)) && Apart(WindowPieces(limit, offset))
    ensures Proper(quotes, CommaGap) && Apart(CommaGap)
  {
    NumeralWord(limit);
    NumeralWord(offset);
    WindowGood(quotes, limit, offset);
  }

  lemma {:induction false} WindowGood(quotes: set<char>, limit: nat, offset: nat)
    requires IsWord(Numeral(limit)) && IsWord(Numeral(offset))
    ensures Proper(quotes, WindowPieces(limit, offset)) && Apart(WindowPieces(limit, offset))
  {
    hide Numeral;
    var a := [Blank(" "), Plain("LIMIT"), Blank(" "), Plain(Numeral(limit))];
    var b := [Blank(" "), Plain("OFFSET"), Blank(" "), Plain(Numeral(offset))];
    ApartAppend(a, b);
    assert a + b == WindowPieces(limit, offset);
  }

  lemma {:induction false} ItemsGood2(quotes: set<char>, c: char, keys: seq<string>, aliases: seq<string>)
    requires c in quotes && |keys| == |aliases|
    ensures GoodItems(quotes, AliasedPieces(c, keys, aliases)) && GoodItems(quotes, AscendingPieces(c, keys))
  {
  }

  lemma {:induction false} BatchGood(quotes: set<char>, c: char, q: BatchQuery)
    requires c in quotes && WellShaped(q)
    ensures Proper(quotes, BatchPieces(c, q)) && Apart(BatchPieces(c, q))
  {
    hide Joined, Proper, Apart, WindowPieces, GoodItems, RelationPieces;
    FixedGood(quotes, q.limit, q.offset);
    ItemsGood2(quotes, c, q.keys, q.aliases);
    RelationGood(quotes, c, q.relation);
    JoinedGood(quotes, CommaGap, AliasedPieces(c, q.keys, q.aliases));
    JoinedGood(quotes, CommaGap, AscendingPieces(c, q.keys));
    var items, order := Joined(CommaGap, AliasedPieces(c, q.keys, q.aliases)), Joined(CommaGap, AscendingPieces(c, q.keys));
    var relation := RelationPieces(c, q.relation);
    GoodAppend(quotes, Opening, items);
    GoodAppend(quotes, Opening + items, FromPieces);
    GoodAppend(quotes, Opening + items + FromPieces, relation);
    GoodAppend(quotes, Opening + items + FromPieces + relation, OrderPieces);
    GoodAppend(quotes, Opening + items + FromPieces + relation + OrderPieces, order);
    WindowStarts(q.limit, q.offset);
    GoodAppend(quotes, Opening + items + FromPieces + relation + OrderPieces + order, WindowPieces(q.limit, q.offset));
  }

  lemma {:induction false} WindowStarts(limit: nat, offset: nat)
    ensures WindowPieces(limit, offset) != [] && WindowPieces(limit, offset)[0].Blank?
  {
  }

  /** The text of a key query reads back as the query. */
  lemma {:induction false} BatchReads(d: Dialect, q: BatchQuery)
    requires WellShaped(q)
    ensures ReadBatch(d, TextOf(BatchPieces(QuoteOf(d), q))) == Some(q)
  {
    hide Lex, ParseBatch, BatchPieces, BatchTokens, Proper, Apart, ProperQuotes;
    BatchGood(QuotesOf(d), QuoteOf(d), q);
    ProperQuotesOf(d);
    LexPrinted(QuotesOf(d), BatchPieces(QuoteOf(d), q), QuoteOf(d));
    BatchPiecesTokens(QuoteOf(d), q);
    ParseBatchBack(q);
  }

  lemma {:induction false} ProperQuotesOf(d: Dialect)
    ensures ProperQuotes(QuotesOf(d))
  {
  }

  // ---------------------------------------------------------------- the guard

  lemma {:induction false} BatchQuotedWith(c: char, q: BatchQuery)
    requires |q.keys| == |q.aliases|
    ensures G.QuotedWith(BatchPieces(c, q), c)
  {
    hide Joined;
    A.JoinedQuotedWith(CommaGap, AliasedPieces(c, q.keys, q.aliases), c);
    A.JoinedQuotedWith(CommaGap, AscendingPieces(c, q.keys), c);
    A.NamesQuotedWith(c, q.relation);
    A.JoinedQuotedWith([Mark('.')], QuotedEach(c, q.relation), c);
  }

  lemma {:induction false} BatchTrimmed(c: char, q: BatchQuery)
    requires |q.keys| == |q.aliases|
    ensures G.Trimmed(TextOf(BatchPieces(c, q)))
  {
    hide Joined, Numeral;
    var ps := BatchPieces(c, q);
    var front := ps[..|ps| - 1];
    assert ps[|ps| - 1] == Plain(Numeral(q.offset)) && ps[0] == Plain("SELECT");
    assert ps == front + [Plain(Numeral(q.offset))] && front[0] == Plain("SELECT");
    TextAppend(front, [Plain(Numeral(q.offset))]);
    LastDigit(q.offset);
  }

  lemma {:induction false} LastDigit(n: nat)
    ensures var s := TextOf([Plain(Numeral(n))]); s != [] && IsDigit(s[|s| - 1])
  {
    assert TextOf([Plain(Numeral(n))]) == Numeral(n);
  }

  /** Every key query passes the guard. */
  lemma {:induction false} BatchAccepted(d: Dialect, q: BatchQuery)
    requires WellShaped(q)
    ensures G.Verdicts(TextOf(BatchPieces(QuoteOf(d), q)), d == MySql) == G.Accepted
  {
    hide BatchPieces, Proper, Apart, TextOf, G.Verdicts, G.Trimmed, G.QuotedWith;
    BatchGood(QuotesOf(d), QuoteOf(d), q);
    BatchQuotedWith(QuoteOf(d), q);
    BatchTrimmed(QuoteOf(d), q);
    G.PiecesAccepted(QuotesOf(d), BatchPieces(QuoteOf(d), q), QuoteOf(d), d == MySql);
  }

  // ---------------------------------------------------------------- compiling

  datatype BatchError = InvalidRequest | InvalidName

  function Aliased(p: Profile, keys: seq<string>, aliases: seq<string>): (r: seq<string>)
    requires |keys| == |aliases|
    ensures |r| == |keys|
  {
    var texts, named := T.QuotedTexts(p, keys), T.QuotedTexts(p, aliases);
    seq(|keys|, i requires 0 <= i < |keys| => texts[i] + " AS " + named[i])
  }

  function Ascending(p: Profile, keys: seq<string>): (r: seq<string>)
    ensures |r| == |keys|
  {
    var texts := T.QuotedTexts(p, keys);
    seq(|keys|, i requires 0 <= i < |keys| => texts[i] + " ASC")
  }

  /** The number of names in a relation of a dialect. */
  function RelationParts(d: Dialect): nat {
    if d == Snowflake then 3 else 2
  }

  /** The query a request stands for. */
  function RequestQuery(relation: seq<string>, keys: seq<string>, offset: nat, limit: nat): BatchQuery {
    BatchQuery(relation, keys, KeyAliases(|keys|), limit, offset)
  }

  predicate ValidRequest(d: Dialect, relation: seq<string>, keys: seq<string>, offset: int, limit: int) {
    relation != [] && keys != [] && offset >= 0 && limit > 0 && |relation| == RelationParts(d)
  }

  lemma {:induction false} AliasedTexts(p: Profile, keys: seq<string>, aliases: seq<string>)
    requires |keys| == |aliases|
    ensures TextsOf(AliasedPieces(QuoteOf(p.dialect), keys, aliases)) == Aliased(p, keys, aliases)
    ensures TextsOf(AscendingPieces(QuoteOf(p.dialect), keys)) == Ascending(p, keys)
  {
    hide TextOf, PieceText;
    var c := QuoteOf(p.dialect);
    var left, right := TextsOf(AliasedPieces(c, keys, aliases)), Aliased(p, keys, aliases);
    forall i | 0 <= i < |keys| ensures left[i] == right[i] { AliasedText(c, keys[i], aliases[i]); }
    var l, r := TextsOf(AscendingPieces(c, keys)), Ascending(p, keys);
    forall i | 0 <= i < |keys| ensures l[i] == r[i] { AscendingText(c, keys[i]); }
  }

  lemma {:induction false} AliasedText(c: char, key: string, alias: string)
    ensures TextOf([Quoted(c, key), Blank(" "), Plain("AS"), Blank(" "), Quoted(c, alias)])
            == PieceText(Quoted(c, key)) + " AS " + PieceText(Quoted(c, alias))
  {
    hide TextOf, Doubled;
    var a, b := [Quoted(c, key), Blank(" "), Plain("AS")], [Blank(" "), Quoted(c, alias)];
    T.ThreeTexts(a[0], a[1], a[2]);
    T.TwoTexts(b[0], b[1]);
    TextAppend(a, b);
    assert a + b == [Quoted(c, key), Blank(" "), Plain("AS"), Blank(" "), Quoted(c, alias)];
  }

  lemma {:induction false} AscendingText(c: char, key: string)
    ensures TextOf([Quoted(c, key), Blank(" "), Plain("ASC")]) == PieceText(Quoted(c, key)) + " ASC"
  {
    hide TextOf, Doubled;
    T.ThreeTexts(Quoted(c, key), Blank(" "), Plain("ASC"));
  }

  function BatchText(items: string, relation: string, order: string, limit: string, offset: string): string {
    "SELECT " + items + " FROM " + relation + " ORDER BY " + order + " LIMIT " + limit + " OFFSET " + offset
  }

  lemma {:induction false} FixedTexts(limit: nat, offset: nat)
    ensures TextOf(Opening) == "SELECT " && TextOf(FromPieces) == " FROM " && TextOf(OrderPieces) == " ORDER BY "
    ensures TextOf(WindowPieces(limit, offset)) == " LIMIT " + Numeral(limit) + " OFFSET " + Numeral(offset)
  {
    hide TextOf, Numeral;
    T.TwoTexts(Plain("SELECT"), Blank(" "));
    T.ThreeTexts(Blank(" "), Plain("FROM"), Blank(" "));
    OrderText();
    var a, b := [Blank(" "), Plain("LIMIT"), Blank(" ")], [Plain(Numeral(limit)), Blank(" "), Plain("OFFSET")];
    var d := [Blank(" "), Plain(Numeral(offset))];
    T.ThreeTexts(a[0], a[1], a[2]);
    T.ThreeTexts(b[0], b[1], b[2]);
    T.TwoTexts(d[0], d[1]);
    TextAppend(a + b, d);
    TextAppend(a, b);
    assert a + b + d == WindowPieces(limit, offset);
  }

  lemma {:induction false} OrderText()
    ensures TextOf(OrderPieces) == " ORDER BY "
  {
    hide TextOf;
    var a, b := [Blank(" "), Plain("ORDER"), Blank(" ")], [Plain("BY"), Blank(" ")];
    T.ThreeTexts(a[0], a[1], a[2]);
    T.TwoTexts(b[0], b[1]);
    TextAppend(a, b);
    assert a + b == OrderPieces;
  }

  lemma {:induction false} BatchPiecesText(p: Profile, q: BatchQuery)
    requires |q.keys| == |q.aliases|
    ensures TextOf(BatchPieces(QuoteOf(p.dialect), q))
            == BatchText(JoinText(", ", Aliased(p, q.keys, q.aliases)), T.RelationText(p, q.relation),
                         JoinText(", ", Ascending(p, q.keys)), Numeral(q.limit), Numeral(q.offset))
  {
    hide TextOf, Joined, WindowPieces, Aliased, Ascending, T.RelationText, RelationPieces, Numeral, TextsOf, JoinText;
    var c := QuoteOf(p.dialect);
    var items, order := Joined(CommaGap, AliasedPieces(c, q.keys, q.aliases)), Joined(CommaGap, AscendingPieces(c, q.keys));
    var front := Opening + items + FromPieces + RelationPieces(c, q.relation) + OrderPieces;
    TextAppend(front + order, WindowPieces(q.limit, q.offset));
    TextAppend(front, order);
    TextAppend(Opening + items + FromPieces + RelationPieces(c, q.relation), OrderPieces);
    TextAppend(Opening + items + FromPieces, RelationPieces(c, q.relation));
    TextAppend(Opening + items, FromPieces);
    TextAppend(Opening, items);
    FixedTexts(q.limit, q.offset);
    T.RelationPiecesText(p, q.relation);
    CommaText();
    JoinedText(CommaGap, AliasedPieces(c, q.keys, q.aliases));
    JoinedText(CommaGap, AscendingPieces(c, q.keys));
    AliasedTexts(p, q.keys, q.aliases);
  }

  lemma {:induction false} CommaText()
    ensures TextOf(CommaGap) == ", "
  {
    hide TextOf;
    T.TwoTexts(Mark(','), Blank(" "));
  }

  lemma {:induction false} AliasesFit(p: Profile, n: nat)
    requires p.purpose == Validating
    ensures AllFit(p, KeyAliases(n))
  {
    forall i | 0 <= i < n ensures Fits(p, KeyAliases(n)[i]) { AliasFits(p, i); }
  }

  lemma {:induction false} AliasFits(p: Profile, i: nat)
    requires p.purpose == Validating
    ensures Fits(p, KeyAlias(i))
  {
    hide Padded;
    var s := KeyAlias(i);
    assert s == "key_" + Padded(i);
    forall k | 0 <= k < |s| ensures s[k] != '\0' {
      if k >= 4 { assert s[k] == Padded(i)[k - 4] && IsDigit(Padded(i)[k - 4]); }
    }
  }

  /** The text a reader reads back as exactly the requested window over the requested keys. */
  method CompileBatch(d: Dialect, relation: seq<string>, keys: seq<string>, offset: int, limit: int)
    returns (r: Result<string, BatchError>)
    ensures r.Ok? <==> ValidRequest(d, relation, keys, offset, limit)
                       && AllFit(Profile(d, Validating), relation) && AllFit(Profile(d, Validating), keys)
    ensures r.Ok? ==>
              && ReadBatch(d, r.value) == Some(BatchQuery(relation, keys, KeyAliases(|keys|), limit, offset))
              && keys != [] && limit > 0 && |relation| == (if d == Snowflake then 3 else 2)
    ensures r.Ok? ==> G.Verdicts(r.value, d == MySql) == G.Accepted
    ensures r == Err(InvalidRequest) <==>
              keys == [] || offset < 0 || limit <= 0 || |relation| != (if d == Snowflake then 3 else 2)
  {
    hide AllFit, Fits, BatchPieces, TextOf, ReadBatch, G.Verdicts, T.QuotedTexts, BatchText, T.RelationText, JoinText;
    if relation == [] || keys == [] || offset < 0 || limit <= 0 { return Err(InvalidRequest); }
    if |relation| != RelationParts(d) { return Err(InvalidRequest); }
    var p := Profile(d, Validating);
    var aliases := KeyAliases(|keys|);
    var parts := T.QuoteAll(p, relation);
    if parts.Err? { return Err(InvalidName); }
    var quoted := T.QuoteAll(p, keys);
    if quoted.Err? { return Err(InvalidName); }
    AliasesFit(p, |keys|);
    var named := T.QuoteAll(p, aliases);
    var items := seq(|keys|, i requires 0 <= i < |keys| => quoted.value[i] + " AS " + named.value[i]);
    var order := seq(|keys|, i requires 0 <= i < |keys| => quoted.value[i] + " ASC");
    var q := RequestQuery(relation, keys, offset, limit);
    assert items == Aliased(p, keys, aliases) && order == Ascending(p, keys);
    RelationJoined(p, relation);
    BatchPiecesText(p, q);
    BatchReads(d, q);
    BatchAccepted(d, q);
    r := Ok(BatchText(JoinText(", ", items), JoinText(".", parts.value), JoinText(", ", order), Numeral(limit),
                      Numeral(offset)));
  }

  lemma {:induction false} RelationJoined(p: Profile, names: seq<string>)
    ensures T.RelationText(p, names) == JoinText(".", T.QuotedTexts(p, names))
  {
  }
}
