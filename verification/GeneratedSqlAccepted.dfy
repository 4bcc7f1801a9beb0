/**
 * The guard accepts every statement the compilers generate, with no condition on table, column or
 * alias names.
 */
module GeneratedSqlAccepted {
  import opened Common
  import opened SqlText
  import opened SqlTree
  import opened SqlStatement
  import opened SqlMeaning
  import opened Transformation
  import opened SqlGuard

  // ---------------------------------------------------------------- quotes of the pieces

  lemma {:induction false} QuotedWithAppend(a: seq<Piece>, b: seq<Piece>, q: char)
    requires QuotedWith(a, q) && QuotedWith(b, q)
    ensures QuotedWith(a + b, q)
  {
  }

  predicate EachQuotedWith(items: seq<seq<Piece>>, q: char) {
    forall i :: 0 <= i < |items| ==> QuotedWith(items[i], q)
  }

  lemma {:induction false} JoinedQuotedWith(sep: seq<Piece>, items: seq<seq<Piece>>, q: char)
    requires QuotedWith(sep, q) && EachQuotedWith(items, q)
    ensures QuotedWith(Joined(sep, items), q)
  {
    if |items| > 1 {
      JoinedQuotedWith(sep, items[1..], q);
      QuotedWithAppend(items[0], sep, q);
      QuotedWithAppend(items[0] + sep, Joined(sep, items[1..]), q);
    }
  }

  lemma {:induction false} NamesQuotedWith(q: char, names: seq<string>)
    ensures EachQuotedWith(QuotedEach(q, names), q)
  {
  }

  lemma {:induction false} TreeQuotedWith(q: char, e: Sql)
    ensures QuotedWith(Pieces(q, e), q)
    decreases e
  {
    match e
    case Column(_, _) =>
    case Bound =>
    case CastAs(alias, name, to) => CastQuotedWith(q, alias, name, to);
    case Call(fn, args) =>
      TreesQuotedWith(q, args);
      JoinedQuotedWith(CommaGap, PiecesEach(q, args), q);
  }

  lemma {:induction false} WordsQuotedWith(q: char, ws: seq<string>)
    ensures EachQuotedWith(Words(ws), q)
  {
  }

  lemma {:induction false} CastQuotedWith(q: char, alias: string, name: string, to: SqlType)
    ensures QuotedWith(Pieces(q, CastAs(alias, name, to)), q)
  {
    hide Joined;
    WordsQuotedWith(q, to.words);
    WordsQuotedWith(q, to.args);
    JoinedQuotedWith([Blank(" ")], Words(to.words), q);
    JoinedQuotedWith([Mark(',')], Words(to.args), q);
  }

  lemma {:induction false} TreesQuotedWith(q: char, es: seq<Sql>)
    ensures EachQuotedWith(PiecesEach(q, es), q)
    decreases es
  {
    if es != [] {
      TreeQuotedWith(q, es[0]);
      TreesQuotedWith(q, es[1..]);
    }
  }

  lemma {:induction false} ItemQuotedWith(q: char, item: Item)
    requires item.projection.CountAll? ==> q == '"'
    ensures QuotedWith(ItemPieces(q, item), q)
  {
    hide Pieces;
    if !item.projection.CountAll? { TreeQuotedWith(q, item.projection.e); }
  }

  /** No row count, except where every name is in double quotes anyway. */
  predicate PlainItems(items: seq<Item>, q: char) {
    q == '"' || forall i :: 0 <= i < |items| ==> !items[i].projection.CountAll?
  }

  lemma {:induction false} ItemsQuotedWith(q: char, items: seq<Item>)
    requires PlainItems(items, q)
    ensures QuotedWith(Joined(LineGap, ItemPiecesEach(q, items)), q)
  {
    hide ItemPieces;
    forall i | 0 <= i < |items| ensures QuotedWith(ItemPiecesEach(q, items)[i], q) { ItemQuotedWith(q, items[i]); }
    JoinedQuotedWith(LineGap, ItemPiecesEach(q, items), q);
  }

  lemma {:induction false} FooterQuotedWith(q: char, from: seq<string>, alias: string)
    ensures QuotedWith(FooterPieces(q, from, alias), q)
  {
    hide Joined;
    NamesQuotedWith(q, from);
    JoinedQuotedWith([Mark('.')], QuotedEach(q, from), q);
  }

  lemma {:induction false} SelectQuotedWith(q: char, items: seq<Item>, from: seq<string>, alias: string)
    requires PlainItems(items, q)
    ensures QuotedWith(StatementPieces(q, Select(items, from, alias)), q)
  {
    hide Joined, FooterPieces, ItemPiecesEach, PlainItems;
    ItemsQuotedWith(q, items);
    FooterQuotedWith(q, from, alias);
    QuotedWithAppend(SelectOpening, Joined(LineGap, ItemPiecesEach(q, items)), q);
    QuotedWithAppend(SelectOpening + Joined(LineGap, ItemPiecesEach(q, items)), FooterPieces(q, from, alias), q);
  }

  lemma {:induction false} InsertQuotedWith(q: char, s: Statement)
    requires s.InsertSelect?
    ensures QuotedWith(StatementPieces(q, s), q)
  {
    hide Joined, FooterPieces, QuotedWith;
    NamesQuotedWith(q, s.into);
    NamesQuotedWith(q, s.columns);
    TreesQuotedWith(q, s.values);
    OpeningsQuotedWith(q);
    JoinedQuotedWith([Mark('.')], QuotedEach(q, s.into), q);
    JoinedQuotedWith(LineGap, QuotedEach(q, s.columns), q);
    JoinedQuotedWith(LineGap, PiecesEach(q, s.values), q);
    FooterQuotedWith(q, s.from, s.alias);
    var names, body := Joined(LineGap, QuotedEach(q, s.columns)), Joined(LineGap, PiecesEach(q, s.values));
    var top := InsertOpening + RelationPieces(q, s.into);
    QuotedWithAppend(InsertOpening, RelationPieces(q, s.into), q);
    QuotedWithAppend(top, ColumnsOpening, q);
    QuotedWithAppend(top + ColumnsOpening, names, q);
    QuotedWithAppend(top + ColumnsOpening + names, ValuesOpening, q);
    QuotedWithAppend(top + ColumnsOpening + names + ValuesOpening, body, q);
    QuotedWithAppend(top + ColumnsOpening + names + ValuesOpening + body, FooterPieces(q, s.from, s.alias), q);
  }

  lemma {:induction false} OpeningsQuotedWith(q: char)
    ensures QuotedWith(InsertOpening, q) && QuotedWith(ColumnsOpening, q) && QuotedWith(ValuesOpening, q)
    ensures QuotedWith([Mark('.')], q) && QuotedWith(LineGap, q)
  {
  }

  // ---------------------------------------------------------------- both ends

  lemma {:induction false} TextEnds(ps: seq<Piece>, first: string, q: char, name: string)
    requires ps != [] && ps[0] == Plain(first) && first != [] && ps[|ps| - 1] == Quoted(q, name)
    ensures var s := TextOf(ps); s != [] && s[0] == first[0] && s[|s| - 1] == q
  {
    var front := ps[..|ps| - 1];
    assert ps == front + [Quoted(q, name)];
    TextAppend(front, [Quoted(q, name)]);
    assert TextOf([Quoted(q, name)]) == [q] + Doubled(name, q) + [q];
  }

  lemma {:induction false} StatementTrimmed(q: char, s: Statement)
    requires q == '"' || q == '`'
    ensures Trimmed(TextOf(StatementPieces(q, s)))
  {
    hide Joined, TextOf;
    var ps := StatementPieces(q, s);
    var footer := FooterPieces(q, s.from, s.alias);
    assert footer[|footer| - 1] == Quoted(q, s.alias);
    TextEnds(ps, if s.Select? then "SELECT" else "INSERT", q, s.alias);
  }

  // ---------------------------------------------------------------- statements with one kind of quote

  /** Every generated insert-select is accepted. */
  lemma {:induction false} InsertAccepted(d: Dialect, s: Statement)
    requires s.InsertSelect? && PrintableStatement(s)
    ensures Verdicts(TextOf(StatementPieces(QuoteOf(d), s)), d == MySql) == Accepted
  {
    hide StatementPieces, PrintableStatement, Verdicts, Trimmed, QuotedWith, TextOf, Proper, Apart;
    var q := QuoteOf(d);
    InsertGood(QuotesOf(d), q, s.into, s.columns, s.values, s.from, s.alias);
    InsertQuotedWith(q, s);
    StatementTrimmed(q, s);
    PiecesAccepted(QuotesOf(d), StatementPieces(q, s), q, d == MySql);
  }

  /** Every generated select of plain projections is accepted. */
  lemma {:induction false} SelectAccepted(d: Dialect, s: Statement)
    requires s.Select? && PrintableStatement(s) && PlainItems(s.items, QuoteOf(d))
    ensures Verdicts(TextOf(StatementPieces(QuoteOf(d), s)), d == MySql) == Accepted
  {
    hide StatementPieces, PrintableStatement, Verdicts, Trimmed, QuotedWith, TextOf, Proper, Apart, PlainItems;
    var q := QuoteOf(d);
    SelectGood(QuotesOf(d), q, s.items, s.from, s.alias);
    SelectQuotedWith(q, s.items, s.from, s.alias);
    StatementTrimmed(q, s);
    PiecesAccepted(QuotesOf(d), StatementPieces(q, s), q, d == MySql);
  }

  // ---------------------------------------------------------------- MySQL with a row count

  /** Text without any quote, then one word in double quotes, then text whose names are in backticks. */
  lemma {:induction false} LeadCleans(lead: string, word: string, tail: string)
    requires AllHarmless(lead) && AllHarmless(word)
    requires Balanced(tail, '`', true) && tail != [] && Harmless(tail[0]) && tail[0] != 'N'
    ensures Clean(SubstituteAll(lead + ("\"" + word + "\"") + tail, PATTERNS))
  {
    hide Substitute, Foreign, Balanced, SubstituteAll, AllHarmless, Clean;
    var quoted := "\"" + word + "\"";
    var s := lead + quoted + tail;
    PatternsInOrder(s);
    ForeignPatterns();
    var t1 := Substitute(tail, STRING_PATTERN);
    MaskStrings(lead, word, tail);
    ForeignKeeps(tail, STRING_PATTERN, '`', true);
    FrontKept(tail, STRING_PATTERN);
    var t2 := Substitute(t1, DOUBLE_QUOTE_PATTERN);
    MaskDoubleQuotes(lead, word, t1);
    ForeignKeeps(t1, DOUBLE_QUOTE_PATTERN, '`', true);
    var masked := lead + "''";
    assert lead + "''" + t2 == masked + t2;
    LeadUntouched(lead, t2, BRACKET_PATTERN);
    ForeignKeeps(t2, BRACKET_PATTERN, '`', true);
    var t3 := Substitute(t2, BRACKET_PATTERN);
    LeadUntouched(lead, t3, BACKTICK_PATTERN);
    OwnCleans(t3, '`');
    CleanAppend(lead, Substitute(t3, BACKTICK_PATTERN));
  }

  lemma {:induction false} CleanAppend(lead: string, s: string)
    requires AllHarmless(lead) && Clean(s)
    ensures Clean(lead + "''" + s)
  {
  }

  lemma {:induction false} LeadUntouched(lead: string, s: string, p: Pattern)
    requires AllHarmless(lead) && !Harmless(p.open) && p.open != '\'' && !p.prefixed
    ensures Substitute(lead + "''" + s, p) == lead + "''" + Substitute(s, p)
  {
    Untouched(lead + "''", s, p);
  }

  lemma {:induction false} MaskStrings(lead: string, word: string, tail: string)
    requires AllHarmless(lead) && AllHarmless(word)
    ensures Substitute(lead + ("\"" + word + "\"") + tail, STRING_PATTERN)
            == lead + ("\"" + word + "\"") + Substitute(tail, STRING_PATTERN)
  {
    hide Substitute;
    Untouched(lead + ("\"" + word + "\""), tail, STRING_PATTERN);
  }

  lemma {:induction false} FrontKept(tail: string, p: Pattern)
    requires tail != [] && Harmless(tail[0]) && tail[0] != 'N' && !Harmless(p.open)
    ensures Substitute(tail, p) != [] && Substitute(tail, p)[0] == tail[0]
  {
    assert AfterMatch(tail, p).None?;
  }

  lemma {:induction false} WordClosed(word: string, tail: string)
    requires AllHarmless(word) && (tail == [] || tail[0] != '"')
    ensures AfterClose(word + "\"" + tail, '"') == Some(tail)
  {
    if word == [] {
      assert word + "\"" + tail == "\"" + tail && ("\"" + tail)[1..] == tail;
    } else {
      WordClosed(word[1..], tail);
      var s := word + "\"" + tail;
      assert s[0] == word[0] && s[1..] == word[1..] + "\"" + tail;
    }
  }

  lemma {:induction false} MaskDoubleQuotes(lead: string, word: string, tail: string)
    requires AllHarmless(lead) && AllHarmless(word) && tail != [] && Harmless(tail[0])
    ensures Substitute(lead + ("\"" + word + "\"") + tail, DOUBLE_QUOTE_PATTERN)
            == lead + "''" + Substitute(tail, DOUBLE_QUOTE_PATTERN)
  {
    var p := DOUBLE_QUOTE_PATTERN;
    var rest := "\"" + (word + "\"" + tail);
    assert lead + ("\"" + word + "\"") + tail == lead + rest;
    assert rest[0] == '"' && rest[1..] == word + "\"" + tail;
    WordClosed(word, tail);
    LeadKept(lead, rest);
    assert AfterMatch(rest, p) == Some(tail);
    assert Substitute(rest, p) == "''" + Substitute(tail, p);
  }

  lemma {:induction false} LeadKept(lead: string, rest: string)
    requires AllHarmless(lead)
    ensures Substitute(lead + rest, DOUBLE_QUOTE_PATTERN) == lead + Substitute(rest, DOUBLE_QUOTE_PATTERN)
  {
    hide Substitute;
    Untouched(lead, rest, DOUBLE_QUOTE_PATTERN);
  }

  /** The pieces of a select whose first item is the row count, cut around its name. */
  lemma {:induction false} CountedPieces(q: char, items: seq<Item>, from: seq<string>, alias: string)
    requires items != [] && items[0].projection.CountAll?
    ensures var lead := SelectOpening + [Plain("COUNT"), Mark('('), Mark('*'), Mark(')'), Blank(" "), Plain("AS"), Blank(" ")];
            var tail := (if |items| == 1 then [] else LineGap + Joined(LineGap, ItemPiecesEach(q, items[1..])))
                        + FooterPieces(q, from, alias);
            StatementPieces(q, Select(items, from, alias)) == lead + [Quoted('"', items[0].name)] + tail
  {
    hide FooterPieces, ItemPieces, ItemPiecesEach, Joined;
    var footer, each := FooterPieces(q, from, alias), ItemPiecesEach(q, items);
    var front := [Plain("COUNT"), Mark('('), Mark('*'), Mark(')'), Blank(" "), Plain("AS"), Blank(" ")];
    CountedItem(q, items[0]);
    CountedJoined(q, items);
    var rest := if |items| == 1 then [] else LineGap + Joined(LineGap, ItemPiecesEach(q, items[1..]));
    assert SelectOpening + ((front + [Quoted('"', items[0].name)]) + rest) + footer
        == SelectOpening + front + [Quoted('"', items[0].name)] + (rest + footer);
  }

  lemma {:induction false} CountedItem(q: char, item: Item)
    requires item.projection.CountAll?
    ensures ItemPieces(q, item)
            == [Plain("COUNT"), Mark('('), Mark('*'), Mark(')'), Blank(" "), Plain("AS"), Blank(" ")] + [Quoted('"', item.name)]
  {
  }

  lemma {:induction false} CountedJoined(q: char, items: seq<Item>)
    requires items != []
    ensures Joined(LineGap, ItemPiecesEach(q, items))
            == ItemPieces(q, items[0]) + if |items| == 1 then [] else LineGap + Joined(LineGap, ItemPiecesEach(q, items[1..]))
  {
    hide ItemPieces;
    assert ItemPiecesEach(q, items)[1..] == ItemPiecesEach(q, items[1..]);
  }

  /** A MySQL select that starts with the row count and has no other one. */
  predicate Counted(items: seq<Item>) {
    && items != [] && items[0].projection.CountAll? && IsWord(items[0].name)
    && forall i :: 1 <= i < |items| ==> !items[i].projection.CountAll?
  }

  lemma {:induction false} CountedLead()
    ensures AllHarmless(TextOf(SelectOpening + [Plain("COUNT"), Mark('('), Mark('*'), Mark(')'), Blank(" "), Plain("AS"), Blank(" ")]))
  {
    var a, b := [Plain("COUNT"), Mark('('), Mark('*'), Mark(')')], [Blank(" "), Plain("AS"), Blank(" ")];
    assert SelectOpening + [Plain("COUNT"), Mark('('), Mark('*'), Mark(')'), Blank(" "), Plain("AS"), Blank(" ")]
        == SelectOpening + a + b;
    AllHarmlessPieces(SelectOpening + a + b);
  }

  lemma {:induction false} AllHarmlessPieces(ps: seq<Piece>)
    requires forall i :: 0 <= i < |ps| ==> AllHarmless(PieceText(ps[i]))
    ensures AllHarmless(TextOf(ps))
  {
    hide PieceText, Harmless;
    if ps != [] { AllHarmlessPieces(ps[1..]); }
  }

  lemma {:induction false} CountedTail(q: char, items: seq<Item>, from: seq<string>, alias: string)
    requires q == '`' && from != []
    requires forall i :: 0 <= i < |items| ==> PrintableProjection(items[i].projection) && !items[i].projection.CountAll?
    ensures var tail := (if items == [] then [] else LineGap + Joined(LineGap, ItemPiecesEach(q, items)))
                        + FooterPieces(q, from, alias);
            Balanced(TextOf(tail), q, true) && TextOf(tail) != []
            && Harmless(TextOf(tail)[0]) && TextOf(tail)[0] != 'N'
  {
    hide Joined, FooterPieces, ItemPiecesEach, PrintableProjection, Balanced, Proper, Apart, GoodItems, QuotedWith;
    var quotes := {'`', '"'};
    var footer := FooterPieces(q, from, alias);
    FooterGood(quotes, q, from, alias);
    FooterQuotedWith(q, from, alias);
    if items == [] {
      PiecesBalanced(quotes, footer, q);
      StartsWithGap(footer, []);
      assert [] + footer == footer;
    } else {
      var body := Joined(LineGap, ItemPiecesEach(q, items));
      ItemsGood(quotes, q, items);
      OpeningsGood(quotes);
      JoinedGood(quotes, LineGap, ItemPiecesEach(q, items));
      ItemsQuotedWith(q, items);
      OpeningsQuotedWith(q);
      QuotedWithAppend(LineGap, body, q);
      QuotedWithAppend(LineGap + body, footer, q);
      ProperAppend(quotes, LineGap, body);
      ProperAppend(quotes, LineGap + body, footer);
      PiecesBalanced(quotes, LineGap + body + footer, q);
      StartsWithComma(LineGap + body + footer);
    }
  }

  lemma {:induction false} ProperAppend(quotes: set<char>, a: seq<Piece>, b: seq<Piece>)
    requires Proper(quotes, a) && Proper(quotes, b)
    ensures Proper(quotes, a + b)
  {
  }

  lemma {:induction false} StartsWithGap(ps: seq<Piece>, before: seq<Piece>)
    requires ps != [] && ps[0] == Blank("\n")
    ensures TextOf(ps) != [] && TextOf(ps)[0] == '\n'
  {
  }

  lemma {:induction false} StartsWithComma(ps: seq<Piece>)
    requires ps != [] && ps[0] == Mark(',')
    ensures TextOf(ps) != [] && TextOf(ps)[0] == ','
  {
  }

  /** Every generated MySQL select that starts with the row count is accepted. */
  lemma {:induction false} CountedAccepted(s: Statement)
    requires s.Select? && PrintableStatement(s) && Counted(s.items)
    ensures Verdicts(TextOf(StatementPieces('`', s)), true) == Accepted
  {
    hide StatementPieces, Verdicts, Trimmed, TextOf, Joined, FooterPieces, ItemPiecesEach, PrintableProjection, Balanced,
         AllHarmless, Harmless, SubstituteAll, Clean;
    var items, q, name := s.items, '`', s.items[0].name;
    var lead := SelectOpening + [Plain("COUNT"), Mark('('), Mark('*'), Mark(')'), Blank(" "), Plain("AS"), Blank(" ")];
    var tail := (if |items| == 1 then [] else LineGap + Joined(LineGap, ItemPiecesEach(q, items[1..])))
                + FooterPieces(q, s.from, s.alias);
    CountedPieces(q, items, s.from, s.alias);
    CountedLead();
    CountedTail(q, items[1..], s.from, s.alias);
    assert items[1..] == [] <==> |items| == 1;
    WordHarmless(name);
    CountedText(lead, name, tail);
    LeadCleans(TextOf(lead), name, TextOf(tail));
    var text := TextOf(StatementPieces(q, s));
    StatementTrimmed(q, s);
    CleanVerdict(text);
  }

  lemma {:induction false} CleanVerdict(text: string)
    requires Trimmed(text) && Clean(SubstituteAll(text, PATTERNS))
    ensures Verdicts(text, true) == Accepted
  {
    hide SubstituteAll, Trimmed, Judge, Clean, Normalized, IsBlank;
    TrimmedNormal(text);
    TrimmedNotEmpty(text);
    CleanAccepted(SubstituteAll(text, PATTERNS), true);
  }

  lemma {:induction false} WordHarmless(w: string)
    requires IsWord(w)
    ensures AllHarmless(w) && Doubled(w, '"') == w
  {
    NothingDoubled(w);
  }

  lemma {:induction false} NothingDoubled(w: string)
    requires AllWordChars(w)
    ensures Doubled(w, '"') == w
  {
    if w != [] {
      NothingDoubled(w[1..]);
      assert w == [w[0]] + w[1..];
    }
  }

  lemma {:induction false} CountedText(lead: seq<Piece>, name: string, tail: seq<Piece>)
    requires Doubled(name, '"') == name
    ensures TextOf(lead + [Quoted('"', name)] + tail) == TextOf(lead) + ("\"" + name + "\"") + TextOf(tail)
  {
    TextAppend(lead + [Quoted('"', name)], tail);
    TextAppend(lead, [Quoted('"', name)]);
    assert TextOf([Quoted('"', name)]) == ['"'] + name + ['"'];
  }
}
