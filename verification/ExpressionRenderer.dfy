/**
 * Rendering one expression to SQL text while collecting bound parameters in a list. The same
 * recursion serves all dialects, for migration and for validation statements.
 */
module ExpressionRenderer {
  import opened Common
  import opened MappingModel
  import opened SqlText
  import opened SqlTree
  import opened SqlMeaning
  import opened Transformation

  /** The list every level of the recursion appends to. */
  class ParameterList {
    var items: seq<Scalar>

    constructor ()
      ensures items == []
    {
      items := [];
    }

    method Append(v: Scalar)
      modifies this
      ensures items == old(items) + [v]
    {
      items := items + [v];
    }
  }

  function TreeText(p: Profile, e: Sql): string {
    TextOf(Pieces(QuoteOf(p.dialect), e))
  }

  function TreeTexts(p: Profile, es: seq<Sql>): (r: seq<string>)
    ensures |r| == |es|
  {
    TextsOf(PiecesEach(QuoteOf(p.dialect), es))
  }

  lemma {:induction false} TreeTextsFirst(p: Profile, e: Sql, es: seq<Sql>)
    ensures TreeTexts(p, [e] + es) == [TreeText(p, e)] + TreeTexts(p, es)
  {
    hide Pieces;
    assert ([e] + es)[0] == e && ([e] + es)[1..] == es;
  }

  lemma {:induction false} TreeTextsAppend(p: Profile, a: seq<Sql>, b: seq<Sql>)
    ensures TreeTexts(p, a + b) == TreeTexts(p, a) + TreeTexts(p, b)
    decreases a
  {
    hide TreeTexts, TreeText;
    if a == [] {
      assert a + b == b;
      NoTexts(p);
    } else {
      TreeTextsFirst(p, a[0], a[1..] + b);
      TreeTextsFirst(p, a[0], a[1..]);
      assert a == [a[0]] + a[1..] && a + b == [a[0]] + (a[1..] + b);
      TreeTextsAppend(p, a[1..], b);
    }
  }

  lemma {:induction false} NoTexts(p: Profile)
    ensures TreeTexts(p, []) == []
  {
  }

  lemma {:induction false} CallText(p: Profile, fn: Function, args: seq<Sql>)
    ensures TreeText(p, Call(fn, args)) == FunctionName(fn) + "(" + JoinText(", ", TreeTexts(p, args)) + ")"
  {
    hide PiecesEach, FunctionName;
    var q := QuoteOf(p.dialect);
    var inner := Joined(CommaGap, PiecesEach(q, args));
    var opening := [Plain(FunctionName(fn)), Mark('(')];
    TextAppend(opening + inner, [Mark(')')]);
    TextAppend(opening, inner);
    JoinedText(CommaGap, PiecesEach(q, args));
    CommaGapText();
    OpeningText(FunctionName(fn));
  }

  lemma {:induction false} CommaGapText()
    ensures TextOf(CommaGap) == ", "
  {
    assert CommaGap[1..] == [Blank(" ")] && TextOf([Blank(" ")]) == " ";
  }

  lemma {:induction false} OpeningText(name: string)
    ensures TextOf([Plain(name), Mark('(')]) == name + "("
    ensures TextOf([Mark(')')]) == ")"
  {
    assert [Plain(name), Mark('(')][1..] == [Mark('(')] && TextOf([Mark('(')]) == "(";
  }

  function TypeText(t: SqlType): string {
    JoinText(" ", t.words) + if t.args == [] then "" else "(" + JoinText(",", t.args) + ")"
  }

  lemma {:induction false} WordsText(ws: seq<string>)
    ensures TextsOf(Words(ws)) == ws
  {
    forall i | 0 <= i < |ws| ensures TextsOf(Words(ws))[i] == ws[i] {
      assert Words(ws)[i] == [Plain(ws[i])] && TextOf([Plain(ws[i])]) == ws[i];
    }
  }

  lemma {:induction false} TypePiecesText(t: SqlType)
    ensures TextOf(TypePieces(t)) == TypeText(t)
  {
    WordsText(t.words);
    WordsText(t.args);
    JoinedText([Blank(" ")], Words(t.words));
    JoinedText([Mark(',')], Words(t.args));
    assert TextOf([Blank(" ")]) == " " && TextOf([Mark(',')]) == ",";
    var words, inner := Joined([Blank(" ")], Words(t.words)), Joined([Mark(',')], Words(t.args));
    if t.args == [] {
      assert words + [] == words;
    } else {
      TextAppend(words, [Mark('(')] + inner + [Mark(')')]);
      TextAppend([Mark('(')] + inner, [Mark(')')]);
      TextAppend([Mark('(')], inner);
      assert TextOf([Mark('(')]) == "(" && TextOf([Mark(')')]) == ")";
    }
  }

  function ColumnText(p: Profile, alias: string, name: string): Result<string, CompileError> {
    var a, n := Quote(p, alias), Quote(p, name);
    if a.Err? then a else if n.Err? then n else Ok(a.value + "." + n.value)
  }

  lemma {:induction false} ColumnTextMeans(p: Profile, alias: string, name: string)
    ensures ColumnText(p, alias, name).Ok? <==> Fits(p, alias) && Fits(p, name)
    ensures ColumnText(p, alias, name).Ok? ==> ColumnText(p, alias, name).value == TreeText(p, Column(alias, name))
    ensures ColumnText(p, alias, name).Err? ==> ColumnText(p, alias, name).error == InvalidPlan
  {
    hide Fits;
    QualifiedText(QuoteOf(p.dialect), alias, name);
  }

  lemma {:induction false} QualifiedText(q: char, alias: string, name: string)
    ensures TextOf(Qualified(q, alias, name)) == PieceText(Quoted(q, alias)) + "." + PieceText(Quoted(q, name))
  {
    hide Doubled;
    var ps := Qualified(q, alias, name);
    assert ps[1..] == [Mark('.'), Quoted(q, name)] && ps[1..][1..] == [Quoted(q, name)];
    assert TextOf([Quoted(q, name)]) == PieceText(Quoted(q, name));
    assert TextOf(ps[1..]) == "." + PieceText(Quoted(q, name));
  }

  lemma {:induction false} AsText()
    ensures TextOf([Blank(" "), Plain("AS"), Blank(" ")]) == " AS "
  {
    var between := [Blank(" "), Plain("AS"), Blank(" ")];
    assert between[1..] == [Plain("AS"), Blank(" ")] && between[1..][1..] == [Blank(" ")];
    assert TextOf([Blank(" ")]) == " " && TextOf([Plain("AS"), Blank(" ")]) == "AS ";
  }

  lemma {:induction false} CastText(p: Profile, alias: string, name: string, to: SqlType)
    ensures TreeText(p, CastAs(alias, name, to))
            == "CAST(" + TreeText(p, Column(alias, name)) + " AS " + TypeText(to) + ")"
  {
    hide Qualified, TypePieces, TypeText, TextOf;
    var q := QuoteOf(p.dialect);
    var opening, between := [Plain("CAST"), Mark('(')], [Blank(" "), Plain("AS"), Blank(" ")];
    TextAppend(opening + Qualified(q, alias, name) + between + TypePieces(to), [Mark(')')]);
    TextAppend(opening + Qualified(q, alias, name) + between, TypePieces(to));
    TextAppend(opening + Qualified(q, alias, name), between);
    TextAppend(opening, Qualified(q, alias, name));
    TypePiecesText(to);
    OpeningText("CAST");
    AsText();
    assert "CAST" + "(" == "CAST(";
  }

  /** Quotes every column, in order, and stops at the first name that cannot be quoted. */
  method RenderColumns(p: Profile, alias: string, names: seq<string>) returns (r: Result<seq<string>, CompileError>)
    ensures r.Ok? <==> names == [] || (Fits(p, alias) && AllFit(p, names))
    ensures r.Ok? ==> r.value == TreeTexts(p, ColumnTrees(alias, names))
    ensures r.Err? ==> r.error == InvalidPlan
  {
    hide Fits, TreeTexts, TreeText, ColumnText;
    var texts: seq<string> := [];
    var i := 0;
    while i < |names|
      invariant 0 <= i <= |names|
      invariant i > 0 ==> Fits(p, alias) && forall j :: 0 <= j < i ==> Fits(p, names[j])
      invariant texts + TreeTexts(p, ColumnTrees(alias, names[i..])) == TreeTexts(p, ColumnTrees(alias, names))
    {
      var text := ColumnText(p, alias, names[i]);
      ColumnTextMeans(p, alias, names[i]);
      if text.Err? { return Err(text.error); }
      assert names[i..][0] == names[i] && names[i..][1..] == names[i + 1..];
      TreeTextsFirst(p, Column(alias, names[i]), ColumnTrees(alias, names[i + 1..]));
      texts := texts + [text.value];
      i := i + 1;
    }
    assert names[i..] == [];
    NoTexts(p);
    r := Ok(texts);
  }

  /** Renders an expression; placeholders appear in the order in which their values are appended. */
  method Render(
    p: Profile, e: Expression, alias: string, allowed: set<string>, parameters: ParameterList, depth: nat)
    returns (r: Result<string, CompileError>)
    requires ValidExpression(e)
    modifies parameters
    ensures r.Ok? ==> Fault(p, alias, allowed, e, depth).None? && Castable(p, e)
    ensures r.Ok? ==> r.value == TreeText(p, Tree(p, alias, e))
    ensures r.Ok? ==> parameters.items == old(parameters.items) + Parameters(e)
    ensures r.Err? ==> Fault(p, alias, allowed, e, depth) == Some(r.error)
    decreases e, 1
  {
    hide Fits, TreeTexts, TreeText, TypeName, TypeText, ColumnText;
    if depth >= MAX_DEPTH { return Err(Unsupported); }
    if exists c :: c in e.columns && c !in allowed { return Err(InvalidPlan); }
    FaultFree(p, alias, allowed, e, depth);
    match e.kind {
      case SourceColumn =>
        r := ColumnText(p, alias, e.columns[0]);
        ColumnTextMeans(p, alias, e.columns[0]);
      case DirectCopy =>
        r := ColumnText(p, alias, e.columns[0]);
        ColumnTextMeans(p, alias, e.columns[0]);
      case Cast =>
        var to := TypeName(p, e.castTo.value);
        if to.None? { return Err(Unsupported); }
        var column := ColumnText(p, alias, e.columns[0]);
        ColumnTextMeans(p, alias, e.columns[0]);
        if column.Err? { return Err(column.error); }
        CastText(p, alias, e.columns[0], to.value);
        r := Ok("CAST(" + column.value + " AS " + TypeText(to.value) + ")");
      case Concat =>
        r := RenderConcat(p, e, alias, parameters);
      case Literal =>
        parameters.Append(e.literal);
        BoundText(p);
        r := Ok("%s");
      case Coalesce =>
        r := RenderCoalesce(p, e, alias, allowed, parameters, depth);
    }
  }

  lemma {:induction false} BoundText(p: Profile)
    ensures TreeText(p, Bound) == "%s"
  {
    assert TextOf([Hole]) == "%s";
  }

  method RenderConcat(p: Profile, e: Expression, alias: string, parameters: ParameterList)
    returns (r: Result<string, CompileError>)
    requires ValidExpression(e) && e.kind == Concat
    modifies parameters
    ensures r.Ok? <==> Fits(p, alias) && AllFit(p, e.columns)
    ensures r.Ok? ==> r.value == TreeText(p, Tree(p, alias, e))
    ensures r.Ok? ==> parameters.items == old(parameters.items) + Parameters(e)
    ensures r.Err? ==> r.error == InvalidPlan
  {
    hide Fits, TreeTexts, TreeText;
    var columns := RenderColumns(p, alias, e.columns);
    if columns.Err? { return Err(columns.error); }
    var trees := ColumnTrees(alias, e.columns);
    if e.separator.None? {
      CallText(p, CONCAT, trees);
      assert Parameters(e) == [];
      r := Ok("CONCAT(" + JoinText(", ", columns.value) + ")");
    } else {
      parameters.Append(Text(e.separator.value));
      CallText(p, CONCAT_WS, [Bound] + trees);
      TreeTextsFirst(p, Bound, trees);
      BoundText(p);
      var arguments := JoinText(", ", columns.value);
      assert ([TreeText(p, Bound)] + TreeTexts(p, trees))[1..] == TreeTexts(p, trees);
      r := Ok("CONCAT_WS(%s, " + arguments + ")");
      assert "CONCAT_WS(" + ("%s" + ", " + arguments) + ")" == r.value;
    }
  }

  method RenderCoalesce(
    p: Profile, e: Expression, alias: string, allowed: set<string>, parameters: ParameterList, depth: nat)
    returns (r: Result<string, CompileError>)
    requires ValidExpression(e) && e.kind == Coalesce
    modifies parameters
    ensures r.Ok? ==> e.columns == [] || (Fits(p, alias) && AllFit(p, e.columns))
    ensures r.Ok? ==> FaultEach(p, alias, allowed, e.arguments, depth + 1).None? && Castable(p, e)
    ensures r.Ok? ==> r.value == TreeText(p, Tree(p, alias, e))
    ensures r.Ok? ==> parameters.items == old(parameters.items) + Parameters(e)
    ensures r.Err? ==>
              if e.columns != [] && !(Fits(p, alias) && AllFit(p, e.columns)) then r.error == InvalidPlan
              else FaultEach(p, alias, allowed, e.arguments, depth + 1) == Some(r.error)
    decreases e, 0
  {
    hide Fits, TreeTexts, TreeText, Tree, Castable, Fault, ValidExpression, Parameters, FaultEach, CastableEach;
    var columns := RenderColumns(p, alias, e.columns);
    if columns.Err? { return Err(columns.error); }
    ValidArguments(e);
    var more := RenderEach(p, e.arguments, alias, allowed, parameters, depth + 1);
    if more.Err? { return Err(more.error); }
    var arguments := columns.value + more.value;
    CoalesceText(p, alias, e, arguments);
    r := Ok("COALESCE(" + JoinText(", ", arguments) + ")");
  }

  lemma {:induction false} ValidArguments(e: Expression)
    requires ValidExpression(e)
    ensures ValidExpressions(e.arguments)
  {
  }

  lemma {:induction false} CoalesceText(p: Profile, alias: string, e: Expression, arguments: seq<string>)
    requires ValidExpression(e) && e.kind == Coalesce && CastableEach(p, e.arguments)
    requires arguments
             == TreeTexts(p, ColumnTrees(alias, e.columns)) + TreeTexts(p, TreeEach(p, alias, e.arguments))
    ensures Castable(p, e) && Parameters(e) == ParametersEach(e.arguments)
    ensures TreeText(p, Tree(p, alias, e)) == "COALESCE(" + JoinText(", ", arguments) + ")"
  {
    hide TreeTexts, TreeText;
    TreeTextsAppend(p, ColumnTrees(alias, e.columns), TreeEach(p, alias, e.arguments));
    CallText(p, COALESCE, ColumnTrees(alias, e.columns) + TreeEach(p, alias, e.arguments));
  }

  /** The nested arguments of a coalesce, one level deeper, in order. */
  method RenderEach(
    p: Profile, es: seq<Expression>, alias: string, allowed: set<string>, parameters: ParameterList, depth: nat)
    returns (r: Result<seq<string>, CompileError>)
    requires ValidExpressions(es)
    modifies parameters
    ensures r.Ok? ==> FaultEach(p, alias, allowed, es, depth).None? && CastableEach(p, es)
    ensures r.Ok? ==> r.value == TreeTexts(p, TreeEach(p, alias, es))
    ensures r.Ok? ==> parameters.items == old(parameters.items) + ParametersEach(es)
    ensures r.Err? ==> FaultEach(p, alias, allowed, es, depth) == Some(r.error)
    decreases es, 2
  {
    hide Fits, TreeTexts, TreeText, Tree, Castable, Fault, ValidExpression, Parameters;
    var texts: seq<string> := [];
    var i := 0;
    ghost var start := parameters.items;
    FaultFreeEach(p, alias, allowed, es, depth);
    ghost var good := FaultEach(p, alias, allowed, es, depth).None?;
    while i < |es|
      invariant 0 <= i <= |es|
      invariant ValidExpressions(es[i..])
      invariant FaultEach(p, alias, allowed, es, depth) == FaultEach(p, alias, allowed, es[i..], depth)
      invariant good ==> CastableEach(p, es) && CastableEach(p, es[i..])
      invariant good ==> texts + TreeTexts(p, TreeEach(p, alias, es[i..])) == TreeTexts(p, TreeEach(p, alias, es))
      invariant parameters.items + ParametersEach(es[i..]) == start + ParametersEach(es)
    {
      assert es[i..][0] == es[i] && es[i..][1..] == es[i + 1..];
      var text := Render(p, es[i], alias, allowed, parameters, depth);
      if text.Err? { return Err(text.error); }
      if good { TreeTextsFirst(p, Tree(p, alias, es[i]), TreeEach(p, alias, es[i + 1..])); }
      texts := texts + [text.value];
      i := i + 1;
    }
    assert es[i..] == [];
    NoTexts(p);
    r := Ok(texts);
  }
}
