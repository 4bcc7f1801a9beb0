/**
 * What the statement guard refuses: a comment marker, or a second statement, outside quoted content.
 */
module SqlGuardRefusals {
  import opened Common
  import opened SqlGuard

  // ---------------------------------------------------------------- text with quoted parts

  /** A stretch of a statement outside quotes, or one quoted part. */
  datatype Segment = Bare(text: string) | Enclosed(style: Pattern, body: string)

  predicate IsQuote(c: char) {
    c == '\'' || c == '"' || c == '[' || c == ']' || c == '`'
  }

  predicate NoQuotes(s: string) {
    forall i :: 0 <= i < |s| ==> !IsQuote(s[i])
  }

  /** No character opens one of the styles. */
  predicate OpensNone(s: string, styles: seq<Pattern>) {
    forall i, j :: 0 <= i < |s| && 0 <= j < |styles| ==> s[i] != styles[j].open
  }

  function SegmentText(x: Segment): string {
    match x
    case Bare(text) => text
    case Enclosed(style, body) => [style.open] + body + [style.close]
  }

  function Text(xs: seq<Segment>): string {
    if xs == [] then [] else SegmentText(xs[0]) + Text(xs[1..])
  }

  /**
   * Each stretch opens no quotes, each quoted part holds no quotes and is followed by something else
   * than its own closing character, and no apostrophe is written as the start of a national text.
   */
  predicate Settled(xs: seq<Segment>, rest: string, styles: seq<Pattern>) {
    xs == [] ||
    (&& Settled(xs[1..], rest, styles)
     && var next := Text(xs[1..]) + rest;
        match xs[0]
        case Bare(text) =>
          && OpensNone(text, styles)
          && (STRING_PATTERN in styles && text != [] && next != [] && text[|text| - 1] == 'N' ==> next[0] != '\'')
        case Enclosed(style, body) => style in styles && NoQuotes(body) && (next != [] ==> next[0] != style.close))
  }

  // ---------------------------------------------------------------- masking

  lemma {:induction false} CloseFound(body: string, close: char, rest: string)
    requires close !in body && (rest != [] ==> rest[0] != close)
    ensures AfterClose(body + [close] + rest, close) == Some(rest)
  {
    var s := body + [close] + rest;
    if body == [] {
      assert s[0] == close && s[1..] == rest;
    } else {
      assert s[0] == body[0] && s[1..] == body[1..] + [close] + rest;
      CloseFound(body[1..], close, rest);
    }
  }

  lemma {:induction false} PartMasked(p: Pattern, body: string, rest: string)
    requires p in PATTERNS && NoQuotes(body) && (rest != [] ==> rest[0] != p.close)
    ensures Substitute([p.open] + body + [p.close] + rest, p) == "''" + Substitute(rest, p)
  {
    var s := [p.open] + body + [p.close] + rest;
    CloseFound(body, p.close, rest);
    assert s[0] == p.open && p.open != 'N' && s[1..] == body + [p.close] + rest;
  }

  /** The styles that have not been masked yet: the string style always goes first. */
  predicate Remaining(styles: seq<Pattern>) {
    || styles == PATTERNS || styles == [DOUBLE_QUOTE_PATTERN, BRACKET_PATTERN, BACKTICK_PATTERN]
    || styles == [BRACKET_PATTERN, BACKTICK_PATTERN] || styles == [BACKTICK_PATTERN]
  }

  lemma {:induction false} OthersKept(p: Pattern, q: Pattern)
    requires p in PATTERNS && q in PATTERNS && p != q
    ensures p.open != q.open && p.close != q.open && p.close != 'N'
  {
  }

  lemma {:induction false} OtherUntouched(q: Pattern, body: string, rest: string, p: Pattern)
    requires p in PATTERNS && q in PATTERNS && p != q && NoQuotes(body)
    ensures Substitute([q.open] + body + [q.close] + rest, p) == [q.open] + body + [q.close] + Substitute(rest, p)
  {
    var s := [q.open] + body + [q.close];
    OthersKept(q, p);
    assert IsQuote(p.open);
    forall i | 0 <= i < |s| ensures s[i] != p.open { if 0 < i < |s| - 1 { assert s[i] == body[i - 1]; } }
    Untouched(s, rest, p);
  }

  /** Masking the first style turns its parts into empty texts and keeps everything else. */
  function Masked(xs: seq<Segment>, p: Pattern): (ys: seq<Segment>)
    ensures |ys| == |xs|
  {
    if xs == [] then []
    else [if xs[0].Enclosed? && xs[0].style == p then Bare("''") else xs[0]] + Masked(xs[1..], p)
  }

  lemma {:induction false} MaskedText(xs: seq<Segment>, rest: string, styles: seq<Pattern>)
    requires Remaining(styles) && Settled(xs, rest, styles)
    ensures Substitute(Text(xs) + rest, styles[0]) == Text(Masked(xs, styles[0])) + Substitute(rest, styles[0])
  {
    hide Substitute, OpensNone, NoQuotes, Remaining;
    RemainingStyles(styles);
    var p := styles[0];
    if xs == [] {
      assert Text(xs) + rest == rest;
      assert Text(Masked(xs, p)) + Substitute(rest, p) == Substitute(rest, p);
    } else {
      MaskedText(xs[1..], rest, styles);
      var next, ys := Text(xs[1..]) + rest, Masked(xs, p);
      SegmentMasked(xs[0], next, styles);
      TextFirst(xs, rest);
      MaskedFirst(xs, p);
      TextFirst(ys, Substitute(rest, p));
    }
  }

  lemma {:induction false} TextFirst(xs: seq<Segment>, rest: string)
    requires xs != []
    ensures Text(xs) + rest == SegmentText(xs[0]) + (Text(xs[1..]) + rest)
  {
    hide SegmentText;
  }

  lemma {:induction false} MaskedFirst(xs: seq<Segment>, p: Pattern)
    requires xs != []
    ensures Masked(xs, p)[0] == (if xs[0].Enclosed? && xs[0].style == p then Bare("''") else xs[0])
    ensures Masked(xs, p)[1..] == Masked(xs[1..], p)
  {
  }

  lemma {:induction false} SegmentMasked(x: Segment, next: string, styles: seq<Pattern>)
    requires Remaining(styles)
    requires match x
             case Bare(text) =>
               && OpensNone(text, styles)
               && (STRING_PATTERN in styles && text != [] && next != [] && text[|text| - 1] == 'N' ==> next[0] != '\'')
             case Enclosed(style, body) => style in styles && NoQuotes(body) && (next != [] ==> next[0] != style.close)
    ensures Substitute(SegmentText(x) + next, styles[0])
            == SegmentText(if x.Enclosed? && x.style == styles[0] then Bare("''") else x) + Substitute(next, styles[0])
  {
    hide Substitute, OpensNone, NoQuotes, Remaining;
    RemainingStyles(styles);
    if x.Bare? {
      BareUntouched(x.text, next, styles);
    } else if x.style == styles[0] {
      PartMasked(styles[0], x.body, next);
    } else {
      OtherUntouched(x.style, x.body, next, styles[0]);
    }
  }

  lemma {:induction false} RemainingStyles(styles: seq<Pattern>)
    requires Remaining(styles)
    ensures styles != [] && forall q :: q in styles ==> q in PATTERNS
    ensures forall q :: q in styles[1..] ==> q.open != '\'' && q.close != '\'' && q != styles[0]
    ensures forall q :: q in styles ==> q == styles[0] || q in styles[1..]
    ensures styles[0].prefixed <==> STRING_PATTERN in styles
    ensures styles[0].prefixed ==> styles[0].open == '\''
    ensures STRING_PATTERN !in styles[1..]
  {
  }

  lemma {:induction false} BareUntouched(text: string, next: string, styles: seq<Pattern>)
    requires Remaining(styles) && OpensNone(text, styles)
    requires STRING_PATTERN in styles && text != [] && next != [] && text[|text| - 1] == 'N' ==> next[0] != '\''
    ensures Substitute(text + next, styles[0]) == text + Substitute(next, styles[0])
  {
    hide Substitute, Remaining;
    RemainingStyles(styles);
    Untouched(text, next, styles[0]);
  }

  /** What is settled stays settled for the styles that remain. */
  lemma {:induction false} MaskedSettled(xs: seq<Segment>, rest: string, more: string, styles: seq<Pattern>)
    requires Remaining(styles) && Settled(xs, rest, styles)
    requires rest != [] ==> more != [] && more[0] == rest[0]
    requires rest == [] ==> more == []
    ensures Settled(Masked(xs, styles[0]), more, styles[1..])
  {
    hide NoQuotes, Remaining;
    RemainingStyles(styles);
    var p := styles[0];
    if xs != [] {
      MaskedSettled(xs[1..], rest, more, styles);
      var ys := Masked(xs, p);
      assert ys[1..] == Masked(xs[1..], p);
      NextChar(xs[1..], rest, more, p);
    }
  }

  /** Masking changes the first character only where a part of the style is masked. */
  lemma {:induction false} NextChar(xs: seq<Segment>, rest: string, more: string, p: Pattern)
    requires rest != [] ==> more != [] && more[0] == rest[0]
    requires rest == [] ==> more == []
    ensures Text(xs) + rest == [] <==> Text(Masked(xs, p)) + more == []
    ensures Text(xs) + rest != [] ==>
              var before, after := Text(xs) + rest, Text(Masked(xs, p)) + more;
              after[0] == before[0] || (after[0] == '\'' && before[0] == p.open)
  {
    hide SegmentText;
    if xs == [] {
      assert Text(xs) + rest == rest && Text(Masked(xs, p)) + more == more;
    } else {
      hide Text, Masked;
      var ys := Masked(xs, p);
      NextChar(xs[1..], rest, more, p);
      MaskedFirst(xs, p);
      TextFirst(xs, rest);
      TextFirst(ys, more);
      FirstChar(xs[0], p);
    }
  }

  lemma {:induction false} FirstChar(x: Segment, p: Pattern)
    ensures var a, b := SegmentText(x), SegmentText(if x.Enclosed? && x.style == p then Bare("''") else x);
            (a == [] <==> b == []) && (a != [] ==> b[0] == a[0] || (b[0] == '\'' && a[0] == p.open))
  {
  }

  function MaskedAll(xs: seq<Segment>, styles: seq<Pattern>): seq<Segment>
    decreases |styles|
  {
    if styles == [] then xs else MaskedAll(Masked(xs, styles[0]), styles[1..])
  }

  lemma {:induction false} StylesLeft(styles: seq<Pattern>)
    requires Remaining(styles)
    ensures styles[1..] == [] || Remaining(styles[1..])
    ensures IsQuote(styles[0].open)
  {
    assert PATTERNS[1..] == [DOUBLE_QUOTE_PATTERN, BRACKET_PATTERN, BACKTICK_PATTERN];
    assert [DOUBLE_QUOTE_PATTERN, BRACKET_PATTERN, BACKTICK_PATTERN][1..] == [BRACKET_PATTERN, BACKTICK_PATTERN];
    assert [BRACKET_PATTERN, BACKTICK_PATTERN][1..] == [BACKTICK_PATTERN] && [BACKTICK_PATTERN][1..] == [];
  }

  /** A marker after settled text is still there when everything is masked, whatever comes after it. */
  lemma {:induction false} MarkerStays(xs: seq<Segment>, m: string, b: string, styles: seq<Pattern>)
    requires styles == [] || Remaining(styles)
    requires Settled(xs, m + b, styles) && m != [] && NoQuotes(m) && m[|m| - 1] != 'N'
    ensures SubstituteAll(Text(xs) + (m + b), styles)
            == Text(MaskedAll(xs, styles)) + (m + SubstituteAll(b, styles))
    decreases |styles|
  {
    hide Substitute, Settled, Remaining, Masked, Text, NoQuotes;
    if styles != [] {
      StylesLeft(styles);
      var p := styles[0];
      MaskedText(xs, m + b, styles);
      MarkerKept(m, b, p);
      MaskedSettled(xs, m + b, m + Substitute(b, p), styles);
      MarkerStays(Masked(xs, p), m, Substitute(b, p), styles[1..]);
    }
  }

  lemma {:induction false} MarkerKept(m: string, b: string, p: Pattern)
    requires m != [] && NoQuotes(m) && m[|m| - 1] != 'N' && IsQuote(p.open)
    ensures Substitute(m + b, p) == m + Substitute(b, p)
  {
    Untouched(m, b, p);
  }

  lemma {:induction false} EndStays(xs: seq<Segment>, styles: seq<Pattern>)
    requires (styles == [] || Remaining(styles)) && Settled(xs, [], styles)
    ensures SubstituteAll(Text(xs), styles) == Text(MaskedAll(xs, styles))
    decreases |styles|
  {
    hide Substitute, Settled, Remaining, Masked, Text;
    if styles != [] {
      StylesLeft(styles);
      var p := styles[0];
      MaskedText(xs, [], styles);
      NothingMasked(p);
      assert Text(xs) + [] == Text(xs) && Text(Masked(xs, p)) + [] == Text(Masked(xs, p));
      MaskedSettled(xs, [], [], styles);
      EndStays(Masked(xs, p), styles[1..]);
    }
  }

  lemma {:induction false} NothingMasked(p: Pattern)
    ensures Substitute([], p) == []
  {
  }

  // ---------------------------------------------------------------- comments

  lemma {:induction false} NotBlank(s: string)
    requires Normalized(s) != []
    ensures !IsBlank(s)
  {
    if IsBlank(s) { AllDropped(s); }
  }

  lemma {:induction false} AllDropped(s: string)
    requires IsBlank(s)
    ensures DropFront(s) == []
  {
    if s != [] { AllDropped(s[1..]); }
  }

  /**
   * A comment marker outside quotes is found, whatever follows it and whatever quoted parts come
   * before it; for MySQL the hash is such a marker.
   */
  lemma {:induction false} CommentRefused(s: string, mysql: bool, xs: seq<Segment>, m: string, b: string)
    requires Normalized(s) == Text(xs) + (m + b) && Settled(xs, m + b, PATTERNS)
    requires m == "--" || m == "/*" || m == "*/" || (mysql && m == "#")
    ensures Verdicts(s, mysql) == CommentFound
  {
    hide SubstituteAll, Normalized, Settled, Text, MaskedAll, IsBlank;
    NotBlank(s);
    MarkerStays(xs, m, b, PATTERNS);
    var w, c := Text(MaskedAll(xs, PATTERNS)), SubstituteAll(b, PATTERNS);
    var t := w + (m + c);
    assert t[|w|] == m[0];
    if m != "#" {
      assert t[|w| + 1] == m[1];
      assert HasPair(t, m[0], m[1]);
    }
  }

  // ---------------------------------------------------------------- several statements

  /** Something is left between semicolons. */
  predicate Substantial(s: string) {
    exists i :: 0 <= i < |s| && !IsSpace(s[i]) && s[i] != ';'
  }

  lemma {:induction false} SplitParts(a: string, c: string)
    ensures Split(a + ([';'] + c)) == Split(a) + Split(c)
  {
    var s := a + ([';'] + c);
    if a == [] {
      assert s == [';'] + c && s[1..] == c;
    } else {
      assert s[0] == a[0] && s[1..] == a[1..] + ([';'] + c);
      SplitParts(a[1..], c);
    }
  }

  lemma {:induction false} CountAppend(a: seq<string>, b: seq<string>)
    ensures StatementCount(a + b) == StatementCount(a) + StatementCount(b)
  {
    hide IsBlank;
    if a == [] {
      assert a + b == b;
    } else {
      assert (a + b)[0] == a[0] && (a + b)[1..] == a[1..] + b;
      CountAppend(a[1..], b);
    }
  }

  lemma {:induction false} SubstantialCounts(s: string)
    requires Substantial(s)
    ensures StatementCount(Split(s)) > 0
  {
    var i :| 0 <= i < |s| && !IsSpace(s[i]) && s[i] != ';';
    if s[0] != ';' && !IsSpace(s[0]) {
      assert Split(s)[0][0] == s[0];
    } else {
      assert s[1..][i - 1] == s[i];
      SubstantialCounts(s[1..]);
      var parts := Split(s[1..]);
      if s[0] != ';' {
        if !IsBlank(parts[0]) { BlankFront(s[0], parts[0]); }
        assert Split(s)[1..] == parts[1..];
      } else {
        assert Split(s)[1..] == parts;
      }
    }
  }

  lemma {:induction false} BlankFront(c: char, part: string)
    requires !IsBlank(part)
    ensures !IsBlank([c] + part)
  {
    var i :| 0 <= i < |part| && !IsSpace(part[i]);
    assert ([c] + part)[i + 1] == part[i];
  }

  lemma {:induction false} MaskedSubstantial(xs: seq<Segment>, styles: seq<Pattern>)
    requires Substantial(Text(xs))
    ensures Substantial(Text(MaskedAll(xs, styles)))
    decreases |styles|
  {
    hide Text, Masked, Substantial;
    if styles != [] {
      OneMaskedSubstantial(xs, styles[0]);
      MaskedSubstantial(Masked(xs, styles[0]), styles[1..]);
    }
  }

  lemma {:induction false} OneMaskedSubstantial(xs: seq<Segment>, p: Pattern)
    requires Substantial(Text(xs))
    ensures Substantial(Text(Masked(xs, p)))
  {
    hide Substantial, SegmentText;
    if xs == [] {
      NothingSubstantial();
    } else {
      var ys := Masked(xs, p);
      MaskedFirst(xs, p);
      SubstantialParts(SegmentText(xs[0]), Text(xs[1..]));
      SubstantialParts(SegmentText(ys[0]), Text(ys[1..]));
      if Substantial(Text(xs[1..])) {
        OneMaskedSubstantial(xs[1..], p);
      } else if ys[0] != xs[0] {
        EmptyTextSubstantial();
      }
    }
  }

  lemma {:induction false} NothingSubstantial()
    ensures !Substantial([])
  {
  }

  lemma {:induction false} EmptyTextSubstantial()
    ensures Substantial(SegmentText(Bare("''")))
  {
    assert "''"[0] == '\'';
  }

  lemma {:induction false} SubstantialParts(a: string, b: string)
    ensures Substantial(a + b) <==> Substantial(a) || Substantial(b)
  {
    if Substantial(a) {
      var i :| 0 <= i < |a| && !IsSpace(a[i]) && a[i] != ';';
      assert (a + b)[i] == a[i];
    }
    if Substantial(b) {
      var i :| 0 <= i < |b| && !IsSpace(b[i]) && b[i] != ';';
      assert (a + b)[|a| + i] == b[i];
    }
    if Substantial(a + b) {
      var i :| 0 <= i < |a + b| && !IsSpace((a + b)[i]) && (a + b)[i] != ';';
      if i < |a| { assert a[i] == (a + b)[i]; } else { assert b[i - |a|] == (a + b)[i]; }
    }
  }

  /** Two statements with a semicolon outside quotes between them are refused. */
  lemma {:induction false} SecondRefused(s: string, mysql: bool, xs: seq<Segment>, ys: seq<Segment>)
    requires Normalized(s) == Text(xs) + ([';'] + Text(ys))
    requires Settled(xs, [';'] + Text(ys), PATTERNS) && Settled(ys, [], PATTERNS)
    requires Substantial(Text(xs)) && Substantial(Text(ys))
    ensures Verdicts(s, mysql) == CommentFound || Verdicts(s, mysql) == SeveralStatements
  {
    hide SubstituteAll, Normalized, Settled, Text, MaskedAll, IsBlank, Substantial, Split, HasComment;
    NotBlank(s);
    MarkerStays(xs, [';'], Text(ys), PATTERNS);
    EndStays(ys, PATTERNS);
    var a, c := Text(MaskedAll(xs, PATTERNS)), Text(MaskedAll(ys, PATTERNS));
    MaskedSubstantial(xs, PATTERNS);
    MaskedSubstantial(ys, PATTERNS);
    SplitParts(a, c);
    CountAppend(Split(a), Split(c));
    SubstantialCounts(a);
    SubstantialCounts(c);
  }
}
