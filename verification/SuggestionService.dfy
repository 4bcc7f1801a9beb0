/**
 * The suggestion service: candidates of both columns are ranked, mutual-best pairs are assigned,
 * close calls are left to human review, and every column ends up in exactly one place.
 */
module SuggestionService {
  import opened Common
  import opened MappingModel
  import opened Ordering
  import opened Columns
  import opened Suggestions

  // ---------------------------------------------------------------- ranking

  lemma {:induction false} RankTotal(c: Candidate, d: Candidate)
    ensures RankLe(c, d) || RankLe(d, c)
  {
    StringTotal(c.source.name, d.source.name);
    StringTotal(c.target.name, d.target.name);
  }

  lemma {:induction false} RankTransitive(c: Candidate, d: Candidate, e: Candidate)
    requires RankLe(c, d) && RankLe(d, e)
    ensures RankLe(c, e)
  {
    hide StringLe;
    if StringLe(c.source.name, d.source.name) && StringLe(d.source.name, e.source.name) {
      StringTransitive(c.source.name, d.source.name, e.source.name);
      if c.source.name == e.source.name && c.source.name != d.source.name {
        StringAntisymmetric(c.source.name, d.source.name);
      }
    }
    if StringLe(c.target.name, d.target.name) && StringLe(d.target.name, e.target.name) {
      StringTransitive(c.target.name, d.target.name, e.target.name);
    }
  }

  /** The first of the best. */
  function BestOf(cs: seq<Candidate>): (best: Candidate)
    requires cs != []
    ensures best in cs
  {
    if |cs| == 1 then cs[0]
    else
      var m := BestOf(cs[..|cs| - 1]);
      if RankLe(m, cs[|cs| - 1]) then m else cs[|cs| - 1]
  }

  lemma {:induction false} BestIsBest(cs: seq<Candidate>, c: Candidate)
    requires cs != [] && c in cs
    ensures RankLe(BestOf(cs), c)
  {
    hide RankLe;
    var last := cs[|cs| - 1];
    RankTotal(last, last);
    if |cs| > 1 {
      var front := cs[..|cs| - 1];
      assert cs == front + [last];
      RankTotal(BestOf(front), last);
      if c in front {
        BestIsBest(front, c);
        if !RankLe(BestOf(front), last) { RankTransitive(last, BestOf(front), c); }
      }
    }
  }

  method FindBest(cs: seq<Candidate>) returns (best: Candidate)
    requires cs != []
    ensures best == BestOf(cs)
  {
    best := cs[0];
    for i := 1 to |cs|
      invariant best == BestOf(cs[..i])
    {
      assert cs[..i + 1][..i] == cs[..i];
      if !RankLe(best, cs[i]) { best := cs[i]; }
    }
    assert cs[..|cs|] == cs;
  }

  method HasRival(best: Candidate, options: seq<Candidate>) returns (close: bool)
    ensures close <==> exists c :: c in options && c != best && best.confidence - c.confidence <= MARGIN
  {
    for i := 0 to |options|
      invariant forall j :: 0 <= j < i ==> options[j] == best || best.confidence - options[j].confidence > MARGIN
    {
      if options[i] != best && best.confidence - options[i].confidence <= MARGIN { return true; }
    }
    close := false;
  }

  // ---------------------------------------------------------------- candidates

  function CandidatesOf(s: Column, targets: seq<Column>): (r: seq<Candidate>)
    ensures |r| == |targets| && forall i :: 0 <= i < |r| ==> r[i] == CandidateOf(s, targets[i])
  {
    seq(|targets|, i requires 0 <= i < |targets| => CandidateOf(s, targets[i]))
  }

  /** The viable candidates of a source column. */
  ghost predicate AreOptions(options: seq<Candidate>, s: Column, targets: seq<Column>) {
    forall c :: c in options <==> exists t :: t in targets && Viable(s, t) && c == CandidateOf(s, t)
  }

  /** The viable candidates of a target column. */
  ghost predicate AreContenders(options: seq<Candidate>, sources: seq<Column>, t: Column) {
    forall c :: c in options <==> exists s :: s in sources && Viable(s, t) && c == CandidateOf(s, t)
  }

  method ViableFor(s: Column, targets: seq<Column>) returns (options: seq<Candidate>)
    ensures AreOptions(options, s, targets)
  {
    hide TypeCompatibility, EvidenceFor, Total;
    options := [];
    for i := 0 to |targets|
      invariant AreOptions(options, s, targets[..i])
    {
      ghost var before := options;
      assert targets[..i + 1] == targets[..i] + [targets[i]];
      var c := Score(s, targets[i]);
      if c.compatibility != Incompatible { options := options + [c]; }
    }
    assert targets[..|targets|] == targets;
  }

  method ContendersFor(sources: seq<Column>, t: Column) returns (options: seq<Candidate>)
    ensures AreContenders(options, sources, t)
  {
    hide TypeCompatibility, EvidenceFor, Total;
    options := [];
    for i := 0 to |sources|
      invariant AreContenders(options, sources[..i], t)
    {
      ghost var before := options;
      assert sources[..i + 1] == sources[..i] + [sources[i]];
      var c := Score(sources[i], t);
      if c.compatibility != Incompatible { options := options + [c]; }
    }
    assert sources[..|sources|] == sources;
  }

  // ---------------------------------------------------------------- one source column

  ghost predicate HasViable(s: Column, targets: seq<Column>) {
    exists t :: t in targets && Viable(s, t)
  }

  /** The best option is assigned when it is automatic, mutual and without rivals. */
  lemma {:induction false} AssignedWins(
    sources: seq<Column>, targets: seq<Column>, s: Column, options: seq<Candidate>, contenders: seq<Candidate>, best: Candidate)
    requires s in sources && AreOptions(options, s, targets) && best in options
    requires AreContenders(contenders, sources, best.target)
    requires forall c :: c in options && c != best ==> best.confidence - c.confidence > MARGIN
    requires forall c :: c in contenders && c != best ==> best.confidence - c.confidence > MARGIN
    requires Automatic(s, best.target)
    ensures Wins(sources, targets, s, best.target)
  {
    hide Confidence, Viable, Automatic, EvidenceFor, Total;
    var t :| t in targets && Viable(s, t) && best == CandidateOf(s, t);
    BestConfidence(s, t);
    forall u | u in targets && u != t && Viable(s, u) ensures Confidence(s, t) - Confidence(s, u) > MARGIN {
      assert CandidateOf(s, u) in options && CandidateOf(s, u) != best;
      BestConfidence(s, u);
    }
    forall r | r in sources && r != s && Viable(r, t) ensures Confidence(s, t) - Confidence(r, t) > MARGIN {
      assert CandidateOf(r, t) in contenders && CandidateOf(r, t) != best;
      BestConfidence(r, t);
    }
  }

  lemma {:induction false} BestConfidence(s: Column, t: Column)
    ensures CandidateOf(s, t).confidence == Confidence(s, t)
    ensures CandidateOf(s, t).source == s && CandidateOf(s, t).target == t
  {
  }

  /** Conversely a winning pair is the best option of its source and the best contender for its target. */
  lemma {:induction false} WinsAssigned(
    sources: seq<Column>, targets: seq<Column>, s: Column, t: Column, options: seq<Candidate>)
    requires Wins(sources, targets, s, t) && AreOptions(options, s, targets)
    ensures options != [] && BestOf(options) == CandidateOf(s, t)
    ensures forall c :: c in options && c != CandidateOf(s, t) ==> CandidateOf(s, t).confidence - c.confidence > MARGIN
  {
    hide Confidence, Viable, Automatic, EvidenceFor, Total, BestOf;
    var best := CandidateOf(s, t);
    assert best in options;
    forall c | c in options && c != best ensures best.confidence - c.confidence > MARGIN {
      var u :| u in targets && Viable(s, u) && c == CandidateOf(s, u);
      BestConfidence(s, u);
      BestConfidence(s, t);
    }
    BestIsBest(options, best);
    if BestOf(options) != best { HigherRank(BestOf(options), best); }
  }

  lemma {:induction false} HigherRank(c: Candidate, d: Candidate)
    requires RankLe(c, d)
    ensures c.confidence >= d.confidence
  {
  }

  lemma {:induction false} WinsContends(
    sources: seq<Column>, targets: seq<Column>, s: Column, t: Column, contenders: seq<Candidate>)
    requires Wins(sources, targets, s, t) && AreContenders(contenders, sources, t)
    ensures contenders != [] && BestOf(contenders) == CandidateOf(s, t)
    ensures forall c :: c in contenders && c != CandidateOf(s, t) ==> CandidateOf(s, t).confidence - c.confidence > MARGIN
  {
    hide Confidence, Viable, Automatic, EvidenceFor, Total, BestOf;
    var best := CandidateOf(s, t);
    assert best in contenders;
    forall c | c in contenders && c != best ensures best.confidence - c.confidence > MARGIN {
      var r :| r in sources && Viable(r, t) && c == CandidateOf(r, t);
      BestConfidence(r, t);
      BestConfidence(s, t);
    }
    BestIsBest(contenders, best);
    if BestOf(contenders) != best { HigherRank(BestOf(contenders), best); }
  }

  /** `None` without any viable option; otherwise the assigned candidate, or ambiguity. */
  datatype Match = NoOption | Assigned(candidate: Candidate) | Ambiguity

  method MatchSource(sources: seq<Column>, targets: seq<Column>, s: Column) returns (m: Match)
    requires s in sources
    ensures m.NoOption? <==> !HasViable(s, targets)
    ensures m.Assigned? <==> exists t :: Wins(sources, targets, s, t)
    ensures m.Assigned? ==> Wins(sources, targets, s, m.candidate.target) && m.candidate == CandidateOf(s, m.candidate.target)
  {
    hide Wins, Viable, Automatic, AreOptions, AreContenders, BestOf, EvidenceFor, Total;
    var options := ViableFor(s, targets);
    NoOptions(options, s, targets);
    if options == [] {
      NoWinner(sources, targets, s);
      return NoOption;
    }
    var best := FindBest(options);
    IsOption(options, s, targets, best);
    var contenders := ContendersFor(sources, best.target);
    var sourceClose := HasRival(best, options);
    var targetClose := HasRival(best, contenders);
    var first: Option<Candidate> := None;
    if contenders != [] {
      var leading := FindBest(contenders);
      first := Some(leading);
    }
    AutomaticMeans(s, best.target);
    if best.confidence >= THRESHOLD && (best.compatibility == Exact || best.compatibility == Safe)
       && first == Some(best) && !sourceClose && !targetClose {
      AssignedWins(sources, targets, s, options, contenders, best);
      return Assigned(best);
    }
    forall t ensures !Wins(sources, targets, s, t) {
      if Wins(sources, targets, s, t) {
        WinsAssigned(sources, targets, s, t, options);
        WinsAutomatic(sources, targets, s, t);
        BestConfidence(s, t);
        WinsContends(sources, targets, s, t, contenders);
      }
    }
    m := Ambiguity;
  }

  lemma {:induction false} NoOptions(options: seq<Candidate>, s: Column, targets: seq<Column>)
    requires AreOptions(options, s, targets)
    ensures options == [] <==> !HasViable(s, targets)
  {
    hide Viable;
    if options != [] { assert options[0] in options; }
    if t :| t in targets && Viable(s, t) { assert CandidateOf(s, t) in options; }
  }

  lemma {:induction false} NoWinner(sources: seq<Column>, targets: seq<Column>, s: Column)
    requires !HasViable(s, targets)
    ensures !exists t :: Wins(sources, targets, s, t)
  {
    hide Viable, Automatic, Confidence;
  }

  lemma {:induction false} IsOption(options: seq<Candidate>, s: Column, targets: seq<Column>, c: Candidate)
    requires AreOptions(options, s, targets) && c in options
    ensures c == CandidateOf(s, c.target) && c.target in targets
  {
    hide Viable, EvidenceFor, Total;
  }

  lemma {:induction false} AutomaticMeans(s: Column, t: Column)
    ensures var c := CandidateOf(s, t);
            Automatic(s, t) <==> c.confidence >= THRESHOLD && (c.compatibility == Exact || c.compatibility == Safe)
  {
    hide EvidenceFor, Total;
  }

  lemma {:induction false} WinsAutomatic(sources: seq<Column>, targets: seq<Column>, s: Column, t: Column)
    requires Wins(sources, targets, s, t)
    ensures Automatic(s, t)
  {
    hide Automatic;
  }

  // ---------------------------------------------------------------- the proposal

  function CodeName(c: Code): string {
    match c
    case EXACT_NATIVE_NAME => "EXACT_NATIVE_NAME"
    case CASE_INSENSITIVE_NAME => "CASE_INSENSITIVE_NAME"
    case NORMALIZED_NAME => "NORMALIZED_NAME"
    case TOKEN_NAME_MATCH => "TOKEN_NAME_MATCH"
    case EXACT_CANONICAL_TYPE => "EXACT_CANONICAL_TYPE"
    case SAFE_TYPE_COMPATIBILITY => "SAFE_TYPE_COMPATIBILITY"
    case LOSSY_TYPE_COMPATIBILITY => "LOSSY_TYPE_COMPATIBILITY"
    case INCOMPATIBLE_TYPE => "INCOMPATIBLE_TYPE"
    case UNKNOWN_TYPE => "UNKNOWN_TYPE"
    case LENGTH_OR_PRECISION_COMPATIBLE => "LENGTH_OR_PRECISION_COMPATIBLE"
    case NULLABILITY_COMPATIBLE => "NULLABILITY_COMPATIBLE"
    case NULLABILITY_MISMATCH => "NULLABILITY_MISMATCH"
    case ORDINAL_PROXIMITY => "ORDINAL_PROXIMITY"
    case AMBIGUOUS_CANDIDATE => "AMBIGUOUS_CANDIDATE"
    case NO_VIABLE_CANDIDATE => "NO_VIABLE_CANDIDATE"
  }

  /** The explanation is a fixed text per code, represented by the code itself. */
  function Detail(c: Code): Evidence {
    Evidence(CodeName(c), CodeName(c), if Weight(c) == 0 then None else Some(Finite(Weight(c) as real / 100.0)))
  }

  function Details(cs: seq<Code>): (r: seq<Evidence>)
    ensures |r| == |cs|
  {
    seq(|cs|, i requires 0 <= i < |cs| => Detail(cs[i]))
  }

  function Share(hundredths: int): Float {
    Finite(hundredths as real / 100.0)
  }

  /** A target whose name agrees, but whose type does not. */
  predicate NamedClash(c: Candidate) {
    c.compatibility == Incompatible && exists i :: 0 <= i < |c.codes| && IsNameEvidence(c.codes[i])
  }

  ghost predicate HasClash(s: Column, targets: seq<Column>) {
    exists t :: t in targets && NamedClash(CandidateOf(s, t))
  }

  function SuggestedFor(c: Candidate): Suggestion {
    Suggestion(c.source.name, Some(c.target.name), Share(c.confidence), c.compatibility, Suggested, Details(c.codes))
  }

  function AmbiguousFor(s: Column, targets: seq<Column>): Suggestion {
    if targets == [] then Suggestion(s.name, None, Share(0), Unclear, Ambiguous, Details([AMBIGUOUS_CANDIDATE]))
    else
      var d := BestOf(CandidatesOf(s, targets));
      Suggestion(s.name, None, Share(d.confidence), d.compatibility, Ambiguous,
                 Details(d.codes) + Details([AMBIGUOUS_CANDIDATE]))
  }

  function UnmatchedFor(s: Column): Suggestion {
    Suggestion(s.name, None, Share(0), Unclear, Unmatched, Details([NO_VIABLE_CANDIDATE]))
  }

  /** The one suggestion a source column gets. */
  ghost predicate IsSuggestion(x: Suggestion, sources: seq<Column>, targets: seq<Column>, s: Column) {
    if exists t :: Wins(sources, targets, s, t) then
      exists t :: Wins(sources, targets, s, t) && x == SuggestedFor(CandidateOf(s, t))
    else if HasViable(s, targets) || HasClash(s, targets) then x == AmbiguousFor(s, targets)
    else x == UnmatchedFor(s)
  }

  /** Columns with a property, in order. */
  ghost function NamesWhere(cs: seq<Column>, f: Column -> bool): seq<string> {
    if cs == [] then [] else (if f(cs[0]) then [cs[0].name] else []) + NamesWhere(cs[1..], f)
  }

  ghost function Unpaired(sources: seq<Column>, targets: seq<Column>): Column -> bool {
    t => !exists s :: Wins(sources, targets, s, t)
  }

  ghost function WithoutAny(sources: seq<Column>, targets: seq<Column>): Column -> bool {
    s => !HasViable(s, targets) && !HasClash(s, targets)
  }

  ghost function Undecided(sources: seq<Column>, targets: seq<Column>): Column -> bool {
    s => HasViable(s, targets) && !exists t :: Wins(sources, targets, s, t)
  }

  /** The whole proposal, for columns in review order. */
  ghost predicate IsProposal(p: MappingPlan, source: Table, target: Table) {
    var ss, ts := OrderedColumns(source.columns), OrderedColumns(target.columns);
    && p.sourceTable == source.identity && p.targetTable == target.identity && p.warnings == []
    && |p.suggestions| == |ss|
    && (forall i :: 0 <= i < |ss| ==> IsSuggestion(p.suggestions[i], ss, ts, ss[i]))
    && p.unmatchedSources == NamesWhere(ss, WithoutAny(ss, ts))
    && p.unmatchedTargets == NamesWhere(ts, Unpaired(ss, ts))
    && p.ambiguousSources == NamesWhere(ss, Undecided(ss, ts))
  }

  lemma {:induction false} NamesWhereMore(cs: seq<Column>, c: Column, f: Column -> bool)
    ensures NamesWhere(cs + [c], f) == NamesWhere(cs, f) + if f(c) then [c.name] else []
  {
    if cs == [] {
      assert [] + [c] == [c] && [c][1..] == [];
    } else {
      assert (cs + [c])[0] == cs[0] && (cs + [c])[1..] == cs[1..] + [c];
      NamesWhereMore(cs[1..], c, f);
    }
  }

  method FindClash(s: Column, targets: seq<Column>) returns (found: bool)
    ensures found <==> HasClash(s, targets)
  {
    hide NamedClash, EvidenceFor, Total;
    for i := 0 to |targets|
      invariant forall j :: 0 <= j < i ==> !NamedClash(CandidateOf(s, targets[j]))
    {
      var c := Score(s, targets[i]);
      if NamedClash(c) {
        assert targets[i] in targets;
        return true;
      }
    }
    found := false;
  }

  method Diagnose(s: Column, targets: seq<Column>) returns (x: Suggestion)
    ensures x == AmbiguousFor(s, targets)
  {
    hide BestOf, EvidenceFor, Total, Details;
    if targets == [] { return AmbiguousFor(s, targets); }
    var all: seq<Candidate> := [];
    for i := 0 to |targets|
      invariant |all| == i && forall j :: 0 <= j < i ==> all[j] == CandidateOf(s, targets[j])
    {
      var c := Score(s, targets[i]);
      all := all + [c];
    }
    assert all == CandidatesOf(s, targets);
    var d := FindBest(all);
    x := Suggestion(s.name, None, Share(d.confidence), d.compatibility, Ambiguous,
                    Details(d.codes) + Details([AMBIGUOUS_CANDIDATE]));
  }

  /** A conservative one-to-one proposal; what is not clearly right stays visible for review. */
  method Suggest(source: Table, target: Table) returns (p: MappingPlan)
    requires UniqueNames(source.columns) && UniqueNames(target.columns)
    ensures IsProposal(p, source, target)
  {
    hide Wins, HasViable, HasClash, NamesWhere, EvidenceFor, Total, UniqueNames, OrderedColumns, AmbiguousFor,
         UnmatchedFor, SuggestedFor, CandidateOf;
    OrderedKeeps(source.columns);
    OrderedKeeps(target.columns);
    var ss, ts := OrderedColumns(source.columns), OrderedColumns(target.columns);
    var suggestions: seq<Suggestion> := [];
    var unmatched: seq<string>, ambiguous: seq<string>, taken: set<string> := [], [], {};
    NothingNamed(WithoutAny(ss, ts), Undecided(ss, ts));
    for i := 0 to |ss|
      invariant |suggestions| == i
      invariant forall j :: 0 <= j < i ==> IsSuggestion(suggestions[j], ss, ts, ss[j])
      invariant unmatched == NamesWhere(ss[..i], WithoutAny(ss, ts))
      invariant ambiguous == NamesWhere(ss[..i], Undecided(ss, ts))
      invariant forall n :: n in taken <==> exists j, t :: 0 <= j < i && Wins(ss, ts, ss[j], t) && t.name == n
    {
      var s := ss[i];
      assert ss[..i + 1] == ss[..i] + [s];
      NamesWhereMore(ss[..i], s, WithoutAny(ss, ts));
      NamesWhereMore(ss[..i], s, Undecided(ss, ts));
      ghost var before := taken;
      var m := MatchSource(ss, ts, s);
      if m.Assigned? {
        suggestions := suggestions + [SuggestedFor(m.candidate)];
        taken := taken + {m.candidate.target.name};
        WinnerViable(ss, ts, s, m.candidate.target);
        OneMoreTaken(ss, ts, i, m.candidate.target, before);
      } else {
        var clash := FindClash(s, ts);
        if m.Ambiguity? || clash {
          var x := Diagnose(s, ts);
          suggestions := suggestions + [x];
          if m.Ambiguity? { ambiguous := ambiguous + [s.name]; }
        } else {
          suggestions := suggestions + [UnmatchedFor(s)];
          unmatched := unmatched + [s.name];
        }
        NoMoreTaken(ss, ts, i, before);
      }
    }
    assert ss[..|ss|] == ss;
    var free := FreeTargets(ss, ts, taken);
    p := MappingPlan(source.identity, target.identity, suggestions, unmatched, free, ambiguous, []);
  }

  lemma {:induction false} NothingNamed(f: Column -> bool, g: Column -> bool)
    ensures NamesWhere([], f) == [] && NamesWhere([], g) == []
  {
  }

  lemma {:induction false} WinnerViable(sources: seq<Column>, targets: seq<Column>, s: Column, t: Column)
    requires Wins(sources, targets, s, t)
    ensures HasViable(s, targets) && t in targets
  {
    hide Viable, Automatic, Confidence;
  }

  lemma {:induction false} OneMoreTaken(ss: seq<Column>, ts: seq<Column>, i: nat, t: Column, taken: set<string>)
    requires i < |ss| && Wins(ss, ts, ss[i], t)
    requires forall n :: n in taken <==> exists j, u :: 0 <= j < i && Wins(ss, ts, ss[j], u) && u.name == n
    ensures forall n :: n in taken + {t.name} <==>
                        exists j, u :: 0 <= j < i + 1 && Wins(ss, ts, ss[j], u) && u.name == n
  {
    hide Wins;
    forall n ensures n in taken + {t.name} <==>
                     exists j, u :: 0 <= j < i + 1 && Wins(ss, ts, ss[j], u) && u.name == n
    {
      if j, u :| 0 <= j < i + 1 && Wins(ss, ts, ss[j], u) && u.name == n {
        if j == i { WinsTwice(ss, ts, ss[i], t, u); }
      }
    }
  }

  lemma {:induction false} WinsTwice(ss: seq<Column>, ts: seq<Column>, s: Column, t: Column, u: Column)
    requires Wins(ss, ts, s, t) && Wins(ss, ts, s, u)
    ensures t == u
  {
    hide Wins;
    WinsOnce(ss, ts, s, t, s, u);
  }

  lemma {:induction false} NoMoreTaken(ss: seq<Column>, ts: seq<Column>, i: nat, taken: set<string>)
    requires i < |ss| && !exists t :: Wins(ss, ts, ss[i], t)
    requires forall n :: n in taken <==> exists j, u :: 0 <= j < i && Wins(ss, ts, ss[j], u) && u.name == n
    ensures forall n :: n in taken <==> exists j, u :: 0 <= j < i + 1 && Wins(ss, ts, ss[j], u) && u.name == n
  {
    hide Wins;
  }

  method FreeTargets(ss: seq<Column>, ts: seq<Column>, taken: set<string>) returns (free: seq<string>)
    requires UniqueNames(ts)
    requires forall n :: n in taken <==> exists j, t :: 0 <= j < |ss| && Wins(ss, ts, ss[j], t) && t.name == n
    ensures free == NamesWhere(ts, Unpaired(ss, ts))
  {
    hide Wins, NamesWhere, UniqueNames;
    free := [];
    NothingNamed(Unpaired(ss, ts), Unpaired(ss, ts));
    for i := 0 to |ts|
      invariant free == NamesWhere(ts[..i], Unpaired(ss, ts))
    {
      assert ts[..i + 1] == ts[..i] + [ts[i]];
      NamesWhereMore(ts[..i], ts[i], Unpaired(ss, ts));
      TakenMeans(ss, ts, taken, ts[i]);
      if ts[i].name !in taken { free := free + [ts[i].name]; }
    }
    assert ts[..|ts|] == ts;
  }

  lemma {:induction false} TakenMeans(ss: seq<Column>, ts: seq<Column>, taken: set<string>, t: Column)
    requires UniqueNames(ts) && t in ts
    requires forall n :: n in taken <==> exists j, u :: 0 <= j < |ss| && Wins(ss, ts, ss[j], u) && u.name == n
    ensures t.name in taken <==> exists s :: Wins(ss, ts, s, t)
  {
    hide Viable, Automatic, Confidence;
    if t.name in taken {
      var j, u :| 0 <= j < |ss| && Wins(ss, ts, ss[j], u) && u.name == t.name;
      SameColumn(ts, t, u);
    }
    if s :| Wins(ss, ts, s, t) {
      var j :| 0 <= j < |ss| && ss[j] == s;
    }
  }

  lemma {:induction false} SameColumn(ts: seq<Column>, t: Column, u: Column)
    requires UniqueNames(ts) && t in ts && u in ts && t.name == u.name
    ensures t == u
  {
    var i :| 0 <= i < |ts| && ts[i] == t;
    var j :| 0 <= j < |ts| && ts[j] == u;
  }
}
