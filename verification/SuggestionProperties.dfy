/** What human review may rely on in every proposal. */
module SuggestionProperties {
  import opened Common
  import opened MappingModel
  import opened Ordering
  import opened Columns
  import opened Suggestions
  import opened SuggestionService

  // ---------------------------------------------------------------- one suggestion

  /** The source column of a suggestion, and a target only for a winning pair. */
  lemma {:induction false} SuggestionShape(x: Suggestion, ss: seq<Column>, ts: seq<Column>, s: Column)
    requires IsSuggestion(x, ss, ts, s)
    ensures x.source == s.name && (x.decision == Suggested <==> x.target.Some?)
    ensures x.target.Some? ==> exists t :: Wins(ss, ts, s, t) && x.target == Some(t.name)
    ensures (exists t :: Wins(ss, ts, s, t)) ==> x.target.Some?
    ensures 0.0 <= x.confidence.Amount() <= 1.0
  {
    hide Wins, HasViable, HasClash, EvidenceFor, Total, Details;
    if exists t :: Wins(ss, ts, s, t) {
      var t :| Wins(ss, ts, s, t) && x == SuggestedFor(CandidateOf(s, t));
      BestConfidence(s, t);
      ShareBounded(CandidateOf(s, t).confidence);
    } else if HasViable(s, ts) || HasClash(s, ts) {
      if ts != [] {
        var d := BestOf(CandidatesOf(s, ts));
        var i :| 0 <= i < |ts| && CandidatesOf(s, ts)[i] == d;
        ShareBounded(d.confidence);
      }
    }
  }

  lemma {:induction false} ShareBounded(n: int)
    requires 0 <= n <= 100
    ensures 0.0 <= Share(n).Amount() <= 1.0
  {
  }

  lemma {:induction false} SuggestionUnique(x: Suggestion, y: Suggestion, ss: seq<Column>, ts: seq<Column>, s: Column)
    requires IsSuggestion(x, ss, ts, s) && IsSuggestion(y, ss, ts, s)
    ensures x == y
  {
    hide Wins, HasViable, HasClash, SuggestedFor, AmbiguousFor, UnmatchedFor, CandidateOf;
    if exists t :: Wins(ss, ts, s, t) {
      var t :| Wins(ss, ts, s, t) && x == SuggestedFor(CandidateOf(s, t));
      var u :| Wins(ss, ts, s, u) && y == SuggestedFor(CandidateOf(s, u));
      WinsTwice(ss, ts, s, t, u);
    }
  }

  // ---------------------------------------------------------------- the whole proposal

  /** Neither a source nor a target is used twice. */
  lemma {:induction false} ProposalOneToOne(p: MappingPlan, source: Table, target: Table)
    requires UniqueNames(source.columns) && UniqueNames(target.columns) && IsProposal(p, source, target)
    ensures OneToOne(p.suggestions)
  {
    hide Wins, IsSuggestion, NamesWhere, OrderedColumns, UniqueNames;
    var ss, ts := OrderedColumns(source.columns), OrderedColumns(target.columns);
    OrderedKeeps(source.columns);
    OrderedKeeps(target.columns);
    forall i, j | 0 <= i < j < |p.suggestions|
      ensures p.suggestions[i].source != p.suggestions[j].source
      ensures p.suggestions[i].target.Some? ==> p.suggestions[i].target != p.suggestions[j].target
    {
      SuggestionShape(p.suggestions[i], ss, ts, ss[i]);
      SuggestionShape(p.suggestions[j], ss, ts, ss[j]);
      NamesDiffer(ss, i, j);
      if p.suggestions[i].target.Some? && p.suggestions[i].target == p.suggestions[j].target {
        var t :| Wins(ss, ts, ss[i], t) && p.suggestions[i].target == Some(t.name);
        var u :| Wins(ss, ts, ss[j], u) && p.suggestions[j].target == Some(u.name);
        WinnerViable(ss, ts, ss[i], t);
        WinnerViable(ss, ts, ss[j], u);
        SameColumn(ts, t, u);
        WinsOnce(ss, ts, ss[i], t, ss[j], u);
      }
    }
  }

  lemma {:induction false} NamesDiffer(cs: seq<Column>, i: nat, j: nat)
    requires UniqueNames(cs) && i < j < |cs|
    ensures cs[i].name != cs[j].name
  {
  }

  /** Only names that agree up to case and separators are ever paired. */
  lemma {:induction false} ProposalByName(p: MappingPlan, source: Table, target: Table, i: nat)
    requires UniqueNames(source.columns) && IsProposal(p, source, target)
    requires i < |p.suggestions| && p.suggestions[i].target.Some?
    ensures NamesAgree(p.suggestions[i].source, p.suggestions[i].target.value)
  {
    hide Wins, IsSuggestion, NamesWhere, OrderedColumns, NamesAgree;
    var ss, ts := OrderedColumns(source.columns), OrderedColumns(target.columns);
    SuggestionShape(p.suggestions[i], ss, ts, ss[i]);
    var t :| Wins(ss, ts, ss[i], t) && p.suggestions[i].target == Some(t.name);
    WinsByName(ss, ts, ss[i], t);
  }

  lemma {:induction false} FirstNameOnce(cs: seq<Column>, f: Column -> bool)
    requires UniqueNames(cs) && cs != []
    requires forall n :: n in NamesWhere(cs[1..], f) ==> exists i :: 0 <= i < |cs[1..]| && cs[1..][i].name == n
    ensures cs[0].name !in NamesWhere(cs[1..], f)
  {
    hide NamesWhere;
    assert forall i :: 0 <= i < |cs[1..]| ==> cs[1..][i].name == cs[i + 1].name;
  }

  lemma {:induction false} NamesWhereMeans(cs: seq<Column>, f: Column -> bool)
    requires UniqueNames(cs)
    ensures Distinct(NamesWhere(cs, f))
    ensures forall n :: n in NamesWhere(cs, f) <==> exists i :: 0 <= i < |cs| && f(cs[i]) && cs[i].name == n
  {
    if cs != [] {
      NamesWhereMeans(cs[1..], f);
      assert cs == [cs[0]] + cs[1..];
      forall n ensures n in NamesWhere(cs, f) <==> exists i :: 0 <= i < |cs| && f(cs[i]) && cs[i].name == n {
        if i :| 0 <= i < |cs| && f(cs[i]) && cs[i].name == n {
          if i > 0 { assert cs[1..][i - 1] == cs[i]; }
        }
        if i :| 0 <= i < |cs[1..]| && f(cs[1..][i]) && cs[1..][i].name == n { assert cs[i + 1].name == n; }
      }
      FirstNameOnce(cs, f);
      if f(cs[0]) { DistinctFirst(cs[0].name, NamesWhere(cs[1..], f)); }
    }
  }

  lemma {:induction false} NamesWhereValid(cs: seq<Column>, f: Column -> bool)
    requires UniqueNames(cs) && ValidColumns(cs)
    ensures ValidNames(NamesWhere(cs, f))
  {
    hide ValidName, NamesWhere, UniqueNames;
    NamesWhereMeans(cs, f);
    var names := NamesWhere(cs, f);
    forall k | 0 <= k < |names| ensures ValidName(names[k]) {
      assert names[k] in names;
      var i :| 0 <= i < |cs| && f(cs[i]) && cs[i].name == names[k];
    }
  }

  lemma {:induction false} OrderedValid(cs: seq<Column>)
    requires UniqueNames(cs) && ValidColumns(cs)
    ensures UniqueNames(OrderedColumns(cs)) && ValidColumns(OrderedColumns(cs))
  {
    hide ValidName, OrderedColumns, UniqueNames;
    OrderedKeeps(cs);
    var sorted := OrderedColumns(cs);
    forall i | 0 <= i < |sorted| ensures ValidName(sorted[i].name) {
      assert sorted[i] in cs;
      var j :| 0 <= j < |cs| && cs[j] == sorted[i];
    }
  }

  /** The plan's constructor never refuses a proposal. */
  lemma {:induction false} ProposalValid(p: MappingPlan, source: Table, target: Table)
    requires ValidTable(source) && ValidTable(target)
    requires UniqueNames(source.columns) && UniqueNames(target.columns) && IsProposal(p, source, target)
    ensures ValidMappingPlan(p)
  {
    hide Wins, IsSuggestion, NamesWhere, OrderedColumns, UniqueNames, ValidName, OneToOne, ValidNames, ValidIdentity;
    var ss, ts := OrderedColumns(source.columns), OrderedColumns(target.columns);
    ProposalOneToOne(p, source, target);
    OrderedValid(source.columns);
    OrderedValid(target.columns);
    NamesWhereValid(ss, WithoutAny(ss, ts));
    NamesWhereValid(ss, Undecided(ss, ts));
    NamesWhereValid(ts, Unpaired(ss, ts));
    forall i | 0 <= i < |p.suggestions| ensures ValidSuggestion(p.suggestions[i]) {
      SuggestionValid(p.suggestions[i], ss, ts, i);
    }
  }

  lemma {:induction false} SuggestionValid(x: Suggestion, ss: seq<Column>, ts: seq<Column>, i: nat)
    requires i < |ss| && IsSuggestion(x, ss, ts, ss[i]) && ValidColumns(ss) && ValidColumns(ts)
    ensures ValidSuggestion(x)
  {
    hide Wins, IsSuggestion;
    SuggestionShape(x, ss, ts, ss[i]);
    if x.target.Some? {
      var t :| Wins(ss, ts, ss[i], t) && x.target == Some(t.name);
      WinnerViable(ss, ts, ss[i], t);
      var j :| 0 <= j < |ts| && ts[j] == t;
    }
  }

  /** A target is assigned exactly when it belongs to a winning pair. */
  lemma {:induction false} WinnerListed(p: MappingPlan, source: Table, target: Table, t: Column)
    requires UniqueNames(source.columns) && UniqueNames(target.columns) && IsProposal(p, source, target)
    requires t in target.columns
    ensures var ss, ts := OrderedColumns(source.columns), OrderedColumns(target.columns);
            (exists s :: Wins(ss, ts, s, t))
            <==> exists i :: 0 <= i < |p.suggestions| && p.suggestions[i].target == Some(t.name)
  {
    hide Wins, IsSuggestion, NamesWhere, OrderedColumns, UniqueNames;
    var ss, ts := OrderedColumns(source.columns), OrderedColumns(target.columns);
    OrderedKeeps(source.columns);
    OrderedKeeps(target.columns);
    if i :| 0 <= i < |p.suggestions| && p.suggestions[i].target == Some(t.name) {
      SuggestionShape(p.suggestions[i], ss, ts, ss[i]);
      var u :| Wins(ss, ts, ss[i], u) && p.suggestions[i].target == Some(u.name);
      WinnerViable(ss, ts, ss[i], u);
      SameColumn(ts, t, u);
    }
    if s :| Wins(ss, ts, s, t) {
      WinnerInSources(ss, ts, s, t);
      var i :| 0 <= i < |ss| && ss[i] == s;
      SuggestionShape(p.suggestions[i], ss, ts, ss[i]);
      var u :| Wins(ss, ts, ss[i], u) && p.suggestions[i].target == Some(u.name);
      WinsTwice(ss, ts, s, t, u);
    }
  }

  /** Every target column is either assigned or listed as unmatched, never both. */
  lemma {:induction false} TargetsCovered(p: MappingPlan, source: Table, target: Table, t: Column)
    requires UniqueNames(source.columns) && UniqueNames(target.columns) && IsProposal(p, source, target)
    requires t in target.columns
    ensures t.name in p.unmatchedTargets
            <==> !exists i :: 0 <= i < |p.suggestions| && p.suggestions[i].target == Some(t.name)
  {
    hide Wins, IsSuggestion, NamesWhere, OrderedColumns, UniqueNames;
    var ss, ts := OrderedColumns(source.columns), OrderedColumns(target.columns);
    OrderedKeeps(target.columns);
    WinnerListed(p, source, target, t);
    NamesWhereMeans(ts, Unpaired(ss, ts));
    var k :| 0 <= k < |ts| && ts[k] == t;
    forall m | 0 <= m < |ts| && ts[m].name == t.name ensures ts[m] == t { SameColumn(ts, t, ts[m]); }
  }

  // ---------------------------------------------------------------- what is not listed

  lemma {:induction false} SameIndex(cs: seq<Column>, i: nat, j: nat)
    requires UniqueNames(cs) && i < |cs| && j < |cs| && cs[i].name == cs[j].name
    ensures i == j
  {
  }

  lemma {:induction false} NamesWhereOne(c: Column, f: Column -> bool)
    ensures NamesWhere([c], f) == if f(c) then [c.name] else []
  {
    assert [c][1..] == [];
  }

  lemma {:induction false} UndecidedListed(ss: seq<Column>, ts: seq<Column>, i: nat)
    requires UniqueNames(ss) && i < |ss|
    ensures ss[i].name in NamesWhere(ss, Undecided(ss, ts))
            <==> HasViable(ss[i], ts) && !exists t :: Wins(ss, ts, ss[i], t)
  {
    hide Wins, HasViable, NamesWhere;
    NamesWhereMeans(ss, Undecided(ss, ts));
    forall k | 0 <= k < |ss| && ss[k].name == ss[i].name ensures k == i {
      SameIndex(ss, k, i);
    }
  }

  lemma {:induction false} WhenAmbiguous(x: Suggestion, ss: seq<Column>, ts: seq<Column>, s: Column)
    requires IsSuggestion(x, ss, ts, s)
    ensures x.decision == Ambiguous <==> (HasViable(s, ts) || HasClash(s, ts)) && !exists t :: Wins(ss, ts, s, t)
  {
    hide Wins, HasViable, HasClash, EvidenceFor, Total, Details, BestOf;
  }

  /**
   * An ambiguous suggestion is missing from the list of ambiguous columns exactly when no target has a
   * compatible type and some target of an incompatible type has a name that agrees.
   */
  lemma {:induction false} AmbiguousUnlisted(p: MappingPlan, source: Table, target: Table, i: nat)
    requires UniqueNames(source.columns) && UniqueNames(target.columns) && IsProposal(p, source, target)
    requires i < |p.suggestions|
    ensures var ss, ts := OrderedColumns(source.columns), OrderedColumns(target.columns);
            (p.suggestions[i].decision == Ambiguous && p.suggestions[i].source !in p.ambiguousSources)
            <==> !HasViable(ss[i], ts) && HasClash(ss[i], ts)
  {
    hide Wins, IsSuggestion, NamesWhere, OrderedColumns, UniqueNames, HasViable, HasClash, Undecided;
    var ss, ts := OrderedColumns(source.columns), OrderedColumns(target.columns);
    OrderedKeeps(source.columns);
    SuggestionShape(p.suggestions[i], ss, ts, ss[i]);
    WhenAmbiguous(p.suggestions[i], ss, ts, ss[i]);
    UndecidedListed(ss, ts, i);
    if !HasViable(ss[i], ts) { NoWinner(ss, ts, ss[i]); }
  }

  /** A clash in terms of the columns: an incompatible type, and equal names or the same words in any order. */
  lemma {:induction false} ClashMeans(s: Column, ts: seq<Column>)
    ensures HasClash(s, ts) <==> exists t :: t in ts && !Viable(s, t) && NameEvidence(s.name, t.name) != []
  {
    hide TypeCompatibility, NameEvidence, NullEvidence, Adjacent, Total;
    forall t ensures NamedClash(CandidateOf(s, t)) <==> !Viable(s, t) && NameEvidence(s.name, t.name) != [] {
      NameEvidenceOnly(s, t);
    }
  }

  lemma {:induction false} NameEvidenceOnly(s: Column, t: Column)
    ensures (exists i :: 0 <= i < |EvidenceFor(s, t)| && IsNameEvidence(EvidenceFor(s, t)[i]))
            <==> NameEvidence(s.name, t.name) != []
  {
    hide TypeCompatibility, Words, Folded, SameWords;
    var names, all := NameEvidence(s.name, t.name), EvidenceFor(s, t);
    if names != [] { assert all[0] == names[0] && IsNameEvidence(all[0]); }
  }

  const ID_NUMBER := Column("id", Some(1), INTEGER, None, None, None, None, None)
  const ID_DATE := Column("id", Some(1), DATE, None, None, None, None, None)

  /** An integer `id` against a date `id` is such a pair. */
  lemma {:induction false} UnlistedExample(identity: TableIdentity, p: MappingPlan)
    requires IsProposal(p, Table(identity, [ID_NUMBER]), Table(identity, [ID_DATE]))
    ensures |p.suggestions| == 1 && p.suggestions[0].decision == Ambiguous && p.suggestions[0].source == "id"
    ensures p.ambiguousSources == [] && p.unmatchedSources == []
  {
    hide IsProposal, HasViable, HasClash, OrderedColumns;
    var source, target := Table(identity, [ID_NUMBER]), Table(identity, [ID_DATE]);
    OneColumn(ID_NUMBER);
    OneColumn(ID_DATE);
    ExampleClash();
    ExampleLists(p, identity);
    AmbiguousUnlisted(p, source, target, 0);
    ExampleSource(p, identity);
  }

  lemma {:induction false} OneColumn(c: Column)
    ensures OrderedColumns([c]) == [c]
  {
    assert [c][1..] == [];
    assert SortBy([], PlaceOf) == [];
  }

  lemma {:induction false} ExampleClash()
    ensures !HasViable(ID_NUMBER, [ID_DATE]) && HasClash(ID_NUMBER, [ID_DATE])
  {
    hide HasClash, NameEvidence;
    assert !Viable(ID_NUMBER, ID_DATE);
    ClashMeans(ID_NUMBER, [ID_DATE]);
    SameNameEvidence("id");
    assert ID_DATE in [ID_DATE];
  }

  lemma {:induction false} SameNameEvidence(n: string)
    ensures NameEvidence(n, n) != []
  {
  }

  lemma {:induction false} ExampleLists(p: MappingPlan, identity: TableIdentity)
    requires IsProposal(p, Table(identity, [ID_NUMBER]), Table(identity, [ID_DATE]))
    requires OrderedColumns([ID_NUMBER]) == [ID_NUMBER] && OrderedColumns([ID_DATE]) == [ID_DATE]
    requires !HasViable(ID_NUMBER, [ID_DATE]) && HasClash(ID_NUMBER, [ID_DATE])
    ensures |p.suggestions| == 1 && p.ambiguousSources == [] && p.unmatchedSources == []
  {
    hide IsSuggestion, HasViable, HasClash, OrderedColumns, Wins;
    NamesWhereOne(ID_NUMBER, Undecided([ID_NUMBER], [ID_DATE]));
    NamesWhereOne(ID_NUMBER, WithoutAny([ID_NUMBER], [ID_DATE]));
  }

  lemma {:induction false} ExampleSource(p: MappingPlan, identity: TableIdentity)
    requires IsProposal(p, Table(identity, [ID_NUMBER]), Table(identity, [ID_DATE])) && |p.suggestions| == 1
    requires OrderedColumns([ID_NUMBER]) == [ID_NUMBER] && OrderedColumns([ID_DATE]) == [ID_DATE]
    ensures p.suggestions[0].source == "id"
  {
    hide IsSuggestion, HasViable, HasClash, OrderedColumns, Wins, NamesWhere;
    SuggestionShape(p.suggestions[0], [ID_NUMBER], [ID_DATE], ID_NUMBER);
  }

  lemma {:induction false} WinnerInSources(ss: seq<Column>, ts: seq<Column>, s: Column, t: Column)
    requires Wins(ss, ts, s, t)
    ensures s in ss
  {
    hide Viable, Automatic, Confidence;
  }

  /** Permuting the discovered columns of either table changes nothing. */
  lemma {:induction false} OrderIrrelevant(p: MappingPlan, q: MappingPlan, source: Table, target: Table, source2: Table, target2: Table)
    requires UniqueNames(source.columns) && UniqueNames(target.columns)
    requires source.identity == source2.identity && target.identity == target2.identity
    requires multiset(source.columns) == multiset(source2.columns) && multiset(target.columns) == multiset(target2.columns)
    requires IsProposal(p, source, target) && IsProposal(q, source2, target2)
    ensures p == q
  {
    hide Wins, IsSuggestion, NamesWhere, OrderedColumns, UniqueNames;
    OrderedPermuted(source.columns, source2.columns);
    OrderedPermuted(target.columns, target2.columns);
    var ss, ts := OrderedColumns(source.columns), OrderedColumns(target.columns);
    forall i | 0 <= i < |ss| ensures p.suggestions[i] == q.suggestions[i] {
      SuggestionUnique(p.suggestions[i], q.suggestions[i], ss, ts, ss[i]);
    }
  }
}
