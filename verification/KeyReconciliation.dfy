/**
 * Comparing two key multisets, when that comparison may be made, and what it shows: the keys match
 * exactly when both sides hold the same keys, each once; and a target that holds the image of the
 * source under an eligible plan misses no key and has no extra one.
 */
module KeyReconciliation {
  import opened Common
  import opened MappingModel
  import opened SqlMeaning
  import opened Transformation
  import opened CompiledPlan
  import V = ValidationMeaning
  import opened KeyBatches

  // ---------------------------------------------------------------- counting

  type Counter = map<Key, nat>

  /** A counter with the multiplicities of a multiset, and no key it does not hold. */
  ghost predicate Counts(c: Counter, s: multiset<Key>) {
    forall k :: (k in c <==> k in s) && (k in c ==> c[k] == s[k])
  }

  method CountKeys(batches: seq<seq<Key>>) returns (c: Counter)
    ensures Counts(c, multiset(Flatten(batches)))
  {
    hide Counts, Flatten;
    c := map[];
    CountsNothing();
    FlattenEnds(batches);
    ghost var done: seq<Key> := [];
    for i := 0 to |batches|
      invariant Counts(c, multiset(done)) && done + Flatten(batches[i..]) == Flatten(batches)
    {
      FlattenStep(batches, i);
      var batch := batches[i];
      assert done + batch[..0] == done;
      for j := 0 to |batch|
        invariant Counts(c, multiset(done + batch[..j]))
      {
        ghost var before := done + batch[..j];
        assert done + batch[..j + 1] == before + [batch[j]];
        OneMoreKey(c, before, batch[j]);
        c := c[batch[j] := (if batch[j] in c then c[batch[j]] else 0) + 1];
      }
      assert batch[..|batch|] == batch;
      assert done + (batch + Flatten(batches[i + 1..])) == (done + batch) + Flatten(batches[i + 1..]);
      done := done + batch;
    }
    assert batches[|batches|..] == [] && done + [] == done;
  }

  lemma {:induction false} FlattenStep<T>(parts: seq<seq<T>>, i: nat)
    requires i < |parts|
    ensures Flatten(parts[i..]) == parts[i] + Flatten(parts[i + 1..])
  {
    assert parts[i..][0] == parts[i] && parts[i..][1..] == parts[i + 1..];
  }

  lemma {:induction false} FlattenEnds<T>(parts: seq<seq<T>>)
    ensures Flatten(parts[0..]) == Flatten(parts) && Flatten(parts[|parts|..]) == []
  {
    assert parts[0..] == parts;
  }

  lemma {:induction false} CountsNothing()
    ensures Counts(map[], multiset([]))
  {
  }

  lemma {:induction false} OneMoreKey(c: Counter, keys: seq<Key>, k: Key)
    requires Counts(c, multiset(keys))
    ensures Counts(c[k := (if k in c then c[k] else 0) + 1], multiset(keys + [k]))
  {
    assert multiset(keys + [k]) == multiset(keys) + multiset{k};
  }

  /** The counter of what remains when every key of the other counter is taken away. */
  function Subtract(a: Counter, b: Counter): Counter {
    map k | k in a && a[k] > (if k in b then b[k] else 0) :: a[k] - (if k in b then b[k] else 0)
  }

  lemma {:induction false} SubtractCounts(a: Counter, b: Counter, s: multiset<Key>, t: multiset<Key>)
    requires Counts(a, s) && Counts(b, t)
    ensures Counts(Subtract(a, b), s - t)
  {
  }

  lemma {:induction false} Copies(k: Key, n: nat)
    ensures |multiset{}[k := n]| == n
  {
    if n == 0 {
      assert multiset{}[k := 0] == multiset{};
    } else {
      Copies(k, n - 1);
      assert multiset{}[k := n] == multiset{}[k := n - 1] + multiset{k};
    }
  }

  lemma {:induction false} WithoutKey(s: multiset<Key>, k: Key)
    ensures |s[k := 0]| + s[k] == |s|
  {
    assert s == s[k := 0] + multiset{}[k := s[k]];
    Copies(k, s[k]);
  }

  method SumOf(c: Counter, ghost s: multiset<Key>) returns (sum: nat)
    requires Counts(c, s)
    ensures sum == |s|
  {
    sum := 0;
    var keys := c.Keys;
    ghost var rest := s;
    while keys != {}
      invariant keys <= c.Keys && sum + |rest| == |s|
      invariant forall k :: rest[k] == if k in keys then c[k] else 0
      decreases keys
    {
      var k :| k in keys;
      WithoutKey(rest, k);
      sum := sum + c[k];
      rest := rest[k := 0];
      keys := keys - {k};
    }
    assert rest == multiset{};
  }

  /** One for every repetition of a key. */
  method DuplicatesOf(c: Counter, ghost s: multiset<Key>) returns (sum: nat)
    requires Counts(c, s)
    ensures sum == |s| - |c.Keys|
  {
    sum := 0;
    var keys := c.Keys;
    ghost var rest := s;
    while keys != {}
      invariant keys <= c.Keys && sum + |rest| - |keys| == |s| - |c.Keys|
      invariant forall k :: rest[k] == if k in keys then c[k] else 0
      decreases keys
    {
      var k :| k in keys;
      WithoutKey(rest, k);
      assert c[k] > 0;
      if c[k] > 1 { sum := sum + c[k] - 1; }
      rest := rest[k := 0];
      keys := keys - {k};
    }
    assert rest == multiset{};
  }

  // ---------------------------------------------------------------- reconciliation

  datatype KeyCounts = KeyCounts(
    source: nat, target: nat, missing: nat, extra: nat, sourceDuplicates: nat, targetDuplicates: nat)
  {
    predicate Matches() {
      !(missing > 0 || extra > 0 || sourceDuplicates > 0 || targetDuplicates > 0)
    }
  }

  /** Differences and repetitions of two key lists. */
  ghost predicate Compares(c: KeyCounts, source: seq<Key>, target: seq<Key>) {
    && c.source == |source| && c.target == |target|
    && c.missing == |multiset(source) - multiset(target)| && c.extra == |multiset(target) - multiset(source)|
    && c.sourceDuplicates == |source| - |Members(source)| && c.targetDuplicates == |target| - |Members(target)|
  }

  function Members<T(==)>(xs: seq<T>): set<T> {
    set x | x in xs
  }

  method ReconcileBatches(sourceBatches: seq<seq<Key>>, targetBatches: seq<seq<Key>>) returns (c: KeyCounts)
    ensures Compares(c, Flatten(sourceBatches), Flatten(targetBatches))
  {
    hide Counts, Flatten, Subtract;
    ghost var s, t := multiset(Flatten(sourceBatches)), multiset(Flatten(targetBatches));
    var source := CountKeys(sourceBatches);
    var target := CountKeys(targetBatches);
    SubtractCounts(source, target, s, t);
    SubtractCounts(target, source, t, s);
    SameMembers(source, Flatten(sourceBatches));
    SameMembers(target, Flatten(targetBatches));
    MembersFewer(Flatten(sourceBatches));
    MembersFewer(Flatten(targetBatches));
    var sourceCount := SumOf(source, s);
    var targetCount := SumOf(target, t);
    var missing := SumOf(Subtract(source, target), s - t);
    var extra := SumOf(Subtract(target, source), t - s);
    var sourceDuplicates := DuplicatesOf(source, s);
    var targetDuplicates := DuplicatesOf(target, t);
    c := KeyCounts(sourceCount, targetCount, missing, extra, sourceDuplicates, targetDuplicates);
  }

  lemma {:induction false} SameMembers(c: Counter, keys: seq<Key>)
    requires Counts(c, multiset(keys))
    ensures c.Keys == Members(keys)
  {
    forall k ensures k in c.Keys <==> k in Members(keys) { assert k in multiset(keys) <==> k in keys; }
  }

  lemma {:induction false} MembersFewer<T>(xs: seq<T>)
    ensures |Members(xs)| <= |xs|
    ensures |Members(xs)| == |xs| <==> Distinct(xs)
  {
    if xs == [] {
      assert Members(xs) == {};
    } else {
      var x, rest := xs[0], xs[1..];
      MembersFewer(rest);
      assert xs == [x] + rest;
      assert Members(xs) == {x} + Members(rest);
      if x in rest {
        assert Members(xs) == Members(rest);
        var i :| 0 <= i < |rest| && rest[i] == x;
        assert xs[0] == xs[i + 1];
      } else {
        assert |Members(xs)| == 1 + |Members(rest)|;
        DistinctFirst(x, rest);
      }
    }
  }

  lemma {:induction false} DifferenceEmpty(s: multiset<Key>, t: multiset<Key>)
    ensures |s - t| == 0 && |t - s| == 0 <==> s == t
  {
    if |s - t| == 0 && |t - s| == 0 {
      assert s - t == multiset{} && t - s == multiset{};
      forall k ensures s[k] == t[k] { assert (s - t)[k] == 0 && (t - s)[k] == 0; }
    }
    if s == t { assert s - t == multiset{}; }
  }

  /** The report matches exactly when both sides hold the same keys and none twice. */
  lemma {:induction false} MatchesMeans(c: KeyCounts, source: seq<Key>, target: seq<Key>)
    requires Compares(c, source, target)
    ensures c.Matches() <==> multiset(source) == multiset(target) && Distinct(source) && Distinct(target)
  {
    hide Distinct, Members;
    DifferenceEmpty(multiset(source), multiset(target));
    MembersFewer(source);
    MembersFewer(target);
  }

  lemma {:induction false} SplitCount(s: multiset<Key>, t: multiset<Key>)
    ensures |s - t| + |s * t| == |s|
  {
    assert (s - t) + (s * t) == s;
  }

  /** Keys that are neither missing nor extra are counted alike on both sides. */
  lemma {:induction false} CountsConserved(c: KeyCounts, source: seq<Key>, target: seq<Key>)
    requires Compares(c, source, target)
    ensures c.source - c.missing == c.target - c.extra
  {
    var s, t := multiset(source), multiset(target);
    SplitCount(s, t);
    SplitCount(t, s);
    assert s * t == t * s;
  }

  /** Only the keys matter, not how they were batched or ordered. */
  lemma {:induction false} BatchingIrrelevant(
    c: KeyCounts, d: KeyCounts, source: seq<Key>, target: seq<Key>, source2: seq<Key>, target2: seq<Key>)
    requires Compares(c, source, target) && Compares(d, source2, target2)
    requires multiset(source) == multiset(source2) && multiset(target) == multiset(target2)
    ensures c == d
  {
    assert |multiset(source)| == |source| && |multiset(source2)| == |source2|;
    assert |multiset(target)| == |target| && |multiset(target2)| == |target2|;
    MembersAgree(source, source2);
    MembersAgree(target, target2);
  }

  lemma {:induction false} MembersAgree(a: seq<Key>, b: seq<Key>)
    requires multiset(a) == multiset(b)
    ensures Members(a) == Members(b)
  {
    forall k ensures k in Members(a) <==> k in Members(b) { assert k in multiset(a) <==> k in multiset(b); }
  }

  // ---------------------------------------------------------------- eligibility

  datatype TableMeta = TableMeta(keyCoverageComplete: bool, primaryKey: Option<seq<string>>)

  datatype Reason = MetadataIncomplete | KeyUnavailable | MappingIncomplete | MappingMismatch

  datatype Eligibility = Eligible(source: seq<string>, target: seq<string>) | Ineligible(reason: Reason)

  predicate KnownKey(t: TableMeta) {
    t.primaryKey.Some? && t.primaryKey.value != []
  }

  /** The mapping copies its own source column unchanged. */
  predicate Direct(m: Approval) {
    && IsApproved(m) && m.target.Some? && m.transformation.Some?
    && (m.transformation.value.kind == DirectCopy || m.transformation.value.kind == SourceColumn)
    && m.transformation.value.columns == [m.source]
  }

  /** Whatever the conversions do, the mapping gives each row the value of its own source column. */
  ghost predicate GivesSource(m: Approval)
    requires m.transformation.Some? && ValidExpression(m.transformation.value)
  {
    forall ops: Ops, row: Row :: Denote(ops, m.transformation.value, row) == Cell(row, m.source)
  }

  /**
   * A mapping is direct exactly when it copies its source column, apart from COALESCE, which may happen
   * to do so and is not relied on.
   */
  lemma {:induction false} DirectMeans(m: Approval)
    requires ValidApproval(m) && IsApproved(m) && m.transformation.Some?
    ensures ValidExpression(m.transformation.value)
    ensures m.transformation.value.kind != Coalesce ==> (Direct(m) <==> GivesSource(m))
  {
    hide ValidName;
    var e := m.transformation.value;
    var yes := Ops((_, _) => Flag(true), _ => Flag(true), (_, _) => Flag(true));
    var no := Ops((_, _) => Flag(false), _ => Flag(false), (_, _) => Flag(false));
    var row: Row := map[m.source := Flag(true)];
    if e.kind == Coalesce {
    } else if e.kind == Literal {
      assert Denote(yes, e, row) == e.literal && Denote(yes, e, map[]) == e.literal;
      assert Cell(row, m.source) == Flag(true) && Cell(map[], m.source) == Null;
    } else if e.kind == DirectCopy || e.kind == SourceColumn {
      OneColumn(e.columns);
      assert Denote(yes, e, row) == Cell(row, e.columns[0]);
    } else {
      assert Denote(yes, e, row) == Flag(true) && Denote(no, e, row) == Flag(false);
    }
  }

  lemma {:induction false} OneColumn(columns: seq<string>)
    ensures |columns| == 1 ==> columns == [columns[0]]
  {
  }

  predicate CopiesColumn(ms: seq<Approval>, source: string, target: string) {
    exists m :: m in ms && Direct(m) && m.source == source && m.target == Some(target)
  }

  /** Every source key column arrives unchanged at the key column in the same place. */
  predicate CopiesKey(ms: seq<Approval>, source: seq<string>, target: seq<string>) {
    |source| == |target| && forall i :: 0 <= i < |source| ==> CopiesColumn(ms, source[i], target[i])
  }

  predicate CopiesSomewhere(ms: seq<Approval>, source: string) {
    exists m :: m in ms && Direct(m) && m.source == source
  }

  predicate AllCopied(ms: seq<Approval>, key: seq<string>) {
    forall i :: 0 <= i < |key| ==> CopiesSomewhere(ms, key[i])
  }

  /** The dictionary holds the target of every direct mapping. */
  ghost predicate MapsDirect(mapped: map<string, string>, ms: seq<Approval>) {
    forall c :: (c in mapped <==> CopiesSomewhere(ms, c)) && (c in mapped ==> CopiesColumn(ms, c, mapped[c]))
  }

  predicate OneSourceEach(ms: seq<Approval>) {
    forall i, j :: 0 <= i < j < |ms| ==> ms[i].source != ms[j].source
  }

  lemma {:induction false} ApprovedOnce(xs: seq<Approval>)
    requires OneSourceEach(xs)
    ensures OneSourceEach(OnlyApproved(xs))
  {
    hide IsApproved;
    if xs != [] {
      ApprovedOnce(xs[1..]);
      forall a | a in OnlyApproved(xs[1..]) ensures a.source != xs[0].source {
        var i :| 0 <= i < |xs[1..]| && xs[1..][i] == a;
        assert xs[i + 1] == a;
      }
    }
  }

  /** The constructor of a plan keeps sources apart. */
  lemma {:induction false} SourcesOnce(plan: ApprovedPlan)
    requires ValidPlan(plan)
    ensures OneSourceEach(plan.approvedMappings)
  {
    hide ValidApproval, ValidNames, ValidIdentity, OnlyApproved;
    forall i, j | 0 <= i < j < |plan.approvals| ensures plan.approvals[i].source != plan.approvals[j].source {
      assert Sources(plan.approvals)[i] != Sources(plan.approvals)[j];
    }
    ApprovedOnce(plan.approvals);
  }

  lemma {:induction false} CopiedOnce(ms: seq<Approval>, c: string, a: string, b: string)
    requires OneSourceEach(ms) && CopiesColumn(ms, c, a) && CopiesColumn(ms, c, b)
    ensures a == b
  {
    hide Direct;
    var m :| m in ms && Direct(m) && m.source == c && m.target == Some(a);
    var n :| n in ms && Direct(n) && n.source == c && n.target == Some(b);
    var i :| 0 <= i < |ms| && ms[i] == m;
    var j :| 0 <= j < |ms| && ms[j] == n;
  }

  lemma {:induction false} MapsOneMore(mapped: map<string, string>, ms: seq<Approval>, m: Approval)
    requires MapsDirect(mapped, ms)
    ensures Direct(m) ==> MapsDirect(mapped[m.source := m.target.value], ms + [m])
    ensures !Direct(m) ==> MapsDirect(mapped, ms + [m])
  {
    hide Direct;
    var all := ms + [m];
    forall c ensures CopiesSomewhere(all, c) <==> CopiesSomewhere(ms, c) || (Direct(m) && m.source == c) {
      if n :| n in ms && Direct(n) && n.source == c { assert n in all; }
      if Direct(m) && m.source == c { assert m in all; }
    }
    forall c, t ensures CopiesColumn(all, c, t)
                        <==> CopiesColumn(ms, c, t) || (Direct(m) && m.source == c && m.target == Some(t))
    {
      if n :| n in ms && Direct(n) && n.source == c && n.target == Some(t) { assert n in all; }
      if Direct(m) && m.source == c && m.target == Some(t) { assert m in all; }
    }
    if Direct(m) { DirectHasTarget(m); }
  }

  lemma {:induction false} DirectHasTarget(m: Approval)
    requires Direct(m)
    ensures m.target.Some?
  {
  }

  method DirectTargets(ms: seq<Approval>) returns (mapped: map<string, string>)
    ensures MapsDirect(mapped, ms)
  {
    hide MapsDirect, Direct;
    mapped := map[];
    NothingMapped();
    for i := 0 to |ms|
      invariant MapsDirect(mapped, ms[..i])
    {
      var m := ms[i];
      assert ms[..i + 1] == ms[..i] + [m];
      MapsOneMore(mapped, ms[..i], m);
      if Direct(m) {
        DirectHasTarget(m);
        mapped := mapped[m.source := m.target.value];
      }
    }
    assert ms[..|ms|] == ms;
  }

  lemma {:induction false} NothingMapped()
    ensures MapsDirect(map[], [])
  {
  }

  /** Decides from discovery data and the plan whether exact key comparison is meaningful. */
  method Assess(plan: ApprovedPlan, source: TableMeta, target: TableMeta) returns (e: Eligibility)
    requires ValidPlan(plan)
    ensures e.Eligible? <==> source.keyCoverageComplete && target.keyCoverageComplete
                             && KnownKey(source) && KnownKey(target)
                             && CopiesKey(plan.approvedMappings, source.primaryKey.value, target.primaryKey.value)
    ensures e.Eligible? ==> e.source == source.primaryKey.value && e.target == target.primaryKey.value
    ensures e == Ineligible(MetadataIncomplete) <==> !source.keyCoverageComplete || !target.keyCoverageComplete
    ensures e == Ineligible(KeyUnavailable) <==> source.keyCoverageComplete && target.keyCoverageComplete
                                                 && !(KnownKey(source) && KnownKey(target))
    ensures e == Ineligible(MappingIncomplete) <==>
              && source.keyCoverageComplete && target.keyCoverageComplete && KnownKey(source) && KnownKey(target)
              && !AllCopied(plan.approvedMappings, source.primaryKey.value)
  {
    hide MapsDirect, CopiesColumn, CopiesSomewhere, OneSourceEach, ValidPlan;
    SourcesOnce(plan);
    if !source.keyCoverageComplete || !target.keyCoverageComplete { return Ineligible(MetadataIncomplete); }
    if !KnownKey(source) || !KnownKey(target) { return Ineligible(KeyUnavailable); }
    var mapped := DirectTargets(plan.approvedMappings);
    var key, targetKey := source.primaryKey.value, target.primaryKey.value;
    var found: seq<string> := [];
    for i := 0 to |key|
      invariant |found| == i && forall j :: 0 <= j < i ==> key[j] in mapped && found[j] == mapped[key[j]]
    {
      if key[i] !in mapped {
        UnmappedKey(plan.approvedMappings, mapped, key, targetKey, i);
        assert !AllCopied(plan.approvedMappings, key);
        return Ineligible(MappingIncomplete);
      }
      found := found + [mapped[key[i]]];
    }
    MappedKey(plan.approvedMappings, mapped, key, targetKey, found);
    AllMapped(plan.approvedMappings, mapped, key);
    if found != targetKey { return Ineligible(MappingMismatch); }
    e := Eligible(key, targetKey);
  }

  lemma {:induction false} UnmappedKey(
    ms: seq<Approval>, mapped: map<string, string>, key: seq<string>, targetKey: seq<string>, i: nat)
    requires MapsDirect(mapped, ms) && i < |key| && key[i] !in mapped
    ensures !CopiesKey(ms, key, targetKey) && !CopiesSomewhere(ms, key[i])
  {
    hide Direct, CopiesColumn, CopiesSomewhere;
    if |key| == |targetKey| { CopiedSomewhere(ms, key[i], targetKey[i]); }
  }

  lemma {:induction false} AllMapped(ms: seq<Approval>, mapped: map<string, string>, key: seq<string>)
    requires MapsDirect(mapped, ms) && forall j :: 0 <= j < |key| ==> key[j] in mapped
    ensures AllCopied(ms, key)
  {
    hide CopiesColumn, CopiesSomewhere;
  }

  lemma {:induction false} CopiedSomewhere(ms: seq<Approval>, source: string, target: string)
    ensures CopiesColumn(ms, source, target) ==> CopiesSomewhere(ms, source)
  {
    hide Direct;
  }

  lemma {:induction false} MappedKey(
    ms: seq<Approval>, mapped: map<string, string>, key: seq<string>, targetKey: seq<string>, found: seq<string>)
    requires MapsDirect(mapped, ms) && OneSourceEach(ms)
    requires |found| == |key| && forall j :: 0 <= j < |key| ==> key[j] in mapped && found[j] == mapped[key[j]]
    ensures found == targetKey <==> CopiesKey(ms, key, targetKey)
  {
    hide CopiesColumn, CopiesSomewhere, OneSourceEach;
    if CopiesKey(ms, key, targetKey) {
      forall i | 0 <= i < |key| ensures found[i] == targetKey[i] { CopiedOnce(ms, key[i], found[i], targetKey[i]); }
    }
  }

  // ---------------------------------------------------------------- end to end

  /** The key of every row. */
  function KeysOf(columns: seq<string>, rows: seq<Row>): (r: seq<Key>)
    ensures |r| == |rows| && forall i :: 0 <= i < |rows| ==> r[i] == Cells(rows[i], columns)
  {
    if rows == [] then [] else [Cells(rows[0], columns)] + KeysOf(columns, rows[1..])
  }

  /** One target row carries the key of its source row. */
  lemma {:induction false} KeyCarried(
    ops: Ops, ms: seq<Approval>, source: Row, target: Row, key: seq<string>, targetKey: seq<string>)
    requires Complete(ms) && V.Carries(ops, ms, source, target) && CopiesKey(ms, key, targetKey)
    ensures Cells(source, key) == Cells(target, targetKey)
  {
    hide Cells, Cell, Complete;
    forall i | 0 <= i < |key| ensures Cells(source, key)[i] == Cells(target, targetKey)[i] {
      CellsAt(source, key, i);
      CellsAt(target, targetKey, i);
      ColumnCarried(ops, ms, source, target, key[i], targetKey[i]);
    }
  }

  lemma {:induction false} ColumnCarried(
    ops: Ops, ms: seq<Approval>, source: Row, target: Row, column: string, targetColumn: string)
    requires Complete(ms) && V.Carries(ops, ms, source, target) && CopiesColumn(ms, column, targetColumn)
    ensures Cell(target, targetColumn) == Cell(source, column)
  {
    var m :| m in ms && Direct(m) && m.source == column && m.target == Some(targetColumn);
    var i :| 0 <= i < |ms| && ms[i] == m;
    assert ms[i].target.value == targetColumn;
  }

  lemma {:induction false} KeysPermuted(columns: seq<string>, rows: seq<Row>, others: seq<Row>)
    requires multiset(rows) == multiset(others)
    ensures multiset(KeysOf(columns, rows)) == multiset(KeysOf(columns, others))
  {
    hide Cells;
    var f := (r: Row) => Cells(r, columns);
    MappedPermuted(f, rows, others);
    assert KeysOf(columns, rows) == Mapped(f, rows) && KeysOf(columns, others) == Mapped(f, others);
  }

  /** The image of a source holds exactly the keys of the source. */
  lemma {:induction false} ImageKeys(
    ops: Ops, ms: seq<Approval>, source: seq<Row>, target: seq<Row>, key: seq<string>, targetKey: seq<string>)
    requires Complete(ms) && V.HoldsImage(ops, ms, source, target) && CopiesKey(ms, key, targetKey)
    ensures multiset(KeysOf(key, source)) == multiset(KeysOf(targetKey, target))
  {
    hide Cells, CopiesKey, V.Carries, Complete;
    var arranged :| multiset(arranged) == multiset(target) && |arranged| == |source|
                    && forall i :: 0 <= i < |source| ==> V.Carries(ops, ms, source[i], arranged[i]);
    hide KeysOf;
    KeysPermuted(targetKey, arranged, target);
    KeysCarried(ops, ms, source, arranged, key, targetKey);
  }

  lemma {:induction false} KeysCarried(
    ops: Ops, ms: seq<Approval>, source: seq<Row>, target: seq<Row>, key: seq<string>, targetKey: seq<string>)
    requires Complete(ms) && CopiesKey(ms, key, targetKey) && |source| == |target|
    requires forall i :: 0 <= i < |source| ==> V.Carries(ops, ms, source[i], target[i])
    ensures KeysOf(key, source) == KeysOf(targetKey, target)
  {
    hide Cells, CopiesKey, V.Carries, Complete;
    forall i | 0 <= i < |source| ensures KeysOf(key, source)[i] == KeysOf(targetKey, target)[i] {
      KeyCarried(ops, ms, source[i], target[i], key, targetKey);
    }
  }

  /**
   * End to end: whatever the order in which both databases return their keys, no key of an image is
   * missing or extra, and the report matches exactly when the source keys are unique.
   */
  lemma {:induction false} ImageReconciles(
    ops: Ops, plan: ApprovedPlan, source: seq<Row>, target: seq<Row>, key: seq<string>, targetKey: seq<string>,
    sourceKeys: seq<Key>, targetKeys: seq<Key>, c: KeyCounts)
    requires Complete(plan.approvedMappings) && V.HoldsImage(ops, plan.approvedMappings, source, target)
    requires CopiesKey(plan.approvedMappings, key, targetKey)
    requires multiset(sourceKeys) == multiset(KeysOf(key, source))
    requires multiset(targetKeys) == multiset(KeysOf(targetKey, target))
    requires Compares(c, sourceKeys, targetKeys)
    ensures c.missing == 0 && c.extra == 0
    ensures c.Matches() <==> Distinct(KeysOf(key, source))
  {
    hide V.HoldsImage, CopiesKey, Complete, KeysOf, Distinct, Members;
    ImageKeys(ops, plan.approvedMappings, source, target, key, targetKey);
    MatchesMeans(c, sourceKeys, targetKeys);
    DifferenceEmpty(multiset(sourceKeys), multiset(targetKeys));
    DistinctPermuted(sourceKeys, KeysOf(key, source));
    DistinctPermuted(targetKeys, KeysOf(key, source));
  }

  lemma {:induction false} DistinctPermuted(a: seq<Key>, b: seq<Key>)
    requires multiset(a) == multiset(b)
    ensures Distinct(a) <==> Distinct(b)
  {
    hide Distinct;
    MembersFewer(a);
    MembersFewer(b);
    MembersAgree(a, b);
    assert |multiset(a)| == |a| && |multiset(b)| == |b|;
  }
}
