/**
 * The review order of columns: known ordinal positions first and increasing, names as tie-breakers.
 * Sorting by distinct positions does not depend on the order of the input.
 */
module Ordering {
  import opened Common

  /** Code-point order of strings. */
  predicate StringLe(a: string, b: string)
    decreases |a|
  {
    a == [] || (b != [] && (a[0] < b[0] || (a[0] == b[0] && StringLe(a[1..], b[1..]))))
  }

  lemma {:induction false} StringTotal(a: string, b: string)
    ensures StringLe(a, b) || StringLe(b, a)
    decreases |a|
  {
    if a != [] && b != [] { StringTotal(a[1..], b[1..]); }
  }

  lemma {:induction false} StringTransitive(a: string, b: string, c: string)
    requires StringLe(a, b) && StringLe(b, c)
    ensures StringLe(a, c)
    decreases |a|
  {
    if a != [] && a[0] == b[0] == c[0] { StringTransitive(a[1..], b[1..], c[1..]); }
  }

  lemma {:induction false} StringAntisymmetric(a: string, b: string)
    requires StringLe(a, b) && StringLe(b, a)
    ensures a == b
    decreases |a|
  {
    if a != [] {
      StringAntisymmetric(a[1..], b[1..]);
      assert a == [a[0]] + a[1..] && b == [b[0]] + b[1..];
    }
  }

  /** Code-point order: a proper beginning comes first, and otherwise the first difference decides. */
  lemma {:induction false} StringLeMeans(a: string, b: string)
    ensures StringLe(a, b)
            <==> a <= b || exists k :: 0 <= k < |a| && k < |b| && a[..k] == b[..k] && a[k] < b[k]
    decreases |a|
  {
    if a != [] && b != [] && a[0] == b[0] {
      StringLeMeans(a[1..], b[1..]);
      assert a == [a[0]] + a[1..] && b == [b[0]] + b[1..];
      if k :| 0 <= k < |a[1..]| && k < |b[1..]| && a[1..][..k] == b[1..][..k] && a[1..][k] < b[1..][k] {
        assert a[..k + 1] == [a[0]] + a[1..][..k] && b[..k + 1] == [b[0]] + b[1..][..k];
      }
      if k :| 0 <= k < |a| && k < |b| && a[..k] == b[..k] && a[k] < b[k] {
        assert k > 0;
        assert a[1..][..k - 1] == a[..k][1..] && b[1..][..k - 1] == b[..k][1..];
        assert a[1..][k - 1] < b[1..][k - 1];
      }
    } else if a != [] && b != [] && a[0] < b[0] {
      assert a[..0] == b[..0];
    }
  }

  datatype Position = Position(ordinal: Option<nat>, name: string)

  predicate Le(p: Position, q: Position) {
    if p.ordinal.None? != q.ordinal.None? then p.ordinal.Some?
    else if p.ordinal != q.ordinal then p.ordinal.value < q.ordinal.value
    else StringLe(p.name, q.name)
  }

  lemma {:induction false} LeTotal(p: Position, q: Position)
    ensures Le(p, q) || Le(q, p)
  {
    StringTotal(p.name, q.name);
  }

  lemma {:induction false} LeTransitive(p: Position, q: Position, r: Position)
    requires Le(p, q) && Le(q, r)
    ensures Le(p, r)
  {
    if StringLe(p.name, q.name) && StringLe(q.name, r.name) { StringTransitive(p.name, q.name, r.name); }
  }

  lemma {:induction false} LeAntisymmetric(p: Position, q: Position)
    requires Le(p, q) && Le(q, p)
    ensures p == q
  {
    StringAntisymmetric(p.name, q.name);
  }

  function Insert<T>(x: T, xs: seq<T>, key: T -> Position): seq<T> {
    if xs == [] || Le(key(x), key(xs[0])) then [x] + xs else [xs[0]] + Insert(x, xs[1..], key)
  }

  /** Stable sorting by position. */
  function SortBy<T>(xs: seq<T>, key: T -> Position): seq<T> {
    if xs == [] then [] else Insert(xs[0], SortBy(xs[1..], key), key)
  }

  predicate Sorted<T>(xs: seq<T>, key: T -> Position) {
    forall i, j :: 0 <= i < j < |xs| ==> Le(key(xs[i]), key(xs[j]))
  }

  predicate DistinctKeys<T>(xs: seq<T>, key: T -> Position) {
    forall i, j :: 0 <= i < j < |xs| ==> key(xs[i]) != key(xs[j])
  }

  lemma {:induction false} InsertKeeps<T>(x: T, xs: seq<T>, key: T -> Position)
    requires Sorted(xs, key)
    ensures multiset(Insert(x, xs, key)) == multiset([x]) + multiset(xs)
    ensures Sorted(Insert(x, xs, key), key)
  {
    if xs == [] {
    } else if Le(key(x), key(xs[0])) {
      forall j | 0 <= j < |xs| ensures Le(key(x), key(xs[j])) {
        if j > 0 { LeTransitive(key(x), key(xs[0]), key(xs[j])); }
      }
    } else {
      LeTotal(key(x), key(xs[0]));
      InsertKeeps(x, xs[1..], key);
      var r := Insert(x, xs[1..], key);
      assert xs == [xs[0]] + xs[1..];
      forall j | 0 <= j < |r| ensures Le(key(xs[0]), key(r[j])) {
        assert r[j] in multiset(r);
      }
    }
  }

  lemma {:induction false} SortByCorrect<T>(xs: seq<T>, key: T -> Position)
    ensures multiset(SortBy(xs, key)) == multiset(xs)
    ensures Sorted(SortBy(xs, key), key)
  {
    if xs != [] {
      SortByCorrect(xs[1..], key);
      InsertKeeps(xs[0], SortBy(xs[1..], key), key);
      assert xs == [xs[0]] + xs[1..];
    }
  }

  lemma {:induction false} HeadsAgree<T>(xs: seq<T>, ys: seq<T>, key: T -> Position)
    requires Sorted(xs, key) && Sorted(ys, key) && DistinctKeys(xs, key)
    requires multiset(xs) == multiset(ys) && xs != [] && ys != []
    ensures xs[0] == ys[0]
  {
    hide Le;
    var i := FirstFound(xs, ys);
    var j := FirstFound(ys, xs);
    if i > 0 && j > 0 {
      LeAntisymmetric(key(xs[0]), key(ys[0]));
    }
  }

  /** Two sorted arrangements of the same elements with distinct positions are the same. */
  lemma {:induction false} SortedUnique<T>(xs: seq<T>, ys: seq<T>, key: T -> Position)
    requires Sorted(xs, key) && Sorted(ys, key)
    requires DistinctKeys(xs, key)
    requires multiset(xs) == multiset(ys)
    ensures xs == ys
  {
    hide Le;
    SameLength(xs, ys);
    if xs != [] {
      HeadsAgree(xs, ys, key);
      RestCounts(xs);
      RestCounts(ys);
      SortedUnique(xs[1..], ys[1..], key);
      assert xs == [xs[0]] + xs[1..] && ys == [ys[0]] + ys[1..];
    }
  }

  lemma {:induction false} DistinctKeysPermuted<T>(xs: seq<T>, ys: seq<T>, key: T -> Position)
    requires DistinctKeys(xs, key) && multiset(xs) == multiset(ys)
    ensures DistinctKeys(ys, key)
  {
    forall i, j | 0 <= i < j < |ys| ensures key(ys[i]) != key(ys[j]) {
      if key(ys[i]) == key(ys[j]) {
        assert ys[i] in multiset(xs) && ys[j] in multiset(xs);
        var a :| 0 <= a < |xs| && xs[a] == ys[i];
        var b :| 0 <= b < |xs| && xs[b] == ys[j];
        assert a == b;
        TwiceCounted(ys, i, j);
        OnceCounted(xs, a);
      }
    }
  }

  lemma {:induction false} TwiceCounted<T>(xs: seq<T>, i: nat, j: nat)
    requires i < j < |xs| && xs[i] == xs[j]
    ensures multiset(xs)[xs[i]] >= 2
  {
    assert xs == xs[..i] + [xs[i]] + xs[i + 1..j] + [xs[j]] + xs[j + 1..];
  }

  lemma {:induction false} OnceCounted<T>(xs: seq<T>, i: nat)
    requires i < |xs|
    requires forall j :: 0 <= j < |xs| && j != i ==> xs[j] != xs[i]
    ensures multiset(xs)[xs[i]] == 1
  {
    assert xs == xs[..i] + [xs[i]] + xs[i + 1..];
    assert xs[i] !in xs[..i] && xs[i] !in xs[i + 1..];
  }

  /** Sorting by distinct positions depends on the elements only, not on their order. */
  lemma {:induction false} SortByPermuted<T>(xs: seq<T>, ys: seq<T>, key: T -> Position)
    requires DistinctKeys(xs, key) && multiset(xs) == multiset(ys)
    ensures SortBy(xs, key) == SortBy(ys, key)
  {
    SortByCorrect(xs, key);
    SortByCorrect(ys, key);
    DistinctKeysPermuted(xs, SortBy(xs, key), key);
    SortedUnique(SortBy(xs, key), SortBy(ys, key), key);
  }

  /** What comes earlier: a known position before an unknown one, the smaller position, then the name. */
  ghost predicate ComesFirst(p: Position, q: Position) {
    || (p.ordinal.Some? && q.ordinal.None?)
    || (p.ordinal.Some? && q.ordinal.Some? && p.ordinal.value < q.ordinal.value)
    || (p.ordinal == q.ordinal && StringLe(p.name, q.name))
  }

  /** Sorting puts what comes first in front. */
  lemma {:induction false} SortedFirst<T>(xs: seq<T>, key: T -> Position, i: nat, j: nat)
    requires i < j < |SortBy(xs, key)|
    ensures ComesFirst(key(SortBy(xs, key)[i]), key(SortBy(xs, key)[j]))
  {
    SortByCorrect(xs, key);
  }
}
