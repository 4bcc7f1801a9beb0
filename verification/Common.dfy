/** Small value types shared by every module of the model. */
module Common {

  /** Usable with `:-`, so that a step that finds no value ends the whole computation. */
  datatype Option<+T> = None | Some(value: T) {
    predicate IsFailure() { None? }

    function PropagateFailure<U>(): Option<U>
      requires None?
    {
      None
    }

    function Extract(): T
      requires Some?
    {
      value
    }
  }

  datatype Result<+T, +E> = Ok(value: T) | Err(error: E)

  /** Concatenation of a sequence of sequences. */
  /** A floating-point number; negative zero compares equal to zero and is written differently. */
  datatype Float = Finite(x: real) | NegativeZero {
    function Amount(): real {
      if NegativeZero? then 0.0 else x
    }
  }

  function Flatten<T>(parts: seq<seq<T>>): seq<T> {
    if parts == [] then [] else parts[0] + Flatten(parts[1..])
  }

  lemma {:induction false} FlattenAppend<T>(a: seq<seq<T>>, b: seq<seq<T>>)
    ensures Flatten(a + b) == Flatten(a) + Flatten(b)
  {
    if a == [] {
      assert a + b == b;
    } else {
      assert (a + b)[0] == a[0] && (a + b)[1..] == a[1..] + b;
      FlattenAppend(a[1..], b);
    }
  }

  /** `xs` holds no value twice. */
  predicate Distinct<T(==)>(xs: seq<T>) {
    forall i, j :: 0 <= i < j < |xs| ==> xs[i] != xs[j]
  }

  lemma {:induction false} DistinctFirst<T>(x: T, rest: seq<T>)
    requires x !in rest
    ensures Distinct([x] + rest) <==> Distinct(rest)
  {
    var xs := [x] + rest;
    if Distinct(xs) {
      forall i, j | 0 <= i < j < |rest| ensures rest[i] != rest[j] { assert xs[i + 1] != xs[j + 1]; }
    }
  }

  lemma {:induction false} SameLength<T>(xs: seq<T>, ys: seq<T>)
    requires multiset(xs) == multiset(ys)
    ensures |xs| == |ys|
  {
    assert |multiset(xs)| == |xs| && |multiset(ys)| == |ys|;
  }

  lemma {:induction false} RestCounts<T>(xs: seq<T>)
    requires xs != []
    ensures multiset(xs[1..]) == multiset(xs) - multiset{xs[0]}
  {
    assert xs == [xs[0]] + xs[1..];
  }

  lemma {:induction false} FirstFound<T>(xs: seq<T>, ys: seq<T>) returns (i: nat)
    requires multiset(xs) == multiset(ys) && xs != []
    ensures i < |ys| && ys[i] == xs[0]
  {
    assert xs[0] in multiset(ys);
    i :| 0 <= i < |ys| && ys[i] == xs[0];
  }

  function Without<T>(xs: seq<T>, i: nat): seq<T>
    requires i < |xs|
  {
    xs[..i] + xs[i + 1..]
  }

  lemma {:induction false} RestPermuted<T>(xs: seq<T>, ys: seq<T>, i: nat)
    requires xs != [] && i < |ys| && ys[i] == xs[0] && multiset(xs) == multiset(ys)
    ensures multiset(Without(ys, i)) == multiset(xs[1..])
  {
    RestCounts(xs);
    assert ys == ys[..i] + [ys[i]] + ys[i + 1..];
  }

  function Mapped<A, B>(f: A -> B, xs: seq<A>): (r: seq<B>)
    ensures |r| == |xs|
  {
    seq(|xs|, i requires 0 <= i < |xs| => f(xs[i]))
  }

  lemma {:induction false} MappedRemoved<A, B>(f: A -> B, xs: seq<A>, i: nat)
    requires i < |xs|
    ensures multiset(Mapped(f, xs)) == multiset(Mapped(f, Without(xs, i))) + multiset{f(xs[i])}
  {
    var all, rest := Mapped(f, xs), Mapped(f, Without(xs, i));
    assert all == all[..i] + [all[i]] + all[i + 1..];
    assert rest == all[..i] + all[i + 1..];
  }

  lemma {:induction false} MappedFirst<A, B>(f: A -> B, xs: seq<A>)
    requires xs != []
    ensures multiset(Mapped(f, xs)) == multiset(Mapped(f, xs[1..])) + multiset{f(xs[0])}
  {
    hide Mapped;
    MappedRemoved(f, xs, 0);
    assert Without(xs, 0) == xs[1..];
  }

  /** A function maps permuted elements to permuted results. */
  lemma {:induction false} MappedPermuted<A, B>(f: A -> B, xs: seq<A>, ys: seq<A>)
    requires multiset(xs) == multiset(ys)
    ensures multiset(Mapped(f, xs)) == multiset(Mapped(f, ys))
    decreases xs
  {
    hide Mapped, Without;
    SameLength(xs, ys);
    if xs == [] {
      assert ys == [];
    } else {
      var i := FirstFound(xs, ys);
      RestPermuted(xs, ys, i);
      MappedPermuted(f, xs[1..], Without(ys, i));
      MappedRemoved(f, ys, i);
      MappedFirst(f, xs);
    }
  }

  predicate IsSpace(c: char) {
    || '\t' <= c <= '\r' || c == ' '
    || '\U{1c}' <= c <= '\U{1f}' || c == '\U{85}' || c == '\U{a0}' || c == '\U{1680}'
    || '\U{2000}' <= c <= '\U{200a}' || c == '\U{2028}' || c == '\U{2029}' || c == '\U{202f}'
    || c == '\U{205f}' || c == '\U{3000}'
  }

  /** Nothing is left when white space is stripped. */
  predicate IsBlank(s: string) {
    forall i :: 0 <= i < |s| ==> IsSpace(s[i])
  }

  function FoldedChar(c: char): char {
    if 'A' <= c <= 'Z' then c - 'A' + 'a' else c
  }

  /** Ignoring the case of Latin letters. */
  function Folded(s: string): (r: string)
    ensures |r| == |s|
  {
    seq(|s|, i requires 0 <= i < |s| => FoldedChar(s[i]))
  }
}
