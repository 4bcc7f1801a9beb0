/**
 * Reading every key of a table in bounded, ordered queries: the offset advances by the rows that
 * came back, until a query comes back empty.
 */
module KeyBatches {
  import opened Common
  import opened MappingModel
  import opened SqlMeaning
  import opened Transformation
  import opened KeyBatchSql

  type Key = seq<Scalar>

  // ---------------------------------------------------------------- results

  datatype ResultRow = Tuple(values: seq<Scalar>) | Named(items: seq<(string, Scalar)>) | Unreadable

  datatype QueryResult = QueryResult(columns: seq<string>, rows: seq<ResultRow>)

  function FoldedAll(ss: seq<string>): (r: seq<string>)
    ensures |r| == |ss|
  {
    seq(|ss|, i requires 0 <= i < |ss| => Folded(ss[i]))
  }

  /** An ordered dictionary: a known name keeps its place and takes the new value. */
  function Put(d: seq<(string, Scalar)>, name: string, v: Scalar): seq<(string, Scalar)> {
    if d == [] then [(name, v)]
    else if d[0].0 == name then [(name, v)] + d[1..]
    else [d[0]] + Put(d[1..], name, v)
  }

  function ByName(items: seq<(string, Scalar)>): seq<(string, Scalar)> {
    if items == [] then []
    else
      var last := items[|items| - 1];
      Put(ByName(items[..|items| - 1]), Folded(last.0), last.1)
  }

  function NamesIn(d: seq<(string, Scalar)>): (r: seq<string>)
    ensures |r| == |d|
  {
    seq(|d|, i requires 0 <= i < |d| => d[i].0)
  }

  function ValuesIn(d: seq<(string, Scalar)>): (r: seq<Scalar>)
    ensures |r| == |d|
  {
    seq(|d|, i requires 0 <= i < |d| => d[i].1)
  }

  /** The key a row holds, if its shape is the expected one. */
  function KeyIn(row: ResultRow, names: seq<string>): (k: Option<Key>)
    ensures k.Some? ==> |k.value| == |names|
  {
    match row
    case Tuple(vs) => if |vs| == |names| then Some(vs) else None
    case Named(items) => if NamesIn(ByName(items)) == names then Some(ValuesIn(ByName(items))) else None
    case Unreadable => None
  }

  /** The last value given under a name, when case is ignored. */
  lemma {:induction false} PutNew(d: seq<(string, Scalar)>, name: string, v: Scalar)
    requires name !in NamesIn(d)
    ensures Put(d, name, v) == d + [(name, v)]
  {
    if d == [] {
      assert [] + [(name, v)] == [(name, v)];
    } else {
      assert NamesIn(d)[0] == d[0].0 && NamesIn(d)[1..] == NamesIn(d[1..]);
      PutNew(d[1..], name, v);
      assert d == [d[0]] + d[1..];
    }
  }

  lemma {:induction false} DistinctByName(items: seq<(string, Scalar)>)
    requires Distinct(FoldedAll(NamesIn(items)))
    ensures NamesIn(ByName(items)) == FoldedAll(NamesIn(items)) && ValuesIn(ByName(items)) == ValuesIn(items)
  {
    hide Folded;
    if items != [] {
      var front, last := items[..|items| - 1], items[|items| - 1];
      var all, some := FoldedAll(NamesIn(items)), FoldedAll(NamesIn(front));
      assert all == some + [Folded(last.0)];
      forall i, j | 0 <= i < j < |some| ensures some[i] != some[j] { assert all[i] != all[j]; }
      DistinctByName(front);
      assert Folded(last.0) !in some by {
        forall i | 0 <= i < |some| ensures some[i] != Folded(last.0) { assert all[i] != all[|all| - 1]; }
      }
      PutNew(ByName(front), Folded(last.0), last.1);
      assert NamesIn(ByName(items)) == NamesIn(ByName(front)) + [Folded(last.0)];
      assert ValuesIn(items) == ValuesIn(front) + [last.1];
    }
  }

  /** A row given by names holds a key exactly when its names are the expected ones, in the expected order. */
  lemma {:induction false} NamedRow(items: seq<(string, Scalar)>, names: seq<string>)
    requires Distinct(FoldedAll(NamesIn(items)))
    ensures KeyIn(Named(items), names) == if FoldedAll(NamesIn(items)) == names then Some(ValuesIn(items)) else None
  {
    hide ByName, Distinct, FoldedAll;
    DistinctByName(items);
  }

  /** A row given by position holds a key exactly when it has as many values as there are key columns. */
  lemma {:induction false} TupleRow(vs: seq<Scalar>, names: seq<string>)
    ensures KeyIn(Tuple(vs), names) == if |vs| == |names| then Some(vs) else None
    ensures KeyIn(Unreadable, names) == None
  {
  }

  predicate WellFormed(r: QueryResult, aliases: seq<string>) {
    && FoldedAll(r.columns) == FoldedAll(aliases)
    && forall i :: 0 <= i < |r.rows| ==> KeyIn(r.rows[i], FoldedAll(r.columns)).Some?
  }

  /** The keys of a result, or nothing when any part of it is ambiguous. */
  method Rows(r: QueryResult, aliases: seq<string>) returns (keys: Option<seq<Key>>)
    ensures keys.Some? <==> WellFormed(r, aliases)
    ensures keys.Some? ==> |keys.value| == |r.rows|
    ensures keys.Some? ==>
              forall i :: 0 <= i < |r.rows| ==> KeyIn(r.rows[i], FoldedAll(aliases)) == Some(keys.value[i])
  {
    hide KeyIn, Folded;
    var names := FoldedAll(r.columns);
    if names != FoldedAll(aliases) { return None; }
    var normalized: seq<Key> := [];
    for i := 0 to |r.rows|
      invariant |normalized| == i
      invariant forall j :: 0 <= j < i ==> KeyIn(r.rows[j], names) == Some(normalized[j])
    {
      var key := KeyIn(r.rows[i], names);
      if key.None? { return None; }
      normalized := normalized + [key.value];
    }
    keys := Some(normalized);
  }

  // ---------------------------------------------------------------- the database

  /**
   * A table of keys that does not change while it is read. A query returns at least one row while
   * rows remain, and never more than it asked for or than the connection profile allows; an eager
   * database returns as many as it may. Unless it is reliable, the database may also answer with
   * something that is no such result at all.
   */
  class KeyTable {
    const dialect: Dialect
    const relation: seq<string>
    const columns: seq<string>
    const keys: seq<Key>
    const cap: nat
    const eager: bool
    const reliable: bool
    var queries: nat

    constructor (
      d: Dialect, relation: seq<string>, columns: seq<string>, keys: seq<Key>, cap: nat, eager: bool, reliable: bool)
      ensures this.dialect == d && this.relation == relation && this.columns == columns && this.keys == keys
      ensures this.cap == cap && this.eager == eager && this.reliable == reliable && queries == 0
    {
      this.dialect, this.relation, this.columns, this.keys := d, relation, columns, keys;
      this.cap, this.eager, this.reliable, this.queries := cap, eager, reliable, 0;
    }

    /** Every key has one value per column, and the profile allows rows. */
    predicate Valid() {
      cap > 0 && forall i :: 0 <= i < |keys| ==> |keys[i]| == |columns|
    }

    function Least(a: nat, b: nat): nat {
      if a < b then a else b
    }

    /** The most rows a query may return. */
    function Window(limit: nat, offset: nat): nat
      requires offset <= |keys|
    {
      Least(Least(limit, cap), |keys| - offset)
    }

    /** The result holds the next keys of the table. */
    predicate Delivered(result: QueryResult, q: BatchQuery)
      requires q.offset <= |keys|
    {
      && WellFormed(result, q.aliases) && |result.rows| <= Window(q.limit, q.offset)
      && (forall i :: 0 <= i < |result.rows| ==>
            KeyIn(result.rows[i], FoldedAll(q.aliases)) == Some(keys[q.offset + i]))
      && (q.offset < |keys| ==> result.rows != [])
      && (eager ==> |result.rows| == Window(q.limit, q.offset))
    }

    /** No reader can take the result for an answer to the query. */
    predicate Rejectable(result: QueryResult, q: BatchQuery) {
      !WellFormed(result, q.aliases) || |result.rows| > q.limit
    }

    method Execute(sql: string, maxRows: nat) returns (result: QueryResult)
      requires Valid() && maxRows > 0
      requires var q := ReadBatch(dialect, sql);
               q.Some? && q.value.relation == relation && q.value.keys == columns && |q.value.aliases| == |columns|
               && q.value.limit == maxRows && q.value.offset <= |keys|
      modifies this`queries
      ensures queries == old(queries) + 1
      ensures var q := ReadBatch(dialect, sql).value;
              Delivered(result, q) || (!reliable && Rejectable(result, q))
    {
      hide Folded, ReadBatch, ByName, NamesIn, ValuesIn, FoldedAll, Rejectable;
      var q := ReadBatch(dialect, sql).value;
      var most := Window(q.limit, q.offset);
      var n: nat;
      if most == 0 || eager {
        n := most;
      } else {
        n :| 1 <= n <= most;
      }
      queries := queries + 1;
      if !reliable {
        var other: QueryResult := *;
        if Rejectable(other, q) { return other; }
      }
      result := QueryResult(q.aliases, seq(n, i requires 0 <= i < n => Tuple(keys[q.offset + i])));
    }
  }

  // ---------------------------------------------------------------- reading

  /** A key query can be compiled for the table. */
  predicate Readable(t: KeyTable, batchSize: int) {
    && t.columns != [] && batchSize > 0 && |t.relation| == (if t.dialect == Snowflake then 3 else 2)
    && AllFit(Profile(t.dialect, Validating), t.relation) && AllFit(Profile(t.dialect, Validating), t.columns)
  }

  datatype ReadError = BadBatch | BadRequest | BadName

  /** One batch starts where the previous ended. */
  predicate BatchesOf(batches: seq<seq<Key>>, size: int) {
    forall i :: 0 <= i < |batches| ==> 1 <= |batches[i]| <= size
  }

  lemma {:induction false} OneMoreBatch(batches: seq<seq<Key>>, batch: seq<Key>)
    ensures Flatten(batches + [batch]) == Flatten(batches) + batch
  {
    FlattenAppend(batches, [batch]);
    assert [batch][1..] == [];
    assert Flatten([batch]) == batch + Flatten([]) == batch;
  }

  /** What one well-formed answer adds. */
  lemma {:induction false} NextBatch(keys: seq<Key>, offset: nat, batch: seq<Key>, n: nat)
    requires offset + n <= |keys| && |batch| == n
    requires forall i :: 0 <= i < n ==> batch[i] == keys[offset + i]
    ensures keys[..offset] + batch == keys[..offset + n]
  {
  }

  /**
   * Every key exactly once, in order, whatever the sizes of the answers; one query more than there
   * are batches. An eager database needs no more queries than its row cap forces. An answer that is
   * no result of the query ends the reading.
   */
  method ReadBatches(t: KeyTable, batchSize: int) returns (r: Result<seq<seq<Key>>, ReadError>)
    requires t.Valid()
    modifies t`queries
    ensures r.Ok? ==> Readable(t, batchSize)
    ensures r.Err? ==> !Readable(t, batchSize) || (r.error == BadBatch && !t.reliable)
    ensures r.Ok? ==> Flatten(r.value) == t.keys && BatchesOf(r.value, batchSize)
    ensures r.Ok? ==> t.queries == old(t.queries) + |r.value| + 1 && |r.value| <= |t.keys|
    ensures r.Ok? && t.eager && t.keys != [] ==>
              var window := t.Least(batchSize, t.cap); (|r.value| - 1) * window < |t.keys| <= |r.value| * window
  {
    hide AllFit, ReadBatch, KeyIn, FoldedAll;
    var batches: seq<seq<Key>> := [];
    var offset := 0;
    ghost var window := t.Least(if batchSize > 0 then batchSize else 0, t.cap);
    while true
      invariant 0 <= offset <= |t.keys| && |batches| <= offset
      invariant Flatten(batches) == t.keys[..offset] && BatchesOf(batches, batchSize)
      invariant t.queries == old(t.queries) + |batches|
      invariant offset > 0 ==> batchSize > 0
      invariant t.eager ==> (offset < |t.keys| ==> offset == |batches| * window)
      invariant t.eager && offset == |t.keys| && offset > 0 ==> (|batches| - 1) * window < offset <= |batches| * window
      decreases |t.keys| - offset
    {
      var sql := CompileBatch(t.dialect, t.relation, t.columns, offset, batchSize);
      if sql.Err? { return Err(if sql.error == InvalidRequest then BadRequest else BadName); }
      var result := t.Execute(sql.value, batchSize);
      var keys := Rows(result, KeyAliases(|t.columns|));
      if keys.None? { return Err(BadBatch); }
      var batch := keys.value;
      if |batch| > batchSize { return Err(BadBatch); }
      if batch == [] {
        assert offset == |t.keys| && t.keys[..offset] == t.keys;
        return Ok(batches);
      }
      OneMoreBatch(batches, batch);
      NextBatch(t.keys, offset, batch, |batch|);
      Windows(|batches|, window, offset, |batch|, |t.keys|);
      batches := batches + [batch];
      offset := offset + |batch|;
    }
  }

  /** Full windows follow each other until the last one. */
  lemma {:induction false} Windows(count: nat, window: nat, offset: nat, n: nat, total: nat)
    requires offset < total && offset + n <= total
    ensures offset == count * window && n == window ==> offset + n == (count + 1) * window
    ensures offset == count * window && 0 < n <= window ==> count * window < offset + n <= (count + 1) * window
  {
    assert (count + 1) * window == count * window + window;
  }
}
