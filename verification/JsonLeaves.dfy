/**
 * The leaves of canonical JSON: what holds of every leaf before sorting holds after it. Writing
 * canonical JSON as text fails on integers of more digits than the interpreter converts.
 */
module JsonLeaves {
  import opened Common
  import opened Digits
  import opened Ordering
  import opened CanonicalJson
  import opened JsonTree

  /** A property of every leaf; names of members count as texts. */
  predicate Everywhere(f: Json -> bool, j: Json)
    decreases j
  {
    match j
    case JList(items) => EverywhereEach(f, items)
    case JObject(ms) => EverywhereMembers(f, ms)
    case _ => f(j)
  }

  predicate EverywhereEach(f: Json -> bool, js: seq<Json>)
    decreases js
  {
    js == [] || (Everywhere(f, js[0]) && EverywhereEach(f, js[1..]))
  }

  predicate EverywhereMembers(f: Json -> bool, ms: seq<Member>)
    decreases ms
  {
    ms == [] || (f(JText(ms[0].key)) && Everywhere(f, ms[0].value) && EverywhereMembers(f, ms[1..]))
  }

  /** The same of a value before it is encoded. */
  predicate Throughout(f: Json -> bool, v: Value)
    decreases v
  {
    match v
    case List(items) => ThroughoutEach(f, items)
    case Dict(ms) => ThroughoutEntries(f, ms)
    case Record(fs) => ThroughoutEntries(f, fs)
    case _ => Canonical(v).Some? ==> f(Canonical(v).value)
  }

  predicate ThroughoutEach(f: Json -> bool, vs: seq<Value>)
    decreases vs
  {
    vs == [] || (Throughout(f, vs[0]) && ThroughoutEach(f, vs[1..]))
  }

  predicate ThroughoutEntries(f: Json -> bool, ms: seq<Entry>)
    decreases ms
  {
    ms == [] || (f(JText(ms[0].key)) && Throughout(f, ms[0].value) && ThroughoutEntries(f, ms[1..]))
  }

  lemma {:induction false} EverywhereMember(f: Json -> bool, ms: seq<Member>)
    ensures EverywhereMembers(f, ms) <==> forall m :: m in ms ==> f(JText(m.key)) && Everywhere(f, m.value)
  {
    hide Everywhere;
    if ms != [] {
      EverywhereMember(f, ms[1..]);
      assert ms == [ms[0]] + ms[1..];
    }
  }

  lemma {:induction false} EverywhereSortMembers(f: Json -> bool, ms: seq<Member>)
    ensures EverywhereMembers(f, SortMembers(ms)) <==> EverywhereMembers(f, ms)
  {
    hide Everywhere, EverywhereMembers;
    SortByCorrect(ms, ByKey);
    var sorted := SortMembers(ms);
    forall m ensures m in sorted <==> m in ms { assert m in multiset(sorted) <==> m in multiset(ms); }
    EverywhereMember(f, sorted);
    EverywhereMember(f, ms);
  }

  /** Sorting members keeps the leaves. */
  lemma {:induction false} EverywhereSorted(f: Json -> bool, j: Json)
    ensures Everywhere(f, SortedJson(j)) <==> Everywhere(f, j)
    decreases j
  {
    hide SortMembers;
    match j
    case JList(items) => EverywhereSortedEach(f, items);
    case JObject(ms) =>
      EverywhereSortMembers(f, SortedMembers(ms));
      EverywhereSortedMembers(f, ms);
    case _ =>
  }

  lemma {:induction false} EverywhereSortedEach(f: Json -> bool, js: seq<Json>)
    ensures EverywhereEach(f, SortedEach(js)) <==> EverywhereEach(f, js)
    decreases js
  {
    hide Everywhere, SortedJson;
    if js != [] {
      EverywhereSorted(f, js[0]);
      EverywhereSortedEach(f, js[1..]);
    }
  }

  lemma {:induction false} EverywhereSortedMembers(f: Json -> bool, ms: seq<Member>)
    ensures EverywhereMembers(f, SortedMembers(ms)) <==> EverywhereMembers(f, ms)
    decreases ms
  {
    hide Everywhere, SortedJson;
    if ms != [] {
      EverywhereSorted(f, ms[0].value);
      EverywhereSortedMembers(f, ms[1..]);
    }
  }

  /** The leaves of the canonical form are those of the value. */
  lemma {:induction false} EverywhereCanonical(f: Json -> bool, v: Value)
    requires Encodable(v) && Canonical(v).Some?
    ensures Everywhere(f, Canonical(v).value) <==> Throughout(f, v)
    decreases v
  {
    hide SortMembers;
    match v
    case List(items) => EverywhereCanonicalEach(f, items);
    case Dict(ms) =>
      EverywhereCanonicalMembers(f, ms);
      EverywhereSortMembers(f, CanonicalMembers(ms).value);
    case Record(fs) => EverywhereCanonicalMembers(f, fs);
    case _ =>
  }

  lemma {:induction false} EverywhereCanonicalEach(f: Json -> bool, vs: seq<Value>)
    requires EncodableEach(vs) && CanonicalEach(vs).Some?
    ensures EverywhereEach(f, CanonicalEach(vs).value) <==> ThroughoutEach(f, vs)
    decreases vs
  {
    hide Everywhere, Throughout, Canonical, Encodable;
    if vs != [] {
      EverywhereCanonical(f, vs[0]);
      EverywhereCanonicalEach(f, vs[1..]);
    }
  }

  lemma {:induction false} EverywhereCanonicalMembers(f: Json -> bool, ms: seq<Entry>)
    requires EncodableEntries(ms) && CanonicalMembers(ms).Some?
    ensures EverywhereMembers(f, CanonicalMembers(ms).value) <==> ThroughoutEntries(f, ms)
    decreases ms
  {
    hide Everywhere, Throughout, Canonical, Encodable;
    if ms != [] {
      EverywhereCanonical(f, ms[0].value);
      EverywhereCanonicalMembers(f, ms[1..]);
      var first := Member(ms[0].key, Canonical(ms[0].value).value);
      var rest := CanonicalMembers(ms[1..]).value;
      assert ([first] + rest)[1..] == rest;
    }
  }

  lemma {:induction false} EverywhereEncoded(f: Json -> bool, v: Value)
    requires Encodable(v) && Encode(v).Some?
    ensures Everywhere(f, Encode(v).value) <==> Throughout(f, v)
  {
    hide Everywhere, Throughout, Canonical, Encodable, SortedJson;
    EverywhereCanonical(f, v);
    EverywhereSorted(f, Canonical(v).value);
  }

  lemma {:induction false} ThroughoutField(f: Json -> bool, fs: seq<Entry>, i: nat)
    requires i < |fs| && Throughout(f, Record(fs))
    ensures Throughout(f, fs[i].value)
    decreases i
  {
    hide Canonical;
    if i > 0 { ThroughoutField(f, fs[1..], i - 1); }
  }

  lemma {:induction false} ThroughoutEvery(f: Json -> bool, fs: seq<Entry>)
    requires forall i :: 0 <= i < |fs| ==> f(JText(fs[i].key)) && Throughout(f, fs[i].value)
    ensures ThroughoutEntries(f, fs)
  {
    hide Throughout;
    if fs != [] { ThroughoutEvery(f, fs[1..]); }
  }

  // ---------------------------------------------------------------- writing

  const MAX_DIGITS := 4300

  function Magnitude(i: int): nat {
    if i < 0 then -i else i
  }

  predicate ShortInteger(i: int) {
    |Numeral(Magnitude(i))| <= MAX_DIGITS
  }

  predicate Writable(j: Json) {
    j.JInt? ==> ShortInteger(j.i)
  }

  /** The canonical text, one to one for its tree, if it can be written. */
  function Dump(v: Value): Option<Json> {
    var j := Encode(v);
    if j.Some? && Everywhere(Writable, j.value) then j else None
  }

  lemma {:induction false} DumpMeans(v: Value)
    requires Encodable(v) && Keyed(v)
    ensures Dump(v).Some? <==> Throughout(Writable, v)
    ensures Dump(v).Some? ==> Loads(Dump(v).value) == View(v)
  {
    hide Everywhere, Throughout, Encode, Encodable, Keyed, Loads, View, Writable;
    EncodedView(v);
    EverywhereEncoded(Writable, v);
  }

  lemma {:induction false} PowerDigits(k: nat)
    ensures |Numeral(Power10(k))| == k + 1
  {
    if k > 0 { PowerDigits(k - 1); }
  }
}
