/**
 * Decoded JSON: objects as dictionaries that are read by key. What a record of the models looks like
 * after it was encoded, stored with its members in any order, and decoded.
 */
module JsonTree {
  import opened Common
  import opened CanonicalJson

  datatype Tree =
    | TNull | TBool(b: bool) | TInt(i: int) | TReal(x: Float) | TText(s: string)
    | TList(items: seq<Tree>) | TObject(members: map<string, Tree>)

  function Loads(j: Json): Tree
    decreases j
  {
    match j
    case JNull => TNull
    case JBool(b) => TBool(b)
    case JInt(i) => TInt(i)
    case JReal(x) => TReal(x)
    case JText(s) => TText(s)
    case JList(items) => TList(LoadEach(items))
    case JObject(ms) => TObject(LoadMembers(ms))
  }

  function LoadEach(js: seq<Json>): (r: seq<Tree>)
    ensures |r| == |js|
    decreases js
  {
    if js == [] then [] else [Loads(js[0])] + LoadEach(js[1..])
  }

  function LoadMembers(ms: seq<Member>): map<string, Tree>
    decreases ms
  {
    if ms == [] then map[] else map[ms[0].key := Loads(ms[0].value)] + LoadMembers(ms[1..])
  }

  lemma {:induction false} LoadedKey(ms: seq<Member>, k: string)
    ensures k in LoadMembers(ms) <==> exists i :: 0 <= i < |ms| && ms[i].key == k
  {
    hide Loads;
    if ms != [] {
      LoadedKey(ms[1..], k);
      if i :| 0 <= i < |ms| && ms[i].key == k { if i > 0 { assert ms[1..][i - 1].key == k; } }
      if i :| 0 <= i < |ms[1..]| && ms[1..][i].key == k { assert ms[i + 1].key == k; }
    }
  }

  lemma {:induction false} LoadedAt(ms: seq<Member>, i: nat)
    requires DistinctMembers(ms) && i < |ms|
    ensures ms[i].key in LoadMembers(ms) && LoadMembers(ms)[ms[i].key] == Loads(ms[i].value)
  {
    hide Loads;
    LoadedKey(ms[1..], ms[0].key);
    RestDistinct(ms);
    if i == 0 {
      assert ms[0].key !in LoadMembers(ms[1..]) by {
        forall k | 0 <= k < |ms[1..]| ensures ms[1..][k].key != ms[0].key { assert ms[k + 1].key != ms[0].key; }
      }
    } else {
      LoadedAt(ms[1..], i - 1);
      assert ms[1..][i - 1] == ms[i];
    }
  }

  // ---------------------------------------------------------------- order of members

  lemma {:induction false} LoadEachAt(js: seq<Json>, i: nat)
    requires i < |js|
    ensures LoadEach(js)[i] == Loads(js[i])
  {
    hide Loads;
    if i > 0 { LoadEachAt(js[1..], i - 1); }
  }

  /** Reading by key does not see the order of members. */
  lemma {:induction false} LoadsSame(a: Json, b: Json)
    requires SameJson(a, b)
    ensures Loads(a) == Loads(b)
    decreases a
  {
    hide LoadMembers, LoadEach, SameMembers, DistinctMembers;
    match a
    case JList(xs) =>
      forall i | 0 <= i < |xs| ensures LoadEach(xs)[i] == LoadEach(b.items)[i] {
        LoadsSame(xs[i], b.items[i]);
        LoadEachAt(xs, i);
        LoadEachAt(b.items, i);
      }
      assert LoadEach(xs) == LoadEach(b.items);
    case JObject(ms) => LoadMembersSame(ms, b.members);
    case _ =>
  }

  lemma {:induction false} LoadMembersSame(ms: seq<Member>, ns: seq<Member>)
    requires DistinctMembers(ms) && DistinctMembers(ns) && SameMembers(ms, ns)
    ensures LoadMembers(ms) == LoadMembers(ns)
    decreases ms, 1
  {
    hide Loads, LoadMembers, SameJson, DistinctMembers, HasTwin, HasOrigin;
    var m, n := LoadMembers(ms), LoadMembers(ns);
    forall k ensures (k in m <==> k in n) && (k in m && k in n ==> m[k] == n[k]) {
      LoadedKey(ms, k);
      LoadedKey(ns, k);
      if k in m {
        var i :| 0 <= i < |ms| && ms[i].key == k;
        TwinLoaded(ms, ns, i);
      }
      if k in n {
        var i :| 0 <= i < |ns| && ns[i].key == k;
        OriginKey(ms, ns, i);
      }
    }
  }

  lemma {:induction false} OriginKey(ms: seq<Member>, ns: seq<Member>, k: nat)
    requires k < |ns| && HasOrigin(ms, ns, k)
    ensures exists i :: 0 <= i < |ms| && ms[i].key == ns[k].key
  {
    hide SameJson;
  }

  lemma {:induction false} TwinLoaded(ms: seq<Member>, ns: seq<Member>, i: nat)
    requires DistinctMembers(ms) && DistinctMembers(ns) && i < |ms| && HasTwin(ms, ns, i)
    ensures ms[i].key in LoadMembers(ms) && ms[i].key in LoadMembers(ns)
    ensures LoadMembers(ms)[ms[i].key] == LoadMembers(ns)[ms[i].key]
    decreases ms, 0
  {
    hide Loads, LoadMembers, SameJson, DistinctMembers;
    var k :| 0 <= k < |ns| && ns[k].key == ms[i].key && SameJson(ms[i].value, ns[k].value);
    LoadsSame(ms[i].value, ns[k].value);
    LoadedAt(ms, i);
    LoadedAt(ns, k);
  }

  /** Sorting members does not change what is read. */
  lemma {:induction false} LoadsSorted(j: Json)
    requires Clean(j)
    ensures Loads(SortedJson(j)) == Loads(j)
    decreases j
  {
    hide SortMembers, LoadMembers, LoadEach;
    match j
    case JList(items) => LoadEachSorted(items);
    case JObject(ms) =>
      SortedMembersClean(ms);
      LoadSortMembers(SortedMembers(ms));
      LoadMembersSorted(ms);
    case _ =>
  }

  lemma {:induction false} LoadEachSorted(js: seq<Json>)
    requires CleanEach(js)
    ensures LoadEach(SortedEach(js)) == LoadEach(js)
    decreases js
  {
    hide SortedJson, Clean, Loads;
    if js != [] {
      LoadsSorted(js[0]);
      LoadEachSorted(js[1..]);
    }
  }

  lemma {:induction false} LoadMembersSorted(ms: seq<Member>)
    requires CleanMembers(ms)
    ensures LoadMembers(SortedMembers(ms)) == LoadMembers(ms)
    decreases ms
  {
    hide SortedJson, Clean, Loads;
    if ms != [] {
      LoadsSorted(ms[0].value);
      LoadMembersSorted(ms[1..]);
    }
  }

  lemma {:induction false} LoadSortMembers(ms: seq<Member>)
    requires DistinctMembers(ms)
    ensures LoadMembers(SortMembers(ms)) == LoadMembers(ms)
  {
    hide SortMembers, LoadMembers, DistinctMembers;
    SortMembersKeeps(ms);
    var sorted := SortMembers(ms);
    var m, n := LoadMembers(sorted), LoadMembers(ms);
    forall k ensures (k in m <==> k in n) && (k in m && k in n ==> m[k] == n[k]) {
      LoadedKey(sorted, k);
      LoadedKey(ms, k);
      if k in m {
        var i :| 0 <= i < |sorted| && sorted[i].key == k;
        assert sorted[i] in ms;
        var h :| 0 <= h < |ms| && ms[h] == sorted[i];
        LoadedAt(sorted, i);
        LoadedAt(ms, h);
      }
      if k in n {
        var h :| 0 <= h < |ms| && ms[h].key == k;
        assert ms[h] in sorted;
        var i :| 0 <= i < |sorted| && sorted[i] == ms[h];
      }
    }
  }

  // ---------------------------------------------------------------- values as they are read back

  /** Values every part of which can be encoded. */
  predicate Encodable(v: Value)
    decreases v
  {
    match v
    case NotFinite => false
    case NaiveTime => false
    case Other => false
    case List(items) => EncodableEach(items)
    case Dict(ms) => EncodableEntries(ms)
    case Record(fs) => EncodableEntries(fs)
    case _ => true
  }

  predicate EncodableEach(vs: seq<Value>)
    decreases vs
  {
    vs == [] || (Encodable(vs[0]) && EncodableEach(vs[1..]))
  }

  predicate EncodableEntries(ms: seq<Entry>)
    decreases ms
  {
    ms == [] || (ms[0].key != VENDOR && Encodable(ms[0].value) && EncodableEntries(ms[1..]))
  }

  /** What the decoder sees of an encoded value. */
  function View(v: Value): Tree
    decreases v
  {
    match v
    case Bool(b) => TBool(b)
    case Int(i) => TInt(i)
    case Real(x) => TReal(x)
    case Text(s) => TText(s)
    case Decimal(t) => TText(t)
    case AwareTime(iso) => TText(Zulu(iso))
    case Date(iso) => TText(iso)
    case Code(c) => TText(c)
    case List(items) => TList(ViewEach(items))
    case Dict(ms) => TObject(ViewEntries(ms))
    case Record(fs) => TObject(ViewEntries(fs))
    case _ => TNull
  }

  function ViewEach(vs: seq<Value>): (r: seq<Tree>)
    ensures |r| == |vs|
    decreases vs
  {
    if vs == [] then [] else [View(vs[0])] + ViewEach(vs[1..])
  }

  function ViewEntries(ms: seq<Entry>): map<string, Tree>
    decreases ms
  {
    if ms == [] then map[] else map[ms[0].key := View(ms[0].value)] + ViewEntries(ms[1..])
  }

  lemma {:induction false} ViewLoaded(v: Value)
    requires Encodable(v) && Keyed(v)
    ensures Canonical(v).Some? && Loads(Canonical(v).value) == View(v)
    decreases v
  {
    hide SortMembers, LoadMembers;
    match v
    case List(items) => ViewEachLoaded(items);
    case Dict(ms) =>
      ViewEntriesLoaded(ms);
      CanonicalMembersClean(ms);
      LoadSortMembers(CanonicalMembers(ms).value);
    case Record(fs) => ViewEntriesLoaded(fs);
    case _ =>
  }

  lemma {:induction false} ViewEachLoaded(vs: seq<Value>)
    requires EncodableEach(vs) && KeyedEach(vs)
    ensures CanonicalEach(vs).Some? && LoadEach(CanonicalEach(vs).value) == ViewEach(vs)
    decreases vs
  {
    hide Canonical, Encodable, Keyed, View, Loads;
    if vs != [] {
      ViewLoaded(vs[0]);
      ViewEachLoaded(vs[1..]);
    }
  }

  lemma {:induction false} ViewEntriesLoaded(ms: seq<Entry>)
    requires EncodableEntries(ms) && KeyedMembers(ms)
    ensures CanonicalMembers(ms).Some? && LoadMembers(CanonicalMembers(ms).value) == ViewEntries(ms)
    decreases ms
  {
    hide Canonical, Encodable, Keyed, View, Loads;
    if ms != [] {
      ViewLoaded(ms[0].value);
      ViewEntriesLoaded(ms[1..]);
      var first := Member(ms[0].key, Canonical(ms[0].value).value);
      var rest := CanonicalMembers(ms[1..]).value;
      assert CanonicalMembers(ms).value == [first] + rest;
      assert ([first] + rest)[0] == first && ([first] + rest)[1..] == rest;
    }
  }

  /** An encodable value is encoded, and a decoder sees its view. */
  lemma {:induction false} EncodedView(v: Value)
    requires Encodable(v) && Keyed(v)
    ensures Encode(v).Some? && Loads(Encode(v).value) == View(v)
  {
    hide Canonical, Loads, View, SortedJson, Clean, Encodable, Keyed;
    ViewLoaded(v);
    CanonicalClean(v);
    LoadsSorted(Canonical(v).value);
  }

  /** Whatever order the stored members come back in, the decoder sees the same. */
  lemma {:induction false} StoredView(v: Value, stored: Json)
    requires Encodable(v) && Keyed(v) && Encode(v).Some? && SameJson(stored, Encode(v).value)
    ensures Loads(stored) == View(v)
  {
    hide Canonical, Loads, View, SortedJson, Clean, SameJson, Encodable, Keyed;
    ViewLoaded(v);
    CanonicalClean(v);
    LoadsSorted(Canonical(v).value);
    LoadsSame(stored, Encode(v).value);
  }

  // ---------------------------------------------------------------- fields of records

  lemma {:induction false} ViewKey(fs: seq<Entry>, k: string)
    ensures k in ViewEntries(fs) <==> exists i :: 0 <= i < |fs| && fs[i].key == k
  {
    hide View;
    if fs != [] {
      ViewKey(fs[1..], k);
      if i :| 0 <= i < |fs| && fs[i].key == k { if i > 0 { assert fs[1..][i - 1].key == k; } }
      if i :| 0 <= i < |fs[1..]| && fs[1..][i].key == k { assert fs[i + 1].key == k; }
    }
  }

  lemma {:induction false} ViewField(fs: seq<Entry>, i: nat)
    requires DistinctEntries(fs) && i < |fs|
    ensures fs[i].key in ViewEntries(fs) && ViewEntries(fs)[fs[i].key] == View(fs[i].value)
  {
    hide View;
    ViewKey(fs[1..], fs[0].key);
    EntriesRest(fs);
    if i == 0 {
      assert fs[0].key !in ViewEntries(fs[1..]) by {
        forall k | 0 <= k < |fs[1..]| ensures fs[1..][k].key != fs[0].key { assert fs[k + 1].key != fs[0].key; }
      }
    } else {
      ViewField(fs[1..], i - 1);
      assert fs[1..][i - 1] == fs[i];
    }
  }

  lemma {:induction false} ViewEachAt(vs: seq<Value>, i: nat)
    requires i < |vs|
    ensures ViewEach(vs)[i] == View(vs[i])
  {
    hide View;
    if i > 0 { ViewEachAt(vs[1..], i - 1); }
  }

  // ---------------------------------------------------------------- reading by key

  /** A member that may be missing, with its default. */
  function Get(m: map<string, Tree>, k: string, missing: Tree): Tree {
    if k in m then m[k] else missing
  }

  predicate OnlyKeys(m: map<string, Tree>, names: seq<string>) {
    forall k :: k in m ==> k in names
  }

  function AsText(t: Tree): Option<string> {
    if t.TText? then Some(t.s) else None
  }

  /** Nothing or a text. */
  function AsOptionalText(t: Tree): Option<Option<string>> {
    match t
    case TNull => Some(None)
    case TText(s) => Some(Some(s))
    case _ => None
  }

  function AsOptionalBool(t: Tree): Option<Option<bool>> {
    match t
    case TNull => Some(None)
    case TBool(b) => Some(Some(b))
    case _ => None
  }

  function AsTexts(ts: seq<Tree>): (r: Option<seq<string>>)
    ensures r.Some? ==> |r.value| == |ts|
  {
    if ts == [] then Some([])
    else
      var first, rest := AsText(ts[0]), AsTexts(ts[1..]);
      if first.None? || rest.None? then None else Some([first.value] + rest.value)
  }

  function AsTextList(t: Tree): Option<seq<string>> {
    if t.TList? then AsTexts(t.items) else None
  }

  /** A number, read as a floating-point number. */
  function AsReal(t: Tree): Option<Float> {
    match t
    case TInt(i) => Some(Finite(i as real))
    case TReal(x) => Some(x)
    case _ => None
  }

  function AsOptionalReal(t: Tree): Option<Option<Float>> {
    if t.TNull? then Some(None)
    else
      var x := AsReal(t);
      if x.None? then None else Some(x)
  }

  function TextsValue(ss: seq<string>): (r: seq<Value>)
    ensures |r| == |ss|
  {
    if ss == [] then [] else [Text(ss[0])] + TextsValue(ss[1..])
  }

  lemma {:induction false} TextsBack(ss: seq<string>)
    ensures AsTexts(ViewEach(TextsValue(ss))) == Some(ss)
    ensures EncodableEach(TextsValue(ss)) && KeyedEach(TextsValue(ss))
  {
    if ss != [] {
      TextsBack(ss[1..]);
      assert ss == [ss[0]] + ss[1..];
    }
  }

  function OptionalText(s: Option<string>): Value {
    if s.None? then Nothing else Text(s.value)
  }
}
