/**
 * Canonical artifacts: values are reduced to JSON with sorted members before they are hashed and
 * stored, and reduced again when they are read back from a column that may reorder members. JSON
 * text stands one to one for the sorted tree; objects are unordered (section 4 of RFC 8259).
 */
module CanonicalJson {
  import opened Common
  import opened Ordering

  datatype Json =
    | JNull | JBool(b: bool) | JInt(i: int) | JReal(x: Float) | JText(s: string)
    | JList(items: seq<Json>) | JObject(members: seq<Member>)

  datatype Member = Member(key: string, value: Json)

  /** A value of the domain models. `Record` is a dataclass with its fields in declaration order. */
  datatype Value =
    | Nothing | Bool(b: bool) | Int(i: int) | Real(x: Float) | NotFinite | Text(s: string)
    | Decimal(text: string) | AwareTime(iso: string) | NaiveTime | Date(iso: string) | Code(value: string)
    | List(items: seq<Value>) | Dict(members: seq<Entry>) | Record(fields: seq<Entry>) | Other

  datatype Entry = Entry(key: string, value: Value)

  const VENDOR := "vendor_metadata"

  /** The UTC offset is written as `Z`. */
  function Zulu(s: string): string {
    if s == [] then []
    else if "+00:00" <= s then "Z" + Zulu(s[6..])
    else [s[0]] + Zulu(s[1..])
  }

  function ByKey(m: Member): Position {
    Position(None, m.key)
  }

  function SortMembers(ms: seq<Member>): seq<Member> {
    SortBy(ms, ByKey)
  }

  /** Reduces a value to JSON; dictionaries are sorted, records keep their order, vendor data is dropped. */
  function Canonical(v: Value): Option<Json>
    decreases v
  {
    match v
    case Nothing => Some(JNull)
    case Bool(b) => Some(JBool(b))
    case Int(i) => Some(JInt(i))
    case Real(x) => Some(JReal(x))
    case NotFinite => None
    case Text(s) => Some(JText(s))
    case Decimal(t) => Some(JText(t))
    case AwareTime(iso) => Some(JText(Zulu(iso)))
    case NaiveTime => None
    case Date(iso) => Some(JText(iso))
    case Code(c) => Some(JText(c))
    case List(items) =>
      var js := CanonicalEach(items);
      if js.None? then None else Some(JList(js.value))
    case Dict(ms) =>
      var js := CanonicalMembers(ms);
      if js.None? then None else Some(JObject(SortMembers(js.value)))
    case Record(fs) =>
      var js := CanonicalMembers(fs);
      if js.None? then None else Some(JObject(js.value))
    case Other => None
  }

  function CanonicalEach(vs: seq<Value>): (r: Option<seq<Json>>)
    ensures r.Some? ==> |r.value| == |vs|
    decreases vs
  {
    if vs == [] then Some([])
    else
      var first, rest := Canonical(vs[0]), CanonicalEach(vs[1..]);
      if first.None? || rest.None? then None else Some([first.value] + rest.value)
  }

  function CanonicalMembers(ms: seq<Entry>): Option<seq<Member>>
    decreases ms
  {
    if ms == [] then Some([])
    else if ms[0].key == VENDOR then CanonicalMembers(ms[1..])
    else
      var first, rest := Canonical(ms[0].value), CanonicalMembers(ms[1..]);
      if first.None? || rest.None? then None else Some([Member(ms[0].key, first.value)] + rest.value)
  }

  /** Sorts the members of every object. */
  function SortedJson(j: Json): Json
    decreases j
  {
    match j
    case JList(items) => JList(SortedEach(items))
    case JObject(ms) => JObject(SortMembers(SortedMembers(ms)))
    case _ => j
  }

  function SortedEach(js: seq<Json>): (r: seq<Json>)
    ensures |r| == |js|
    decreases js
  {
    if js == [] then [] else [SortedJson(js[0])] + SortedEach(js[1..])
  }

  function SortedMembers(ms: seq<Member>): (r: seq<Member>)
    ensures |r| == |ms| && forall i :: 0 <= i < |ms| ==> r[i].key == ms[i].key
    decreases ms
  {
    if ms == [] then [] else [Member(ms[0].key, SortedJson(ms[0].value))] + SortedMembers(ms[1..])
  }

  /** What is hashed and stored. */
  function Encode(v: Value): Option<Json> {
    var j := Canonical(v);
    if j.None? then None else Some(SortedJson(j.value))
  }

  /** What reading JSON gives: dictionaries in the order of the text. */
  function FromJson(j: Json): Value
    decreases j
  {
    match j
    case JNull => Nothing
    case JBool(b) => Bool(b)
    case JInt(i) => Int(i)
    case JReal(x) => Real(x)
    case JText(s) => Text(s)
    case JList(items) => List(FromEach(items))
    case JObject(ms) => Dict(FromMembers(ms))
  }

  function FromEach(js: seq<Json>): seq<Value>
    decreases js
  {
    if js == [] then [] else [FromJson(js[0])] + FromEach(js[1..])
  }

  function FromMembers(ms: seq<Member>): seq<Entry>
    decreases ms
  {
    if ms == [] then [] else [Entry(ms[0].key, FromJson(ms[0].value))] + FromMembers(ms[1..])
  }

  // ---------------------------------------------------------------- well-formedness

  predicate DistinctMembers(ms: seq<Member>) {
    forall i, j :: 0 <= i < j < |ms| ==> ms[i].key != ms[j].key
  }

  predicate DistinctEntries(ms: seq<Entry>) {
    forall i, j :: 0 <= i < j < |ms| ==> ms[i].key != ms[j].key
  }

  /** Dictionaries and records hold every key once. */
  predicate Keyed(v: Value)
    decreases v
  {
    match v
    case List(items) => KeyedEach(items)
    case Dict(ms) => DistinctEntries(ms) && KeyedMembers(ms)
    case Record(fs) => DistinctEntries(fs) && KeyedMembers(fs)
    case _ => true
  }

  predicate KeyedEach(vs: seq<Value>)
    decreases vs
  {
    vs == [] || (Keyed(vs[0]) && KeyedEach(vs[1..]))
  }

  predicate KeyedMembers(ms: seq<Entry>)
    decreases ms
  {
    ms == [] || (Keyed(ms[0].value) && KeyedMembers(ms[1..]))
  }

  /** No member twice, and none that canonicalisation drops. */
  predicate Clean(j: Json)
    decreases j
  {
    match j
    case JList(items) => CleanEach(items)
    case JObject(ms) => DistinctMembers(ms) && CleanMembers(ms)
    case _ => true
  }

  predicate CleanEach(js: seq<Json>)
    decreases js
  {
    js == [] || (Clean(js[0]) && CleanEach(js[1..]))
  }

  predicate CleanMembers(ms: seq<Member>)
    decreases ms
  {
    ms == [] || (ms[0].key != VENDOR && Clean(ms[0].value) && CleanMembers(ms[1..]))
  }

  // ---------------------------------------------------------------- canonical values are clean

  lemma {:induction false} SortMembersKeeps(ms: seq<Member>)
    requires DistinctMembers(ms)
    ensures DistinctMembers(SortMembers(ms)) && |SortMembers(ms)| == |ms|
    ensures forall m :: m in SortMembers(ms) <==> m in ms
  {
    SortByCorrect(ms, ByKey);
    var sorted := SortMembers(ms);
    SameLength(sorted, ms);
    KeysApart(ms);
    DistinctKeysPermuted(ms, sorted, ByKey);
    forall m ensures m in sorted <==> m in ms { assert m in multiset(sorted) <==> m in multiset(ms); }
    forall i, j | 0 <= i < j < |sorted| ensures sorted[i].key != sorted[j].key {
      assert ByKey(sorted[i]) != ByKey(sorted[j]);
    }
  }

  lemma {:induction false} KeysApart(ms: seq<Member>)
    ensures DistinctKeys(ms, ByKey) <==> DistinctMembers(ms)
  {
    if DistinctKeys(ms, ByKey) {
      forall i, j | 0 <= i < j < |ms| ensures ms[i].key != ms[j].key { assert ByKey(ms[i]) != ByKey(ms[j]); }
    }
  }

  lemma {:induction false} CleanMember(ms: seq<Member>, m: Member)
    requires CleanMembers(ms) && m in ms
    ensures m.key != VENDOR && Clean(m.value)
  {
    hide Clean;
    if m != ms[0] {
      assert m in ms[1..];
      CleanMember(ms[1..], m);
    }
  }

  lemma {:induction false} CleanFromMembers(ms: seq<Member>)
    requires forall m :: m in ms ==> m.key != VENDOR && Clean(m.value)
    ensures CleanMembers(ms)
  {
    hide Clean;
    if ms != [] {
      assert ms[0] in ms;
      CleanFromMembers(ms[1..]);
    }
  }

  lemma {:induction false} SortMembersClean(ms: seq<Member>)
    requires DistinctMembers(ms) && CleanMembers(ms)
    ensures DistinctMembers(SortMembers(ms)) && CleanMembers(SortMembers(ms))
  {
    hide Clean, SortMembers, CleanMembers, DistinctMembers;
    SortMembersKeeps(ms);
    forall m | m in SortMembers(ms) ensures m.key != VENDOR && Clean(m.value) { CleanMember(ms, m); }
    CleanFromMembers(SortMembers(ms));
  }

  lemma {:induction false} CanonicalClean(v: Value)
    requires Keyed(v) && Canonical(v).Some?
    ensures Clean(Canonical(v).value)
    decreases v
  {
    hide SortMembers;
    match v
    case List(items) => CanonicalEachClean(items);
    case Dict(ms) =>
      CanonicalMembersClean(ms);
      SortMembersClean(CanonicalMembers(ms).value);
    case Record(fs) => CanonicalMembersClean(fs);
    case _ =>
  }

  lemma {:induction false} CanonicalEachClean(vs: seq<Value>)
    requires KeyedEach(vs) && CanonicalEach(vs).Some?
    ensures CleanEach(CanonicalEach(vs).value)
    decreases vs
  {
    hide Canonical, Keyed, Clean;
    if vs != [] {
      CanonicalClean(vs[0]);
      CanonicalEachClean(vs[1..]);
    }
  }

  lemma {:induction false} CanonicalMembersClean(ms: seq<Entry>)
    requires DistinctEntries(ms) && KeyedMembers(ms) && CanonicalMembers(ms).Some?
    ensures var js := CanonicalMembers(ms).value;
            DistinctMembers(js) && CleanMembers(js)
            && forall m :: m in js ==> exists i :: 0 <= i < |ms| && ms[i].key == m.key
    decreases ms
  {
    hide Canonical, Keyed, Clean;
    if ms != [] {
      EntriesRest(ms);
      CanonicalMembersClean(ms[1..]);
      var rest := CanonicalMembers(ms[1..]).value;
      forall m | m in rest ensures exists i :: 0 <= i < |ms| && ms[i].key == m.key {
        var i :| 0 <= i < |ms[1..]| && ms[1..][i].key == m.key;
        assert ms[i + 1].key == m.key;
      }
      if ms[0].key != VENDOR {
        CanonicalClean(ms[0].value);
        FirstKeyNew(ms, rest);
        var first := Member(ms[0].key, Canonical(ms[0].value).value);
        PrependMember(first, rest);
        assert ms[0].key == first.key;
      }
    }
  }

  lemma {:induction false} EntriesRest(ms: seq<Entry>)
    requires DistinctEntries(ms) && ms != []
    ensures DistinctEntries(ms[1..])
  {
    forall i, j | 0 <= i < j < |ms[1..]| ensures ms[1..][i].key != ms[1..][j].key { assert ms[i + 1].key != ms[j + 1].key; }
  }

  lemma {:induction false} RestDistinct(ms: seq<Member>)
    requires DistinctMembers(ms) && ms != []
    ensures DistinctMembers(ms[1..])
  {
    forall i, j | 0 <= i < j < |ms[1..]| ensures ms[1..][i].key != ms[1..][j].key { assert ms[i + 1].key != ms[j + 1].key; }
  }

  lemma {:induction false} FirstKeyNew(ms: seq<Entry>, rest: seq<Member>)
    requires DistinctEntries(ms) && ms != []
    requires forall m :: m in rest ==> exists i :: 0 <= i < |ms[1..]| && ms[1..][i].key == m.key
    ensures forall m :: m in rest ==> m.key != ms[0].key
  {
    forall m | m in rest ensures m.key != ms[0].key {
      var i :| 0 <= i < |ms[1..]| && ms[1..][i].key == m.key;
      assert ms[i + 1].key == m.key;
    }
  }

  lemma {:induction false} PrependMember(m: Member, rest: seq<Member>)
    requires DistinctMembers(rest) && forall n :: n in rest ==> n.key != m.key
    ensures DistinctMembers([m] + rest)
  {
    var all := [m] + rest;
    forall i, j | 0 <= i < j < |all| ensures all[i].key != all[j].key {
      if i == 0 { assert all[j] == rest[j - 1] && rest[j - 1] in rest; } else { assert rest[i - 1].key != rest[j - 1].key; }
    }
  }

  // ---------------------------------------------------------------- sorting once is enough

  lemma {:induction false} SortedClean(j: Json)
    requires Clean(j)
    ensures Clean(SortedJson(j))
    decreases j
  {
    hide SortMembers;
    match j
    case JList(items) => SortedEachClean(items);
    case JObject(ms) =>
      SortedMembersClean(ms);
      SortMembersClean(SortedMembers(ms));
    case _ =>
  }

  lemma {:induction false} SortedEachClean(js: seq<Json>)
    requires CleanEach(js)
    ensures CleanEach(SortedEach(js))
    decreases js
  {
    hide SortedJson, Clean;
    if js != [] {
      SortedClean(js[0]);
      SortedEachClean(js[1..]);
    }
  }

  lemma {:induction false} SortedMembersClean(ms: seq<Member>)
    requires DistinctMembers(ms) && CleanMembers(ms)
    ensures DistinctMembers(SortedMembers(ms)) && CleanMembers(SortedMembers(ms))
    decreases ms
  {
    hide SortedJson, Clean;
    if ms != [] {
      RestDistinct(ms);
      SortedClean(ms[0].value);
      SortedMembersClean(ms[1..]);
    }
  }

  lemma {:induction false} AlreadySorted(ms: seq<Member>)
    requires DistinctMembers(ms)
    ensures SortMembers(SortMembers(ms)) == SortMembers(ms)
  {
    SortByCorrect(ms, ByKey);
    SortByCorrect(SortMembers(ms), ByKey);
    SortMembersKeeps(ms);
    KeysApart(SortMembers(ms));
    SortedUnique(SortMembers(ms), SortMembers(SortMembers(ms)), ByKey);
  }

  lemma {:induction false} SortedMembersAt(ms: seq<Member>, i: nat)
    requires i < |ms|
    ensures SortedMembers(ms)[i] == Member(ms[i].key, SortedJson(ms[i].value))
  {
    hide SortedJson;
    if i > 0 { SortedMembersAt(ms[1..], i - 1); }
  }

  /** Members with sorted values stay as they are. */
  lemma {:induction false} FixedMembers(ms: seq<Member>)
    requires forall m :: m in ms ==> SortedJson(m.value) == m.value
    ensures SortedMembers(ms) == ms
  {
    hide SortedJson;
    forall i | 0 <= i < |ms| ensures SortedMembers(ms)[i] == ms[i] {
      SortedMembersAt(ms, i);
      assert ms[i] in ms;
    }
  }

  lemma {:induction false} SortedTwice(j: Json)
    requires Clean(j)
    ensures SortedJson(SortedJson(j)) == SortedJson(j)
    decreases j
  {
    hide SortMembers;
    match j
    case JList(items) => SortedEachTwice(items);
    case JObject(ms) =>
      var inner := SortedMembers(ms);
      SortedMembersClean(ms);
      SortMembersKeeps(inner);
      SortedMembersTwice(ms);
      assert forall m :: m in SortMembers(inner) ==> SortedJson(m.value) == m.value;
      FixedMembers(SortMembers(inner));
      AlreadySorted(inner);
    case _ =>
  }

  lemma {:induction false} SortedEachTwice(js: seq<Json>)
    requires CleanEach(js)
    ensures SortedEach(SortedEach(js)) == SortedEach(js)
    decreases js
  {
    hide SortedJson, Clean;
    if js != [] {
      SortedTwice(js[0]);
      SortedEachTwice(js[1..]);
    }
  }

  lemma {:induction false} SortedMembersTwice(ms: seq<Member>)
    requires CleanMembers(ms)
    ensures forall m :: m in SortedMembers(ms) ==> SortedJson(m.value) == m.value
    decreases ms
  {
    hide SortedJson, Clean;
    if ms != [] {
      SortedTwice(ms[0].value);
      SortedMembersTwice(ms[1..]);
    }
  }

  // ---------------------------------------------------------------- reading back

  /** Canonicalising what was read back sorts it and changes nothing else. */
  lemma {:induction false} CanonicalFromJson(j: Json)
    requires Clean(j)
    ensures Canonical(FromJson(j)) == Some(SortedJson(j))
    decreases j
  {
    hide SortMembers;
    match j
    case JList(items) => CanonicalFromEach(items);
    case JObject(ms) => CanonicalFromMembers(ms);
    case _ =>
  }

  lemma {:induction false} CanonicalFromEach(js: seq<Json>)
    requires CleanEach(js)
    ensures CanonicalEach(FromEach(js)) == Some(SortedEach(js))
    decreases js
  {
    hide Canonical, FromJson, SortedJson, Clean;
    if js != [] {
      CanonicalFromJson(js[0]);
      CanonicalFromEach(js[1..]);
    }
  }

  lemma {:induction false} CanonicalFromMembers(ms: seq<Member>)
    requires CleanMembers(ms)
    ensures CanonicalMembers(FromMembers(ms)) == Some(SortedMembers(ms))
    decreases ms
  {
    hide Canonical, FromJson, SortedJson, Clean;
    if ms != [] {
      CanonicalFromJson(ms[0].value);
      CanonicalFromMembers(ms[1..]);
    }
  }

  /** Encoding is idempotent: an artifact that is read and encoded again has the same bytes. */
  lemma {:induction false} EncodeIdempotent(v: Value)
    requires Keyed(v) && Encode(v).Some?
    ensures Encode(FromJson(Encode(v).value)) == Encode(v)
  {
    hide Canonical, FromJson, SortedJson, Clean, Keyed;
    var c := Canonical(v).value;
    CanonicalClean(v);
    SortedClean(c);
    CanonicalFromJson(SortedJson(c));
    SortedTwice(c);
  }

  // ---------------------------------------------------------------- order of members

  /** Equal up to the order of members, at every depth. */
  ghost predicate SameJson(a: Json, b: Json)
    decreases a
  {
    match a
    case JList(xs) => b.JList? && |xs| == |b.items| && forall i :: 0 <= i < |xs| ==> SameJson(xs[i], b.items[i])
    case JObject(ms) => b.JObject? && DistinctMembers(ms) && DistinctMembers(b.members) && SameMembers(ms, b.members)
    case _ => a == b
  }

  ghost predicate SameMembers(ms: seq<Member>, ns: seq<Member>)
    decreases ms, 1
  {
    (forall i :: 0 <= i < |ms| ==> HasTwin(ms, ns, i)) && forall k :: 0 <= k < |ns| ==> HasOrigin(ms, ns, k)
  }

  ghost predicate HasTwin(ms: seq<Member>, ns: seq<Member>, i: nat)
    requires i < |ms|
    decreases ms, 0
  {
    exists k :: 0 <= k < |ns| && ns[k].key == ms[i].key && SameJson(ms[i].value, ns[k].value)
  }

  ghost predicate HasOrigin(ms: seq<Member>, ns: seq<Member>, k: nat)
    requires k < |ns|
    decreases ms, 0
  {
    exists i :: 0 <= i < |ms| && ns[k].key == ms[i].key && SameJson(ms[i].value, ns[k].value)
  }

  lemma {:induction false} DistinctMultiset<T>(xs: seq<T>, ys: seq<T>)
    requires Distinct(xs) && Distinct(ys) && forall x :: x in xs <==> x in ys
    ensures multiset(xs) == multiset(ys)
  {
    forall x ensures multiset(xs)[x] == multiset(ys)[x] {
      OneEach(xs, x);
      OneEach(ys, x);
    }
  }

  lemma {:induction false} OneEach<T>(xs: seq<T>, x: T)
    requires Distinct(xs)
    ensures multiset(xs)[x] == if x in xs then 1 else 0
  {
    if x in xs {
      var i :| 0 <= i < |xs| && xs[i] == x;
      OnceCounted(xs, i);
    }
  }

  lemma {:induction false} MembersDistinct(ms: seq<Member>)
    requires DistinctMembers(ms)
    ensures Distinct(ms)
  {
  }

  lemma {:induction false} SortedEachAt(js: seq<Json>, i: nat)
    requires i < |js|
    ensures SortedEach(js)[i] == SortedJson(js[i])
  {
    hide SortedJson;
    if i > 0 { SortedEachAt(js[1..], i - 1); }
  }

  /** The order of members is lost in the canonical form. */
  lemma {:induction false} SortedSame(a: Json, b: Json)
    requires SameJson(a, b)
    ensures SortedJson(a) == SortedJson(b)
    decreases a
  {
    hide SortMembers, SortedEach, SameMembers, DistinctMembers;
    match a
    case JList(xs) => SortedSameEach(xs, b.items);
    case JObject(ms) => SortedSameMembers(ms, b.members);
    case _ =>
  }

  lemma {:induction false} SortedSameEach(xs: seq<Json>, ys: seq<Json>)
    requires |xs| == |ys| && forall i :: 0 <= i < |xs| ==> SameJson(xs[i], ys[i])
    ensures SortedEach(xs) == SortedEach(ys)
    decreases xs
  {
    hide SortedJson, SameJson, SortedEach;
    forall i | 0 <= i < |xs| ensures SortedEach(xs)[i] == SortedEach(ys)[i] {
      SortedSame(xs[i], ys[i]);
      SortedEachAt(xs, i);
      SortedEachAt(ys, i);
    }
  }

  /** Two members that are the same reduce to the same member. */
  lemma {:induction false} SortedSamePair(ms: seq<Member>, ns: seq<Member>, i: nat, k: nat)
    requires i < |ms| && k < |ns| && ns[k].key == ms[i].key && SameJson(ms[i].value, ns[k].value)
    ensures SortedMembers(ms)[i] == SortedMembers(ns)[k]
    decreases ms, 0
  {
    hide SortedJson, SameJson, SortedMembers;
    SortedSame(ms[i].value, ns[k].value);
    SortedMembersAt(ms, i);
    SortedMembersAt(ns, k);
  }

  lemma {:induction false} SortedTwin(ms: seq<Member>, ns: seq<Member>, i: nat)
    requires i < |ms| && HasTwin(ms, ns, i)
    ensures SortedMembers(ms)[i] in SortedMembers(ns)
    decreases ms, 1
  {
    hide SameJson, SortedMembers;
    var k :| 0 <= k < |ns| && ns[k].key == ms[i].key && SameJson(ms[i].value, ns[k].value);
    SortedSamePair(ms, ns, i, k);
  }

  lemma {:induction false} SortedOrigin(ms: seq<Member>, ns: seq<Member>, k: nat)
    requires k < |ns| && HasOrigin(ms, ns, k)
    ensures SortedMembers(ns)[k] in SortedMembers(ms)
    decreases ms, 1
  {
    hide SameJson, SortedMembers;
    var i :| 0 <= i < |ms| && ns[k].key == ms[i].key && SameJson(ms[i].value, ns[k].value);
    SortedSamePair(ms, ns, i, k);
  }

  lemma {:induction false} SortedSameMembers(ms: seq<Member>, ns: seq<Member>)
    requires DistinctMembers(ms) && DistinctMembers(ns) && SameMembers(ms, ns)
    ensures SortMembers(SortedMembers(ms)) == SortMembers(SortedMembers(ns))
    decreases ms, 2
  {
    hide HasTwin, HasOrigin, SortMembers, SortedMembers;
    forall i | 0 <= i < |ms| ensures SortedMembers(ms)[i] in SortedMembers(ns) { SortedTwin(ms, ns, i); }
    forall k | 0 <= k < |ns| ensures SortedMembers(ns)[k] in SortedMembers(ms) { SortedOrigin(ms, ns, k); }
    SortMembersAlike(SortedMembers(ms), SortedMembers(ns));
  }

  lemma {:induction false} SortMembersAlike(xs: seq<Member>, ys: seq<Member>)
    requires DistinctMembers(xs) && DistinctMembers(ys)
    requires (forall i :: 0 <= i < |xs| ==> xs[i] in ys) && forall k :: 0 <= k < |ys| ==> ys[k] in xs
    ensures SortMembers(xs) == SortMembers(ys)
  {
    hide SortMembers;
    MembersDistinct(xs);
    MembersDistinct(ys);
    DistinctMultiset(xs, ys);
    SortMembersPermuted(xs, ys);
  }

  lemma {:induction false} SortMembersPermuted(xs: seq<Member>, ys: seq<Member>)
    requires DistinctMembers(xs) && multiset(xs) == multiset(ys)
    ensures SortMembers(xs) == SortMembers(ys)
  {
    KeysApart(xs);
    SortByPermuted(xs, ys, ByKey);
  }

  lemma {:induction false} SameClean(a: Json, b: Json)
    requires SameJson(a, b) && Clean(b)
    ensures Clean(a)
    decreases a
  {
    match a
    case JList(xs) => SameEachClean(xs, b.items);
    case JObject(ms) =>
      forall m | m in ms ensures m.key != VENDOR && Clean(m.value) {
        var i :| 0 <= i < |ms| && ms[i] == m;
        assert HasTwin(ms, b.members, i);
        var k :| 0 <= k < |b.members| && b.members[k].key == ms[i].key && SameJson(ms[i].value, b.members[k].value);
        CleanMember(b.members, b.members[k]);
        SameClean(ms[i].value, b.members[k].value);
      }
      CleanFromMembers(ms);
    case _ =>
  }

  lemma {:induction false} SameEachClean(xs: seq<Json>, ys: seq<Json>)
    requires |xs| == |ys| && CleanEach(ys) && forall i :: 0 <= i < |xs| ==> SameJson(xs[i], ys[i])
    ensures CleanEach(xs)
    decreases xs
  {
    hide Clean, SameJson;
    if xs != [] {
      SameClean(xs[0], ys[0]);
      SameEachClean(xs[1..], ys[1..]);
    }
  }

  /**
   * Whatever order the database returns the members of a stored artifact in, encoding it again gives
   * the bytes that were hashed when it was stored.
   */
  lemma {:induction false} StoredHashHolds(v: Value, stored: Json)
    requires Keyed(v) && Encode(v).Some? && SameJson(stored, Encode(v).value)
    ensures Encode(FromJson(stored)) == Encode(v)
  {
    hide Canonical, FromJson, SortedJson, Clean, Keyed, SameJson;
    var c := Canonical(v).value;
    CanonicalClean(v);
    SortedClean(c);
    SameClean(stored, SortedJson(c));
    CanonicalFromJson(stored);
    SortedTwice(stored);
    SortedSame(stored, SortedJson(c));
    SortedTwice(c);
  }
}
