/**
 The canonical manifest bytes that a content signature covers: a recursive printer with sorted
 object keys.  The bytes determine the value up to member order, and nothing else about it.
 */
module CanonicalManifest {
  import opened Common
  import opened Json

  // ---------- The order of keys: bytewise lexicographic ----------

  predicate LexLess(a: Bytes, b: Bytes) {
    if b == [] then false
    else if a == [] then true
    else if a[0] != b[0] then a[0] < b[0]
    else LexLess(a[1..], b[1..])
  }

  lemma {:induction false} LexTotal(a: Bytes, b: Bytes)
    ensures LexLess(a, b) || LexLess(b, a) || a == b
    ensures !(LexLess(a, b) && LexLess(b, a))
  {
    if a != [] && b != [] && a[0] == b[0] {
      LexTotal(a[1..], b[1..]);
      assert a == [a[0]] + a[1..] && b == [b[0]] + b[1..];
    }
  }

  lemma {:induction false} LexIrreflexive(a: Bytes)
    ensures !LexLess(a, a)
  {
    if a != [] { LexIrreflexive(a[1..]); }
  }

  lemma {:induction false} LexTransitive(a: Bytes, b: Bytes, c: Bytes)
    requires LexLess(a, b) && LexLess(b, c)
    ensures LexLess(a, c)
  {
    if a != [] && a[0] == b[0] && b[0] == c[0] {
      LexTransitive(a[1..], b[1..], c[1..]);
    }
  }

  // ---------- Objects as maps ----------

  /** The last of two members with one key wins, as on insertion into a map. */
  function AsMap(ms: seq<Member>): map<Bytes, Value> {
    if ms == [] then map[] else map[ms[0].key := ms[0].value] + AsMap(ms[1..])
  }

  ghost predicate DistinctKeys(ms: seq<Member>) {
    forall i, j :: 0 <= i < j < |ms| ==> ms[i].key != ms[j].key
  }

  ghost predicate SortedKeys(ms: seq<Member>) {
    forall i, j :: 0 <= i < j < |ms| ==> LexLess(ms[i].key, ms[j].key)
  }

  lemma {:induction false} AsMapAt(ms: seq<Member>, key: Bytes) returns (i: nat)
    requires key in AsMap(ms)
    ensures i < |ms| && ms[i].key == key && ms[i].value == AsMap(ms)[key]
  {
    if key in AsMap(ms[1..]) {
      i := AsMapAt(ms[1..], key);
      i := i + 1;
    } else {
      i := 0;
    }
  }

  lemma DistinctHead(ms: seq<Member>)
    requires DistinctKeys(ms) && ms != []
    ensures DistinctKeys(ms[1..]) && ms[0].key !in AsMap(ms[1..])
  {
    if ms[0].key in AsMap(ms[1..]) {
      var j := AsMapAt(ms[1..], ms[0].key);
    }
  }

  lemma {:induction false} AsMapHas(ms: seq<Member>, i: nat)
    requires DistinctKeys(ms) && i < |ms|
    ensures ms[i].key in AsMap(ms) && AsMap(ms)[ms[i].key] == ms[i].value
  {
    DistinctHead(ms);
    if i > 0 {
      AsMapHas(ms[1..], i - 1);
    }
  }

  // ---------- Sorting ----------

  function Insert(m: Member, xs: seq<Member>): seq<Member> {
    if xs == [] then [m]
    else if LexLess(m.key, xs[0].key) then [m] + xs
    else [xs[0]] + Insert(m, xs[1..])
  }

  function Sort(ms: seq<Member>): seq<Member> {
    if ms == [] then [] else Insert(ms[0], Sort(ms[1..]))
  }

  ghost predicate Below(key: Bytes, ms: seq<Member>) {
    forall m :: m in ms ==> LexLess(key, m.key)
  }

  lemma SortedCons(m: Member, xs: seq<Member>)
    ensures SortedKeys([m] + xs) <==> SortedKeys(xs) && Below(m.key, xs)
  {
    var s := [m] + xs;
    assert s[1..] == xs;
    assert forall j :: 0 <= j < |xs| ==> s[j + 1] == xs[j];
    if SortedKeys(s) {
      forall x | x in xs ensures LexLess(m.key, x.key) {
        var j :| 0 <= j < |xs| && xs[j] == x;
        assert LexLess(s[0].key, s[j + 1].key);
      }
      forall i, j | 0 <= i < j < |xs| ensures LexLess(xs[i].key, xs[j].key) {
        assert LexLess(s[i + 1].key, s[j + 1].key);
      }
    }
  }

  lemma BelowAll(m: Member, xs: seq<Member>)
    requires SortedKeys(xs) && xs != [] && LexLess(m.key, xs[0].key)
    ensures Below(m.key, xs)
  {
    forall x | x in xs ensures LexLess(m.key, x.key) {
      var j :| 0 <= j < |xs| && xs[j] == x;
      if j > 0 { LexTransitive(m.key, xs[0].key, xs[j].key); }
    }
  }

  lemma AsMapCons(m: Member, xs: seq<Member>)
    ensures AsMap([m] + xs) == map[m.key := m.value] + AsMap(xs)
  {
    assert ([m] + xs)[1..] == xs;
  }

  lemma {:induction false} InsertMembers(m: Member, xs: seq<Member>)
    ensures forall x :: x in Insert(m, xs) <==> x == m || x in xs
  {
    if xs != [] {
      InsertMembers(m, xs[1..]);
      assert xs == [xs[0]] + xs[1..];
    }
  }

  lemma {:induction false} InsertMap(m: Member, xs: seq<Member>)
    requires m.key !in AsMap(xs)
    ensures AsMap(Insert(m, xs)) == AsMap(xs)[m.key := m.value]
  {
    if xs != [] {
      AsMapCons(m, xs);
      AsMapCons(xs[0], Insert(m, xs[1..]));
      InsertMap(m, xs[1..]);
    }
  }

  lemma {:induction false} InsertSorted(m: Member, xs: seq<Member>)
    requires SortedKeys(xs) && m.key !in AsMap(xs)
    ensures SortedKeys(Insert(m, xs))
  {
    if xs != [] {
      hide SortedKeys, LexLess;
      LexTotal(m.key, xs[0].key);
      assert xs == [xs[0]] + xs[1..];
      SortedCons(xs[0], xs[1..]);
      if LexLess(m.key, xs[0].key) {
        BelowAll(m, xs);
        SortedCons(m, xs);
      } else {
        InsertSorted(m, xs[1..]);
        InsertMembers(m, xs[1..]);
        SortedCons(xs[0], Insert(m, xs[1..]));
      }
    }
  }

  lemma {:induction false} SortSorts(ms: seq<Member>)
    requires DistinctKeys(ms)
    ensures SortedKeys(Sort(ms))
    ensures AsMap(Sort(ms)) == AsMap(ms)
    ensures forall x :: x in Sort(ms) <==> x in ms
  {
    if ms == [] {
    } else {
      hide SortedKeys, DistinctKeys, LexLess, Insert;
      DistinctHead(ms);
      SortSorts(ms[1..]);
      InsertMembers(ms[0], Sort(ms[1..]));
      InsertMap(ms[0], Sort(ms[1..]));
      InsertSorted(ms[0], Sort(ms[1..]));
      assert ms == [ms[0]] + ms[1..];
    }
  }

  lemma SortedDistinct(ms: seq<Member>)
    requires SortedKeys(ms)
    ensures DistinctKeys(ms)
  {
    forall i, j | 0 <= i < j < |ms| ensures ms[i].key != ms[j].key {
      LexIrreflexive(ms[i].key);
    }
  }

  lemma LeastFirst(xs: seq<Member>, ys: seq<Member>)
    requires SortedKeys(xs) && SortedKeys(ys) && xs != [] && ys != [] && AsMap(xs) == AsMap(ys)
    ensures xs[0] == ys[0]
  {
    SortedDistinct(xs);
    SortedDistinct(ys);
    AsMapHas(xs, 0);
    AsMapHas(ys, 0);
    var i := AsMapAt(ys, xs[0].key);
    var j := AsMapAt(xs, ys[0].key);
    LexTotal(xs[0].key, ys[0].key);
  }

  lemma TailMap(xs: seq<Member>)
    requires SortedKeys(xs) && xs != []
    ensures SortedKeys(xs[1..]) && AsMap(xs[1..]) == AsMap(xs) - {xs[0].key}
  {
    SortedDistinct(xs);
    DistinctHead(xs);
  }

  /** A map has one sorted member list. */
  lemma {:induction false} SortedUnique(xs: seq<Member>, ys: seq<Member>)
    requires SortedKeys(xs) && SortedKeys(ys) && AsMap(xs) == AsMap(ys)
    ensures xs == ys
  {
    assert xs != [] ==> xs[0].key in AsMap(xs);
    assert ys != [] ==> ys[0].key in AsMap(ys);
    if xs != [] && ys != [] {
      LeastFirst(xs, ys);
      TailMap(xs);
      TailMap(ys);
      SortedUnique(xs[1..], ys[1..]);
      assert xs == [xs[0]] + xs[1..] && ys == [ys[0]] + ys[1..];
    }
  }

  // ---------- Canonical form and meaning ----------

  /** No object repeats a key: what a parsed `serde_json` value guarantees. */
  ghost predicate WellFormed(v: Value)
    decreases v
  {
    match v
    case Arr(items) => forall i :: 0 <= i < |items| ==> WellFormed(items[i])
    case Obj(ms) => DistinctKeys(ms) && forall i :: 0 <= i < |ms| ==> WellFormed(ms[i].value)
    case _ => true
  }

  function Canonical(v: Value): Value
    decreases v
  {
    match v
    case Arr(items) => Arr(CanonicalItems(items))
    case Obj(ms) => Obj(Sort(CanonicalMembers(ms)))
    case _ => v
  }

  function CanonicalItems(items: seq<Value>): seq<Value>
    decreases items
  {
    seq(|items|, i requires 0 <= i < |items| => Canonical(items[i]))
  }

  function CanonicalMembers(ms: seq<Member>): seq<Member>
    decreases ms
  {
    seq(|ms|, i requires 0 <= i < |ms| => Member(ms[i].key, Canonical(ms[i].value)))
  }

  function CanonicalBytes(v: Value): Bytes {
    Print(Canonical(v))
  }

  /** A value with the order of members forgotten. */
  datatype Meaning =
    | MNull
    | MBool(b: bool)
    | MNumber(n: int)
    | MStr(text: Bytes)
    | MArr(items: seq<Meaning>)
    | MObj(members: map<Bytes, Meaning>)

  ghost function MeaningOf(v: Value): Meaning
    decreases v
  {
    match v
    case Null => MNull
    case Bool(b) => MBool(b)
    case Number(n) => MNumber(n)
    case Str(s) => MStr(s)
    case Arr(items) => MArr(seq(|items|, i requires 0 <= i < |items| => MeaningOf(items[i])))
    case Obj(ms) => MObj(MembersMeaning(ms))
  }

  ghost function MembersMeaning(ms: seq<Member>): map<Bytes, Meaning>
    decreases ms
  {
    if ms == [] then map[] else map[ms[0].key := MeaningOf(ms[0].value)] + MembersMeaning(ms[1..])
  }

  lemma {:induction false} MeaningFromMap(ms: seq<Member>)
    ensures MembersMeaning(ms).Keys == AsMap(ms).Keys
    ensures forall k :: k in AsMap(ms) ==> MembersMeaning(ms)[k] == MeaningOf(AsMap(ms)[k])
  {
    if ms != [] { MeaningFromMap(ms[1..]); }
  }

  lemma {:induction false} CanonicalMap(ms: seq<Member>)
    ensures AsMap(CanonicalMembers(ms)).Keys == AsMap(ms).Keys
    ensures forall k :: k in AsMap(ms) ==> AsMap(CanonicalMembers(ms))[k] == Canonical(AsMap(ms)[k])
  {
    if ms != [] {
      CanonicalMap(ms[1..]);
      assert CanonicalMembers(ms)[1..] == CanonicalMembers(ms[1..]);
    }
  }

  /** The members of a canonical object: sorted, and the canonical values of the same keys. */
  lemma CanonicalObject(ms: seq<Member>)
    requires DistinctKeys(ms)
    ensures var cs := Canonical(Obj(ms)).members;
            && Canonical(Obj(ms)).Obj? && SortedKeys(cs) && AsMap(cs).Keys == AsMap(ms).Keys
            && forall k :: k in AsMap(ms) ==> AsMap(cs)[k] == Canonical(AsMap(ms)[k])
  {
    CanonicalMap(ms);
    assert DistinctKeys(CanonicalMembers(ms));
    SortSorts(CanonicalMembers(ms));
    assert Canonical(Obj(ms)) == Obj(Sort(CanonicalMembers(ms)));
  }

  /** Canonicalisation changes no meaning. */
  lemma {:induction false} CanonicalMeaning(v: Value)
    requires WellFormed(v)
    ensures MeaningOf(Canonical(v)) == MeaningOf(v)
    decreases v
  {
    match v
    case Arr(items) =>
      forall i | 0 <= i < |items| ensures MeaningOf(Canonical(items[i])) == MeaningOf(items[i]) {
        CanonicalMeaning(items[i]);
      }
    case Obj(ms) =>
      CanonicalObject(ms);
      var cs := Canonical(v).members;
      MeaningFromMap(ms);
      MeaningFromMap(cs);
      forall k | k in AsMap(ms) ensures MembersMeaning(cs)[k] == MembersMeaning(ms)[k] {
        var i := AsMapAt(ms, k);
        CanonicalMeaning(ms[i].value);
      }
      assert MembersMeaning(cs) == MembersMeaning(ms);
    case _ =>
  }

  /** Values with one meaning have one canonical form, whatever order their keys came in. */
  lemma {:induction false} SameCanonical(v: Value, w: Value)
    requires WellFormed(v) && WellFormed(w) && MeaningOf(v) == MeaningOf(w)
    ensures Canonical(v) == Canonical(w)
    decreases v
  {
    match v
    case Arr(items) =>
      assert |MeaningOf(v).items| == |items| && |MeaningOf(w).items| == |w.items|;
      forall i | 0 <= i < |items| ensures Canonical(items[i]) == Canonical(w.items[i]) {
        assert MeaningOf(v).items[i] == MeaningOf(w).items[i];
        SameCanonical(items[i], w.items[i]);
      }
      assert CanonicalItems(items) == CanonicalItems(w.items);
    case Obj(ms) =>
      MeaningFromMap(ms);
      MeaningFromMap(w.members);
      forall k | k in AsMap(ms) ensures k in AsMap(w.members)
          && Canonical(AsMap(ms)[k]) == Canonical(AsMap(w.members)[k]) {
        assert k in MembersMeaning(w.members);
        var i := AsMapAt(ms, k);
        var j := AsMapAt(w.members, k);
        SameCanonical(ms[i].value, w.members[j].value);
      }
      SameObject(ms, w.members);
    case _ =>
  }

  lemma SameObject(ms: seq<Member>, ns: seq<Member>)
    requires DistinctKeys(ms) && DistinctKeys(ns)
    requires AsMap(ms).Keys == AsMap(ns).Keys
    requires forall k :: k in AsMap(ms) ==> Canonical(AsMap(ms)[k]) == Canonical(AsMap(ns)[k])
    ensures Canonical(Obj(ms)) == Canonical(Obj(ns))
  {
    hide AsMap, Canonical, SortedKeys;
    CanonicalObject(ms);
    CanonicalObject(ns);
    var cs, ds := Canonical(Obj(ms)).members, Canonical(Obj(ns)).members;
    assert AsMap(cs) == AsMap(ds);
    SortedUnique(cs, ds);
  }

  /** The signed bytes determine the value up to member order, and depend on nothing else. */
  lemma CanonicalBytesExact(v: Value, w: Value)
    requires WellFormed(v) && WellFormed(w)
    ensures CanonicalBytes(v) == CanonicalBytes(w) <==> MeaningOf(v) == MeaningOf(w)
  {
    if MeaningOf(v) == MeaningOf(w) {
      SameCanonical(v, w);
    }
    if CanonicalBytes(v) == CanonicalBytes(w) {
      RoundTrip(Canonical(v), []);
      RoundTrip(Canonical(w), []);
      CanonicalMeaning(v);
      CanonicalMeaning(w);
    }
  }

  // ---------- The signature member ----------

  const SIGNATURE: Bytes := [115, 105, 103, 110, 97, 116, 117, 114, 101]

  function Without(ms: seq<Member>, key: Bytes): seq<Member> {
    if ms == [] then []
    else (if ms[0].key == key then [] else [ms[0]]) + Without(ms[1..], key)
  }

  /** The bytes a signature covers and the signature text; none without a text signature. */
  function SignedPayload(raw: Value): Option<(Bytes, Bytes)> {
    if !raw.Obj? || SIGNATURE !in AsMap(raw.members) then None
    else match AsMap(raw.members)[SIGNATURE]
      case Str(text) => Some((CanonicalBytes(Obj(Without(raw.members, SIGNATURE))), text))
      case _ => None
  }

  lemma {:induction false} WithoutMembers(ms: seq<Member>, key: Bytes)
    ensures forall m :: m in Without(ms, key) <==> m in ms && m.key != key
  {
    if ms != [] {
      WithoutMembers(ms[1..], key);
      assert ms == [ms[0]] + ms[1..];
    }
  }

  lemma DistinctCons(m: Member, ms: seq<Member>)
    requires DistinctKeys(ms) && m.key !in AsMap(ms)
    ensures DistinctKeys([m] + ms)
  {
    forall j | 0 <= j < |ms| ensures ms[j].key != m.key {
      AsMapHas(ms, j);
    }
  }

  lemma {:induction false} WithoutMap(ms: seq<Member>, key: Bytes)
    requires DistinctKeys(ms)
    ensures AsMap(Without(ms, key)) == AsMap(ms) - {key}
  {
    if ms != [] {
      var rest := Without(ms[1..], key);
      DistinctHead(ms);
      WithoutMap(ms[1..], key);
      AsMapCons(ms[0], rest);
      hide DistinctKeys;
      if ms[0].key == key {
        assert Without(ms, key) == rest;
        assert key !in AsMap(ms[1..]);
      } else {
        assert Without(ms, key) == [ms[0]] + rest;
      }
    }
  }

  lemma {:induction false} WithoutDistinct(ms: seq<Member>, key: Bytes)
    requires DistinctKeys(ms)
    ensures DistinctKeys(Without(ms, key))
  {
    if ms != [] {
      DistinctHead(ms);
      WithoutDistinct(ms[1..], key);
      WithoutMap(ms[1..], key);
      if ms[0].key != key {
        DistinctCons(ms[0], Without(ms[1..], key));
      }
    }
  }

  lemma WithoutMeaning(ms: seq<Member>, key: Bytes)
    requires DistinctKeys(ms)
    ensures MembersMeaning(Without(ms, key)) == MembersMeaning(ms) - {key}
  {
    hide Without, AsMap, MembersMeaning;
    WithoutMap(ms, key);
    MeaningFromMap(ms);
    MeaningFromMap(Without(ms, key));
  }

  /** Two manifests have the same signed bytes exactly when they agree on every member but the
      signature; the order in which keys were inserted does not matter. */
  lemma SignedPayloadExact(v: Value, w: Value)
    requires WellFormed(v) && WellFormed(w) && SignedPayload(v).Some? && SignedPayload(w).Some?
    ensures SignedPayload(v).value.0 == SignedPayload(w).value.0 <==>
            MembersMeaning(v.members) - {SIGNATURE} == MembersMeaning(w.members) - {SIGNATURE}
  {
    var x, y := Without(v.members, SIGNATURE), Without(w.members, SIGNATURE);
    WithoutMeaning(v.members, SIGNATURE);
    WithoutMeaning(w.members, SIGNATURE);
    WithoutWellFormed(v.members);
    WithoutWellFormed(w.members);
    CanonicalBytesExact(Obj(x), Obj(y));
  }

  lemma WithoutWellFormed(ms: seq<Member>)
    requires WellFormed(Obj(ms))
    ensures WellFormed(Obj(Without(ms, SIGNATURE)))
  {
    WithoutDistinct(ms, SIGNATURE);
    WithoutMembers(ms, SIGNATURE);
    var x := Without(ms, SIGNATURE);
    forall i | 0 <= i < |x| ensures WellFormed(x[i].value) {
      assert x[i] in ms;
    }
  }

  // ---------- The writer ----------

  lemma {:induction false} PrintItemsSnoc(items: seq<Value>, x: Value)
    ensures PrintItems(items + [x]) == PrintItems(items) + (if items == [] then [] else [COMMA]) + Print(x)
  {
    hide Print;
    var all := items + [x];
    if items != [] {
      PrintItemsSnoc(items[1..], x);
      assert all[1..] == items[1..] + [x];
    }
  }

  lemma {:induction false} PrintMembersSnoc(ms: seq<Member>, x: Member)
    ensures PrintMembers(ms + [x]) == PrintMembers(ms) + (if ms == [] then [] else [COMMA]) + PrintMember(x)
  {
    hide PrintMember;
    var all := ms + [x];
    if ms != [] {
      PrintMembersSnoc(ms[1..], x);
      assert all[1..] == ms[1..] + [x];
    }
  }

  function CanonicalMember(m: Member): Member {
    Member(m.key, Canonical(m.value))
  }

  lemma {:induction false} InsertCommutes(m: Member, xs: seq<Member>)
    ensures Insert(CanonicalMember(m), CanonicalMembers(xs)) == CanonicalMembers(Insert(m, xs))
  {
    hide Canonical;
    if xs != [] {
      InsertCommutes(m, xs[1..]);
      assert CanonicalMembers(xs)[1..] == CanonicalMembers(xs[1..]);
      assert CanonicalMembers([xs[0]] + Insert(m, xs[1..])) ==
             [CanonicalMember(xs[0])] + CanonicalMembers(Insert(m, xs[1..]));
      assert CanonicalMembers([m] + xs) == [CanonicalMember(m)] + CanonicalMembers(xs);
    }
  }

  lemma {:induction false} SortCommutes(ms: seq<Member>)
    ensures Sort(CanonicalMembers(ms)) == CanonicalMembers(Sort(ms))
  {
    if ms != [] {
      SortCommutes(ms[1..]);
      InsertCommutes(ms[0], Sort(ms[1..]));
      assert CanonicalMembers(ms)[1..] == CanonicalMembers(ms[1..]);
    }
  }

  lemma ItemsCanonical(items: seq<Value>) returns (cs: seq<Value>)
    ensures cs == CanonicalItems(items) && |cs| == |items| && PrintItems(cs[..0]) == []
    ensures forall i :: 0 <= i < |cs| ==> cs[i] == Canonical(items[i])
  {
    cs := CanonicalItems(items);
  }

  lemma NextItem(cs: seq<Value>, i: nat)
    requires i < |cs|
    ensures PrintItems(cs[..i + 1]) == PrintItems(cs[..i]) + (if i == 0 then [] else [COMMA]) + Print(cs[i])
  {
    PrintItemsSnoc(cs[..i], cs[i]);
    assert cs[..i + 1] == cs[..i] + [cs[i]];
  }

  /** The members a canonical object prints, position by position. */
  lemma MembersCanonical(ms: seq<Member>) returns (cs: seq<Member>)
    requires DistinctKeys(ms)
    ensures cs == Sort(CanonicalMembers(ms)) && |cs| == |Sort(ms)| && PrintMembers(cs[..0]) == []
    ensures forall i :: 0 <= i < |cs| ==> Sort(ms)[i] in ms && cs[i] == CanonicalMember(Sort(ms)[i])
  {
    SortSorts(ms);
    SortCommutes(ms);
    cs := CanonicalMembers(Sort(ms));
  }

  lemma NextMember(cs: seq<Member>, i: nat)
    requires i < |cs|
    ensures PrintMembers(cs[..i + 1]) ==
            PrintMembers(cs[..i]) + (if i == 0 then [] else [COMMA]) + PrintMember(cs[i])
  {
    PrintMembersSnoc(cs[..i], cs[i]);
    assert cs[..i + 1] == cs[..i] + [cs[i]];
  }

  lemma MemberText(m: Member)
    ensures PrintMember(CanonicalMember(m)) == Quoted(m.key) + [COLON] + CanonicalBytes(m.value)
  {
  }

  class Buffer {
    var bytes: Bytes

    constructor ()
      ensures bytes == []
    {
      bytes := [];
    }

    method Push(text: Bytes)
      modifies this
      ensures bytes == old(bytes) + text
    {
      bytes := bytes + text;
    }
  }

  /** The value stored under a key, as its position among the members. */
  method Lookup(ms: seq<Member>, key: Bytes) returns (at: nat)
    requires DistinctKeys(ms) && exists i :: 0 <= i < |ms| && ms[i].key == key
    ensures at < |ms| && ms[at].key == key
    ensures forall m :: m in ms && m.key == key ==> m == ms[at]
  {
    at := 0;
    while ms[at].key != key
      invariant at < |ms|
      invariant exists i :: at <= i < |ms| && ms[i].key == key
      decreases |ms| - at
    {
      at := at + 1;
    }
  }

  /** Appends the canonical bytes of a value to the output. */
  method Write(v: Value, output: Buffer)
    requires WellFormed(v)
    modifies output
    ensures output.bytes == old(output.bytes) + CanonicalBytes(v)
    decreases v, 1
  {
    hide PrintItems, PrintMembers, CanonicalItems, CanonicalMembers, Sort, AsMap;
    match v
    case Arr(items) =>
      output.Push([OPEN_BRACKET]);
      WriteItems(v, output);
      output.Push([CLOSE_BRACKET]);
    case Obj(ms) =>
      output.Push([OPEN_BRACE]);
      WriteMembers(v, output);
      output.Push([CLOSE_BRACE]);
    case _ =>
      output.Push(Print(v));
  }

  method WriteItems(v: Value, output: Buffer)
    requires WellFormed(v) && v.Arr?
    modifies output
    ensures output.bytes == old(output.bytes) + PrintItems(CanonicalItems(v.items))
    decreases v, 0
  {
    hide Print, Canonical, PrintItems, CanonicalItems;
    var items := v.items;
    ghost var cs := ItemsCanonical(items);
    for index := 0 to |items|
      invariant output.bytes == old(output.bytes) + PrintItems(cs[..index])
    {
      if index > 0 {
        output.Push([COMMA]);
      }
      Write(items[index], output);
      NextItem(cs, index);
    }
    assert cs[..|items|] == cs;
  }

  /** Appends one member of an object, key first. */
  method WriteMember(m: Member, output: Buffer)
    requires WellFormed(m.value)
    modifies output
    ensures output.bytes == old(output.bytes) + PrintMember(CanonicalMember(m))
    decreases m, 0
  {
    output.Push(Quoted(m.key));
    output.Push([COLON]);
    Write(m.value, output);
    MemberText(m);
  }

  method WriteMembers(v: Value, output: Buffer)
    requires WellFormed(v) && v.Obj?
    modifies output
    ensures output.bytes == old(output.bytes) + PrintMembers(Sort(CanonicalMembers(v.members)))
    decreases v, 0
  {
    hide Print, Canonical, PrintMembers, PrintMember, Sort, AsMap, CanonicalMembers, CanonicalMember;
    var ms := v.members;
    var keys := Sort(ms);
    ghost var cs := MembersCanonical(ms);
    for index := 0 to |keys|
      invariant output.bytes == old(output.bytes) + PrintMembers(cs[..index])
    {
      if index > 0 {
        output.Push([COMMA]);
      }
      assert keys[index] in ms;
      var at := Lookup(ms, keys[index].key);
      WriteMember(ms[at], output);
      NextMember(cs, index);
    }
    assert cs[..|keys|] == cs;
  }

  method CanonicalManifestBytes(v: Value) returns (bytes: Bytes)
    requires WellFormed(v)
    ensures bytes == CanonicalBytes(v)
  {
    var output := new Buffer();
    Write(v, output);
    bytes := output.bytes;
  }
}
