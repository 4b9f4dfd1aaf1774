/**
 * The packed representation of one interval as values: encoded key fields, buckets chained by signature, accumulators
 * in a vector. What a snapshot stands for, and why each update keeps it.
 */
module PackedLayout {
  import opened Events
  import opened Interning
  import opened Rollup
  import opened Wrappers

  /** One encoded key field: an interned key name, a tag, and a word that decodes by the tag. */
  datatype KeyField = KeyField(key: nat, tag: ValueTag, v: int)

  datatype Accumulator = Accumulator(key: nat, acc: Acc)

  datatype Bucket = Bucket(
    category: nat, name: nat, typ: nat, threadId: nat, signature: int,
    keysAt: nat, keysCount: nat, next: Option<nat>, count: nat, values: seq<Accumulator>)

  /** An interval's vectors, the first bucket of each signature chain, and the key strings by id. */
  datatype Snapshot = Snapshot(buckets: seq<Bucket>, keys: seq<KeyField>, bySignature: map<int, nat>, strings: seq<string>)

  // ----- Key fields -----

  predicate WordOk(ks: seq<string>, tag: ValueTag, v: int) {
    match tag
    case INT => -TWO63 <= v < TWO63
    case UINT => 0 <= v < TWO64
    case DOUBLE => 0 <= v < TWO64
    case _ => 0 <= v < |ks|
  }

  predicate FieldOk(ns: seq<string>, ks: seq<string>, f: KeyField) {
    f.key < |ns| && WordOk(ks, f.tag, f.v)
  }

  predicate FieldsOk(ns: seq<string>, ks: seq<string>, fs: seq<KeyField>) {
    forall f :: f in fs ==> FieldOk(ns, ks, f)
  }

  function ValueOf(ks: seq<string>, tag: ValueTag, v: int): Value
    requires WordOk(ks, tag, v)
  {
    match tag
    case INT => IntV(v)
    case UINT => UintV(v)
    case DOUBLE => DoubleV(v)
    case STRING => StringV(ks[v])
    case RAW_JSON => RawJsonV(ks[v])
  }

  function Decode(ns: seq<string>, ks: seq<string>, f: KeyField): (string, Value)
    requires FieldOk(ns, ks, f)
  {
    (ns[f.key], ValueOf(ks, f.tag, f.v))
  }

  ghost function DecodeAll(ns: seq<string>, ks: seq<string>, fs: seq<KeyField>): set<(string, Value)>
    requires FieldsOk(ns, ks, fs)
  {
    set f | f in fs :: Decode(ns, ks, f)
  }

  ghost predicate Sorted(fs: seq<KeyField>) {
    forall i, j {:trigger Nth(fs, i), Nth(fs, j)} :: 0 <= i < j < |fs| ==> Nth(fs, i).key < Nth(fs, j).key
  }

  /** Interned strings make decoding injective, so equal sets of fields are equal sorted vectors. */
  lemma EncodingUnique(ns: seq<string>, ks: seq<string>, fs: seq<KeyField>, gs: seq<KeyField>)
    requires Distinct(ns) && Distinct(ks) && FieldsOk(ns, ks, fs) && FieldsOk(ns, ks, gs)
    requires Sorted(fs) && Sorted(gs)
    requires DecodeAll(ns, ks, fs) == DecodeAll(ns, ks, gs)
    ensures fs == gs
  {
    forall f ensures f in fs <==> f in gs {
      if f in fs {
        assert Decode(ns, ks, f) in DecodeAll(ns, ks, gs);
        var g :| g in gs && Decode(ns, ks, g) == Decode(ns, ks, f);
        DecodeInjective(ns, ks, f, g);
      }
      if f in gs {
        assert Decode(ns, ks, f) in DecodeAll(ns, ks, fs);
        var g :| g in fs && Decode(ns, ks, g) == Decode(ns, ks, f);
        DecodeInjective(ns, ks, f, g);
      }
    }
    SortedUnique(fs, gs);
  }

  lemma DecodeInjective(ns: seq<string>, ks: seq<string>, f: KeyField, g: KeyField)
    requires Distinct(ns) && Distinct(ks) && FieldOk(ns, ks, f) && FieldOk(ns, ks, g)
    requires Decode(ns, ks, f) == Decode(ns, ks, g)
    ensures f == g
  {
    SamePlace(ns, f.key, g.key);
    if f.tag == STRING || f.tag == RAW_JSON {
      SamePlace(ks, f.v, g.v);
    }
  }

  /** The first field has the least key. */
  lemma SortedHead(fs: seq<KeyField>)
    requires Sorted(fs) && fs != []
    ensures Sorted(fs[1..]) && forall f :: f in fs[1..] ==> fs[0].key < f.key
  {
    forall i, j | 0 <= i < j < |fs[1..]| ensures Nth(fs[1..], i).key < Nth(fs[1..], j).key {
      assert Nth(fs, i + 1).key < Nth(fs, j + 1).key;
    }
    forall f | f in fs[1..] ensures fs[0].key < f.key {
      var i :| 0 <= i < |fs[1..]| && fs[1..][i] == f;
      assert Nth(fs, 0).key < Nth(fs, i + 1).key;
    }
  }

  lemma {:induction false} SortedUnique(fs: seq<KeyField>, gs: seq<KeyField>)
    requires Sorted(fs) && Sorted(gs) && forall f :: f in fs <==> f in gs
    ensures fs == gs
  {
    assert fs != [] ==> fs[0] in gs;
    assert gs != [] ==> gs[0] in fs;
    if fs != [] {
      assert fs == [fs[0]] + fs[1..] && gs == [gs[0]] + gs[1..];
      SortedHead(fs);
      SortedHead(gs);
      assert fs[0] == gs[0];
      forall f ensures f in fs[1..] <==> f in gs[1..] {
        assert f in fs <==> f == fs[0] || f in fs[1..];
        assert f in gs <==> f == gs[0] || f in gs[1..];
      }
      SortedUnique(fs[1..], gs[1..]);
    }
  }

  /** The order of std::sort on distinct keys. */
  function SortByKey(fs: seq<KeyField>): seq<KeyField> {
    if fs == [] then [] else Insert(fs[|fs| - 1], SortByKey(fs[..|fs| - 1]))
  }

  function Insert(f: KeyField, fs: seq<KeyField>): seq<KeyField> {
    if fs == [] || f.key <= fs[0].key then [f] + fs else [fs[0]] + Insert(f, fs[1..])
  }

  lemma {:induction false} InsertSorts(f: KeyField, fs: seq<KeyField>)
    requires Sorted(fs) && forall g :: g in fs ==> g.key != f.key
    ensures Sorted(Insert(f, fs))
    ensures forall g :: g in Insert(f, fs) <==> g == f || g in fs
  {
    if fs == [] {
      return;
    }
    SortedHead(fs);
    assert fs == [fs[0]] + fs[1..];
    assert fs[0] in fs;
    if f.key <= fs[0].key {
      ConsSorted(f, fs);
    } else {
      InsertSorts(f, fs[1..]);
      ConsSorted(fs[0], Insert(f, fs[1..]));
    }
  }

  lemma ConsSorted(f: KeyField, fs: seq<KeyField>)
    requires Sorted(fs) && forall g :: g in fs ==> f.key < g.key
    ensures Sorted([f] + fs)
  {
    var all := [f] + fs;
    forall i, j | 0 <= i < j < |all| ensures Nth(all, i).key < Nth(all, j).key {
      assert all[j] == fs[j - 1] && fs[j - 1] in fs;
      assert i > 0 ==> Nth(fs, i - 1).key < Nth(fs, j - 1).key;
    }
  }

  ghost predicate DistinctKeys(fs: seq<KeyField>) {
    forall i, j {:trigger Nth(fs, i), Nth(fs, j)} :: 0 <= i < j < |fs| ==> Nth(fs, i).key != Nth(fs, j).key
  }

  lemma {:induction false} SortByKeySorts(fs: seq<KeyField>)
    requires DistinctKeys(fs)
    ensures Sorted(SortByKey(fs))
    ensures forall g :: g in SortByKey(fs) <==> g in fs
  {
    if fs != [] {
      var front, f := fs[..|fs| - 1], fs[|fs| - 1];
      assert fs == front + [f];
      forall i, j | 0 <= i < j < |front| ensures Nth(front, i).key != Nth(front, j).key {
        assert Nth(fs, i).key != Nth(fs, j).key;
      }
      SortByKeySorts(front);
      forall g | g in SortByKey(front) ensures g.key != f.key {
        var i :| 0 <= i < |front| && front[i] == g;
        assert Nth(fs, i).key != Nth(fs, |fs| - 1).key;
      }
      InsertSorts(f, SortByKey(front));
    }
  }

  /** Decoding does not change while the tables only grow. */
  lemma DecodeStable(ns: seq<string>, ks: seq<string>, ns': seq<string>, ks': seq<string>, fs: seq<KeyField>)
    requires FieldsOk(ns, ks, fs) && ns <= ns' && ks <= ks'
    ensures FieldsOk(ns', ks', fs)
    ensures DecodeAll(ns', ks', fs) == DecodeAll(ns, ks, fs)
  {
    forall f | f in fs ensures Decode(ns', ks', f) == Decode(ns, ks, f) {}
  }

  // ----- Signatures and chains -----

  function TagCode(t: ValueTag): int {
    match t
    case INT => 1
    case UINT => 2
    case DOUBLE => 3
    case STRING => 4
    case RAW_JSON => 5
  }

  function MixFields(mix: (int, int) -> int, sig: int, fs: seq<KeyField>): int {
    if fs == [] then sig else
    var f := fs[|fs| - 1];
    mix(mix(mix(MixFields(mix, sig, fs[..|fs| - 1]), f.key), TagCode(f.tag)), WrapU(f.v))
  }

  function Signature(mix: (int, int) -> int, category: nat, name: nat, typ: nat, threadId: nat, fs: seq<KeyField>): int {
    MixFields(mix, mix(mix(mix(category, name), typ), threadId), fs)
  }

  /** The latest of the buckets below `n` with signature `sig`. */
  function LastWith(bs: seq<Bucket>, sig: int, n: nat): Option<nat>
    requires n <= |bs|
  {
    if n == 0 then None else if bs[n - 1].signature == sig then Some(n - 1) else LastWith(bs, sig, n - 1)
  }

  lemma {:induction false} LastWithIs(bs: seq<Bucket>, sig: int, n: nat)
    requires n <= |bs|
    ensures match LastWith(bs, sig, n)
            case None => forall i :: 0 <= i < n ==> bs[i].signature != sig
            case Some(at) => at < n && bs[at].signature == sig && forall i :: at < i < n ==> bs[i].signature != sig
  {
    if n > 0 {
      LastWithIs(bs, sig, n - 1);
    }
  }

  lemma {:induction false} LastWithSame(bs: seq<Bucket>, cs: seq<Bucket>, sig: int, n: nat)
    requires n <= |bs| && n <= |cs| && forall i :: 0 <= i < n ==> bs[i].signature == cs[i].signature
    ensures LastWith(bs, sig, n) == LastWith(cs, sig, n)
  {
    if n > 0 {
      LastWithSame(bs, cs, sig, n - 1);
    }
  }

  ghost predicate ChainedAt(s: Snapshot, i: nat) {
    i < |s.buckets| && s.buckets[i].next == LastWith(s.buckets, s.buckets[i].signature, i)
  }

  /** Every chain visits the buckets of its signature, newest first, and no other. */
  ghost predicate Chained(s: Snapshot) {
    && (forall i :: 0 <= i < |s.buckets| ==> ChainedAt(s, i))
    && (forall sig :: HeadOf(s, sig) == LastWith(s.buckets, sig, |s.buckets|))
  }

  function HeadOf(s: Snapshot, sig: int): Option<nat> {
    if sig in s.bySignature then Some(s.bySignature[sig]) else None
  }

  // ----- What a snapshot stands for -----

  predicate InVector(s: Snapshot, b: Bucket) { b.keysAt + b.keysCount <= |s.keys| }

  function KeysOf(s: Snapshot, b: Bucket): seq<KeyField>
    requires InVector(s, b)
  {
    s.keys[b.keysAt..b.keysAt + b.keysCount]
  }

  /** A bucket encodes a full key, under the signature of its encoding. */
  ghost predicate BucketIs(mix: (int, int) -> int, ns: seq<string>, s: Snapshot, b: Bucket, key: FullKey) {
    && b.category < |ns| && ns[b.category] == key.category
    && b.name < |ns| && ns[b.name] == key.name
    && b.typ == key.typ && b.threadId == key.threadId && InVector(s, b)
    && Encodes(ns, s.strings, KeysOf(s, b), key.keys)
    && b.signature == Signature(mix, b.category, b.name, b.typ, b.threadId, KeysOf(s, b))
  }

  ghost predicate Encodes(ns: seq<string>, ks: seq<string>, fs: seq<KeyField>, keys: set<(string, Value)>) {
    FieldsOk(ns, ks, fs) && Sorted(fs) && DecodeAll(ns, ks, fs) == keys
  }

  /** The accumulators of a bucket, as a map by key name. */
  function ValuesOf(ns: seq<string>, vs: seq<Accumulator>): map<string, Acc>
    requires forall a :: a in vs ==> a.key < |ns|
  {
    if vs == [] then map[] else
    var a := vs[|vs| - 1];
    ValuesOf(ns, vs[..|vs| - 1])[ns[a.key] := a.acc]
  }

  ghost predicate KeysKnown(ns: seq<string>, vs: seq<Accumulator>) {
    && (forall a :: a in vs ==> a.key < |ns|)
    && forall i, j :: 0 <= i < j < |vs| ==> vs[i].key != vs[j].key
  }

  ghost predicate CellIs(ns: seq<string>, b: Bucket, c: Cell) {
    KeysKnown(ns, b.values) && c == Cell(b.count, ValuesOf(ns, b.values))
  }

  ghost predicate IndexedAt(mix: (int, int) -> int, ns: seq<string>, s: Snapshot, keys: seq<FullKey>, i: nat) {
    i < |keys| && i < |s.buckets| && BucketIs(mix, ns, s, s.buckets[i], keys[i])
  }

  ghost predicate Indexed(mix: (int, int) -> int, ns: seq<string>, s: Snapshot, keys: seq<FullKey>) {
    && |keys| == |s.buckets| && Distinct(keys)
    && forall i :: 0 <= i < |keys| ==> IndexedAt(mix, ns, s, keys, i)
  }

  ghost predicate ListedAt(ns: seq<string>, bs: seq<Bucket>, keys: seq<FullKey>, m: Buckets, i: nat) {
    i < |keys| && i < |bs| && keys[i] in m && CellIs(ns, bs[i], m[keys[i]])
  }

  ghost predicate Listed(ns: seq<string>, bs: seq<Bucket>, keys: seq<FullKey>, m: Buckets) {
    && |keys| == |bs|
    && (forall i :: 0 <= i < |keys| ==> ListedAt(ns, bs, keys, m, i))
    && (forall k :: k in m ==> k in keys)
  }

  /** The snapshot stands for exactly the buckets of `m`: bucket `i` for the full key `keys[i]`. */
  ghost predicate Represents(mix: (int, int) -> int, ns: seq<string>, s: Snapshot, keys: seq<FullKey>, m: Buckets) {
    Distinct(ns) && Distinct(s.strings) && Chained(s) && Indexed(mix, ns, s, keys) && Listed(ns, s.buckets, keys, m)
  }

  /** A snapshot stands for one map of buckets only. */
  lemma RepresentsUnique(mix: (int, int) -> int, ns: seq<string>, s: Snapshot, keys: seq<FullKey>, m: Buckets,
                         keys': seq<FullKey>, m': Buckets)
    requires Represents(mix, ns, s, keys, m) && Represents(mix, ns, s, keys', m')
    ensures keys == keys' && m == m'
  {
    IndexedUnique(mix, ns, s, keys, keys');
    ListedUnique(ns, s.buckets, keys, m, m');
  }

  lemma IndexedUnique(mix: (int, int) -> int, ns: seq<string>, s: Snapshot, keys: seq<FullKey>, keys': seq<FullKey>)
    requires Indexed(mix, ns, s, keys) && Indexed(mix, ns, s, keys')
    ensures keys == keys'
  {
    forall i | 0 <= i < |keys| ensures keys[i] == keys'[i] {
      assert IndexedAt(mix, ns, s, keys, i) && IndexedAt(mix, ns, s, keys', i);
      KeyUnique(mix, ns, s, s.buckets[i], keys[i], keys'[i]);
    }
  }

  lemma KeyUnique(mix: (int, int) -> int, ns: seq<string>, s: Snapshot, b: Bucket, key: FullKey, key': FullKey)
    requires BucketIs(mix, ns, s, b, key) && BucketIs(mix, ns, s, b, key')
    ensures key == key'
  {}

  lemma ListedUnique(ns: seq<string>, bs: seq<Bucket>, keys: seq<FullKey>, m: Buckets, m': Buckets)
    requires Listed(ns, bs, keys, m) && Listed(ns, bs, keys, m')
    ensures m == m'
  {
    forall k ensures k in m <==> k in m' {
      if i :| 0 <= i < |keys| && keys[i] == k {
        assert ListedAt(ns, bs, keys, m, i) && ListedAt(ns, bs, keys, m', i);
      }
    }
    assert m.Keys == m'.Keys;
    forall k | k in m ensures m[k] == m'[k] {
      var i :| 0 <= i < |keys| && keys[i] == k;
      assert ListedAt(ns, bs, keys, m, i) && ListedAt(ns, bs, keys, m', i);
    }
  }

  // ----- Updates -----

  lemma BucketStable(mix: (int, int) -> int, ns: seq<string>, s: Snapshot, b: Bucket, key: FullKey, ns': seq<string>, s': Snapshot)
    requires BucketIs(mix, ns, s, b, key)
    requires ns <= ns' && s.strings <= s'.strings && s.keys <= s'.keys
    ensures BucketIs(mix, ns', s', b, key)
  {
    assert KeysOf(s', b) == KeysOf(s, b);
    DecodeStable(ns, s.strings, ns', s'.strings, KeysOf(s, b));
  }

  lemma {:induction false} ValuesStable(ns: seq<string>, ns': seq<string>, vs: seq<Accumulator>)
    requires ns <= ns' && forall a :: a in vs ==> a.key < |ns|
    ensures ValuesOf(ns', vs) == ValuesOf(ns, vs)
  {
    if vs != [] {
      ValuesStable(ns, ns', vs[..|vs| - 1]);
    }
  }

  /** Interning more strings leaves what a snapshot stands for. */
  lemma TablesGrow(mix: (int, int) -> int, ns: seq<string>, s: Snapshot, keys: seq<FullKey>, m: Buckets, ns': seq<string>,
                   ks': seq<string>)
    requires Represents(mix, ns, s, keys, m)
    requires ns <= ns' && s.strings <= ks' && Distinct(ns') && Distinct(ks')
    ensures Represents(mix, ns', s.(strings := ks'), keys, m)
  {
    var s' := s.(strings := ks');
    ChainsUnchanged(s, s');
    forall i | 0 <= i < |keys| ensures IndexedAt(mix, ns', s', keys, i) {
      assert IndexedAt(mix, ns, s, keys, i);
      BucketStable(mix, ns, s, s.buckets[i], keys[i], ns', s');
    }
    forall i | 0 <= i < |keys| ensures ListedAt(ns', s'.buckets, keys, m, i) {
      assert ListedAt(ns, s.buckets, keys, m, i);
      ValuesStable(ns, ns', s.buckets[i].values);
    }
  }

  lemma ChainsUnchanged(s: Snapshot, s': Snapshot)
    requires Chained(s) && |s'.buckets| == |s.buckets| && s'.bySignature == s.bySignature
    requires forall i :: 0 <= i < |s.buckets| ==>
               s'.buckets[i].signature == s.buckets[i].signature && s'.buckets[i].next == s.buckets[i].next
    ensures Chained(s')
  {
    forall i | 0 <= i < |s.buckets| ensures ChainedAt(s', i) {
      assert ChainedAt(s, i);
      LastWithSame(s.buckets, s'.buckets, s.buckets[i].signature, i);
    }
    forall sig ensures HeadOf(s', sig) == LastWith(s'.buckets, sig, |s'.buckets|) {
      LastWithSame(s.buckets, s'.buckets, sig, |s.buckets|);
    }
  }

  predicate Matches(s: Snapshot, b: Bucket, sig: int, category: nat, name: nat, typ: nat, threadId: nat, fs: seq<KeyField>) {
    && b.signature == sig && b.category == category && b.name == name && b.typ == typ && b.threadId == threadId
    && InVector(s, b) && KeysOf(s, b) == fs
  }

  /** The exact comparison finds a bucket of the full key, whatever the signatures do. */
  lemma MatchIsKey(mix: (int, int) -> int, ns: seq<string>, s: Snapshot, b: Bucket, k: FullKey, category: nat, name: nat,
                   fs: seq<KeyField>, key: FullKey)
    requires Distinct(ns) && Distinct(s.strings) && BucketIs(mix, ns, s, b, k)
    requires category < |ns| && name < |ns| && ns[category] == key.category && ns[name] == key.name
    requires Encodes(ns, s.strings, fs, key.keys)
    ensures Matches(s, b, Signature(mix, category, name, key.typ, key.threadId, fs), category, name, key.typ, key.threadId, fs)
            <==> k == key
  {
    SamePlace(ns, b.category, category);
    SamePlace(ns, b.name, name);
    if k == key {
      EncodingUnique(ns, s.strings, KeysOf(s, b), fs);
    }
  }

  lemma MatchesAreKeys(mix: (int, int) -> int, ns: seq<string>, s: Snapshot, keys: seq<FullKey>, category: nat, name: nat,
                       fs: seq<KeyField>, key: FullKey)
    requires Distinct(ns) && Distinct(s.strings) && Indexed(mix, ns, s, keys)
    requires category < |ns| && name < |ns| && ns[category] == key.category && ns[name] == key.name
    requires Encodes(ns, s.strings, fs, key.keys)
    ensures var sig := Signature(mix, category, name, key.typ, key.threadId, fs);
            forall i :: 0 <= i < |keys| ==>
              (Matches(s, s.buckets[i], sig, category, name, key.typ, key.threadId, fs) <==> keys[i] == key)
  {
    forall i | 0 <= i < |keys|
      ensures var sig := Signature(mix, category, name, key.typ, key.threadId, fs);
              Matches(s, s.buckets[i], sig, category, name, key.typ, key.threadId, fs) <==> keys[i] == key
    {
      assert IndexedAt(mix, ns, s, keys, i);
      MatchIsKey(mix, ns, s, s.buckets[i], keys[i], category, name, fs, key);
    }
  }

  function NewBucket(s: Snapshot, sig: int, category: nat, name: nat, typ: nat, threadId: nat, fs: seq<KeyField>): Bucket {
    Bucket(category, name, typ, threadId, sig, |s.keys|, |fs|, HeadOf(s, sig), 0, [])
  }

  function WithBucket(s: Snapshot, b: Bucket, fs: seq<KeyField>): Snapshot {
    Snapshot(s.buckets + [b], s.keys + fs, s.bySignature[b.signature := |s.buckets|], s.strings)
  }

  /** Appending a bucket for a new full key adds an empty cell, and keeps every chain. */
  lemma BucketAdded(mix: (int, int) -> int, ns: seq<string>, s: Snapshot, keys: seq<FullKey>, m: Buckets, category: nat,
                    name: nat, fs: seq<KeyField>, key: FullKey)
    requires Represents(mix, ns, s, keys, m) && key !in m
    requires category < |ns| && name < |ns| && ns[category] == key.category && ns[name] == key.name
    requires Encodes(ns, s.strings, fs, key.keys)
    ensures var sig := Signature(mix, category, name, key.typ, key.threadId, fs);
            var b := NewBucket(s, sig, category, name, key.typ, key.threadId, fs);
            Represents(mix, ns, WithBucket(s, b, fs), keys + [key], m[key := EMPTY_CELL])
  {
    var sig := Signature(mix, category, name, key.typ, key.threadId, fs);
    var b := NewBucket(s, sig, category, name, key.typ, key.threadId, fs);
    var s' := WithBucket(s, b, fs);
    ChainsExtended(s, b, fs);
    ListedMore(ns, s.buckets, keys, m, b, key);
    assert KeysOf(s', b) == fs;
    IndexedMore(mix, ns, s, keys, b, fs, key);
  }

  lemma IndexedMore(mix: (int, int) -> int, ns: seq<string>, s: Snapshot, keys: seq<FullKey>, b: Bucket, fs: seq<KeyField>,
                    key: FullKey)
    requires Indexed(mix, ns, s, keys) && key !in keys && BucketIs(mix, ns, WithBucket(s, b, fs), b, key)
    ensures Indexed(mix, ns, WithBucket(s, b, fs), keys + [key])
  {
    var s' := WithBucket(s, b, fs);
    DistinctPush(keys, key);
    forall i | 0 <= i <= |keys| ensures IndexedAt(mix, ns, s', keys + [key], i) {
      if i < |keys| {
        assert IndexedAt(mix, ns, s, keys, i);
        BucketStable(mix, ns, s, s.buckets[i], keys[i], ns, s');
      }
    }
  }

  lemma ListedMore(ns: seq<string>, bs: seq<Bucket>, keys: seq<FullKey>, m: Buckets, b: Bucket, key: FullKey)
    requires Listed(ns, bs, keys, m) && key !in m && b.count == 0 && b.values == []
    ensures Listed(ns, bs + [b], keys + [key], m[key := EMPTY_CELL])
    ensures key !in keys
  {
    var bs', keys', m' := bs + [b], keys + [key], m[key := EMPTY_CELL];
    forall i | 0 <= i <= |keys| ensures ListedAt(ns, bs', keys', m', i) {
      assert i < |keys| ==> ListedAt(ns, bs, keys, m, i);
    }
    forall i | 0 <= i < |keys| ensures keys[i] != key {
      assert ListedAt(ns, bs, keys, m, i);
    }
    forall k | k in m[key := EMPTY_CELL] ensures k in keys + [key] {
      assert k != key ==> k in keys;
    }
  }

  lemma ChainsExtended(s: Snapshot, b: Bucket, fs: seq<KeyField>)
    requires Chained(s) && b.next == HeadOf(s, b.signature)
    ensures Chained(WithBucket(s, b, fs))
  {
    var s', n := WithBucket(s, b, fs), |s.buckets|;
    forall i | 0 <= i <= n ensures ChainedAt(s', i) {
      assert i < n ==> ChainedAt(s, i);
      LastWithSame(s.buckets, s'.buckets, s'.buckets[i].signature, i);
    }
    forall sig ensures HeadOf(s', sig) == LastWith(s'.buckets, sig, n + 1) {
      LastWithSame(s.buckets, s'.buckets, sig, n);
    }
  }

  /** Changing the count and accumulators of one bucket changes that bucket's cell and nothing else. */
  lemma BucketChanged(mix: (int, int) -> int, ns: seq<string>, s: Snapshot, keys: seq<FullKey>, m: Buckets, at: nat,
                      b: Bucket, c: Cell)
    requires Represents(mix, ns, s, keys, m) && at < |s.buckets|
    requires b == s.buckets[at].(count := b.count, values := b.values) && CellIs(ns, b, c)
    ensures Represents(mix, ns, s.(buckets := s.buckets[at := b]), keys, m[keys[at] := c])
  {
    var s' := s.(buckets := s.buckets[at := b]);
    ChainsUnchanged(s, s');
    IndexedChange(mix, ns, s, keys, at, b);
    ListedChange(ns, s.buckets, keys, m, at, b, c);
  }

  lemma IndexedChange(mix: (int, int) -> int, ns: seq<string>, s: Snapshot, keys: seq<FullKey>, at: nat, b: Bucket)
    requires Indexed(mix, ns, s, keys) && at < |s.buckets|
    requires b == s.buckets[at].(count := b.count, values := b.values)
    ensures Indexed(mix, ns, s.(buckets := s.buckets[at := b]), keys)
  {
    var s' := s.(buckets := s.buckets[at := b]);
    forall i | 0 <= i < |keys| ensures IndexedAt(mix, ns, s', keys, i) {
      assert IndexedAt(mix, ns, s, keys, i);
      BucketStable(mix, ns, s, s.buckets[i], keys[i], ns, s');
      assert KeysOf(s', s'.buckets[i]) == KeysOf(s', s.buckets[i]);
    }
  }

  lemma ListedChange(ns: seq<string>, bs: seq<Bucket>, keys: seq<FullKey>, m: Buckets, at: nat, b: Bucket, c: Cell)
    requires Listed(ns, bs, keys, m) && Distinct(keys) && at < |bs| && CellIs(ns, b, c)
    ensures Listed(ns, bs[at := b], keys, m[keys[at] := c])
  {
    var bs', m' := bs[at := b], m[keys[at] := c];
    forall i | 0 <= i < |keys| ensures ListedAt(ns, bs', keys, m', i) {
      assert ListedAt(ns, bs, keys, m, i);
      SamePlace(keys, i, at);
    }
  }

  // ----- Accumulators -----

  lemma {:induction false} ValuesAt(ns: seq<string>, vs: seq<Accumulator>, i: nat)
    requires Distinct(ns) && KeysKnown(ns, vs) && i < |vs|
    ensures ns[vs[i].key] in ValuesOf(ns, vs) && ValuesOf(ns, vs)[ns[vs[i].key]] == vs[i].acc
  {
    if i < |vs| - 1 {
      ValuesAt(ns, vs[..|vs| - 1], i);
      SamePlace(ns, vs[i].key, vs[|vs| - 1].key);
    }
  }

  lemma {:induction false} ValuesLack(ns: seq<string>, vs: seq<Accumulator>, k: nat)
    requires Distinct(ns) && KeysKnown(ns, vs) && k < |ns|
    requires forall a :: a in vs ==> a.key != k
    ensures ns[k] !in ValuesOf(ns, vs)
  {
    if vs != [] {
      ValuesLack(ns, vs[..|vs| - 1], k);
      SamePlace(ns, k, vs[|vs| - 1].key);
    }
  }

  lemma {:induction false} ValuesChange(ns: seq<string>, vs: seq<Accumulator>, i: nat, acc: Acc)
    requires Distinct(ns) && KeysKnown(ns, vs) && i < |vs|
    ensures KeysKnown(ns, vs[i := vs[i].(acc := acc)])
    ensures ValuesOf(ns, vs[i := vs[i].(acc := acc)]) == ValuesOf(ns, vs)[ns[vs[i].key] := acc]
  {
    var front, ws := vs[..|vs| - 1], vs[i := vs[i].(acc := acc)];
    assert forall a :: a in ws ==> a.key < |ns|;
    if i == |vs| - 1 {
      assert ws[..|ws| - 1] == front;
    } else {
      assert ws[..|ws| - 1] == front[i := front[i].(acc := acc)];
      ValuesChange(ns, front, i, acc);
      SamePlace(ns, vs[i].key, vs[|vs| - 1].key);
    }
  }

  /** Folding into the vector is folding into the map the vector stands for, and leaves every key in its place. */
  method Fold(fp: Floats, ghost ns: seq<string>, values: seq<Accumulator>, key: nat, tag: ValueTag, v: int)
    returns (r: seq<Accumulator>)
    requires Distinct(ns) && KeysKnown(ns, values) && key < |ns|
    ensures KeysKnown(ns, r) && ValuesOf(ns, r) == FoldNumber(fp, ValuesOf(ns, values), ns[key], tag, v)
    ensures |values| <= |r| <= |values| + 1 && forall i :: 0 <= i < |values| ==> r[i].key == values[i].key
    ensures r != [] && (|r| > |values| ==> r[|values|].key == key)
  {
    var i := 0;
    while i < |values|
      invariant 0 <= i <= |values|
      invariant forall j :: 0 <= j < i ==> values[j].key != key
    {
      if values[i].key == key {
        ValuesAt(ns, values, i);
        ValuesChange(ns, values, i, Updated(fp, values[i].acc, tag, v));
        return values[i := values[i].(acc := Updated(fp, values[i].acc, tag, v))];
      }
      i := i + 1;
    }
    ValuesLack(ns, values, key);
    r := values + [Accumulator(key, Started(tag, v))];
    assert r[..|r| - 1] == values;
  }
}
