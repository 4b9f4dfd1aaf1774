/** One interval of the packed aggregator: buckets found through signature chains, updated in place. */
module Intervals {
  import opened Events
  import opened Interning
  import opened Rollup
  import opened PackedLayout
  import opened Wrappers

  type Mix = (int, int) -> int

  /** The key fields gathered so far encode the MT_KEY fields seen so far. */
  ghost predicate Gathered(ns: seq<string>, ks: seq<string>, fs: seq<KeyField>, fields: seq<Field>) {
    FieldsOk(ns, ks, fs) && DistinctKeys(fs) && DecodeAll(ns, ks, fs) == KeyFields(fields)
  }

  lemma GatherOne(ns: seq<string>, ks: seq<string>, fs: seq<KeyField>, fields: seq<Field>, f: Field, kf: KeyField)
    requires Gathered(ns, ks, fs, fields) && Distinct(ns)
    requires f.mtype == MT_KEY && forall g :: g in fields ==> g.key != f.key
    requires kf.key < |ns| && ns[kf.key] == f.key && WordOk(ks, kf.tag, kf.v) && ValueOf(ks, kf.tag, kf.v) == f.value
    ensures Gathered(ns, ks, fs + [kf], fields + [f])
  {
    forall g | g in fs ensures g.key != kf.key {
      assert Decode(ns, ks, g) in KeyFields(fields);
    }
    var gs := fs + [kf];
    forall i, j | 0 <= i < j < |gs| ensures Nth(gs, i).key != Nth(gs, j).key {
      assert j < |fs| ==> Nth(fs, i).key != Nth(fs, j).key;
    }
    assert KeyFields(fields + [f]) == KeyFields(fields) + {(f.key, f.value)};
    assert DecodeAll(ns, ks, fs + [kf]) == DecodeAll(ns, ks, fs) + {Decode(ns, ks, kf)};
  }

  lemma GatherNone(ns: seq<string>, ks: seq<string>, fs: seq<KeyField>, fields: seq<Field>, f: Field)
    requires Gathered(ns, ks, fs, fields) && f.mtype != MT_KEY
    ensures Gathered(ns, ks, fs, fields + [f])
  {
    assert KeyFields(fields + [f]) == KeyFields(fields);
  }

  lemma GatherSorted(ns: seq<string>, ks: seq<string>, fs: seq<KeyField>, fields: seq<Field>)
    requires Gathered(ns, ks, fs, fields)
    ensures Encodes(ns, ks, SortByKey(fs), KeyFields(fields))
  {
    SortByKeySorts(fs);
  }

  lemma AllInVector(mix: Mix, ns: seq<string>, s: Snapshot, keys: seq<FullKey>)
    requires Indexed(mix, ns, s, keys)
    ensures forall i :: 0 <= i < |s.buckets| ==> InVector(s, s.buckets[i])
  {
    forall i | 0 <= i < |s.buckets| ensures InVector(s, s.buckets[i]) {
      assert IndexedAt(mix, ns, s, keys, i);
    }
  }

  lemma InternGrows(strings: seq<string>, s: string)
    ensures strings <= Interned(strings, s)
  {}

  predicate DurLeads(b: Bucket, dur: nat) {
    if b.count == 0 then b.values == [] else b.values != [] && b.values[0].key == dur
  }

  class Interval {
    var buckets: seq<Bucket>
    var keys: seq<KeyField>
    var bySignature: map<int, nat>   // first bucket
    const keyStrings: StringTable    // string keys' values
    ghost var fullKeys: seq<FullKey> // what bucket i is for

    constructor (hash: string -> nat, mix: Mix, ghost names: StringTable)
      requires Distinct(names.strings)
      ensures fresh(keyStrings) && Stands(mix, names, map[]) && buckets == []
    {
      buckets, keys, bySignature, fullKeys := [], [], map[], [];
      keyStrings := new StringTable(hash);
      new;
      assert Chained(Snap());
    }

    function Snap(): Snapshot
      reads this, keyStrings
    {
      Snapshot(buckets, keys, bySignature, keyStrings.strings)
    }

    ghost predicate Stands(mix: Mix, names: StringTable, m: Buckets)
      reads this, keyStrings, names
    {
      keyStrings != names && keyStrings.Valid() && Whole(Represents(mix, names.strings, Snap(), fullKeys, m))
    }

    /** `dur` leads the accumulators of every bucket that took an event. */
    ghost predicate DurFirst(dur: nat)
      reads this
    {
      forall i :: 0 <= i < |buckets| ==> DurLeads(buckets[i], dur)
    }

    /** Fills the vector with the one encoding the event's key fields have, and may intern names and key strings. */
    method CollectKeys(names: StringTable, e: Event) returns (scratch: seq<KeyField>)
      requires names.Valid() && keyStrings.Valid() && names != keyStrings && DistinctFields(e)
      modifies names, keyStrings
      ensures names.Valid() && keyStrings.Valid()
      ensures old(names.strings) <= names.strings && old(keyStrings.strings) <= keyStrings.strings
      ensures Encodes(names.strings, keyStrings.strings, scratch, KeyFields(e.fields))
    {
      scratch := [];
      for i := 0 to |e.fields|
        invariant names.Valid() && keyStrings.Valid()
        invariant old(names.strings) <= names.strings && old(keyStrings.strings) <= keyStrings.strings
        invariant Gathered(names.strings, keyStrings.strings, scratch, e.fields[..i])
      {
        var f := e.fields[i];
        assert e.fields[..i + 1] == e.fields[..i] + [f];
        if f.mtype == MT_KEY {
          scratch := CollectKey(names, e.fields[..i], scratch, f);
        } else {
          GatherNone(names.strings, keyStrings.strings, scratch, e.fields[..i], f);
        }
      }
      assert e.fields[..|e.fields|] == e.fields;
      GatherSorted(names.strings, keyStrings.strings, scratch, e.fields);
      scratch := SortByKey(scratch);
    }

    method CollectKey(names: StringTable, ghost before: seq<Field>, scratch: seq<KeyField>, f: Field) returns (r: seq<KeyField>)
      requires names.Valid() && keyStrings.Valid() && names != keyStrings
      requires Gathered(names.strings, keyStrings.strings, scratch, before)
      requires f.mtype == MT_KEY && forall g :: g in before ==> g.key != f.key
      modifies names, keyStrings
      ensures names.Valid() && keyStrings.Valid()
      ensures old(names.strings) <= names.strings && old(keyStrings.strings) <= keyStrings.strings
      ensures Gathered(names.strings, keyStrings.strings, r, before + [f])
    {
      InternGrows(names.strings, f.key);
      var key := names.Intern(f.key);
      var v := EncodeValue(f.value);
      var kf := KeyField(key, f.value.Tag(), v);
      DecodeStable(old(names.strings), old(keyStrings.strings), names.strings, keyStrings.strings, scratch);
      GatherOne(names.strings, keyStrings.strings, scratch, before, f, kf);
      r := scratch + [kf];
    }

    method EncodeValue(value: Value) returns (v: int)
      requires keyStrings.Valid()
      modifies keyStrings
      ensures keyStrings.Valid() && old(keyStrings.strings) <= keyStrings.strings
      ensures WordOk(keyStrings.strings, value.Tag(), v) && ValueOf(keyStrings.strings, value.Tag(), v) == value
    {
      match value
      case IntV(i) => v := i;
      case UintV(u) => v := u;
      case DoubleV(d) => v := d;
      case StringV(s) =>
        InternGrows(keyStrings.strings, s);
        v := keyStrings.Intern(s);
      case RawJsonV(s) =>
        InternGrows(keyStrings.strings, s);
        v := keyStrings.Intern(s);
    }

    method SameKeys(c: Bucket, scratch: seq<KeyField>) returns (same: bool)
      requires InVector(Snap(), c)
      ensures same <==> KeysOf(Snap(), c) == scratch
    {
      if c.keysCount != |scratch| {
        return false;
      }
      for i := 0 to c.keysCount
        invariant forall j :: 0 <= j < i ==> keys[c.keysAt + j] == scratch[j]
      {
        if keys[c.keysAt + i] != scratch[i] {
          assert KeysOf(Snap(), c)[i] != scratch[i];
          return false;
        }
      }
      same := true;
    }

    /** Walks the signature's chain to the bucket that matches exactly, if there is one. */
    method Find(sig: int, category: nat, name: nat, typ: nat, threadId: nat, scratch: seq<KeyField>) returns (at: Option<nat>)
      requires Chained(Snap()) && forall i :: 0 <= i < |buckets| ==> InVector(Snap(), buckets[i])
      ensures at.Some? ==> at.value < |buckets| && Matches(Snap(), buckets[at.value], sig, category, name, typ, threadId, scratch)
      ensures at.None? ==> forall i :: 0 <= i < |buckets| ==> !Matches(Snap(), buckets[i], sig, category, name, typ, threadId, scratch)
    {
      at := HeadOf(Snap(), sig);
      ghost var n: nat := |buckets|;
      while at.Some?
        invariant n <= |buckets| && at == LastWith(buckets, sig, n)
        invariant forall i :: n <= i < |buckets| ==> !Matches(Snap(), buckets[i], sig, category, name, typ, threadId, scratch)
        decreases n
      {
        LastWithIs(buckets, sig, n);
        var c := buckets[at.value];
        if c.signature == sig && c.category == category && c.name == name && c.typ == typ && c.threadId == threadId {
          var same := SameKeys(c, scratch);
          if same {
            return;
          }
        }
        n := at.value;
        assert ChainedAt(Snap(), n);
        at := c.next;
      }
      LastWithIs(buckets, sig, n);
    }

    /** Encodes the event's keys and looks its bucket up. */
    method Lookup(mix: Mix, names: StringTable, e: Event, category: nat, name: nat, ghost m: Buckets)
      returns (at: Option<nat>, scratch: seq<KeyField>)
      requires names.Valid() && Stands(mix, names, m) && DistinctFields(e)
      requires category < |names.strings| && names.At(category) == e.category
      requires name < |names.strings| && names.At(name) == e.name
      modifies keyStrings, names
      ensures names.Valid() && old(names.strings) <= names.strings && Stands(mix, names, m)
      ensures Encodes(names.strings, keyStrings.strings, scratch, KeyFields(e.fields))
      ensures at.Some? ==> at.value < |fullKeys| && fullKeys[at.value] == KeyOf(e)
      ensures at.None? ==> KeyOf(e) !in m
    {
      scratch := CollectKeys(names, e);
      TablesGrow(mix, old(names.strings), old(Snap()), fullKeys, m, names.strings, keyStrings.strings);
      var sig := Signature(mix, category, name, e.typ, e.threadId, scratch);
      AllInVector(mix, names.strings, Snap(), fullKeys);
      at := Find(sig, category, name, e.typ, e.threadId, scratch);
      MatchesAreKeys(mix, names.strings, Snap(), fullKeys, category, name, scratch, KeyOf(e));
    }

    /** `bucket`: the index of the event's bucket, which is appended when there is none. */
    method FindOrAdd(mix: Mix, names: StringTable, e: Event, category: nat, name: nat, ghost dur: nat, ghost m: Buckets)
      returns (at: nat)
      requires names.Valid() && Stands(mix, names, m) && DurFirst(dur) && DistinctFields(e)
      requires category < |names.strings| && names.At(category) == e.category
      requires name < |names.strings| && names.At(name) == e.name
      modifies this, keyStrings, names
      ensures names.Valid() && old(names.strings) <= names.strings
      ensures Stands(mix, names, m[KeyOf(e) := CellIn(m, KeyOf(e))])
      ensures at < |fullKeys| && fullKeys[at] == KeyOf(e) && DurFirst(dur)
    {
      var found, scratch := Lookup(mix, names, e, category, name, m);
      if found.Some? {
        at := found.value;
        assert ListedAt(names.strings, buckets, fullKeys, m, at);
        assert m[KeyOf(e) := m[KeyOf(e)]] == m;
        return;
      }
      at := |buckets|;
      Append(mix, names, KeyOf(e), category, name, Signature(mix, category, name, e.typ, e.threadId, scratch), scratch, dur, m);
    }

    method Append(mix: Mix, names: StringTable, key: FullKey, category: nat, name: nat, sig: int, scratch: seq<KeyField>,
                  ghost dur: nat, ghost m: Buckets)
      requires Stands(mix, names, m) && DurFirst(dur) && key !in m
      requires category < |names.strings| && name < |names.strings|
      requires names.At(category) == key.category && names.At(name) == key.name
      requires Encodes(names.strings, keyStrings.strings, scratch, key.keys)
      requires sig == Signature(mix, category, name, key.typ, key.threadId, scratch)
      modifies this
      ensures Stands(mix, names, m[key := EMPTY_CELL])
      ensures fullKeys == old(fullKeys) + [key] && DurFirst(dur)
    {
      ghost var s := Snap();
      BucketAdded(mix, names.strings, s, fullKeys, m, category, name, scratch, key);
      var b := NewBucket(Snap(), sig, category, name, key.typ, key.threadId, scratch);
      keys := keys + scratch;
      bySignature := bySignature[sig := |buckets|];
      buckets := buckets + [b];
      fullKeys := fullKeys + [key];
      assert Snap() == WithBucket(s, b, scratch);
    }

    /** Counts the event in its bucket and folds in its duration and numbers, in the order the event lists them. */
    method FoldInto(fp: Floats, mix: Mix, names: StringTable, e: Event, dur: nat, at: nat, ghost m: Buckets)
      requires names.Valid() && Stands(mix, names, m) && at < |fullKeys| && fullKeys[at] == KeyOf(e)
      requires dur < |names.strings| && names.At(dur) == "dur" && DurFirst(dur)
      modifies this, names
      ensures names.Valid() && old(names.strings) <= names.strings
      ensures Stands(mix, names, m[KeyOf(e) := CellAfter(fp, CellIn(m, KeyOf(e)), e)])
      ensures fullKeys == old(fullKeys) && DurFirst(dur)
    {
      ghost var cell := CellIn(m, KeyOf(e));
      assert ListedAt(names.strings, buckets, fullKeys, m, at) && DurLeads(buckets[at], dur);
      var values := FoldEvent(fp, names, buckets[at].values, e, dur);
      NamesGrew(mix, names, old(names.strings), m);
      Replace(mix, names, at, buckets[at].(count := buckets[at].count + 1, values := values), dur, CellAfter(fp, cell, e), m);
    }

    /** Finds the event's bucket, or adds it, and folds the event in. */
    method Take(fp: Floats, mix: Mix, names: StringTable, e: Event, dur: nat, ghost m: Buckets)
      requires names.Valid() && Stands(mix, names, m) && DurFirst(dur) && DistinctFields(e)
      requires dur < |names.strings| && names.At(dur) == "dur"
      modifies this, keyStrings, names
      ensures names.Valid() && old(names.strings) <= names.strings
      ensures Stands(mix, names, AddTo(fp, m, e)) && DurFirst(dur)
    {
      InternGrows(names.strings, e.category);
      var category := names.Intern(e.category);
      InternGrows(names.strings, e.name);
      var name := names.Intern(e.name);
      NamesGrew(mix, names, old(names.strings), m);
      ghost var m' := m[KeyOf(e) := CellIn(m, KeyOf(e))];
      var at := FindOrAdd(mix, names, e, category, name, dur, m);
      FoldInto(fp, mix, names, e, dur, at, m');
      assert m'[KeyOf(e) := CellAfter(fp, CellIn(m', KeyOf(e)), e)] == AddTo(fp, m, e);
    }

    lemma NamesGrew(mix: Mix, names: StringTable, before: seq<string>, m: Buckets)
      requires keyStrings != names && keyStrings.Valid() && names.Valid()
      requires Represents(mix, before, Snap(), fullKeys, m) && before <= names.strings
      ensures Stands(mix, names, m)
    {
      TablesGrow(mix, before, Snap(), fullKeys, m, names.strings, keyStrings.strings);
      assert Snap().(strings := keyStrings.strings) == Snap();
    }

    method Replace(mix: Mix, names: StringTable, at: nat, b: Bucket, ghost dur: nat, ghost c: Cell, ghost m: Buckets)
      requires Stands(mix, names, m) && DurFirst(dur) && at < |buckets| && at < |fullKeys|
      requires b == buckets[at].(count := b.count, values := b.values) && CellIs(names.strings, b, c) && DurLeads(b, dur)
      modifies this
      ensures Stands(mix, names, m[old(fullKeys)[at] := c]) && fullKeys == old(fullKeys) && DurFirst(dur)
    {
      BucketChanged(mix, names.strings, Snap(), fullKeys, m, at, b, c);
      buckets := buckets[at := b];
      assert Snap() == old(Snap()).(buckets := buckets);
    }
  }

  /** Folds an event's duration, then its numbers in the order it lists them, into the accumulators of a bucket. */
  method FoldEvent(fp: Floats, names: StringTable, values: seq<Accumulator>, e: Event, dur: nat) returns (r: seq<Accumulator>)
    requires names.Valid() && KeysKnown(names.strings, values)
    requires dur < |names.strings| && names.At(dur) == "dur"
    requires values != [] ==> values[0].key == dur
    modifies names
    ensures names.Valid() && old(names.strings) <= names.strings
    ensures KeysKnown(names.strings, r) && r != [] && r[0].key == dur
    ensures ValuesOf(names.strings, r)
            == FoldFields(fp, FoldNumber(fp, ValuesOf(old(names.strings), values), "dur", UINT, e.duration), e.fields)
  {
    r := Fold(fp, names.strings, values, dur, UINT, e.duration);
    ghost var first := ValuesOf(names.strings, r);
    for i := 0 to |e.fields|
      invariant names.Valid() && old(names.strings) <= names.strings
      invariant KeysKnown(names.strings, r) && r != [] && r[0].key == dur
      invariant ValuesOf(names.strings, r) == FoldFields(fp, first, e.fields[..i])
    {
      assert e.fields[..i + 1][..i] == e.fields[..i];
      r := FoldValue(fp, names, r, e.fields[i]);
    }
    assert e.fields[..|e.fields|] == e.fields;
  }

  method FoldValue(fp: Floats, names: StringTable, values: seq<Accumulator>, f: Field) returns (r: seq<Accumulator>)
    requires names.Valid() && KeysKnown(names.strings, values) && values != []
    modifies names
    ensures names.Valid() && old(names.strings) <= names.strings
    ensures KeysKnown(names.strings, r) && r != [] && r[0].key == values[0].key
    ensures ValuesOf(names.strings, r) == FoldField(fp, ValuesOf(old(names.strings), values), f)
  {
    if !Folds(f) {
      return values;
    }
    InternGrows(names.strings, f.key);
    var key := names.Intern(f.key);
    ValuesStable(old(names.strings), names.strings, values);
    r := Fold(fp, names.strings, values, key, f.value.Tag(), f.value.Word());
  }
}
