/** The packed aggregator: the same intervals and buckets as the plain maps of Rollup, event by event and drain by drain. */
module PackedAggregators {
  import opened Events
  import opened Interning
  import opened Rollup
  import opened PackedLayout
  import opened Intervals
  import opened Wrappers

  /** A value of a written row: the number itself when it is alone, else its sum, minimum and maximum. */
  datatype RowValue = Single(tag: ValueTag, v: int) | Several(tag: ValueTag, sum: int, min: int, max: int)

  datatype Row = Row(
    ts: nat, category: string, name: string, typ: nat, threadId: nat, keys: seq<(string, Value)>, count: nat,
    values: seq<(string, RowValue)>)

  function Shown(a: Acc): RowValue {
    if a.count == 1 then Single(a.tag, a.sum) else Several(a.tag, a.sum, a.min, a.max)
  }

  ghost predicate ShowsValue(row: Row, c: Cell, i: nat) {
    i < |row.values| && row.values[i].0 in c.values && row.values[i].1 == Shown(c.values[row.values[i].0])
  }

  /** The row is interval `ts`'s row for bucket `key` holding `c`: each of its keys once, its count and each value once. */
  ghost predicate Shows(row: Row, ts: nat, key: FullKey, c: Cell) {
    && row.ts == ts && row.category == key.category && row.name == key.name && row.typ == key.typ
    && row.threadId == key.threadId && (set k | k in row.keys) == key.keys && row.count == c.count
    && |row.keys| == |key.keys| && |row.values| == |c.values|
    && (forall i :: 0 <= i < |row.values| ==> ShowsValue(row, c, i))
    && (forall k :: k in c.values ==> exists v :: (k, v) in row.values)
  }

  /** A count of one leaves nothing for the collapsed form to lose. */
  predicate Collapsible(a: Acc) { a.count >= 1 && (a.count == 1 ==> a.sum == a.min == a.max) }

  /** What a row tells of an accumulator: its type, sum, minimum and maximum, and whether it was folded once. */
  predicate SameToReader(a: Acc, b: Acc) {
    a.tag == b.tag && a.sum == b.sum && a.min == b.min && a.max == b.max && (a.count == 1 <==> b.count == 1)
  }

  /** A row determines its interval, its bucket's key and count, and all four statistics of every value. */
  lemma RowLosesNothing(row: Row, ts: nat, key: FullKey, c: Cell, ts': nat, key': FullKey, c': Cell)
    requires Shows(row, ts, key, c) && Shows(row, ts', key', c')
    requires forall k :: k in c.values ==> Collapsible(c.values[k])
    requires forall k :: k in c'.values ==> Collapsible(c'.values[k])
    ensures ts == ts' && key == key' && c.count == c'.count && c.values.Keys == c'.values.Keys
    ensures forall k :: k in c.values && k in c'.values ==> SameToReader(c.values[k], c'.values[k])
  {
    forall k ensures k in c.values <==> k in c'.values
      ensures k in c.values && k in c'.values ==> SameToReader(c.values[k], c'.values[k])
    {
      if k in c.values {
        var v :| (k, v) in row.values;
        var i :| 0 <= i < |row.values| && row.values[i] == (k, v);
        assert ShowsValue(row, c, i) && ShowsValue(row, c', i);
      }
      if k in c'.values {
        var v :| (k, v) in row.values;
        var i :| 0 <= i < |row.values| && row.values[i] == (k, v);
        assert ShowsValue(row, c, i) && ShowsValue(row, c', i);
      }
    }
    assert c.values.Keys == c'.values.Keys;
  }

  function DecodeSeq(ns: seq<string>, ks: seq<string>, fs: seq<KeyField>): (r: seq<(string, Value)>)
    requires FieldsOk(ns, ks, fs)
    ensures (set k | k in r) == DecodeAll(ns, ks, fs) && |r| == |fs|
  {
    if fs == [] then [] else
    var front, f := fs[..|fs| - 1], fs[|fs| - 1];
    assert fs == front + [f];
    assert DecodeAll(ns, ks, fs) == DecodeAll(ns, ks, front) + {Decode(ns, ks, f)};
    DecodeSeq(ns, ks, front) + [Decode(ns, ks, f)]
  }

  function ShownAll(ns: seq<string>, vs: seq<Accumulator>): (r: seq<(string, RowValue)>)
    requires forall a :: a in vs ==> a.key < |ns|
    ensures |r| == |vs| && forall i :: 0 <= i < |vs| ==> r[i] == (ns[vs[i].key], Shown(vs[i].acc))
  {
    if vs == [] then [] else
    ShownAll(ns, vs[..|vs| - 1]) + [(ns[vs[|vs| - 1].key], Shown(vs[|vs| - 1].acc))]
  }

  /** `write_row`, as a record. */
  function RowOf(ns: seq<string>, s: Snapshot, ts: nat, b: Bucket): Row
    requires b.category < |ns| && b.name < |ns| && InVector(s, b) && FieldsOk(ns, s.strings, KeysOf(s, b))
    requires forall a :: a in b.values ==> a.key < |ns|
  {
    Row(ts, ns[b.category], ns[b.name], b.typ, b.threadId, DecodeSeq(ns, s.strings, KeysOf(s, b)), b.count,
        ShownAll(ns, b.values))
  }

  lemma RowShows(mix: Mix, ns: seq<string>, s: Snapshot, keys: seq<FullKey>, m: Buckets, ts: nat, i: nat)
    requires Represents(mix, ns, s, keys, m) && i < |keys|
    ensures IndexedAt(mix, ns, s, keys, i) && ListedAt(ns, s.buckets, keys, m, i)
    ensures Shows(RowOf(ns, s, ts, s.buckets[i]), ts, keys[i], m[keys[i]])
  {
    assert IndexedAt(mix, ns, s, keys, i) && ListedAt(ns, s.buckets, keys, m, i);
    ValuesShown(ns, s.buckets[i].values);
    ValuesOnce(ns, s.buckets[i].values);
    KeysOnce(ns, s.strings, KeysOf(s, s.buckets[i]));
    var row, c := RowOf(ns, s, ts, s.buckets[i]), m[keys[i]];
    forall j | 0 <= j < |row.values| ensures ShowsValue(row, c, j) {
      ValuesAt(ns, s.buckets[i].values, j);
    }
  }

  /** Every accumulator has a name of its own. */
  lemma {:induction false} ValuesOnce(ns: seq<string>, vs: seq<Accumulator>)
    requires Distinct(ns) && KeysKnown(ns, vs)
    ensures |ValuesOf(ns, vs)| == |vs|
  {
    if vs != [] {
      var front, a := vs[..|vs| - 1], vs[|vs| - 1];
      ValuesOnce(ns, front);
      ValuesLack(ns, front, a.key);
    }
  }

  /** And every key field of a sorted vector. */
  lemma {:induction false} KeysOnce(ns: seq<string>, ks: seq<string>, fs: seq<KeyField>)
    requires Distinct(ns) && FieldsOk(ns, ks, fs) && Sorted(fs)
    ensures |DecodeAll(ns, ks, fs)| == |fs|
  {
    if fs != [] {
      var front, f := fs[..|fs| - 1], fs[|fs| - 1];
      assert fs == front + [f];
      forall i, j | 0 <= i < j < |front| ensures Nth(front, i).key < Nth(front, j).key {
        assert Nth(fs, i).key < Nth(fs, j).key;
      }
      KeysOnce(ns, ks, front);
      assert DecodeAll(ns, ks, fs) == DecodeAll(ns, ks, front) + {Decode(ns, ks, f)};
      forall g | g in front ensures Decode(ns, ks, g) != Decode(ns, ks, f) {
        var i :| 0 <= i < |front| && front[i] == g;
        assert Nth(fs, i).key < Nth(fs, |front|).key;
        assert FieldOk(ns, ks, g) && FieldOk(ns, ks, f);
        SamePlace(ns, g.key, f.key);
      }
    }
  }

  lemma {:induction false} ValuesShown(ns: seq<string>, vs: seq<Accumulator>)
    requires forall a :: a in vs ==> a.key < |ns|
    ensures forall k :: k in ValuesOf(ns, vs) ==> exists v :: (k, v) in ShownAll(ns, vs)
  {
    if vs != [] {
      var front, a := vs[..|vs| - 1], vs[|vs| - 1];
      ValuesShown(ns, front);
      forall k | k in ValuesOf(ns, vs) ensures exists v :: (k, v) in ShownAll(ns, vs) {
        if k == ns[a.key] {
          assert (k, Shown(a.acc)) in ShownAll(ns, vs);
        } else {
          assert k in ValuesOf(ns, front);
          var v :| (k, v) in ShownAll(ns, front);
          assert (k, v) in ShownAll(ns, vs);
        }
      }
    }
  }

  /** Which bucket each row of a drain is for. */
  datatype RowId = RowId(ts: nat, key: FullKey)

  ghost predicate RowIs(rows: seq<Row>, ids: seq<RowId>, out: map<nat, Buckets>, i: nat) {
    && i < |rows| && i < |ids| && ids[i].ts in out && ids[i].key in out[ids[i].ts]
    && Shows(rows[i], ids[i].ts, ids[i].key, out[ids[i].ts][ids[i].key])
  }

  /** The rows are exactly the buckets of `out`, one row each, intervals in ascending order. */
  ghost predicate RowsOf(rows: seq<Row>, ids: seq<RowId>, out: map<nat, Buckets>) {
    && |rows| == |ids| && Distinct(ids)
    && (forall i :: 0 <= i < |rows| ==> RowIs(rows, ids, out, i))
    && (forall t, k :: t in out && k in out[t] ==> RowId(t, k) in ids)
    && (forall i, j {:trigger Nth(rows, i), Nth(rows, j)} :: 0 <= i < j < |rows| ==> Nth(rows, i).ts <= Nth(rows, j).ts)
  }

  function IdsOf(t: nat, keys: seq<FullKey>): (ids: seq<RowId>)
    ensures |ids| == |keys| && forall i :: 0 <= i < |keys| ==> ids[i] == RowId(t, keys[i])
  {
    if keys == [] then [] else IdsOf(t, keys[..|keys| - 1]) + [RowId(t, keys[|keys| - 1])]
  }

  ghost predicate RowFor(rows: seq<Row>, t: nat, keys: seq<FullKey>, m: Buckets, i: nat) {
    i < |rows| && i < |keys| && keys[i] in m && Shows(rows[i], t, keys[i], m[keys[i]])
  }

  /** Row `i` is for bucket `keys[i]` of interval `t`. */
  ghost predicate RowsFor(rows: seq<Row>, t: nat, keys: seq<FullKey>, m: Buckets) {
    && |rows| == |keys| && Distinct(keys) && (forall k :: k in m ==> k in keys)
    && forall i :: 0 <= i < |rows| ==> RowFor(rows, t, keys, m, i)
  }

  /** The rows of one later interval follow the rows already written. */
  lemma RowsAppend(rows: seq<Row>, ids: seq<RowId>, out: map<nat, Buckets>, more: seq<Row>, keys: seq<FullKey>, t: nat, m: Buckets)
    requires RowsOf(rows, ids, out) && forall u :: u in out ==> u < t
    requires RowsFor(more, t, keys, m)
    ensures RowsOf(rows + more, ids + IdsOf(t, keys), out[t := m])
  {
    var rows', ids', out' := rows + more, ids + IdsOf(t, keys), out[t := m];
    forall i | 0 <= i < |rows'| ensures RowIs(rows', ids', out', i) {
      if i < |rows| {
        assert RowIs(rows, ids, out, i);
      } else {
        assert RowFor(more, t, keys, m, i - |rows|);
      }
    }
    forall i, j | 0 <= i < j < |ids'| ensures Nth(ids', i) != Nth(ids', j) {
      assert i < |rows| ==> RowIs(rows, ids, out, i);
      if j < |ids| {
        SamePlace(ids, i, j);
      } else if i >= |ids| {
        SamePlace(keys, i - |ids|, j - |ids|);
      }
    }
    forall i, j | 0 <= i < j < |rows'| ensures Nth(rows', i).ts <= Nth(rows', j).ts {
      assert i < |rows| ==> RowIs(rows, ids, out, i);
      assert i >= |rows| ==> RowFor(more, t, keys, m, i - |rows|);
      assert j >= |rows| ==> RowFor(more, t, keys, m, j - |rows|);
      assert j < |rows| ==> Nth(rows, i).ts <= Nth(rows, j).ts;
    }
    forall u, k | u in out' && k in out'[u] ensures RowId(u, k) in ids' {
      if u == t {
        var i :| 0 <= i < |keys| && keys[i] == k;
        assert ids'[|ids| + i] == RowId(u, k);
      } else {
        assert RowId(u, k) in ids;
      }
    }
  }

  lemma {:induction false} SomeLeast(s: set<nat>, x: nat)
    requires x in s
    ensures exists t :: t in s && forall u :: u in s ==> t <= u
  {
    if y :| y in s && y < x {
      SomeLeast(s, y);
    }
  }

  /** The rows of the first buckets. */
  ghost predicate RowsBegun(rows: seq<Row>, t: nat, keys: seq<FullKey>, m: Buckets) {
    forall j :: 0 <= j < |rows| ==> RowFor(rows, t, keys, m, j)
  }

  lemma RowsNext(mix: Mix, ns: seq<string>, s: Snapshot, keys: seq<FullKey>, m: Buckets, t: nat, rows: seq<Row>, row: Row)
    requires Represents(mix, ns, s, keys, m) && Whole(RowsBegun(rows, t, keys, m)) && |rows| < |keys|
    requires IndexedAt(mix, ns, s, keys, |rows|) && ListedAt(ns, s.buckets, keys, m, |rows|)
    requires row == RowOf(ns, s, t, s.buckets[|rows|])
    ensures Whole(RowsBegun(rows + [row], t, keys, m))
  {
    RowShows(mix, ns, s, keys, m, t, |rows|);
    forall j | 0 <= j <= |rows| ensures RowFor(rows + [row], t, keys, m, j) {
      assert j < |rows| ==> RowFor(rows, t, keys, m, j);
    }
  }

  method WriteRows(ghost mix: Mix, ns: seq<string>, s: Snapshot, ghost keys: seq<FullKey>, ghost m: Buckets, t: nat)
    returns (rows: seq<Row>)
    requires Represents(mix, ns, s, keys, m)
    ensures RowsFor(rows, t, keys, m)
  {
    rows := [];
    for i := 0 to |s.buckets|
      invariant |rows| == i && Whole(RowsBegun(rows, t, keys, m))
    {
      assert IndexedAt(mix, ns, s, keys, i) && ListedAt(ns, s.buckets, keys, m, i);
      var row := RowOf(ns, s, t, s.buckets[i]);
      RowsNext(mix, ns, s, keys, m, t, rows, row);
      rows := rows + [row];
    }
  }

  lemma UpdateTwice(store: map<nat, Buckets>, t: nat, m: Buckets, m': Buckets)
    ensures store[t := m][t := m'] == store[t := m']
  {}

  /** The objects of a packed aggregator. */
  ghost function Objects(names: StringTable, intervals: map<nat, Interval>): set<object> {
    {names} + (set t | t in intervals :: intervals[t]) + (set t | t in intervals :: intervals[t].keyStrings)
  }

  lemma ObjectsMore(names: StringTable, intervals: map<nat, Interval>, t: nat, interval: Interval)
    requires t !in intervals
    ensures Objects(names, intervals[t := interval]) == Objects(names, intervals) + {interval, interval.keyStrings}
  {
    var more := intervals[t := interval];
    assert forall u :: u in intervals ==> u in more && more[u] == intervals[u];
    assert t in more && more[t] == interval;
  }

  /** `less` is what some removals left of `intervals`. */
  ghost predicate LeftOf(intervals: map<nat, Interval>, less: map<nat, Interval>) {
    forall t :: t in less ==> t in intervals && less[t] == intervals[t]
  }

  lemma LeftLess(intervals: map<nat, Interval>, less: map<nat, Interval>, t: nat)
    requires Whole(LeftOf(intervals, less))
    ensures Whole(LeftOf(intervals, less - {t}))
  {}

  lemma ObjectsLess(names: StringTable, intervals: map<nat, Interval>, less: map<nat, Interval>)
    requires Whole(LeftOf(intervals, less))
    ensures Objects(names, less) <= Objects(names, intervals)
  {}

  ghost predicate Apart(intervals: map<nat, Interval>, t: nat, u: nat) {
    t in intervals && u in intervals && t != u ==>
      intervals[t] != intervals[u] && intervals[t].keyStrings != intervals[u].keyStrings
  }

  ghost predicate AllApart(intervals: map<nat, Interval>) {
    forall t, u :: t in intervals && u in intervals ==> Apart(intervals, t, u)
  }

  lemma ApartMore(names: StringTable, intervals: map<nat, Interval>, t: nat, interval: Interval)
    requires AllApart(intervals)
    requires interval !in Objects(names, intervals) && interval.keyStrings !in Objects(names, intervals)
    ensures AllApart(intervals[t := interval])
  {
    var more := intervals[t := interval];
    forall u, v | u in more && v in more ensures Apart(more, u, v) {
      assert u != t && v != t ==> Apart(intervals, u, v);
    }
  }

  /** The packed interval at `t` stands for the plain one. */
  ghost predicate IntervalOk(mix: Mix, names: StringTable, dur: nat, intervals: map<nat, Interval>, store: map<nat, Buckets>, t: nat)
    reads Objects(names, intervals)
  {
    t in intervals && t in store && Whole(intervals[t].Stands(mix, names, store[t])) && Whole(intervals[t].DurFirst(dur))
  }

  ghost predicate AllOk(mix: Mix, names: StringTable, dur: nat, intervals: map<nat, Interval>, store: map<nat, Buckets>)
    reads Objects(names, intervals)
  {
    store.Keys == intervals.Keys && forall t :: t in intervals ==> IntervalOk(mix, names, dur, intervals, store, t)
  }

  lemma OkMore(mix: Mix, names: StringTable, dur: nat, intervals: map<nat, Interval>, store: map<nat, Buckets>, t: nat,
               interval: Interval, m: Buckets)
    requires AllOk(mix, names, dur, intervals, store) && interval.Stands(mix, names, m) && interval.DurFirst(dur)
    ensures AllOk(mix, names, dur, intervals[t := interval], store[t := m])
  {
    var intervals', store' := intervals[t := interval], store[t := m];
    forall u | u in intervals' ensures IntervalOk(mix, names, dur, intervals', store', u) {
      assert u != t ==> IntervalOk(mix, names, dur, intervals, store, u);
    }
  }

  lemma OkLess(mix: Mix, names: StringTable, dur: nat, intervals: map<nat, Interval>, store: map<nat, Buckets>, t: nat)
    requires AllOk(mix, names, dur, intervals, store) && AllApart(intervals)
    ensures AllOk(mix, names, dur, intervals - {t}, store - {t}) && AllApart(intervals - {t})
  {
    var intervals', store' := intervals - {t}, store - {t};
    forall u | u in intervals' ensures IntervalOk(mix, names, dur, intervals', store', u) {
      assert IntervalOk(mix, names, dur, intervals, store, u);
    }
    forall u, v | u in intervals' && v in intervals' ensures Apart(intervals', u, v) {
      assert Apart(intervals, u, v);
    }
  }

  /** What `IntervalOk` said of `t` when the names interned were `before`. */
  ghost predicate StoodFor(mix: Mix, names: StringTable, before: seq<string>, dur: nat, intervals: map<nat, Interval>,
                           store: map<nat, Buckets>, t: nat)
    reads Objects(names, intervals)
  {
    && t in intervals && t in store && intervals[t].keyStrings != names && intervals[t].keyStrings.Valid()
    && Whole(Represents(mix, before, intervals[t].Snap(), intervals[t].fullKeys, store[t])) && Whole(intervals[t].DurFirst(dur))
  }

  ghost predicate OthersStood(mix: Mix, names: StringTable, before: seq<string>, dur: nat, intervals: map<nat, Interval>,
                              store: map<nat, Buckets>, ts: nat)
    reads Objects(names, intervals)
  {
    forall t :: t in intervals && t != ts ==> StoodFor(mix, names, before, dur, intervals, store, t)
  }

  /** After interval `ts` took an event, the others stand for the same buckets under the grown names. */
  lemma OthersOk(mix: Mix, names: StringTable, before: seq<string>, dur: nat, intervals: map<nat, Interval>,
                 store: map<nat, Buckets>, ts: nat, m: Buckets)
    requires names.Valid() && before <= names.strings && store.Keys == intervals.Keys
    requires ts in intervals && Whole(intervals[ts].Stands(mix, names, m)) && Whole(intervals[ts].DurFirst(dur))
    requires Whole(OthersStood(mix, names, before, dur, intervals, store, ts))
    ensures Whole(AllOk(mix, names, dur, intervals, store[ts := m]))
  {
    var store' := store[ts := m];
    forall t | t in intervals ensures IntervalOk(mix, names, dur, intervals, store', t) {
      if t != ts {
        assert StoodFor(mix, names, before, dur, intervals, store, t);
        intervals[t].NamesGrew(mix, names, before, store[t]);
      }
    }
  }

  class PackedAggregator {
    const width: nat // the cached interval
    const fp: Floats
    const mix: Mix
    const hash: string -> nat
    const names: StringTable // categories, event names and keys
    const dur: nat
    var last: nat
    var isFirst: bool
    var intervals: map<nat, Interval>
    ghost var store: map<nat, Buckets> // what the intervals stand for

    ghost function Footprint(): set<object>
      reads this
    {
      Objects(names, intervals)
    }

    ghost predicate Valid()
      reads this, Footprint()
    {
      width > 0 && Whole(NamesOk()) && Whole(AllOk(mix, names, dur, intervals, store)) && Whole(AllApart(intervals))
    }

    ghost predicate NamesOk()
      reads names
    {
      names.Valid() && dur < |names.strings| && names.At(dur) == "dur"
    }

    /** The plain state this aggregator is in. */
    ghost function Abstract(): State
      reads this
    {
      State(store, last, isFirst)
    }

    constructor (width: nat, fp: Floats, mix: Mix, hash: string -> nat)
      ensures Valid() && Abstract() == START && fresh(Footprint())
      ensures this.width == (if width == 0 then 1 else width) && this.fp == fp
    {
      this.width := if width == 0 then 1 else width;
      this.fp, this.mix, this.hash := fp, mix, hash;
      var names := new StringTable(hash);
      var dur := names.Intern("dur");
      this.names, this.dur := names, dur;
      last, isFirst, intervals, store := 0, true, map[], map[];
    }

    /** One step of the plain roll-up; the answer is that of `Opens` in the state before it. */
    method Aggregate(e: Event) returns (later: bool)
      requires Valid() && DistinctFields(e)
      modifies this, Footprint()
      ensures Valid() && fresh(Footprint() - old(Footprint()))
      ensures Abstract() == AfterEvent(fp, width, old(Abstract()), e)
      ensures later == Opens(width, old(Abstract()), e)
    {
      var ts := SlotOf(width, e);
      Record(ts, e);
      later := Advance(ts);
    }

    method Record(ts: nat, e: Event)
      requires Valid() && DistinctFields(e)
      modifies this`store, this`intervals, Footprint()
      ensures Whole(Valid()) && fresh(Footprint() - old(Footprint())) && last == old(last) && isFirst == old(isFirst)
      ensures store == old(store)[ts := AddTo(fp, Held(old(store), ts), e)]
    {
      Open(ts);
      TakeInto(ts, e);
      UpdateTwice(old(store), ts, Held(old(store), ts), AddTo(fp, Held(old(store), ts), e));
    }

    method Advance(ts: nat) returns (later: bool)
      requires Valid()
      modifies this`last, this`isFirst
      ensures Valid() && store == old(store) && Footprint() == old(Footprint())
      ensures last == (if ts > old(last) then ts else old(last)) && !isFirst
      ensures later == (!old(isFirst) && ts > old(last))
    {
      var first, previous := isFirst, last;
      isFirst := false;
      if ts > last {
        last := ts;
      }
      later := !first && previous != last;
    }

    /** `intervals_[ts]`: the interval, made empty if there is none. */
    method Open(ts: nat)
      requires Valid()
      modifies this`intervals, this`store
      ensures Whole(Valid()) && fresh(Footprint() - old(Footprint())) && ts in intervals
      ensures store == old(store)[ts := Held(old(store), ts)]
    {
      if ts in intervals {
        assert store[ts := store[ts]] == store;
      } else {
        AddInterval(ts);
      }
    }

    method AddInterval(ts: nat)
      requires Valid() && ts !in intervals
      modifies this`intervals, this`store
      ensures Whole(Valid()) && fresh(Footprint() - old(Footprint())) && ts in intervals
      ensures store == old(store)[ts := map[]]
    {
      ghost var before := Footprint();
      var interval := NewInterval();
      Install(ts, interval);
      assert Footprint() - before <= {interval, interval.keyStrings};
    }

    method NewInterval() returns (interval: Interval)
      requires Valid()
      ensures Valid() && fresh(interval) && fresh(interval.keyStrings)
      ensures interval.Stands(mix, names, map[]) && interval.DurFirst(dur)
    {
      interval := new Interval(hash, mix, names);
    }

    method Install(ts: nat, interval: Interval)
      requires Valid() && ts !in intervals
      requires interval !in Footprint() && interval.keyStrings !in Footprint()
      requires interval.Stands(mix, names, map[]) && interval.DurFirst(dur)
      modifies this`intervals, this`store
      ensures Valid() && intervals == old(intervals)[ts := interval] && store == old(store)[ts := map[]]
      ensures Footprint() == old(Footprint()) + {interval, interval.keyStrings}
    {
      ObjectsMore(names, intervals, ts, interval);
      ApartMore(names, intervals, ts, interval);
      OkMore(mix, names, dur, intervals, store, ts, interval, map[]);
      Commit(intervals[ts := interval], store[ts := map[]]);
    }

    /** Puts the intervals, shown to stand for `plain`, in place. */
    method Commit(packed: map<nat, Interval>, ghost plain: map<nat, Buckets>)
      requires width > 0 && Whole(NamesOk())
      requires Whole(AllOk(mix, names, dur, packed, plain)) && Whole(AllApart(packed))
      modifies this`intervals, this`store
      ensures Valid() && intervals == packed && store == plain && last == old(last) && isFirst == old(isFirst)
    {
      intervals, store := packed, plain;
    }

    /** Takes the event into its interval; the other intervals only see more names interned. */
    method TakeInto(ts: nat, e: Event)
      requires Valid() && ts in intervals && DistinctFields(e)
      modifies this`store, this`intervals, Footprint()
      ensures Valid() && ts in old(store)
      ensures store == old(store)[ts := AddTo(fp, old(store)[ts], e)]
      ensures intervals == old(intervals) && last == old(last) && isFirst == old(isFirst)
    {
      assert IntervalOk(mix, names, dur, intervals, store, ts);
      ghost var before, m := names.strings, AddTo(fp, store[ts], e);
      TakeAt(ts, e);
      Settle(ts, before, m);
    }

    /** All intervals stand again once the names have settled. */
    method Settle(ts: nat, ghost before: seq<string>, ghost m: Buckets)
      requires width > 0 && Whole(NamesOk()) && Whole(AllApart(intervals)) && store.Keys == intervals.Keys
      requires names.Valid() && before <= names.strings && ts in intervals
      requires Whole(intervals[ts].Stands(mix, names, m)) && Whole(intervals[ts].DurFirst(dur))
      requires Whole(OthersStood(mix, names, before, dur, intervals, store, ts))
      modifies this`store, this`intervals
      ensures Valid() && store == old(store)[ts := m]
      ensures intervals == old(intervals) && last == old(last) && isFirst == old(isFirst)
    {
      OthersOk(mix, names, before, dur, intervals, store, ts, m);
      Commit(intervals, store[ts := m]);
    }

    method TakeAt(ts: nat, e: Event)
      requires Valid() && ts in intervals && DistinctFields(e)
      modifies intervals[ts], intervals[ts].keyStrings, names
      ensures ts in store && store.Keys == intervals.Keys && names.Valid() && old(names.strings) <= names.strings
      ensures Whole(NamesOk()) && Whole(AllApart(intervals))
      ensures Whole(intervals[ts].Stands(mix, names, AddTo(fp, store[ts], e))) && Whole(intervals[ts].DurFirst(dur))
      ensures Whole(OthersStood(mix, names, old(names.strings), dur, intervals, store, ts))
    {
      assert IntervalOk(mix, names, dur, intervals, store, ts);
      intervals[ts].Take(fp, mix, names, e, dur, store[ts]);
      forall t | t in intervals && t != ts ensures StoodFor(mix, names, old(names.strings), dur, intervals, store, t) {
        assert Apart(intervals, t, ts) && old(IntervalOk(mix, names, dur, intervals, store, t));
      }
    }

    /** The rows of one interval, in bucket order. */
    method WriteInterval(t: nat) returns (rows: seq<Row>)
      requires Valid() && t in intervals
      ensures Valid() && t in store && Whole(RowsFor(rows, t, intervals[t].fullKeys, store[t]))
    {
      assert IntervalOk(mix, names, dur, intervals, store, t);
      rows := WriteRows(mix, names.strings, intervals[t].Snap(), intervals[t].fullKeys, store[t], t);
    }

    method Remove(t: nat)
      requires Valid()
      modifies this`store, this`intervals
      ensures Valid() && store == old(store) - {t} && last == old(last) && isFirst == old(isFirst)
      ensures intervals == old(intervals) - {t}
      ensures store.Keys == intervals.Keys && (t in old(intervals) ==> |intervals| < |old(intervals)|)
    {
      assert (intervals - {t}).Keys == intervals.Keys - {t};
      assert store.Keys == intervals.Keys by { SameDomain(); }
      OkLess(mix, names, dur, intervals, store, t);
      Commit(intervals - {t}, store - {t});
    }

    /**
     * The drain step of the plain roll-up: its rows are those of all the intervals handed out, one per bucket and in
     * ascending order, although the loop breaks at the first interval it may not hand out.
     */
    method Drain(all: bool) returns (rows: seq<Row>, ghost ids: seq<RowId>)
      requires Valid()
      modifies this`store, this`intervals
      ensures Valid() && Footprint() <= old(Footprint())
      ensures Abstract() == AfterDrain(old(Abstract()), all)
      ensures RowsOf(rows, ids, HandedOut(old(Abstract()), all))
    {
      ghost var out;
      rows, ids, out := DrainComplete(all);
      SplitDone(old(Abstract()), out, store, all);
      ObjectsLess(names, old(intervals), intervals);
    }

    method DrainComplete(all: bool) returns (rows: seq<Row>, ghost ids: seq<RowId>, ghost out: map<nat, Buckets>)
      requires Valid()
      modifies this`store, this`intervals
      ensures Valid() && Whole(LeftOf(old(intervals), intervals))
      ensures Whole(Split(old(store), out, store, last, all)) && Whole(RowsOf(rows, ids, out))
      ensures store == map[] || (!all && forall t :: t in store ==> t >= last)
    {
      rows, ids, out := [], [], map[];
      SameDomain();
      SplitNone(store, intervals, last, all);
      while intervals != map[]
        invariant Valid() && store.Keys == intervals.Keys
        invariant Whole(LeftOf(old(intervals), intervals))
        invariant Whole(Split(old(store), out, store, last, all)) && Whole(RowsOf(rows, ids, out))
        decreases |intervals|
      {
        var t := First();
        if !all && t >= last {
          break;
        }
        LeftLess(old(intervals), intervals, t);
        rows, ids, out := DrainFirst(t, all, rows, ids, out, old(store));
      }
    }

    /** `intervals_.begin()`. */
    method First() returns (t: nat)
      requires Valid() && intervals != map[]
      ensures Valid() && t in intervals && t in store
      ensures forall u :: u in store ==> t <= u
    {
      SameDomain();
      ghost var some :| some in intervals.Keys;
      SomeLeast(intervals.Keys, some);
      t :| t in intervals.Keys && forall u :: u in intervals.Keys ==> t <= u;
    }

    method DrainFirst(t: nat, ghost all: bool, rows: seq<Row>, ghost ids: seq<RowId>, ghost out: map<nat, Buckets>,
                      ghost before: map<nat, Buckets>)
      returns (rows': seq<Row>, ghost ids': seq<RowId>, ghost out': map<nat, Buckets>)
      requires Valid() && Whole(Split(before, out, store, last, all)) && Whole(RowsOf(rows, ids, out))
      requires t in intervals && t in store && (all || t < last) && forall u :: u in store ==> t <= u
      modifies this`store, this`intervals
      ensures Valid() && Whole(Split(before, out', store, last, all)) && Whole(RowsOf(rows', ids', out'))
      ensures |intervals| < |old(intervals)| && store.Keys == intervals.Keys
      ensures last == old(last) && isFirst == old(isFirst) && intervals == old(intervals) - {t}
    {
      var more := WriteInterval(t);
      ghost var keys, m := intervals[t].fullKeys, store[t];
      DrainedOne(rows, ids, out, more, keys, t, m, before, store, last, all);
      rows', ids', out' := rows + more, ids + IdsOf(t, keys), out[t := m];
      Remove(t);
    }

    lemma SameDomain()
      requires Valid()
      ensures store.Keys == intervals.Keys
    {}
  }

  /** While draining: `out` has left the store, everything in it complete and before what is still held. */
  ghost predicate Split(before: map<nat, Buckets>, out: map<nat, Buckets>, held: map<nat, Buckets>, last: nat, all: bool) {
    && before.Keys == out.Keys + held.Keys && out.Keys !! held.Keys
    && (forall t :: t in out ==> out[t] == before[t] && (all || t < last))
    && (forall t :: t in held ==> held[t] == before[t])
    && (forall t, u :: t in out && u in held ==> t < u)
  }

  lemma SplitNone(held: map<nat, Buckets>, intervals: map<nat, Interval>, last: nat, all: bool)
    ensures Whole(Split(held, map[], held, last, all)) && Whole(RowsOf([], [], map[])) && Whole(LeftOf(intervals, intervals))
  {}

  lemma SplitNext(before: map<nat, Buckets>, out: map<nat, Buckets>, held: map<nat, Buckets>, last: nat, all: bool, t: nat)
    requires Split(before, out, held, last, all) && t in held && (all || t < last)
    requires forall u :: u in held ==> t <= u
    ensures Split(before, out[t := held[t]], held - {t}, last, all)
    ensures forall u :: u in out ==> u < t
  {}

  lemma DrainedOne(rows: seq<Row>, ids: seq<RowId>, out: map<nat, Buckets>, more: seq<Row>, keys: seq<FullKey>, t: nat,
                   m: Buckets, before: map<nat, Buckets>, held: map<nat, Buckets>, last: nat, all: bool)
    requires Split(before, out, held, last, all) && RowsOf(rows, ids, out) && RowsFor(more, t, keys, m)
    requires t in held && held[t] == m && (all || t < last) && forall u :: u in held ==> t <= u
    ensures Whole(Split(before, out[t := m], held - {t}, last, all))
    ensures Whole(RowsOf(rows + more, ids + IdsOf(t, keys), out[t := m]))
  {
    SplitNext(before, out, held, last, all, t);
    RowsAppend(rows, ids, out, more, keys, t, m);
  }

  lemma SplitDone(s: State, out: map<nat, Buckets>, held: map<nat, Buckets>, all: bool)
    requires Split(s.store, out, held, s.last, all)
    requires held == map[] || (!all && forall t :: t in held ==> t >= s.last)
    ensures out == HandedOut(s, all) && held == AfterDrain(s, all).store
  {
    assert out.Keys == HandedOut(s, all).Keys;
    assert held.Keys == AfterDrain(s, all).store.Keys;
  }
}
