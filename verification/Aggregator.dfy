/** The reference aggregator: an unordered map of buckets per interval, keys and values under their C++ types. */
module Aggregators {
  import opened Events
  import opened MetadataValues

  /** What is kept of a key's values: the statistics of one number type, or a count of one kind of text. */
  datatype Kept =
    | Number(ctype: CType, count: nat, sum: int, min: int, max: int)
    | Texts(ctype: CType, count: nat)

  /** `AggregatedKey` within one interval. */
  datatype RefKey = RefKey(category: string, name: string, typ: nat, threadId: nat, keys: set<(string, Any)>)

  datatype Entry = Entry(key: RefKey, values: map<string, Kept>)

  datatype RefState = RefState(data: map<nat, seq<Entry>>, last: nat, first: bool)

  const REF_START := RefState(map[], 0, true)

  function RefKeyOf(e: Logged): RefKey {
    RefKey(e.category, e.name, e.typ, e.threadId, set f | f in e.fields && f.mtype == MT_KEY :: (f.key, f.value))
  }

  function RefSlot(width: nat, e: Logged): nat
    requires width > 0
  {
    e.startTime / width * width
  }

  predicate HasField(n: Native, b: set<(string, Any)>, f: (string, Any)) {
    exists g :: g in b && g.0 == f.0 && EqualKeyValues(n, g.1, f.1)
  }

  predicate SameMtKeys(n: Native, a: set<(string, Any)>, b: set<(string, Any)>) {
    forall f {:trigger HasField(n, b, f)} :: f in a ==> HasField(n, b, f)
  }

  /** `AggregatedKey::operator==` within one interval. */
  predicate SameKey(n: Native, a: RefKey, b: RefKey) {
    && a.category == b.category && a.name == b.name && a.typ == b.typ && a.threadId == b.threadId
    && SameMtKeys(n, a.keys, b.keys) && SameMtKeys(n, b.keys, a.keys)
  }

  function KeptOf(v: Any): Kept
    requires v.IsNumber() || v.IsText()
  {
    if v.IsNumber() then Number(v.Type(), 1, v.Word(), v.Word(), v.Word()) else Texts(v.Type(), 1)
  }

  /** `update`: a value of another C++ type is dropped; sums are taken in the type's own width. */
  function Merged(n: Native, a: Kept, b: Kept): Kept {
    if a.Texts? && b.Texts? && a.ctype == b.ctype then Texts(a.ctype, a.count + b.count)
    else if a.Number? && b.Number? && a.ctype == b.ctype then
      Number(a.ctype, a.count + b.count, SumIn(n, a.ctype, a.sum, b.sum),
             if LessIn(n, a.ctype, b.min, a.min) then b.min else a.min,
             if LessIn(n, a.ctype, a.max, b.max) then b.max else a.max)
    else a
  }

  function UpdatedValues(n: Native, m: map<string, Kept>, name: string, v: Kept): map<string, Kept> {
    m[name := if name in m then Merged(n, m[name], v) else v]
  }

  /** The first of the entries from `i` on whose key equals `key`; `|es|` if there is none. */
  function Found(n: Native, es: seq<Entry>, key: RefKey, i: nat): (at: nat)
    requires i <= |es|
    ensures i <= at <= |es|
    ensures at < |es| ==> SameKey(n, es[at].key, key)
    ensures forall j :: i <= j < at ==> !SameKey(n, es[j].key, key)
    decreases |es| - i
  {
    if i == |es| || SameKey(n, es[i].key, key) then i else Found(n, es, key, i + 1)
  }

  function InsertValue(n: Native, es: seq<Entry>, key: RefKey, name: string, v: Kept): seq<Entry> {
    var at := Found(n, es, key, 0);
    if at == |es| then es + [Entry(key, map[name := v])]
    else es[at := es[at].(values := UpdatedValues(n, es[at].values, name, v))]
  }

  predicate Inserts(f: LoggedField) { f.mtype == MT_VALUE && (f.value.IsNumber() || f.value.IsText()) }

  function InsertFields(n: Native, es: seq<Entry>, key: RefKey, fields: seq<LoggedField>): seq<Entry> {
    if fields == [] then es else
    var before, f := InsertFields(n, es, key, fields[..|fields| - 1]), fields[|fields| - 1];
    if Inserts(f) then InsertValue(n, before, key, f.key, KeptOf(f.value)) else before
  }

  /** A duration is a `TimeResolution`, an unsigned long long. */
  function DurationOf(e: Logged): Kept { Number(UnsignedLongLong, 1, e.duration, e.duration, e.duration) }

  function InsertEvent(n: Native, es: seq<Entry>, e: Logged): seq<Entry> {
    InsertFields(n, InsertValue(n, es, RefKeyOf(e), "dur", DurationOf(e)), RefKeyOf(e), e.fields)
  }

  function EntriesAt(data: map<nat, seq<Entry>>, t: nat): seq<Entry> { if t in data then data[t] else [] }

  function RefAfterEvent(n: Native, width: nat, r: RefState, e: Logged): RefState
    requires width > 0
  {
    var t := RefSlot(width, e);
    RefState(r.data[t := InsertEvent(n, EntriesAt(r.data, t), e)], if t > r.last then t else r.last, false)
  }

  function RefHandedOut(r: RefState, all: bool): map<nat, seq<Entry>> {
    map t | t in r.data && (all || t < r.last) :: r.data[t]
  }

  function RefAfterDrain(r: RefState, all: bool): RefState {
    r.(data := map t | t in r.data && !(all || t < r.last) :: r.data[t])
  }

  /** A stored key owns a copy of the event's MT_KEY fields, gathered one by one. */
  method CopyKeys(e: Logged) returns (key: RefKey)
    ensures key == RefKeyOf(e)
  {
    var keys: set<(string, Any)> := {};
    for i := 0 to |e.fields|
      invariant keys == set f | f in e.fields[..i] && f.mtype == MT_KEY :: (f.key, f.value)
    {
      var f := e.fields[i];
      assert forall g :: g in e.fields[..i + 1] <==> g in e.fields[..i] || g == f by {
        assert e.fields[..i + 1] == e.fields[..i] + [f];
      }
      if f.mtype == MT_KEY {
        keys := keys + {(f.key, f.value)};
      }
    }
    assert e.fields[..|e.fields|] == e.fields;
    key := RefKey(e.category, e.name, e.typ, e.threadId, keys);
  }

  class Aggregator {
    const width: nat
    const native: Native
    var data: map<nat, seq<Entry>>
    var last: nat
    var isFirst: bool

    ghost function Abstract(): RefState
      reads this
    {
      RefState(data, last, isFirst)
    }

    constructor (width: nat, native: Native)
      ensures this.width == (if width == 0 then 1 else width) && this.native == native
      ensures Abstract() == REF_START
    {
      this.width := if width == 0 then 1 else width;
      this.native := native;
      data, last, isFirst := map[], 0, true;
    }

    method Insert(t: nat, key: RefKey, name: string, v: Kept)
      requires t in data
      modifies this`data
      ensures data == old(data)[t := InsertValue(native, old(data)[t], key, name, v)]
    {
      var es := data[t];
      var at := 0;
      while at < |es| && !SameKey(native, es[at].key, key)
        invariant 0 <= at <= |es|
        invariant Found(native, es, key, at) == Found(native, es, key, 0)
      {
        at := at + 1;
      }
      if at < |es| {
        data := data[t := es[at := es[at].(values := UpdatedValues(native, es[at].values, name, v))]];
      } else {
        data := data[t := es + [Entry(key, map[name := v])]];
      }
    }

    method Aggregate(e: Logged) returns (later: bool)
      requires width > 0
      modifies this
      ensures Abstract() == RefAfterEvent(native, width, old(Abstract()), e)
      ensures later == (!old(isFirst) && RefSlot(width, e) > old(last))
    {
      var first := isFirst;
      isFirst := false;
      var t := RefSlot(width, e);
      if t !in data {
        data := data[t := []];
      }
      var previous := last;
      if t > last {
        last := t;
      }
      var key := CopyKeys(e);
      Insert(t, key, "dur", DurationOf(e));
      InsertAll(t, key, e.fields);
      later := !first && previous != last;
    }

    /** The event's numbers and strings, one by one, each finding the bucket anew. */
    method InsertAll(t: nat, key: RefKey, fields: seq<LoggedField>)
      requires t in data
      modifies this`data
      ensures data == old(data)[t := InsertFields(native, old(data)[t], key, fields)]
    {
      for i := 0 to |fields|
        invariant t in data && data == old(data)[t := InsertFields(native, old(data)[t], key, fields[..i])]
      {
        assert fields[..i + 1][..i] == fields[..i];
        if Inserts(fields[i]) {
          Insert(t, key, fields[i].key, KeptOf(fields[i].value));
        }
      }
      assert fields[..|fields|] == fields;
    }

    /** Moves out the intervals before the latest, or every one, by a scan of all of them. */
    method GetPreviousAggregations(all: bool) returns (out: map<nat, seq<Entry>>)
      modifies this`data
      ensures Abstract() == RefAfterDrain(old(Abstract()), all)
      ensures out == RefHandedOut(old(Abstract()), all)
    {
      data, out := MoveOut(data, last, all);
    }
  }

  /** The scan: every interval is either moved or kept. */
  method MoveOut(data: map<nat, seq<Entry>>, last: nat, all: bool) returns (kept: map<nat, seq<Entry>>, out: map<nat, seq<Entry>>)
    ensures kept == map t | t in data && !(all || t < last) :: data[t]
    ensures out == map t | t in data && (all || t < last) :: data[t]
  {
    kept, out := data, map[];
    var rest := data.Keys;
    while rest != {}
      invariant rest <= data.Keys
      invariant kept == map t | t in data && (t in rest || !(all || t < last)) :: data[t]
      invariant out == map t | t in data && t !in rest && (all || t < last) :: data[t]
      decreases |rest|
    {
      var t :| t in rest;
      if all || t < last {
        out := out[t := data[t]];
        kept := kept - {t};
      }
      rest := rest - {t};
    }
  }
}
