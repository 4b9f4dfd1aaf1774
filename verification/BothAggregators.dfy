/** The two aggregators driven side by side: where every event fits, each drain writes the same rows on both sides. */
module SameRows {
  import opened Events
  import opened Interning
  import opened Wrappers
  import opened MetadataValues
  import opened Rollup
  import opened Aggregators
  import opened PackedAggregators
  import opened Agreement
  import opened RunAgreement
  import DrainedRows

  // ----- The reference's rows -----

  datatype RefValue = RefSingle(ctype: CType, v: int) | RefSeveral(ctype: CType, sum: int, min: int, max: int)

  /** A row's record, under the C++ types the reference keeps. */
  datatype RefRow = RefRow(
    ts: nat, category: string, name: string, typ: nat, threadId: nat, keys: set<(string, Any)>, count: nat,
    values: map<string, RefValue>)

  function ShownNumber(v: Kept): RefValue
    requires v.Number?
  {
    if v.count > 1 then RefSeveral(v.ctype, v.sum, v.min, v.max) else RefSingle(v.ctype, v.sum)
  }

  /** The key's fields, the count of durations as that of events, and every number; texts leave no trace. */
  function RefRowOf(t: nat, e: Entry): RefRow {
    RefRow(t, e.key.category, e.key.name, e.key.typ, e.key.threadId, e.key.keys,
           if "dur" in e.values && e.values["dur"].Number? then e.values["dur"].count else 0,
           map k | k in e.values && e.values[k].Number? :: ShownNumber(e.values[k]))
  }

  method WriteEntry(t: nat, e: Entry) returns (row: RefRow)
    ensures row == RefRowOf(t, e)
  {
    var count: nat := 0;
    var values: map<string, RefValue> := map[];
    var rest := e.values.Keys;
    while rest != {}
      invariant rest <= e.values.Keys
      invariant count == if "dur" in e.values && "dur" !in rest && e.values["dur"].Number? then e.values["dur"].count else 0
      invariant values == map k | k in e.values && k !in rest && e.values[k].Number? :: ShownNumber(e.values[k])
      decreases |rest|
    {
      var k :| k in rest;
      if e.values[k].Number? {
        if k == "dur" {
          count := e.values[k].count;
        }
        values := values[k := ShownNumber(e.values[k])];
      }
      rest := rest - {k};
    }
    row := RefRow(t, e.key.category, e.key.name, e.key.typ, e.key.threadId, e.key.keys, count, values);
  }

  /** Which entry a row of the reference is for. */
  datatype Place = Place(ts: nat, at: nat)

  predicate IsPlace(out: map<nat, seq<Entry>>, p: Place) { p.ts in out && p.at < |out[p.ts]| }

  ghost predicate PlaceIs(rows: seq<RefRow>, places: seq<Place>, out: map<nat, seq<Entry>>, j: nat) {
    && j < |rows| && j < |places| && IsPlace(out, places[j])
    && rows[j] == RefRowOf(places[j].ts, out[places[j].ts][places[j].at])
  }

  /** The rows are exactly the entries of `out`, one row each. */
  ghost predicate RefRowsOf(rows: seq<RefRow>, places: seq<Place>, out: map<nat, seq<Entry>>) {
    && |rows| == |places| && Distinct(places)
    && (forall j :: 0 <= j < |rows| ==> PlaceIs(rows, places, out, j))
    && (forall p :: IsPlace(out, p) ==> p in places)
  }

  function PlacesOf(t: nat, n: nat): (places: seq<Place>)
    ensures |places| == n && forall i :: 0 <= i < n ==> places[i] == Place(t, i)
  {
    seq(n, i requires 0 <= i < n => Place(t, i))
  }

  ghost predicate EntryRows(rows: seq<RefRow>, t: nat, es: seq<Entry>) {
    |rows| == |es| && forall i :: 0 <= i < |es| ==> rows[i] == RefRowOf(t, es[i])
  }

  lemma RefRowsAppend(rows: seq<RefRow>, places: seq<Place>, out: map<nat, seq<Entry>>, more: seq<RefRow>, t: nat, es: seq<Entry>)
    requires RefRowsOf(rows, places, out) && t !in out && EntryRows(more, t, es)
    ensures RefRowsOf(rows + more, places + PlacesOf(t, |es|), out[t := es])
  {
    var rows', places', out' := rows + more, places + PlacesOf(t, |es|), out[t := es];
    forall j | 0 <= j < |rows'| ensures PlaceIs(rows', places', out', j) {
      assert j < |rows| ==> PlaceIs(rows, places, out, j);
    }
    forall i, j | 0 <= i < j < |places'| ensures Nth(places', i) != Nth(places', j) {
      assert i < |rows| ==> PlaceIs(rows, places, out, i);
      if j < |places| {
        SamePlace(places, i, j);
      }
    }
    forall p | IsPlace(out', p) ensures p in places' {
      if p.ts == t {
        assert places'[|places| + p.at] == p;
      } else {
        assert IsPlace(out, p);
      }
    }
  }

  method WriteEntries(t: nat, es: seq<Entry>) returns (rows: seq<RefRow>)
    ensures EntryRows(rows, t, es)
  {
    rows := [];
    for i := 0 to |es|
      invariant |rows| == i && forall j :: 0 <= j < i ==> rows[j] == RefRowOf(t, es[j])
    {
      var row := WriteEntry(t, es[i]);
      rows := rows + [row];
    }
  }

  function Without(out: map<nat, seq<Entry>>, rest: set<nat>): map<nat, seq<Entry>> {
    map t | t in out && t !in rest :: out[t]
  }

  /** All intervals and, of each, all entries. */
  method WriteReference(out: map<nat, seq<Entry>>) returns (rows: seq<RefRow>, ghost places: seq<Place>)
    ensures RefRowsOf(rows, places, out)
  {
    rows, places := [], [];
    var rest := out.Keys;
    while rest != {}
      invariant rest <= out.Keys && Whole(RefRowsOf(rows, places, Without(out, rest)))
      decreases |rest|
    {
      var t :| t in rest;
      var more := WriteEntries(t, out[t]);
      RefRowsAppend(rows, places, Without(out, rest), more, t, out[t]);
      assert Without(out, rest - {t}) == Without(out, rest)[t := out[t]];
      rows, places, rest := rows + more, places + PlacesOf(t, |out[t]|), rest - {t};
    }
    assert Without(out, {}) == out;
  }

  // ----- The same rows -----

  function EncodeShown(n: Native, v: RefValue): RowValue {
    match v
    case RefSingle(t, x) => Single(TagOf(t), Widened(n, t, x))
    case RefSeveral(t, sum, min, max) => Several(TagOf(t), Widened(n, t, sum), Widened(n, t, min), Widened(n, t, max))
  }

  /** One row says what the other does, its numbers and keys encoded: the same fields, each value once. */
  ghost predicate Prints(n: Native, r: RefRow, row: Row) {
    && r.ts == row.ts && r.category == row.category && r.name == row.name && r.typ == row.typ && r.threadId == row.threadId
    && r.count == row.count && (set k | k in row.keys) == (set f | f in r.keys :: (f.0, Encode(n, f.1)))
    && |row.values| == |r.values|
    && (set v | v in row.values) == (set k | k in r.values :: (k, EncodeShown(n, r.values[k])))
  }

  /** Every accumulator was folded at least once. */
  ghost predicate Folded(c: Cell) { forall k :: k in c.values ==> c.values[k].count >= 1 }

  ghost predicate AllFolded(store: map<nat, Buckets>) {
    forall t, k :: t in store && k in store[t] ==> Folded(store[t][k])
  }

  lemma ValuesPrint(n: Native, c: Cell, vs: map<string, Kept>, values: map<string, RefValue>)
    requires CellMirrors(n, c, vs) && Folded(c)
    requires values == map k | k in vs && vs[k].Number? :: ShownNumber(vs[k])
    ensures values.Keys == c.values.Keys && forall k :: k in values ==> Shown(c.values[k]) == EncodeShown(n, values[k])
  {
    forall k: string ensures k in c.values <==> k in values
      ensures k in values ==> Shown(c.values[k]) == EncodeShown(n, values[k])
    {
      assert MirrorsAt(n, c.values, vs, k);
    }
    assert values.Keys == c.values.Keys;
  }

  lemma ValuesListed(n: Native, c: Cell, values: map<string, RefValue>, row: Row, ts: nat, key: FullKey)
    requires Shows(row, ts, key, c)
    requires values.Keys == c.values.Keys && forall k :: k in values ==> Shown(c.values[k]) == EncodeShown(n, values[k])
    ensures (set v | v in row.values) == (set k | k in values :: (k, EncodeShown(n, values[k])))
  {
    var shown, encoded := set v | v in row.values, set k | k in values :: (k, EncodeShown(n, values[k]));
    forall v | v in shown ensures v in encoded {
      var i :| 0 <= i < |row.values| && row.values[i] == v;
      assert ShowsValue(row, c, i) && v.0 in values;
    }
    forall v | v in encoded ensures v in shown {
      var k :| k in values && (k, EncodeShown(n, values[k])) == v;
      var x :| (k, x) in row.values;
      var i :| 0 <= i < |row.values| && row.values[i] == (k, x);
      assert ShowsValue(row, c, i);
    }
  }

  /** Mirrored buckets have the same row on both sides. */
  lemma EntryPrints(n: Native, t: nat, e: Entry, c: Cell, row: Row)
    requires CellMirrors(n, c, e.values) && Folded(c) && Shows(row, t, EncodeKey(n, e.key), c)
    ensures Prints(n, RefRowOf(t, e), row)
  {
    var r := RefRowOf(t, e);
    ValuesPrint(n, c, e.values, r.values);
    ValuesListed(n, c, r.values, row, t, EncodeKey(n, e.key));
    assert |r.values| == |r.values.Keys| == |c.values|;
    assert MirrorsAt(n, c.values, e.values, "dur");
  }

  ghost predicate PairAt(n: Native, refRows: seq<RefRow>, rows: seq<Row>, pairing: seq<nat>, j: nat) {
    j < |rows| && j < |pairing| && pairing[j] < |refRows| && Prints(n, refRows[pairing[j]], rows[j])
  }

  /** `pairing` takes every row to the reference's row of the same bucket, one to one and onto. */
  ghost predicate Paired(n: Native, refRows: seq<RefRow>, rows: seq<Row>, pairing: seq<nat>) {
    && |pairing| == |rows| && Distinct(pairing)
    && (forall j :: 0 <= j < |rows| ==> PairAt(n, refRows, rows, pairing, j))
    && (forall p: nat :: p < |refRows| ==> p in pairing)
  }

  ghost predicate SameDrain(n: Native, refRows: seq<RefRow>, rows: seq<Row>) {
    exists pairing :: Paired(n, refRows, rows, pairing)
  }

  /** What both sides hand out: the same intervals, with mirrored buckets. */
  ghost predicate MirroredOut(n: Native, out: map<nat, Buckets>, refOut: map<nat, seq<Entry>>) {
    out.Keys == refOut.Keys && AllFolded(out) && forall t :: t in out ==> Mirrors(n, out[t], refOut[t])
  }

  /** The bucket that an entry stands for. */
  ghost function IdOf(n: Native, refOut: map<nat, seq<Entry>>, p: Place): RowId
    requires IsPlace(refOut, p)
  {
    RowId(p.ts, EncodeKey(n, refOut[p.ts][p.at].key))
  }

  lemma IdsApart(n: Native, out: map<nat, Buckets>, refOut: map<nat, seq<Entry>>, p: Place, q: Place)
    requires MirroredOut(n, out, refOut) && IsPlace(refOut, p) && IsPlace(refOut, q)
    ensures IdOf(n, refOut, p) == IdOf(n, refOut, q) <==> p == q
  {
    if p.ts == q.ts {
      SamePlace(Keys(n, refOut[p.ts]), p.at, q.at);
    }
  }

  ghost predicate Meets(n: Native, refOut: map<nat, seq<Entry>>, places: seq<Place>, ids: seq<RowId>, j: nat, p: nat) {
    j < |ids| && p < |places| && IsPlace(refOut, places[p]) && IdOf(n, refOut, places[p]) == ids[j]
  }

  lemma Meeting(n: Native, out: map<nat, Buckets>, refOut: map<nat, seq<Entry>>, rows: seq<Row>, ids: seq<RowId>,
                refRows: seq<RefRow>, places: seq<Place>, j: nat) returns (p: nat)
    requires MirroredOut(n, out, refOut) && RowsOf(rows, ids, out) && RefRowsOf(refRows, places, refOut) && j < |rows|
    ensures Meets(n, refOut, places, ids, j, p)
  {
    assert RowIs(rows, ids, out, j);
    var t, key := ids[j].ts, ids[j].key;
    assert Mirrors(n, out[t], refOut[t]);
    assert key in Keys(n, refOut[t]);
    var i :| 0 <= i < |refOut[t]| && Keys(n, refOut[t])[i] == key;
    assert IsPlace(refOut, Place(t, i));
    p :| 0 <= p < |places| && places[p] == Place(t, i);
  }

  lemma MeetingPrints(n: Native, out: map<nat, Buckets>, refOut: map<nat, seq<Entry>>, rows: seq<Row>, ids: seq<RowId>,
                      refRows: seq<RefRow>, places: seq<Place>, j: nat, p: nat)
    requires MirroredOut(n, out, refOut) && RowsOf(rows, ids, out) && RefRowsOf(refRows, places, refOut)
    requires Meets(n, refOut, places, ids, j, p)
    ensures Prints(n, refRows[p], rows[j])
  {
    assert RowIs(rows, ids, out, j) && PlaceIs(refRows, places, refOut, p);
    var t, at := places[p].ts, places[p].at;
    assert Mirrors(n, out[t], refOut[t]);
    assert EntryMirrors(n, out[t], refOut[t], at);
    EntryPrints(n, t, refOut[t][at], out[t][ids[j].key], rows[j]);
  }

  ghost predicate MeetsAll(n: Native, refOut: map<nat, seq<Entry>>, places: seq<Place>, ids: seq<RowId>, pairing: seq<nat>) {
    |pairing| <= |ids| && forall j :: 0 <= j < |pairing| ==> Meets(n, refOut, places, ids, j, pairing[j])
  }

  lemma {:induction false} MeetingAll(n: Native, out: map<nat, Buckets>, refOut: map<nat, seq<Entry>>, rows: seq<Row>,
                                      ids: seq<RowId>, refRows: seq<RefRow>, places: seq<Place>, m: nat)
    returns (pairing: seq<nat>)
    requires MirroredOut(n, out, refOut) && RowsOf(rows, ids, out) && RefRowsOf(refRows, places, refOut) && m <= |rows|
    ensures |pairing| == m && Whole(MeetsAll(n, refOut, places, ids, pairing))
  {
    pairing := [];
    if m > 0 {
      pairing := MeetingAll(n, out, refOut, rows, ids, refRows, places, m - 1);
      var p := Meeting(n, out, refOut, rows, ids, refRows, places, m - 1);
      pairing := pairing + [p];
    }
  }

  /** A drain of mirrored buckets writes the same rows on both sides, none twice and none missing on either. */
  lemma DrainPrints(n: Native, out: map<nat, Buckets>, refOut: map<nat, seq<Entry>>, rows: seq<Row>, ids: seq<RowId>,
                    refRows: seq<RefRow>, places: seq<Place>)
    requires MirroredOut(n, out, refOut) && RowsOf(rows, ids, out) && RefRowsOf(refRows, places, refOut)
    ensures SameDrain(n, refRows, rows)
  {
    var pairing := MeetingAll(n, out, refOut, rows, ids, refRows, places, |rows|);
    forall i, j | 0 <= i < j < |pairing| ensures Nth(pairing, i) != Nth(pairing, j) {
      assert Meets(n, refOut, places, ids, i, pairing[i]) && Meets(n, refOut, places, ids, j, pairing[j]);
      SamePlace(ids, i, j);
    }
    forall j | 0 <= j < |rows| ensures PairAt(n, refRows, rows, pairing, j) {
      assert Meets(n, refOut, places, ids, j, pairing[j]);
      MeetingPrints(n, out, refOut, rows, ids, refRows, places, j, pairing[j]);
    }
    forall p: nat | p < |refRows| ensures p in pairing {
      OntoRow(n, out, refOut, rows, ids, refRows, places, pairing, p);
    }
    assert Paired(n, refRows, rows, pairing);
  }

  lemma OntoRow(n: Native, out: map<nat, Buckets>, refOut: map<nat, seq<Entry>>, rows: seq<Row>, ids: seq<RowId>,
                refRows: seq<RefRow>, places: seq<Place>, pairing: seq<nat>, p: nat)
    requires MirroredOut(n, out, refOut) && RowsOf(rows, ids, out) && RefRowsOf(refRows, places, refOut)
    requires |pairing| == |rows| && Whole(MeetsAll(n, refOut, places, ids, pairing)) && p < |refRows|
    ensures p in pairing
  {
    assert PlaceIs(refRows, places, refOut, p);
    var t, at := places[p].ts, places[p].at;
    assert Mirrors(n, out[t], refOut[t]);
    assert EntryMirrors(n, out[t], refOut[t], at);
    assert IdOf(n, refOut, places[p]) in ids;
    var j :| 0 <= j < |ids| && ids[j] == IdOf(n, refOut, places[p]);
    assert Meets(n, refOut, places, ids, j, pairing[j]);
    IdsApart(n, out, refOut, places[p], places[pairing[j]]);
    SamePlace(places, p, pairing[j]);
  }

  // ----- Driving both -----

  /** One operation on both sides; of a drain, the rows either writes. */
  method PerformBoth(reference: Aggregator, agg: PackedAggregator, op: LoggedOp)
    returns (refRows: seq<RefRow>, rows: seq<Row>, ghost added: set<object>)
    requires Whole(agg.Valid()) && reference !in agg.Footprint() && reference.width > 0 && (op.Log? ==> DistinctLogged(op.e))
    modifies reference, agg, agg.Footprint()
    ensures Whole(agg.Valid()) && fresh(added) && Whole(agg.Footprint() <= old(agg.Footprint()) + added)
    ensures agg.Abstract() == Step(agg.fp, agg.width, old(agg.Abstract()), EncodedOp(reference.native, op))
    ensures reference.Abstract() == RefStep(reference.native, reference.width, old(reference.Abstract()), op)
    ensures op.HandOut? && Agree(reference.native, old(agg.Abstract()), old(reference.Abstract())) && AllFolded(old(agg.store)) ==>
              Whole(SameDrain(reference.native, refRows, rows))
  {
    match op
    case Log(e) =>
      refRows, rows := [], [];
      added := LogBoth(reference, agg, e);
    case HandOut(all) =>
      refRows, rows := DrainBoth(reference, agg, all);
      added := {};
  }

  method LogBoth(reference: Aggregator, agg: PackedAggregator, e: Logged) returns (ghost added: set<object>)
    requires Whole(agg.Valid()) && reference !in agg.Footprint() && reference.width > 0 && DistinctLogged(e)
    modifies reference, agg, agg.Footprint()
    ensures Whole(agg.Valid()) && fresh(added) && Whole(agg.Footprint() <= old(agg.Footprint()) + added)
    ensures agg.Abstract() == AfterEvent(agg.fp, agg.width, old(agg.Abstract()), Encoded(reference.native, e))
    ensures reference.Abstract() == RefAfterEvent(reference.native, reference.width, old(reference.Abstract()), e)
  {
    EncodedDistinct(reference.native, e);
    var _ := reference.Aggregate(e);
    added := LogPacked(agg, Encoded(reference.native, e));
  }

  method LogPacked(agg: PackedAggregator, e: Event) returns (ghost added: set<object>)
    requires Whole(agg.Valid()) && DistinctFields(e)
    modifies agg, agg.Footprint()
    ensures Whole(agg.Valid()) && fresh(added) && Whole(agg.Footprint() <= old(agg.Footprint()) + added)
    ensures agg.Abstract() == AfterEvent(agg.fp, agg.width, old(agg.Abstract()), e)
  {
    ghost var held := agg.Footprint();
    var _ := agg.Aggregate(e);
    added := agg.Footprint() - held;
  }

  method DrainReference(reference: Aggregator, all: bool) returns (refRows: seq<RefRow>, ghost places: seq<Place>)
    modifies reference`data
    ensures reference.Abstract() == RefAfterDrain(old(reference.Abstract()), all)
    ensures RefRowsOf(refRows, places, RefHandedOut(old(reference.Abstract()), all))
  {
    var data := reference.GetPreviousAggregations(all);
    refRows, places := WriteReference(data);
  }

  method DrainBoth(reference: Aggregator, agg: PackedAggregator, all: bool) returns (refRows: seq<RefRow>, rows: seq<Row>)
    requires Whole(agg.Valid()) && reference !in agg.Footprint()
    modifies reference, agg
    ensures Whole(agg.Valid()) && agg.Footprint() <= old(agg.Footprint())
    ensures agg.Abstract() == AfterDrain(old(agg.Abstract()), all)
    ensures reference.Abstract() == RefAfterDrain(old(reference.Abstract()), all)
    ensures Agree(reference.native, old(agg.Abstract()), old(reference.Abstract())) && AllFolded(old(agg.store)) ==>
              Whole(SameDrain(reference.native, refRows, rows))
  {
    ghost var s, r, ids, places := agg.Abstract(), reference.Abstract(), [], [];
    refRows, places := DrainReference(reference, all);
    rows, ids := agg.Drain(all);
    SameHandedOut(reference.native, s, r, all, rows, ids, refRows, places);
  }

  lemma SameHandedOut(n: Native, s: State, r: RefState, all: bool, rows: seq<Row>, ids: seq<RowId>,
                      refRows: seq<RefRow>, places: seq<Place>)
    requires RowsOf(rows, ids, HandedOut(s, all)) && RefRowsOf(refRows, places, RefHandedOut(r, all))
    ensures Agree(n, s, r) && AllFolded(s.store) ==> Whole(SameDrain(n, refRows, rows))
  {
    if Agree(n, s, r) && AllFolded(s.store) {
      DrainAgrees(n, s, r, all);
      DrainPrints(n, HandedOut(s, all), RefHandedOut(r, all), rows, ids, refRows, places);
    }
  }

  /** In every reachable state accumulators were folded at least once. */
  lemma RunFolded(fp: Floats, width: nat, ops: seq<Op>)
    requires width > 0
    ensures AllFolded(Run(fp, width, ops).store)
  {
    var store := Run(fp, width, ops).store;
    forall t, k | t in store && k in store[t] ensures Folded(store[t][k]) {
      forall key | key in store[t][k].values ensures store[t][k].values[key].count >= 1 {
        DrainedRows.HeldCollapsible(fp, width, ops, t, k, key);
      }
    }
  }

  /** After `i` operations. */
  ghost predicate BothAt(n: Native, width: nat, ops: seq<LoggedOp>, i: nat, s: State, r: RefState) {
    && width > 0 && i <= |ops|
    && s == Run(n.fp, width, EncodedOps(n, ops[..i])) && r == RefRun(n, width, ops[..i])
  }

  lemma BothStart(n: Native, width: nat, ops: seq<LoggedOp>)
    requires width > 0
    ensures Whole(BothAt(n, width, ops, 0, START, REF_START))
  {
    assert ops[..0] == [] && EncodedOps(n, []) == [];
  }

  lemma BothNext(n: Native, width: nat, ops: seq<LoggedOp>, i: nat, s: State, r: RefState, s': State, r': RefState)
    requires i < |ops| && width > 0 && Whole(BothAt(n, width, ops, i, s, r))
    requires s' == Step(n.fp, width, s, EncodedOp(n, ops[i])) && r' == RefStep(n, width, r, ops[i])
    ensures Whole(BothAt(n, width, ops, i + 1, s', r'))
  {
    var first, more := EncodedOps(n, ops[..i]), EncodedOps(n, ops[..i + 1]);
    assert more == first + [EncodedOp(n, ops[i])];
    assert more[..i] == first && ops[..i + 1][..i] == ops[..i];
  }

  /** When every event fits as it arrives, the two sides agree before every operation, on folded accumulators. */
  lemma FitAgrees(n: Native, width: nat, ops: seq<LoggedOp>, i: nat, s: State, r: RefState)
    requires width > 0 && Widens(n) && FromMaps(ops) && FitThroughout(n, width, ops) && Whole(BothAt(n, width, ops, i, s, r))
    ensures Agree(n, s, r) && AllFolded(s.store)
  {
    RunsAgree(n, width, ops);
    assert AgreeAt(n, width, ops, i);
    RunFolded(n.fp, width, EncodedOps(n, ops[..i]));
  }

  ghost predicate SameDrainAt(n: Native, refOut: seq<seq<RefRow>>, out: seq<seq<Row>>, d: nat) {
    d < |refOut| && d < |out| && Whole(SameDrain(n, refOut[d], out[d]))
  }

  /** Drain by drain the same rows. */
  ghost predicate SameOutput(n: Native, refOut: seq<seq<RefRow>>, out: seq<seq<Row>>) {
    |refOut| == |out| && forall d :: 0 <= d < |out| ==> SameDrainAt(n, refOut, out, d)
  }

  lemma OutputNext(n: Native, refOut: seq<seq<RefRow>>, out: seq<seq<Row>>, refRows: seq<RefRow>, rows: seq<Row>)
    requires Whole(SameOutput(n, refOut, out)) && Whole(SameDrain(n, refRows, rows))
    ensures Whole(SameOutput(n, refOut + [refRows], out + [rows]))
  {
    forall d | 0 <= d <= |out| ensures SameDrainAt(n, refOut + [refRows], out + [rows], d) {
      assert d < |out| ==> SameDrainAt(n, refOut, out, d);
    }
  }

  ghost predicate Fitting(n: Native, width: nat, ops: seq<LoggedOp>) {
    width > 0 && Widens(n) && FromMaps(ops) && FitThroughout(n, width, ops)
  }

  /** Where every event fits: drain by drain the same rows. */
  ghost predicate SoFar(n: Native, width: nat, ops: seq<LoggedOp>, refOut: seq<seq<RefRow>>, out: seq<seq<Row>>) {
    Fitting(n, width, ops) ==> Whole(SameOutput(n, refOut, out))
  }

  lemma Next(n: Native, width: nat, ops: seq<LoggedOp>, i: nat, s: State, r: RefState, refOut: seq<seq<RefRow>>,
             out: seq<seq<Row>>, refRows: seq<RefRow>, rows: seq<Row>)
    requires i < |ops| && width > 0 && Whole(BothAt(n, width, ops, i, s, r))
    requires ops[i].HandOut? && Agree(n, s, r) && AllFolded(s.store) ==> Whole(SameDrain(n, refRows, rows))
    requires Whole(SoFar(n, width, ops, refOut, out)) && ops[i].HandOut?
    ensures Whole(SoFar(n, width, ops, refOut + [refRows], out + [rows]))
  {
    if Fitting(n, width, ops) {
      FitAgrees(n, width, ops, i, s, r);
      OutputNext(n, refOut, out, refRows, rows);
    }
  }

  /** The operations one by one. */
  method StepThrough(reference: Aggregator, agg: PackedAggregator, ops: seq<LoggedOp>)
    returns (refOut: seq<seq<RefRow>>, out: seq<seq<Row>>)
    requires Whole(agg.Valid()) && reference !in agg.Footprint() && reference.width == agg.width > 0
    requires reference.native.fp == agg.fp && FromMaps(ops)
    requires agg.Abstract() == START && reference.Abstract() == REF_START
    modifies reference, agg, agg.Footprint()
    ensures Whole(agg.Valid())
    ensures Whole(BothAt(reference.native, agg.width, ops, |ops|, agg.Abstract(), reference.Abstract()))
    ensures Whole(SoFar(reference.native, agg.width, ops, refOut, out))
  {
    refOut, out := [], [];
    ghost var n, width, added: set<object> := reference.native, agg.width, {};
    BothStart(n, width, ops);
    for i := 0 to |ops|
      invariant Whole(agg.Valid()) && fresh(added) && Whole(agg.Footprint() <= old(agg.Footprint()) + added)
      invariant Whole(BothAt(n, width, ops, i, agg.Abstract(), reference.Abstract()))
      invariant Whole(SoFar(n, width, ops, refOut, out))
    {
      assert ops[i] in ops;
      ghost var s, r, more := agg.Abstract(), reference.Abstract(), {};
      var refRows, rows;
      refRows, rows, more := PerformBoth(reference, agg, ops[i]);
      added := added + more;
      BothNext(n, width, ops, i, s, r, agg.Abstract(), reference.Abstract());
      if ops[i].HandOut? {
        Next(n, width, ops, i, s, r, refOut, out, refRows, rows);
        refOut, out := refOut + [refRows], out + [rows];
      }
    }
  }

  lemma BothDone(n: Native, width: nat, ops: seq<LoggedOp>, s: State, r: RefState)
    requires width > 0 && Whole(BothAt(n, width, ops, |ops|, s, r))
    ensures s == Run(n.fp, width, EncodedOps(n, ops)) && r == RefRun(n, width, ops)
    ensures Fitting(n, width, ops) ==> Agree(n, s, r)
  {
    assert ops[..|ops|] == ops;
    if Fitting(n, width, ops) {
      FitAgrees(n, width, ops, |ops|, s, r);
    }
  }

  /**
   * Both aggregators driven through one run of logged events: each takes its own steps, and where every event fits as it
   * arrives they agree in the end, and every drain has written the same rows on both sides.
   */
  method ExecuteBoth(reference: Aggregator, agg: PackedAggregator, ops: seq<LoggedOp>)
    returns (refOut: seq<seq<RefRow>>, out: seq<seq<Row>>)
    requires agg.Valid() && reference !in agg.Footprint() && reference.width == agg.width && reference.native.fp == agg.fp
    requires agg.Abstract() == START && reference.Abstract() == REF_START && FromMaps(ops)
    modifies reference, agg, agg.Footprint()
    ensures agg.Valid() && agg.Abstract() == Run(agg.fp, agg.width, EncodedOps(reference.native, ops))
    ensures reference.Abstract() == RefRun(reference.native, reference.width, ops)
    ensures Widens(reference.native) && FitThroughout(reference.native, agg.width, ops) ==>
              && Agree(reference.native, agg.Abstract(), reference.Abstract())
              && SameOutput(reference.native, refOut, out)
  {
    refOut, out := StepThrough(reference, agg, ops);
    BothDone(reference.native, agg.width, ops, agg.Abstract(), reference.Abstract());
  }
}
