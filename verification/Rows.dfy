/** The rows a run writes: none loses anything of its bucket, and together they count every event drained. */
module DrainedRows {
  import opened Events
  import opened Interning
  import opened Rollup
  import opened PackedAggregators
  import opened Wrappers
  import Conservation
  import Summaries

  // ----- Rows of reachable buckets -----

  /** In every reachable state, an accumulator folded once has one number to show. */
  lemma HeldCollapsible(fp: Floats, width: nat, ops: seq<Op>, t: nat, k: FullKey, key: string)
    requires width > 0 && t in Run(fp, width, ops).store && k in Run(fp, width, ops).store[t]
    requires key in Run(fp, width, ops).store[t][k].values
    ensures Collapsible(Run(fp, width, ops).store[t][k].values[key])
  {
    RunMeaning(fp, width, ops);
    var group := Select(Pending(width, ops, t), k);
    Conservation.HeldCell(fp, width, ops, t, k);
    Summaries.CellMeaning(fp, group);
    Summaries.SingleValue(fp, Summaries.Under(Summaries.Numbers(group), key));
  }

  /** A bucket that some drain of some run hands out. */
  ghost predicate DrainedCell(fp: Floats, width: nat, ops: seq<Op>, all: bool, t: nat, k: FullKey)
    requires width > 0
  {
    t in HandedOut(Run(fp, width, ops), all) && k in HandedOut(Run(fp, width, ops), all)[t]
  }

  /**
   * Whatever two drained buckets one row could be written for, they are of the same interval and full key, with the same
   * event count and, under each key, the same statistics: the collapsed single-value form loses nothing.
   */
  lemma DrainedRowsLoseNothing(fp: Floats, width: nat, ops: seq<Op>, all: bool, ts: nat, key: FullKey,
                               ops': seq<Op>, all': bool, ts': nat, key': FullKey, row: Row)
    requires width > 0 && DrainedCell(fp, width, ops, all, ts, key) && DrainedCell(fp, width, ops', all', ts', key')
    requires Shows(row, ts, key, HandedOut(Run(fp, width, ops), all)[ts][key])
    requires Shows(row, ts', key', HandedOut(Run(fp, width, ops'), all')[ts'][key'])
    ensures ts == ts' && key == key'
    ensures var c, c' := HandedOut(Run(fp, width, ops), all)[ts][key], HandedOut(Run(fp, width, ops'), all')[ts'][key'];
      && c.count == c'.count && c.values.Keys == c'.values.Keys
      && forall k :: k in c.values && k in c'.values ==> SameToReader(c.values[k], c'.values[k])
  {
    var c, c' := HandedOut(Run(fp, width, ops), all)[ts][key], HandedOut(Run(fp, width, ops'), all')[ts'][key'];
    forall k | k in c.values ensures Collapsible(c.values[k]) { HeldCollapsible(fp, width, ops, ts, key, k); }
    forall k | k in c'.values ensures Collapsible(c'.values[k]) { HeldCollapsible(fp, width, ops', ts', key', k); }
    RowLosesNothing(row, ts, key, c, ts', key', c');
  }

  // ----- What the rows of a drain add up to -----

  function RowsSum(rows: seq<Row>, tell: Row -> int): int {
    if rows == [] then 0 else RowsSum(rows[..|rows| - 1], tell) + tell(rows[|rows| - 1])
  }

  function RowCount(row: Row): int { row.count }

  function SumShown(v: RowValue): int { if v.Single? then v.v else v.sum }

  ghost predicate DurationAt(row: Row, i: nat) { i < |row.values| && row.values[i].0 == "dur" }

  /** The sum a row shows under "dur". */
  ghost function RowDuration(row: Row): int {
    if i: nat :| DurationAt(row, i) then SumShown(row.values[i].1) else 0
  }

  /** What a row of `out` tells is what its bucket weighs. */
  ghost predicate Tells(tell: Row -> int, weight: Cell -> int) {
    forall row, ts, key, c {:trigger Shows(row, ts, key, c)} :: Shows(row, ts, key, c) ==> tell(row) == weight(c)
  }

  lemma CountsTold()
    ensures Tells(RowCount, Conservation.Count)
  {}

  lemma DurationsTold()
    ensures Tells(RowDuration, Conservation.DurationSum)
  {
    forall row, ts, key, c | Shows(row, ts, key, c) ensures RowDuration(row) == Conservation.DurationSum(c) {
      if "dur" in c.values {
        var v :| ("dur", v) in row.values;
        var i :| 0 <= i < |row.values| && row.values[i] == ("dur", v);
        assert DurationAt(row, i);
      }
      assert forall j :: DurationAt(row, j) ==> ShowsValue(row, c, j);
    }
  }

  /** What the bucket of a row weighs. */
  function Weight(weight: Cell -> int, out: map<nat, Buckets>, id: RowId): int {
    weight(CellIn(Held(out, id.ts), id.key))
  }

  function Listed(ids: seq<RowId>, n: nat): set<RowId>
    requires n <= |ids|
  {
    set i | 0 <= i < n :: ids[i]
  }

  lemma {:induction false} RowsCounted(tell: Row -> int, weight: Cell -> int, rows: seq<Row>, ids: seq<RowId>,
                                       out: map<nat, Buckets>, n: nat)
    requires RowsOf(rows, ids, out) && n <= |rows| && Tells(tell, weight)
    ensures RowsSum(rows[..n], tell) == Conservation.Sum(Listed(ids, n), id => Weight(weight, out, id))
  {
    if n > 0 {
      var before, upto := Listed(ids, n - 1), Listed(ids, n);
      RowsCounted(tell, weight, rows, ids, out, n - 1);
      assert rows[..n][..n - 1] == rows[..n - 1];
      assert RowIs(rows, ids, out, n - 1);
      Conservation.SumTakes(upto, id => Weight(weight, out, id), ids[n - 1]);
      forall i | 0 <= i < n - 1 ensures ids[i] != ids[n - 1] { SamePlace(ids, i, n - 1); }
      assert upto - {ids[n - 1]} == before;
    } else {
      assert rows[..0] == [];
      assert Listed(ids, 0) == {};
    }
  }

  lemma {:induction false} KeysCounted(weight: Cell -> int, out: map<nat, Buckets>, t: nat, keys: set<FullKey>)
    ensures Conservation.Sum(set k | k in keys :: RowId(t, k), id => Weight(weight, out, id))
      == Conservation.Sum(keys, k => weight(CellIn(Held(out, t), k)))
  {
    if keys == {} {
      assert (set k | k in keys :: RowId(t, k)) == {};
    } else {
      var x :| x in keys;
      Conservation.SumTakes(set k | k in keys :: RowId(t, k), id => Weight(weight, out, id), RowId(t, x));
      Conservation.SumTakes(keys, k => weight(CellIn(Held(out, t), k)), x);
      KeysCounted(weight, out, t, keys - {x});
      assert (set k | k in keys :: RowId(t, k)) - {RowId(t, x)} == set k | k in keys - {x} :: RowId(t, k);
    }
  }

  function IdsIn(out: map<nat, Buckets>, ts: set<nat>): set<RowId> {
    set t, k | t in ts && t in out && k in out[t] :: RowId(t, k)
  }

  lemma {:induction false} IdsCounted(weight: Cell -> int, out: map<nat, Buckets>, ts: set<nat>)
    requires ts <= out.Keys
    ensures Conservation.Sum(IdsIn(out, ts), id => Weight(weight, out, id))
      == Conservation.Sum(ts, t => Conservation.BucketsTotal(weight, Held(out, t)))
  {
    if ts == {} {
      assert IdsIn(out, ts) == {};
    } else {
      var t :| t in ts;
      var these := set k | k in out[t].Keys :: RowId(t, k);
      IdsCounted(weight, out, ts - {t});
      KeysCounted(weight, out, t, out[t].Keys);
      assert IdsIn(out, ts) == IdsIn(out, ts - {t}) + these;
      Conservation.SumSplit(IdsIn(out, ts - {t}), these, id => Weight(weight, out, id));
      Conservation.SumTakes(ts, u => Conservation.BucketsTotal(weight, Held(out, u)), t);
    }
  }

  lemma AllListed(rows: seq<Row>, ids: seq<RowId>, out: map<nat, Buckets>)
    requires RowsOf(rows, ids, out)
    ensures Listed(ids, |ids|) == IdsIn(out, out.Keys)
  {
    var listed := Listed(ids, |ids|);
    forall id ensures id in listed <==> id in IdsIn(out, out.Keys) {
      if id in listed {
        var i :| 0 <= i < |ids| && ids[i] == id;
        assert RowIs(rows, ids, out, i);
      }
      if id in IdsIn(out, out.Keys) {
        assert RowId(id.ts, id.key) in ids;
        var i :| 0 <= i < |ids| && ids[i] == id;
      }
    }
  }

  lemma RowsWeigh(tell: Row -> int, weight: Cell -> int, rows: seq<Row>, ids: seq<RowId>, out: map<nat, Buckets>)
    requires RowsOf(rows, ids, out) && Tells(tell, weight)
    ensures RowsSum(rows, tell) == Conservation.StoreTotal(weight, out)
  {
    RowsCounted(tell, weight, rows, ids, out, |rows|);
    assert rows[..|rows|] == rows;
    AllListed(rows, ids, out);
    IdsCounted(weight, out, out.Keys);
  }

  /** The rows of a drain show the event counts and the durations of the buckets it hands out. */
  lemma RowsTotal(rows: seq<Row>, ids: seq<RowId>, out: map<nat, Buckets>)
    requires RowsOf(rows, ids, out)
    ensures RowsSum(rows, RowCount) == Conservation.StoreTotal(Conservation.Count, out)
    ensures RowsSum(rows, RowDuration) == Conservation.StoreTotal(Conservation.DurationSum, out)
  {
    CountsTold();
    DurationsTold();
    RowsWeigh(RowCount, Conservation.Count, rows, ids, out);
    RowsWeigh(RowDuration, Conservation.DurationSum, rows, ids, out);
  }

  lemma {:induction false} SumAppend(tell: Row -> int, a: seq<Row>, b: seq<Row>)
    ensures RowsSum(a + b, tell) == RowsSum(a, tell) + RowsSum(b, tell)
  {
    if b == [] {
      assert a + b == a;
    } else {
      assert (a + b)[..|a + b| - 1] == a + b[..|b| - 1];
      SumAppend(tell, a, b[..|b| - 1]);
    }
  }

  // ----- Running the aggregator -----

  /** The fields of an event are listed once each. */
  ghost predicate WellFormed(op: Op) { op.Aggregate? ==> DistinctFields(op.e) }

  /** What an operation drains in state `s` weighs. */
  ghost function OpTotal(weight: Cell -> int, s: State, op: Op): int {
    if op.Drain? then Conservation.StoreTotal(weight, HandedOut(s, op.all)) else 0
  }

  /** `more` are rows after an operation in state `s`, where `rows` were those before it. */
  ghost predicate RowsAdd(rows: seq<Row>, more: seq<Row>, s: State, op: Op) {
    && RowsSum(more, RowCount) == RowsSum(rows, RowCount) + OpTotal(Conservation.Count, s, op)
    && RowsSum(more, RowDuration) == RowsSum(rows, RowDuration) + OpTotal(Conservation.DurationSum, s, op)
  }

  lemma RowsAppended(rows: seq<Row>, written: seq<Row>, ids: seq<RowId>, s: State, all: bool)
    requires RowsOf(written, ids, HandedOut(s, all))
    ensures Whole(RowsAdd(rows, rows + written, s, Drain(all)))
  {
    RowsTotal(written, ids, HandedOut(s, all));
    SumAppend(RowCount, rows, written);
    SumAppend(RowDuration, rows, written);
  }

  /** One operation: the rows written so far count what has been drained so far. */
  method Perform(agg: PackedAggregator, op: Op, rows: seq<Row>) returns (more: seq<Row>, ghost added: set<object>)
    requires agg.Valid() && WellFormed(op)
    modifies agg, agg.Footprint()
    ensures agg.Valid() && fresh(added) && Whole(agg.Footprint() <= old(agg.Footprint()) + added)
    ensures agg.Abstract() == Step(agg.fp, agg.width, old(agg.Abstract()), op)
    ensures Whole(RowsAdd(rows, more, old(agg.Abstract()), op))
  {
    ghost var held := agg.Footprint();
    match op
    case Aggregate(e) =>
      var _ := agg.Aggregate(e);
      more := rows;
      added := agg.Footprint() - held;
    case Drain(all) =>
      ghost var before := agg.Abstract();
      var written, ids := agg.Drain(all);
      RowsAppended(rows, written, ids, before, all);
      more := rows + written;
      added := {};
  }

  /** After `i` operations: the plain state, and rows that show all that was drained so far. */
  ghost predicate OnTrack(fp: Floats, width: nat, ops: seq<Op>, i: nat, s: State, rows: seq<Row>) {
    && width > 0 && i <= |ops| && s == Run(fp, width, ops[..i])
    && RowsSum(rows, RowCount) == Conservation.DrainedTotal(Conservation.Count, fp, width, ops[..i])
    && RowsSum(rows, RowDuration) == Conservation.DrainedTotal(Conservation.DurationSum, fp, width, ops[..i])
  }

  lemma TrackStart(fp: Floats, width: nat, ops: seq<Op>)
    requires width > 0
    ensures Whole(OnTrack(fp, width, ops, 0, START, []))
  {}

  lemma TrackNext(fp: Floats, width: nat, ops: seq<Op>, i: nat, s: State, rows: seq<Row>, more: seq<Row>)
    requires i < |ops| && Whole(OnTrack(fp, width, ops, i, s, rows)) && width > 0
    requires Whole(RowsAdd(rows, more, s, ops[i]))
    ensures Whole(OnTrack(fp, width, ops, i + 1, Step(fp, width, s, ops[i]), more))
  {
    assert ops[..i + 1][..i] == ops[..i];
  }

  lemma TrackDone(fp: Floats, width: nat, ops: seq<Op>, s: State, rows: seq<Row>) returns (wraps: int)
    requires Whole(OnTrack(fp, width, ops, |ops|, s, rows)) && width > 0
    ensures s == Run(fp, width, ops)
    ensures RowsSum(rows, RowCount) + Conservation.StoreTotal(Conservation.Count, s.store) == |Aggregated(ops)|
    ensures RowsSum(rows, RowDuration) + Conservation.StoreTotal(Conservation.DurationSum, s.store) + wraps * TWO64
      == Conservation.Durations(fp, Aggregated(ops))
  {
    assert ops[..|ops|] == ops;
    Conservation.TotalConserved(fp, width, ops);
    wraps := Conservation.TotalDurationsConserved(fp, width, ops);
  }

  /**
   * The packed aggregator driven through a whole run: its state is the plain one's, the rows it wrote count every event it
   * no longer holds, and rows and held buckets together show all durations modulo 2^64.
   */
  method Execute(agg: PackedAggregator, ops: seq<Op>) returns (rows: seq<Row>, ghost wraps: int)
    requires agg.Valid() && agg.Abstract() == START
    requires forall i :: 0 <= i < |ops| ==> WellFormed(ops[i])
    modifies agg, agg.Footprint()
    ensures agg.Valid() && agg.Abstract() == Run(agg.fp, agg.width, ops)
    ensures RowsSum(rows, RowCount) + Conservation.StoreTotal(Conservation.Count, agg.store) == |Aggregated(ops)|
    ensures RowsSum(rows, RowDuration) + Conservation.StoreTotal(Conservation.DurationSum, agg.store) + wraps * TWO64
      == Conservation.Durations(agg.fp, Aggregated(ops))
  {
    rows := [];
    TrackStart(agg.fp, agg.width, ops);
    ghost var added: set<object> := {};
    for i := 0 to |ops|
      invariant agg.Valid() && fresh(added) && Whole(agg.Footprint() <= old(agg.Footprint()) + added)
      invariant Whole(OnTrack(agg.fp, agg.width, ops, i, agg.Abstract(), rows))
    {
      ghost var before, written := agg.Abstract(), rows;
      ghost var more;
      rows, more := Perform(agg, ops[i], rows);
      added := added + more;
      TrackNext(agg.fp, agg.width, ops, i, before, written, rows);
    }
    wraps := TrackDone(agg.fp, agg.width, ops, agg.Abstract(), rows);
  }
}
