/** No event is lost, split or counted twice, over any interleaving of events and drains. */
module Conservation {
  import opened Events
  import opened Rollup
  import Bits

  /** All the events of a run that belong to interval `t` and full key `k`, in arrival order. */
  function Matching(width: nat, ops: seq<Op>, t: nat, k: FullKey): seq<Event>
    requires width > 0
  {
    if ops == [] then [] else
    var before := Matching(width, ops[..|ops| - 1], t, k);
    match ops[|ops| - 1]
    case Aggregate(e) => if SlotOf(width, e) == t && KeyOf(e) == k then before + [e] else before
    case Drain(_) => before
  }

  /** The buckets of (`t`, `k`) that the drains of a run handed out, in order. */
  function CellsOut(fp: Floats, width: nat, ops: seq<Op>, t: nat, k: FullKey): seq<Cell>
    requires width > 0
  {
    if ops == [] then [] else
    var before := CellsOut(fp, width, ops[..|ops| - 1], t, k);
    match ops[|ops| - 1]
    case Aggregate(_) => before
    case Drain(all) =>
      var out := HandedOut(Run(fp, width, ops[..|ops| - 1]), all);
      if t in out && k in out[t] then before + [out[t][k]] else before
  }

  function Flatten<T>(xss: seq<seq<T>>): seq<T> {
    if xss == [] then [] else Flatten(xss[..|xss| - 1]) + xss[|xss| - 1]
  }

  lemma FlattenPush<T>(xss: seq<seq<T>>, xs: seq<T>)
    ensures Flatten(xss + [xs]) == Flatten(xss) + xs
  {
    assert (xss + [xs])[..|xss|] == xss;
  }

  /**
   * The matching events fall, in order, into one group per bucket handed out plus one group still held; each bucket
   * is the bucket of its own group. Late events that re-create a drained interval are simply a later group.
   */
  lemma {:induction false} EveryEventInOneBucket(fp: Floats, width: nat, ops: seq<Op>, t: nat, k: FullKey)
    returns (groups: seq<seq<Event>>)
    requires width > 0
    ensures |groups| == |CellsOut(fp, width, ops, t, k)|
    ensures forall i :: 0 <= i < |groups| ==> groups[i] != [] && CellsOut(fp, width, ops, t, k)[i] == CellOf(fp, groups[i])
    ensures Flatten(groups) + Select(Pending(width, ops, t), k) == Matching(width, ops, t, k)
  {
    if ops == [] {
      return [];
    }
    var front, op := ops[..|ops| - 1], ops[|ops| - 1];
    groups := EveryEventInOneBucket(fp, width, front, t, k);
    match op {
      case Aggregate(e) =>
        AfterEventGroups(fp, width, ops, e, t, k, groups);
      case Drain(all) =>
        groups := AfterDrainGroups(fp, width, ops, all, t, k, groups);
    }
  }

  lemma SelectPush(es: seq<Event>, e: Event, k: FullKey)
    ensures Select(es + [e], k) == if KeyOf(e) == k then Select(es, k) + [e] else Select(es, k)
  {
    assert (es + [e])[..|es|] == es;
  }

  lemma AfterEventGroups(fp: Floats, width: nat, ops: seq<Op>, e: Event, t: nat, k: FullKey, groups: seq<seq<Event>>)
    requires width > 0 && ops != [] && ops[|ops| - 1] == Aggregate(e)
    requires Flatten(groups) + Select(Pending(width, ops[..|ops| - 1], t), k) == Matching(width, ops[..|ops| - 1], t, k)
    ensures Flatten(groups) + Select(Pending(width, ops, t), k) == Matching(width, ops, t, k)
    ensures CellsOut(fp, width, ops, t, k) == CellsOut(fp, width, ops[..|ops| - 1], t, k)
  {
    SelectPush(Pending(width, ops[..|ops| - 1], t), e, k);
  }

  /** The drain step: a bucket handed out takes the group that was pending; otherwise nothing moves. */
  lemma AfterDrainGroups(fp: Floats, width: nat, ops: seq<Op>, all: bool, t: nat, k: FullKey, before: seq<seq<Event>>)
    returns (groups: seq<seq<Event>>)
    requires width > 0 && ops != [] && ops[|ops| - 1] == Drain(all)
    requires var front := ops[..|ops| - 1];
             && |before| == |CellsOut(fp, width, front, t, k)|
             && forall i :: 0 <= i < |before| ==> before[i] != [] && CellsOut(fp, width, front, t, k)[i] == CellOf(fp, before[i])
    ensures |groups| == |CellsOut(fp, width, ops, t, k)|
    ensures forall i :: 0 <= i < |groups| ==> groups[i] != [] && CellsOut(fp, width, ops, t, k)[i] == CellOf(fp, groups[i])
    ensures Flatten(groups) + Select(Pending(width, ops, t), k)
            == Flatten(before) + Select(Pending(width, ops[..|ops| - 1], t), k)
  {
    var front := ops[..|ops| - 1];
    var pending := Pending(width, front, t);
    var out := HandedOut(Run(fp, width, front), all);
    DrainedCellOf(fp, width, front, all, t, k);
    if t in out && k in out[t] {
      FlattenPush(before, Select(pending, k));
      groups := before + [Select(pending, k)];
    } else {
      groups := before;
    }
  }

  /** A bucket that a drain hands out is the one of its pending events; with none pending there is no such bucket. */
  lemma DrainedCellOf(fp: Floats, width: nat, ops: seq<Op>, all: bool, t: nat, k: FullKey)
    requires width > 0
    ensures var out, group := HandedOut(Run(fp, width, ops), all), Select(Pending(width, ops, t), k);
      && (t in out && k in out[t] <==> (all || t < Latest(width, Aggregated(ops))) && group != [])
      && (t in out && k in out[t] ==> out[t][k] == CellOf(fp, group))
  {
    RunMeaning(fp, width, ops);
    SelectEmpty(Pending(width, ops, t), k);
  }

  lemma HeldCell(fp: Floats, width: nat, ops: seq<Op>, t: nat, k: FullKey)
    requires width > 0
    ensures CellIn(Held(Run(fp, width, ops).store, t), k) == CellOf(fp, Select(Pending(width, ops, t), k))
  {
    RunMeaning(fp, width, ops);
    SelectEmpty(Pending(width, ops, t), k);
  }

  lemma {:induction false} CellCount(fp: Floats, es: seq<Event>)
    ensures CellOf(fp, es).count == |es|
  {
    if es != [] {
      CellCount(fp, es[..|es| - 1]);
    }
  }

  function CountOf(cells: seq<Cell>): nat {
    if cells == [] then 0 else CountOf(cells[..|cells| - 1]) + cells[|cells| - 1].count
  }

  lemma {:induction false} CountsOfGroups(fp: Floats, cells: seq<Cell>, groups: seq<seq<Event>>)
    requires |cells| == |groups| && forall i :: 0 <= i < |groups| ==> cells[i] == CellOf(fp, groups[i])
    ensures CountOf(cells) == |Flatten(groups)|
  {
    if cells != [] {
      CountsOfGroups(fp, cells[..|cells| - 1], groups[..|groups| - 1]);
      CellCount(fp, groups[|groups| - 1]);
    }
  }

  /** Per bucket identity: what was handed out plus what is held counts exactly the matching events. */
  lemma {:induction false} CountsConserved(fp: Floats, width: nat, ops: seq<Op>, t: nat, k: FullKey)
    requires width > 0
    ensures CountOf(CellsOut(fp, width, ops, t, k)) + CellIn(Held(Run(fp, width, ops).store, t), k).count
            == |Matching(width, ops, t, k)|
  {
    var groups := EveryEventInOneBucket(fp, width, ops, t, k);
    CountsOfGroups(fp, CellsOut(fp, width, ops, t, k), groups);
    HeldCell(fp, width, ops, t, k);
    CellCount(fp, Select(Pending(width, ops, t), k));
  }

  // ----- Durations -----

  /** The numbers a list of fields adds to the duration's sum: those logged under "dur", taken as unsigned. */
  function LoggedDurations(fp: Floats, fields: seq<Field>): int {
    if fields == [] then 0 else
    var f := fields[|fields| - 1];
    LoggedDurations(fp, fields[..|fields| - 1])
    + (if Folds(f) && f.key == "dur" then Converted(fp, UINT, f.value.Tag(), f.value.Word()) else 0)
  }

  function Durations(fp: Floats, es: seq<Event>): int {
    if es == [] then 0 else
    var e := es[|es| - 1];
    Durations(fp, es[..|es| - 1]) + e.duration + LoggedDurations(fp, e.fields)
  }

  function DurationSum(c: Cell): int {
    if "dur" in c.values then c.values["dur"].sum else 0
  }

  lemma {:induction false} FieldsAddDurations(fp: Floats, m: map<string, Acc>, fields: seq<Field>, x: int)
    requires "dur" in m && m["dur"].tag == UINT && m["dur"].sum == WrapU(x)
    ensures var folded := FoldFields(fp, m, fields);
      "dur" in folded && folded["dur"].tag == UINT && folded["dur"].sum == WrapU(x + LoggedDurations(fp, fields))
  {
    if fields != [] {
      var front, f := fields[..|fields| - 1], fields[|fields| - 1];
      FieldsAddDurations(fp, m, front, x);
      if Folds(f) && f.key == "dur" {
        WrapAdd(x + LoggedDurations(fp, front), Converted(fp, UINT, f.value.Tag(), f.value.Word()));
      }
    }
  }

  lemma {:induction false} CellDuration(fp: Floats, es: seq<Event>)
    ensures DurationSum(CellOf(fp, es)) == WrapU(Durations(fp, es))
    ensures es != [] ==> "dur" in CellOf(fp, es).values && CellOf(fp, es).values["dur"].tag == UINT
    ensures es == [] ==> "dur" !in CellOf(fp, es).values
  {
    if es != [] {
      var front, e := es[..|es| - 1], es[|es| - 1];
      CellDuration(fp, front);
      WrapAdd(Durations(fp, front), e.duration);
      FieldsAddDurations(fp, FoldNumber(fp, CellOf(fp, front).values, "dur", UINT, e.duration), e.fields,
                         Durations(fp, front) + e.duration);
    }
  }

  lemma WrapAdd(x: int, y: int)
    ensures WrapU(WrapU(x) + y) == WrapU(x + y) && WrapU(x + WrapU(y)) == WrapU(x + y)
  {
    Bits.RemainderAdd(x, y, TWO64);
    Bits.RemainderAdd(y, x, TWO64);
  }

  function DurationOf(cells: seq<Cell>): int {
    if cells == [] then 0 else DurationOf(cells[..|cells| - 1]) + DurationSum(cells[|cells| - 1])
  }

  lemma {:induction false} DurationsAppend(fp: Floats, a: seq<Event>, b: seq<Event>)
    ensures Durations(fp, a + b) == Durations(fp, a) + Durations(fp, b)
  {
    if b == [] {
      assert a + b == a;
    } else {
      assert (a + b)[..|a + b| - 1] == a + b[..|b| - 1];
      DurationsAppend(fp, a, b[..|b| - 1]);
    }
  }

  lemma {:induction false} DurationsOfGroups(fp: Floats, cells: seq<Cell>, groups: seq<seq<Event>>) returns (wraps: int)
    requires |cells| == |groups| && forall i :: 0 <= i < |groups| ==> cells[i] == CellOf(fp, groups[i])
    ensures DurationOf(cells) + wraps * TWO64 == Durations(fp, Flatten(groups))
  {
    if cells == [] {
      return 0;
    }
    var front, last := groups[..|groups| - 1], groups[|groups| - 1];
    wraps := DurationsOfGroups(fp, cells[..|cells| - 1], front);
    CellDuration(fp, last);
    DurationsAppend(fp, Flatten(front), last);
    wraps := wraps + Durations(fp, last) / TWO64;
  }

  /**
   * The same for durations, and whatever events log under the duration's name, modulo 2^64 as the accumulators add.
   */
  lemma DurationsConserved(fp: Floats, width: nat, ops: seq<Op>, t: nat, k: FullKey) returns (wraps: int)
    requires width > 0
    ensures DurationOf(CellsOut(fp, width, ops, t, k)) + DurationSum(CellIn(Held(Run(fp, width, ops).store, t), k)) + wraps * TWO64
            == Durations(fp, Matching(width, ops, t, k))
  {
    var groups := EveryEventInOneBucket(fp, width, ops, t, k);
    var held := Select(Pending(width, ops, t), k);
    HeldCell(fp, width, ops, t, k);
    wraps := DurationsOfGroups(fp, CellsOut(fp, width, ops, t, k), groups);
    CellDuration(fp, held);
    DurationsAppend(fp, Flatten(groups), held);
    wraps := wraps + Durations(fp, held) / TWO64;
  }

  function PlainDurations(es: seq<Event>): nat {
    if es == [] then 0 else PlainDurations(es[..|es| - 1]) + es[|es| - 1].duration
  }

  /** Events that log no number under "dur" contribute their durations and nothing else. */
  lemma {:induction false} OwnDurations(fp: Floats, es: seq<Event>)
    requires forall e, f :: e in es && f in e.fields && Folds(f) ==> f.key != "dur"
    ensures Durations(fp, es) == PlainDurations(es)
  {
    if es != [] {
      var front, e := es[..|es| - 1], es[|es| - 1];
      assert e in es && forall x :: x in front ==> x in es;
      OwnDurations(fp, front);
      NothingLogged(fp, e.fields);
    }
  }

  lemma {:induction false} NothingLogged(fp: Floats, fields: seq<Field>)
    requires forall f :: f in fields && Folds(f) ==> f.key != "dur"
    ensures LoggedDurations(fp, fields) == 0
  {
    if fields != [] {
      assert fields[|fields| - 1] in fields && forall g :: g in fields[..|fields| - 1] ==> g in fields;
      NothingLogged(fp, fields[..|fields| - 1]);
    }
  }

  // ----- Totals over all buckets -----

  ghost function Sum<T(!new)>(keys: set<T>, weight: T -> int): int {
    if keys == {} then 0 else
    var x :| x in keys;
    weight(x) + Sum(keys - {x}, weight)
  }

  lemma {:induction false} SumTakes<T(!new)>(keys: set<T>, weight: T -> int, x: T)
    requires x in keys
    ensures Sum(keys, weight) == weight(x) + Sum(keys - {x}, weight)
  {
    var y :| y in keys && Sum(keys, weight) == weight(y) + Sum(keys - {y}, weight);
    if y != x {
      SumTakes(keys - {y}, weight, x);
      SumTakes(keys - {x}, weight, y);
      assert keys - {y} - {x} == keys - {x} - {y};
    }
  }

  lemma {:induction false} SumSame<T(!new)>(keys: set<T>, f: T -> int, g: T -> int)
    requires forall x :: x in keys ==> f(x) == g(x)
    ensures Sum(keys, f) == Sum(keys, g)
  {
    if keys != {} {
      var x :| x in keys;
      SumTakes(keys, f, x);
      SumTakes(keys, g, x);
      SumSame(keys - {x}, f, g);
    }
  }

  lemma {:induction false} SumSplit<T(!new)>(a: set<T>, b: set<T>, f: T -> int)
    requires a !! b
    ensures Sum(a + b, f) == Sum(a, f) + Sum(b, f)
  {
    if a == {} {
      assert a + b == b;
    } else {
      var x :| x in a;
      SumTakes(a, f, x);
      SumTakes(a + b, f, x);
      assert a + b - {x} == (a - {x}) + b;
      SumSplit(a - {x}, b, f);
    }
  }

  /** How many events a bucket counts. */
  function Count(c: Cell): int { c.count }

  /** What the buckets of one interval weigh together, and those of all intervals of a store: events, or durations. */
  ghost function BucketsTotal(weight: Cell -> int, b: Buckets): int { Sum(b.Keys, k => weight(CellIn(b, k))) }

  ghost function StoreTotal(weight: Cell -> int, s: map<nat, Buckets>): int {
    Sum(s.Keys, t => BucketsTotal(weight, Held(s, t)))
  }

  lemma UpdateTotal<T(!new)>(keys: set<T>, f: T -> int, g: T -> int, x: T)
    requires x !in keys ==> f(x) == 0
    requires forall y :: y != x ==> f(y) == g(y)
    ensures Sum(keys + {x}, g) == Sum(keys, f) + g(x) - f(x)
  {
    SumTakes(keys + {x}, g, x);
    assert keys + {x} - {x} == keys - {x};
    SumSame(keys - {x}, f, g);
    if x in keys {
      SumTakes(keys, f, x);
    } else {
      assert keys - {x} == keys;
    }
  }

  lemma BucketAdds(weight: Cell -> int, fp: Floats, held: Buckets, e: Event)
    requires weight(EMPTY_CELL) == 0
    ensures var c := CellIn(held, KeyOf(e));
      BucketsTotal(weight, AddTo(fp, held, e)) == BucketsTotal(weight, held) + weight(CellAfter(fp, c, e)) - weight(c)
  {
    var k, more := KeyOf(e), AddTo(fp, held, e);
    var f, g := (x: FullKey) => weight(CellIn(held, x)), (x: FullKey) => weight(CellIn(more, x));
    assert forall x :: x != k ==> CellIn(more, x) == CellIn(held, x);
    UpdateTotal(held.Keys, f, g, k);
    assert more.Keys == held.Keys + {k};
    assert BucketsTotal(weight, held) == Sum(held.Keys, f);
    assert BucketsTotal(weight, more) == Sum(more.Keys, g);
    assert CellIn(more, k) == CellAfter(fp, CellIn(held, k), e);
    assert g(k) == weight(CellIn(more, k));
  }

  /** An event adds to a total what it adds to its own bucket. */
  lemma EventAdds(weight: Cell -> int, fp: Floats, width: nat, s: State, e: Event)
    requires width > 0 && weight(EMPTY_CELL) == 0
    ensures var c := CellIn(Held(s.store, SlotOf(width, e)), KeyOf(e));
      StoreTotal(weight, AfterEvent(fp, width, s, e).store)
        == StoreTotal(weight, s.store) + weight(CellAfter(fp, c, e)) - weight(c)
  {
    var t, after := SlotOf(width, e), AfterEvent(fp, width, s, e).store;
    var f, g := (u: nat) => BucketsTotal(weight, Held(s.store, u)), (u: nat) => BucketsTotal(weight, Held(after, u));
    assert forall u :: u != t ==> Held(after, u) == Held(s.store, u);
    assert t !in s.store ==> BucketsTotal(weight, Held(s.store, t)) == 0;
    UpdateTotal(s.store.Keys, f, g, t);
    BucketAdds(weight, fp, Held(s.store, t), e);
    assert after.Keys == s.store.Keys + {t};
  }

  lemma DrainSplits(weight: Cell -> int, s: State, all: bool)
    ensures StoreTotal(weight, HandedOut(s, all)) + StoreTotal(weight, AfterDrain(s, all).store) == StoreTotal(weight, s.store)
  {
    var out, kept := HandedOut(s, all), AfterDrain(s, all).store;
    assert s.store.Keys == out.Keys + kept.Keys;
    SumSplit(out.Keys, kept.Keys, t => BucketsTotal(weight, Held(s.store, t)));
    SumSame(out.Keys, t => BucketsTotal(weight, Held(s.store, t)), t => BucketsTotal(weight, Held(out, t)));
    SumSame(kept.Keys, t => BucketsTotal(weight, Held(s.store, t)), t => BucketsTotal(weight, Held(kept, t)));
  }

  /** What all the intervals that the drains of a run handed out weigh together. */
  ghost function DrainedTotal(weight: Cell -> int, fp: Floats, width: nat, ops: seq<Op>): int
    requires width > 0
  {
    if ops == [] then 0 else
    var before := DrainedTotal(weight, fp, width, ops[..|ops| - 1]);
    match ops[|ops| - 1]
    case Aggregate(_) => before
    case Drain(all) => before + StoreTotal(weight, HandedOut(Run(fp, width, ops[..|ops| - 1]), all))
  }

  /** Counts drained plus counts held equal the number of events aggregated. */
  lemma {:induction false} TotalConserved(fp: Floats, width: nat, ops: seq<Op>)
    requires width > 0
    ensures DrainedTotal(Count, fp, width, ops) + StoreTotal(Count, Run(fp, width, ops).store) == |Aggregated(ops)|
  {
    if ops != [] {
      var front, op := ops[..|ops| - 1], ops[|ops| - 1];
      TotalConserved(fp, width, front);
      match op {
        case Aggregate(e) => EventAdds(Count, fp, width, Run(fp, width, front), e);
        case Drain(all) => DrainSplits(Count, Run(fp, width, front), all);
      }
    }
  }

  /** The sum a bucket keeps under "dur" grows by what the event adds, modulo 2^64. */
  lemma BucketDuration(fp: Floats, width: nat, ops: seq<Op>, e: Event) returns (wraps: int)
    requires width > 0
    ensures var c := CellIn(Held(Run(fp, width, ops).store, SlotOf(width, e)), KeyOf(e));
      DurationSum(CellAfter(fp, c, e)) - DurationSum(c) + wraps * TWO64 == e.duration + LoggedDurations(fp, e.fields)
  {
    var group := Select(Pending(width, ops, SlotOf(width, e)), KeyOf(e));
    HeldCell(fp, width, ops, SlotOf(width, e), KeyOf(e));
    CellDuration(fp, group);
    CellDuration(fp, group + [e]);
    assert (group + [e])[..|group|] == group;
    wraps := Durations(fp, group + [e]) / TWO64 - Durations(fp, group) / TWO64;
  }

  /** The same for what all rows and all held buckets keep under "dur", modulo 2^64. */
  lemma {:induction false} TotalDurationsConserved(fp: Floats, width: nat, ops: seq<Op>) returns (wraps: int)
    requires width > 0
    ensures DrainedTotal(DurationSum, fp, width, ops) + StoreTotal(DurationSum, Run(fp, width, ops).store) + wraps * TWO64
      == Durations(fp, Aggregated(ops))
  {
    wraps := 0;
    if ops != [] {
      var front, op := ops[..|ops| - 1], ops[|ops| - 1];
      wraps := TotalDurationsConserved(fp, width, front);
      match op {
        case Aggregate(e) =>
          var more := BucketDuration(fp, width, front, e);
          EventAdds(DurationSum, fp, width, Run(fp, width, front), e);
          DurationsAppend(fp, Aggregated(front), [e]);
          OneDuration(fp, e);
          wraps := wraps + more;
        case Drain(all) =>
          DrainSplits(DurationSum, Run(fp, width, front), all);
          assert Aggregated(ops) == Aggregated(front);
      }
    }
  }

  lemma OneDuration(fp: Floats, e: Event)
    ensures Durations(fp, [e]) == e.duration + LoggedDurations(fp, e.fields)
  {
    assert [e][..0] == [];
  }
}
