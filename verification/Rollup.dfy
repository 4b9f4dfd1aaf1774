/**
 * What aggregation means, without any of the packed structures: intervals of buckets in plain maps, one step per
 * event or drain, and, over whole runs, every bucket as the summary of the events it stands for.
 */
module Rollup {
  import Bits
  import opened Events

  type Buckets = map<FullKey, Cell>

  datatype State = State(store: map<nat, Buckets>, last: nat, first: bool)

  const START := State(map[], 0, true)

  datatype Op = Aggregate(e: Event) | Drain(all: bool)

  function SlotOf(width: nat, e: Event): nat
    requires width > 0
  {
    e.startTime / width * width
  }

  function Held(store: map<nat, Buckets>, t: nat): Buckets {
    if t in store then store[t] else map[]
  }

  function CellIn(b: Buckets, k: FullKey): Cell {
    if k in b then b[k] else EMPTY_CELL
  }

  function AddTo(fp: Floats, b: Buckets, e: Event): Buckets {
    b[KeyOf(e) := CellAfter(fp, CellIn(b, KeyOf(e)), e)]
  }

  function AfterEvent(fp: Floats, width: nat, s: State, e: Event): State
    requires width > 0
  {
    var t := SlotOf(width, e);
    State(s.store[t := AddTo(fp, Held(s.store, t), e)], if t > s.last then t else s.last, false)
  }

  /** Whether `e` opens a later interval than any so far, not the first. */
  predicate Opens(width: nat, s: State, e: Event)
    requires width > 0
  {
    !s.first && SlotOf(width, e) > s.last
  }

  predicate Complete(s: State, all: bool, t: nat) { all || t < s.last }

  /** The intervals a drain hands out, and the state it leaves. */
  function HandedOut(s: State, all: bool): map<nat, Buckets> {
    map t | t in s.store && Complete(s, all, t) :: s.store[t]
  }

  function AfterDrain(s: State, all: bool): State {
    s.(store := map t | t in s.store && !Complete(s, all, t) :: s.store[t])
  }

  function Step(fp: Floats, width: nat, s: State, op: Op): State
    requires width > 0
  {
    match op
    case Aggregate(e) => AfterEvent(fp, width, s, e)
    case Drain(all) => AfterDrain(s, all)
  }

  function Run(fp: Floats, width: nat, ops: seq<Op>): State
    requires width > 0
  {
    if ops == [] then START else Step(fp, width, Run(fp, width, ops[..|ops| - 1]), ops[|ops| - 1])
  }

  // ----- What a run means -----

  function Aggregated(ops: seq<Op>): seq<Event> {
    if ops == [] then []
    else Aggregated(ops[..|ops| - 1]) + (if ops[|ops| - 1].Aggregate? then [ops[|ops| - 1].e] else [])
  }

  /** The latest interval of any event, 0 before the first. */
  function Latest(width: nat, es: seq<Event>): nat
    requires width > 0
  {
    if es == [] then 0
    else
      var m, t := Latest(width, es[..|es| - 1]), SlotOf(width, es[|es| - 1]);
      if t > m then t else m
  }

  /** The events of interval `t` that no drain has handed out yet, in arrival order. */
  function Pending(width: nat, ops: seq<Op>, t: nat): seq<Event>
    requires width > 0
  {
    if ops == [] then [] else
    var before := Pending(width, ops[..|ops| - 1], t);
    match ops[|ops| - 1]
    case Aggregate(e) => if SlotOf(width, e) == t then before + [e] else before
    case Drain(all) => if all || t < Latest(width, Aggregated(ops[..|ops| - 1])) then [] else before
  }

  function Select(es: seq<Event>, k: FullKey): seq<Event> {
    if es == [] then []
    else Select(es[..|es| - 1], k) + (if KeyOf(es[|es| - 1]) == k then [es[|es| - 1]] else [])
  }

  /** The bucket of a list of events. */
  function CellOf(fp: Floats, es: seq<Event>): Cell {
    if es == [] then EMPTY_CELL else CellAfter(fp, CellOf(fp, es[..|es| - 1]), es[|es| - 1])
  }

  /** Grouping events by their full key. */
  function GroupOf(fp: Floats, es: seq<Event>): Buckets {
    map k | k in (set e | e in es :: KeyOf(e)) :: CellOf(fp, Select(es, k))
  }

  lemma {:induction false} SelectEmpty(es: seq<Event>, k: FullKey)
    ensures Select(es, k) == [] <==> forall e :: e in es ==> KeyOf(e) != k
    ensures forall e :: e in Select(es, k) ==> e in es && KeyOf(e) == k
  {
    if es != [] {
      var front, e := es[..|es| - 1], es[|es| - 1];
      SelectEmpty(front, k);
      assert es == front + [e];
    }
  }

  lemma CellStep(fp: Floats, es: seq<Event>, e: Event, k: FullKey)
    ensures CellOf(fp, Select(es + [e], k)) ==
            if KeyOf(e) == k then CellAfter(fp, CellOf(fp, Select(es, k)), e) else CellOf(fp, Select(es, k))
  {
    assert (es + [e])[..|es|] == es;
    var chosen := Select(es, k) + [e];
    assert chosen[..|chosen| - 1] == Select(es, k);
    assert Select(es, k) + [] == Select(es, k);
  }

  lemma GroupStep(fp: Floats, es: seq<Event>, e: Event)
    ensures GroupOf(fp, es + [e]) == AddTo(fp, GroupOf(fp, es), e)
  {
    forall k { GroupAt(fp, es, e, k); }
    assert GroupOf(fp, es + [e]).Keys == AddTo(fp, GroupOf(fp, es), e).Keys;
  }

  lemma GroupAt(fp: Floats, es: seq<Event>, e: Event, k: FullKey)
    ensures k in GroupOf(fp, es + [e]) <==> k in AddTo(fp, GroupOf(fp, es), e)
    ensures k in GroupOf(fp, es + [e]) ==> GroupOf(fp, es + [e])[k] == AddTo(fp, GroupOf(fp, es), e)[k]
  {
    assert forall x :: x in es + [e] <==> x in es || x == e;
    SelectEmpty(es, k);
    CellStep(fp, es, e, k);
  }

  /**
   * Over every run of events and drains: the intervals held are exactly those with pending events, and each holds
   * its pending events grouped by full key.
   */
  lemma {:induction false} RunMeaning(fp: Floats, width: nat, ops: seq<Op>)
    requires width > 0
    ensures var s := Run(fp, width, ops);
            && s.last == Latest(width, Aggregated(ops))
            && (s.first <==> Aggregated(ops) == [])
            && forall t: nat ::
                 && (t in s.store <==> Pending(width, ops, t) != [])
                 && (t in s.store ==> s.store[t] == GroupOf(fp, Pending(width, ops, t)))
  {
    if ops != [] {
      var front, op := ops[..|ops| - 1], ops[|ops| - 1];
      RunMeaning(fp, width, front);
      var s, s' := Run(fp, width, front), Run(fp, width, ops);
      match op {
        case Aggregate(e) =>
          assert Aggregated(ops)[..|Aggregated(front)|] == Aggregated(front);
          forall t: nat
            ensures t in s'.store <==> Pending(width, ops, t) != []
            ensures t in s'.store ==> s'.store[t] == GroupOf(fp, Pending(width, ops, t))
          {
            GroupStep(fp, Pending(width, front, t), e);
            assert GroupOf(fp, []) == map[];
          }
        case Drain(all) =>
          assert Aggregated(ops) == Aggregated(front);
      }
    }
  }

  /** Every interval held starts at a multiple of the width and none is later than the latest event's. */
  lemma IntervalsHeld(fp: Floats, width: nat, ops: seq<Op>, t: nat)
    requires width > 0 && t in Run(fp, width, ops).store
    ensures t % width == 0 && t <= Run(fp, width, ops).last
  {
    RunMeaning(fp, width, ops);
    PendingFrom(width, ops, t);
    var e := Pending(width, ops, t)[0];
    LatestBound(width, Aggregated(ops));
    assert e in Pending(width, ops, t);
    SlotIsMultiple(width, e);
  }

  /** An event falls into the interval that it starts in. */
  lemma SlotHolds(width: nat, e: Event)
    requires width > 0
    ensures SlotOf(width, e) <= e.startTime < SlotOf(width, e) + width
  {}

  lemma SlotIsMultiple(width: nat, e: Event)
    requires width > 0
    ensures SlotOf(width, e) % width == 0
  {
    Bits.RemainderIs(SlotOf(width, e), width, e.startTime / width, 0);
  }

  lemma {:induction false} PendingFrom(width: nat, ops: seq<Op>, t: nat)
    requires width > 0
    ensures forall e :: e in Pending(width, ops, t) ==> e in Aggregated(ops) && SlotOf(width, e) == t
  {
    if ops != [] {
      PendingFrom(width, ops[..|ops| - 1], t);
    }
  }

  lemma {:induction false} LatestBound(width: nat, es: seq<Event>)
    requires width > 0
    ensures forall e :: e in es ==> SlotOf(width, e) <= Latest(width, es)
    ensures es == [] || exists e :: e in es && SlotOf(width, e) == Latest(width, es)
  {
    if es != [] {
      var front, e := es[..|es| - 1], es[|es| - 1];
      LatestBound(width, front);
      assert es == front + [e];
      assert e in es;
      if front != [] {
        var x :| x in front && SlotOf(width, x) == Latest(width, front);
        assert x in es;
      }
    }
  }

  /** `aggregate` answers true exactly when some event came before and every one before was of an earlier interval. */
  lemma OpensMeaning(fp: Floats, width: nat, ops: seq<Op>, e: Event)
    requires width > 0
    ensures Opens(width, Run(fp, width, ops), e) <==>
            Aggregated(ops) != [] && forall x :: x in Aggregated(ops) ==> SlotOf(width, x) < SlotOf(width, e)
  {
    RunMeaning(fp, width, ops);
    LatestBound(width, Aggregated(ops));
  }

  /** A drain of the complete intervals leaves at most the latest one; a drain of all leaves nothing. */
  lemma DrainLeaves(fp: Floats, width: nat, ops: seq<Op>, all: bool)
    requires width > 0
    ensures var s := Run(fp, width, ops + [Drain(all)]);
            forall t :: t in s.store ==> !all && t == s.last
  {
    var more := ops + [Drain(all)];
    assert more[..|ops|] == ops;
    forall t | t in Run(fp, width, more).store ensures !all && t == Run(fp, width, more).last {
      IntervalsHeld(fp, width, ops, t);
    }
  }
}
