/** The agreement of the two aggregators over whole runs, the runs on which it always holds, and inputs that break it. */
module RunAgreement {
  import opened Events
  import opened MetadataValues
  import opened Rollup
  import opened Aggregators
  import opened Agreement

  // ----- Runs -----

  /** What a process does with the reference. */
  datatype LoggedOp = Log(e: Logged) | HandOut(all: bool)

  function EncodedOp(n: Native, op: LoggedOp): Op {
    match op
    case Log(e) => Aggregate(Encoded(n, e))
    case HandOut(all) => Drain(all)
  }

  function EncodedOps(n: Native, ops: seq<LoggedOp>): (r: seq<Op>)
    ensures |r| == |ops|
  {
    seq(|ops|, i requires 0 <= i < |ops| => EncodedOp(n, ops[i]))
  }

  function RefStep(n: Native, width: nat, r: RefState, op: LoggedOp): RefState
    requires width > 0
  {
    match op
    case Log(e) => RefAfterEvent(n, width, r, e)
    case HandOut(all) => RefAfterDrain(r, all)
  }

  function RefRun(n: Native, width: nat, ops: seq<LoggedOp>): RefState
    requires width > 0
  {
    if ops == [] then REF_START else RefStep(n, width, RefRun(n, width, ops[..|ops| - 1]), ops[|ops| - 1])
  }

  /** An event's fields come from a map. */
  ghost predicate FromMaps(ops: seq<LoggedOp>) {
    forall op :: op in ops && op.Log? ==> DistinctLogged(op.e)
  }

  /** Whether the next operation keeps the aggregators in agreement: read off the reference's state before it. */
  predicate OpFits(n: Native, width: nat, r: RefState, op: LoggedOp)
    requires width > 0
  {
    match op
    case Log(e) =>
      var es := EntriesAt(r.data, RefSlot(width, e));
      KeyFits(n, es, e) && Fits(n, KeptFor(n, es, RefKeyOf(e)), e)
    case HandOut(_) => true
  }

  lemma EventAgrees(n: Native, width: nat, s: State, r: RefState, e: Logged)
    requires width > 0 && Widens(n) && Agree(n, s, r) && DistinctLogged(e)
    ensures Agree(n, AfterEvent(n.fp, width, s, Encoded(n, e)), RefAfterEvent(n, width, r, e)) <==> OpFits(n, width, r, Log(e))
    ensures Opens(width, s, Encoded(n, e)) <==> !r.first && RefSlot(width, e) > r.last
  {
    var t := RefSlot(width, e);
    assert Keys(n, []) == [];
    assert Mirrors(n, Held(s.store, t), EntriesAt(r.data, t));
    IntervalAgrees(n, Held(s.store, t), EntriesAt(r.data, t), e);
    AgreeUpdated(n, s, r, t, AddTo(n.fp, Held(s.store, t), Encoded(n, e)), InsertEvent(n, EntriesAt(r.data, t), e));
  }

  lemma AgreeUpdated(n: Native, s: State, r: RefState, t: nat, b: Buckets, es: seq<Entry>)
    requires Agree(n, s, r)
    ensures var last := if t > s.last then t else s.last;
      Agree(n, State(s.store[t := b], last, false), RefState(r.data[t := es], last, false)) <==> Mirrors(n, b, es)
  {
    var store, data := s.store[t := b], r.data[t := es];
    assert store.Keys == s.store.Keys + {t} && data.Keys == r.data.Keys + {t};
    assert forall u :: u in s.store && u != t ==> store[u] == s.store[u] && data[u] == r.data[u];
    assert store[t] == b && data[t] == es;
  }

  /** A drain hands out the same intervals, with the same buckets, and leaves the aggregators in agreement. */
  lemma DrainAgrees(n: Native, s: State, r: RefState, all: bool)
    requires Agree(n, s, r)
    ensures Agree(n, AfterDrain(s, all), RefAfterDrain(r, all))
    ensures HandedOut(s, all).Keys == RefHandedOut(r, all).Keys
    ensures forall t :: t in HandedOut(s, all) ==> Mirrors(n, HandedOut(s, all)[t], RefHandedOut(r, all)[t])
  {
    assert AfterDrain(s, all).store.Keys == RefAfterDrain(r, all).data.Keys;
  }

  ghost predicate AgreeAt(n: Native, width: nat, ops: seq<LoggedOp>, i: nat)
    requires width > 0
  {
    i <= |ops| && Agree(n, Run(n.fp, width, EncodedOps(n, ops[..i])), RefRun(n, width, ops[..i]))
  }

  predicate FitsAt(n: Native, width: nat, ops: seq<LoggedOp>, i: nat)
    requires width > 0
  {
    i < |ops| && OpFits(n, width, RefRun(n, width, ops[..i]), ops[i])
  }

  ghost predicate AgreeThroughout(n: Native, width: nat, ops: seq<LoggedOp>)
    requires width > 0
  {
    forall i :: 0 <= i <= |ops| ==> AgreeAt(n, width, ops, i)
  }

  ghost predicate FitThroughout(n: Native, width: nat, ops: seq<LoggedOp>)
    requires width > 0
  {
    forall i :: 0 <= i < |ops| ==> FitsAt(n, width, ops, i)
  }

  /**
   * Over every run of logged events: the aggregators agree all along, on the partition into buckets and on every
   * statistic, exactly when every event meets its own bucket and fits there when it arrives.
   */
  lemma {:induction false} RunsAgree(n: Native, width: nat, ops: seq<LoggedOp>)
    requires width > 0 && Widens(n) && FromMaps(ops)
    ensures AgreeThroughout(n, width, ops) <==> FitThroughout(n, width, ops)
  {
    if ops == [] {
      assert ops[..0] == [];
      assert AgreeAt(n, width, ops, 0);
    } else {
      RunsAgree(n, width, ops[..|ops| - 1]);
      ThroughoutSplit(n, width, ops);
      if AgreeAt(n, width, ops, |ops| - 1) {
        LastAgrees(n, width, ops);
      }
    }
  }

  lemma ThroughoutSplit(n: Native, width: nat, ops: seq<LoggedOp>)
    requires width > 0 && ops != []
    ensures var front := ops[..|ops| - 1];
            && (AgreeThroughout(n, width, ops) <==> AgreeThroughout(n, width, front) && AgreeAt(n, width, ops, |ops|))
            && (FitThroughout(n, width, ops) <==> FitThroughout(n, width, front) && FitsAt(n, width, ops, |ops| - 1))
            && (AgreeThroughout(n, width, front) ==> AgreeAt(n, width, ops, |ops| - 1))
  {
    AgreeSplit(n, width, ops);
    FitSplit(n, width, ops);
  }

  lemma AgreeSplit(n: Native, width: nat, ops: seq<LoggedOp>)
    requires width > 0 && ops != []
    ensures var front := ops[..|ops| - 1];
            && (AgreeThroughout(n, width, ops) <==> AgreeThroughout(n, width, front) && AgreeAt(n, width, ops, |ops|))
            && (AgreeThroughout(n, width, front) ==> AgreeAt(n, width, ops, |ops| - 1))
  {
    AtPrefix(n, width, ops);
    var front := ops[..|ops| - 1];
    if AgreeThroughout(n, width, ops) {
      forall i | 0 <= i <= |front| ensures AgreeAt(n, width, front, i) {
        assert AgreeAt(n, width, ops, i);
      }
    }
  }

  lemma FitSplit(n: Native, width: nat, ops: seq<LoggedOp>)
    requires width > 0 && ops != []
    ensures FitThroughout(n, width, ops) <==>
      FitThroughout(n, width, ops[..|ops| - 1]) && FitsAt(n, width, ops, |ops| - 1)
  {
    AtPrefix(n, width, ops);
    var front := ops[..|ops| - 1];
    if FitThroughout(n, width, ops) {
      forall i | 0 <= i < |front| ensures FitsAt(n, width, front, i) {
        assert FitsAt(n, width, ops, i);
      }
    }
  }

  lemma AtPrefix(n: Native, width: nat, ops: seq<LoggedOp>)
    requires width > 0 && ops != []
    ensures forall i :: 0 <= i < |ops| ==> (AgreeAt(n, width, ops, i) <==> AgreeAt(n, width, ops[..|ops| - 1], i))
    ensures forall i :: 0 <= i < |ops| - 1 ==> (FitsAt(n, width, ops, i) <==> FitsAt(n, width, ops[..|ops| - 1], i))
  {
    forall i | 0 <= i < |ops| ensures ops[..|ops| - 1][..i] == ops[..i] {}
  }

  lemma LastAgrees(n: Native, width: nat, ops: seq<LoggedOp>)
    requires width > 0 && Widens(n) && FromMaps(ops) && ops != [] && AgreeAt(n, width, ops, |ops| - 1)
    ensures AgreeAt(n, width, ops, |ops|) <==> FitsAt(n, width, ops, |ops| - 1)
  {
    var i := |ops| - 1;
    assert ops[..|ops|] == ops && ops[i] in ops;
    assert EncodedOps(n, ops)[..i] == EncodedOps(n, ops[..i]);
    var s, r := Run(n.fp, width, EncodedOps(n, ops[..i])), RefRun(n, width, ops[..i]);
    match ops[i]
    case Log(e) => EventAgrees(n, width, s, r, e);
    case HandOut(all) => DrainAgrees(n, s, r, all);
  }
}
