/** Runs on which the aggregators always agree, and inputs on which they do not. */
module AgreementCases {
  import opened Events
  import opened MetadataValues
  import opened Rollup
  import opened Aggregators
  import opened Agreement
  import opened RunAgreement

  // ----- Keys that both sides tell apart alike -----

  /** The reference's equality of the two values is equality of their encodings. */
  ghost predicate Faithful(n: Native, v: Any, w: Any) {
    EqualKeyValues(n, v, w) <==> Encode(n, v) == Encode(n, w)
  }

  predicate KeyFieldOf(op: LoggedOp, f: LoggedField) {
    op.Log? && f in op.e.fields && f.mtype == MT_KEY
  }

  /** Any two values logged under one key name over the run, in either order. */
  ghost predicate FaithfulKeys(n: Native, ops: seq<LoggedOp>) {
    forall p, q, f, g {:trigger KeyFieldOf(p, f), KeyFieldOf(q, g)} ::
      p in ops && q in ops && KeyFieldOf(p, f) && KeyFieldOf(q, g) && f.key == g.key ==> Faithful(n, f.value, g.value)
  }

  lemma FaithfulOneWay(n: Native, a: set<(string, Any)>, b: set<(string, Any)>)
    requires forall f, g :: f in a && g in b && f.0 == g.0 ==> Faithful(n, g.1, f.1)
    ensures SameMtKeys(n, a, b) <==>
      (set f | f in a :: (f.0, Encode(n, f.1))) <= (set g | g in b :: (g.0, Encode(n, g.1)))
  {
    var x, y := set f | f in a :: (f.0, Encode(n, f.1)), set g | g in b :: (g.0, Encode(n, g.1));
    if SameMtKeys(n, a, b) {
      forall p | p in x ensures p in y {
        var f :| f in a && (f.0, Encode(n, f.1)) == p;
        assert HasField(n, b, f);
        var g :| g in b && g.0 == f.0 && EqualKeyValues(n, g.1, f.1);
        assert Faithful(n, g.1, f.1);
      }
    }
    if x <= y {
      forall f | f in a ensures HasField(n, b, f) {
        assert (f.0, Encode(n, f.1)) in y;
        var g :| g in b && (g.0, Encode(n, g.1)) == (f.0, Encode(n, f.1));
        assert Faithful(n, g.1, f.1);
      }
    }
  }

  /** On faithful values the reference's key equality is equality of the encoded keys. */
  lemma SameKeyIsEncodedKey(n: Native, ops: seq<LoggedOp>, p: LoggedOp, q: LoggedOp)
    requires FaithfulKeys(n, ops) && p in ops && q in ops && p.Log? && q.Log?
    ensures SameKey(n, RefKeyOf(p.e), RefKeyOf(q.e)) <==> EncodeKey(n, RefKeyOf(p.e)) == EncodeKey(n, RefKeyOf(q.e))
  {
    PairsFaithful(n, ops, p, q);
    PairsFaithful(n, ops, q, p);
    FaithfulOneWay(n, RefKeyOf(p.e).keys, RefKeyOf(q.e).keys);
    FaithfulOneWay(n, RefKeyOf(q.e).keys, RefKeyOf(p.e).keys);
  }

  lemma PairsFaithful(n: Native, ops: seq<LoggedOp>, p: LoggedOp, q: LoggedOp)
    requires FaithfulKeys(n, ops) && p in ops && q in ops && p.Log? && q.Log?
    ensures forall x, y :: x in RefKeyOf(p.e).keys && y in RefKeyOf(q.e).keys && x.0 == y.0 ==> Faithful(n, y.1, x.1)
  {
    forall x, y | x in RefKeyOf(p.e).keys && y in RefKeyOf(q.e).keys && x.0 == y.0 ensures Faithful(n, y.1, x.1) {
      var f :| f in p.e.fields && f.mtype == MT_KEY && (f.key, f.value) == x;
      var g :| g in q.e.fields && g.mtype == MT_KEY && (g.key, g.value) == y;
      assert KeyFieldOf(p, f) && KeyFieldOf(q, g);
    }
  }

  /** Every stored key is some event's. */
  ghost predicate KeysFrom(ops: seq<LoggedOp>, es: seq<Entry>) {
    forall i :: 0 <= i < |es| ==> exists op :: op in ops && op.Log? && es[i].key == RefKeyOf(op.e)
  }

  ghost predicate DataFrom(ops: seq<LoggedOp>, r: RefState) {
    forall t :: t in r.data ==> KeysFrom(ops, r.data[t])
  }

  lemma {:induction false} RunFrom(n: Native, width: nat, all: seq<LoggedOp>, ops: seq<LoggedOp>)
    requires width > 0 && forall op :: op in ops ==> op in all
    ensures DataFrom(all, RefRun(n, width, ops))
  {
    if ops != [] {
      var front, op := ops[..|ops| - 1], ops[|ops| - 1];
      RunFrom(n, width, all, front);
      assert op in all;
      if op.Log? {
        var es := EntriesAt(RefRun(n, width, front).data, RefSlot(width, op.e));
        InsertsAppend(n, InsertValue(n, es, RefKeyOf(op.e), "dur", DurationOf(op.e)), RefKeyOf(op.e), op.e.fields);
        assert KeysFrom(all, InsertEvent(n, es, op.e));
      }
    }
  }

  lemma FaithfulKeyFits(n: Native, ops: seq<LoggedOp>, es: seq<Entry>, op: LoggedOp)
    requires FaithfulKeys(n, ops) && KeysFrom(ops, es) && op in ops && op.Log?
    ensures KeyFits(n, es, op.e)
  {
    forall i | 0 <= i < |es|
      ensures SameKey(n, es[i].key, RefKeyOf(op.e)) <==> EncodeKey(n, es[i].key) == EncodeKey(n, RefKeyOf(op.e))
    {
      var p :| p in ops && p.Log? && es[i].key == RefKeyOf(p.e);
      SameKeyIsEncodedKey(n, ops, p, op);
    }
    SameKeyIsEncodedKey(n, ops, op, op);
  }

  // ----- Values that keep one wide type -----

  /** Under its name the value always has one C++ type; numbers have a 64-bit one and are not named "dur". */
  predicate SteadyField(ty: string -> CType, f: LoggedField) {
    Inserts(f) ==> f.value.Type() == ty(f.key) && (f.value.IsNumber() ==> f.key != "dur" && Wide(ty(f.key)))
  }

  ghost predicate SteadyValues(ty: string -> CType, ops: seq<LoggedOp>) {
    forall op, f :: op in ops && op.Log? && f in op.e.fields ==> SteadyField(ty, f)
  }

  predicate KeptAs(ty: string -> CType, name: string, v: Kept) {
    name != "dur" ==> v.ctype == ty(name) && (v.Number? <==> IsSummed(ty(name)))
  }

  ghost predicate EntriesAs(ty: string -> CType, es: seq<Entry>) {
    forall i, name :: 0 <= i < |es| && name in es[i].values ==> KeptAs(ty, name, es[i].values[name])
  }

  ghost predicate DataAs(ty: string -> CType, r: RefState) {
    forall t :: t in r.data ==> EntriesAs(ty, r.data[t])
  }

  lemma InsertAs(n: Native, ty: string -> CType, es: seq<Entry>, key: RefKey, name: string, v: Kept)
    requires EntriesAs(ty, es) && KeptAs(ty, name, v)
    ensures EntriesAs(ty, InsertValue(n, es, key, name, v))
  {
    var at := Found(n, es, key, 0);
    if at < |es| {
      var vs := UpdatedValues(n, es[at].values, name, v);
      forall other | other in vs ensures KeptAs(ty, other, vs[other]) {
        assert other in es[at].values ==> KeptAs(ty, other, es[at].values[other]);
      }
    }
  }

  lemma {:induction false} FieldsAs(n: Native, ty: string -> CType, es: seq<Entry>, key: RefKey, fields: seq<LoggedField>)
    requires EntriesAs(ty, es) && forall f :: f in fields ==> SteadyField(ty, f)
    ensures EntriesAs(ty, InsertFields(n, es, key, fields))
  {
    if fields != [] {
      var front, f := fields[..|fields| - 1], fields[|fields| - 1];
      FieldsAs(n, ty, es, key, front);
      assert SteadyField(ty, f);
      if Inserts(f) {
        InsertAs(n, ty, InsertFields(n, es, key, front), key, f.key, KeptOf(f.value));
      }
    }
  }

  lemma {:induction false} RunAs(n: Native, width: nat, ty: string -> CType, ops: seq<LoggedOp>)
    requires width > 0 && SteadyValues(ty, ops)
    ensures DataAs(ty, RefRun(n, width, ops))
  {
    if ops != [] {
      var front, op := ops[..|ops| - 1], ops[|ops| - 1];
      assert forall p :: p in front ==> p in ops;
      RunAs(n, width, ty, front);
      assert op in ops;
      if op.Log? {
        var es := EntriesAt(RefRun(n, width, front).data, RefSlot(width, op.e));
        InsertAs(n, ty, es, RefKeyOf(op.e), "dur", DurationOf(op.e));
        FieldsAs(n, ty, InsertValue(n, es, RefKeyOf(op.e), "dur", DurationOf(op.e)), RefKeyOf(op.e), op.e.fields);
      }
    }
  }

  /**
   * When any two values under one key name are told apart alike, and each value key keeps one 64-bit number type or one
   * kind of text, the aggregators agree all along.
   */
  lemma TypedRunsAgree(n: Native, width: nat, ty: string -> CType, ops: seq<LoggedOp>)
    requires width > 0 && Widens(n) && FromMaps(ops) && FaithfulKeys(n, ops) && SteadyValues(ty, ops)
    ensures AgreeThroughout(n, width, ops)
  {
    forall i | 0 <= i < |ops| ensures FitsAt(n, width, ops, i) {
      assert ops[i] in ops && forall op :: op in ops[..i] ==> op in ops;
      RunFrom(n, width, ops, ops[..i]);
      RunAs(n, width, ty, ops[..i]);
      if ops[i].Log? {
        var e := ops[i].e;
        var es := EntriesAt(RefRun(n, width, ops[..i]).data, RefSlot(width, e));
        FaithfulKeyFits(n, ops, es, ops[i]);
        SteadyFits(n, ty, es, e);
      }
    }
    RunsAgree(n, width, ops);
  }

  lemma SteadyFits(n: Native, ty: string -> CType, es: seq<Entry>, e: Logged)
    requires EntriesAs(ty, es) && forall f :: f in e.fields ==> SteadyField(ty, f)
    ensures Fits(n, KeptFor(n, es, RefKeyOf(e)), e)
  {
    var vs := KeptFor(n, es, RefKeyOf(e));
    forall f | f in e.fields ensures FieldFits(n, vs, f) {
      assert SteadyField(ty, f);
      if Sums(f) && f.key in vs {
        assert KeptAs(ty, f.key, vs[f.key]);
      }
    }
  }

  /** Keys of one type per name, integers or texts, whose C strings have one address per text. */
  ghost predicate SteadyKeys(kt: string -> CType, ops: seq<LoggedOp>) {
    && (forall p, f {:trigger KeyFieldOf(p, f)} :: p in ops && KeyFieldOf(p, f) ==>
          f.value.Type() == kt(f.key) && (f.value.IsInteger() || f.value.IsText()))
    && (forall p, q, f, g {:trigger KeyFieldOf(p, f), KeyFieldOf(q, g)} ::
          p in ops && q in ops && KeyFieldOf(p, f) && KeyFieldOf(q, g) && f.key == g.key ==> OneAddress(f.value, g.value))
  }

  predicate OneAddress(v: Any, w: Any) {
    && (v.CString? && w.CString? ==> (v.address == w.address <==> v.text == w.text))
    && (v.HashText? && w.HashText? ==> (v.address == w.address <==> v.text == w.text))
  }

  /** Such keys are told apart alike, whatever the hash function. */
  lemma SteadyKeysFaithful(n: Native, kt: string -> CType, ops: seq<LoggedOp>)
    requires SteadyKeys(kt, ops)
    ensures FaithfulKeys(n, ops)
  {
    forall p, q, f, g | p in ops && q in ops && KeyFieldOf(p, f) && KeyFieldOf(q, g) && f.key == g.key
      ensures Faithful(n, f.value, g.value)
    {
      OneTypeFaithful(n, f.value, g.value);
    }
  }

  lemma OneTypeFaithful(n: Native, v: Any, w: Any)
    requires v.Type() == w.Type() && (v.IsInteger() || v.IsText()) && OneAddress(v, w)
    ensures Faithful(n, v, w)
  {}

  // ----- Where they part -----

  /** A value equals itself in the reference unless its type is not compared or it is an unordered floating number. */
  predicate SelfEqual(n: Native, v: Any) {
    && !v.RawJsonOf? && !v.ListOf? && !v.OtherOf?
    && (v.DoubleOf? ==> n.same(v.d, v.d)) && (v.FloatOf? ==> n.sameF(v.f, v.f))
  }

  /** The reference finds the bucket it stored for an event exactly when each of the event's key values equals itself. */
  lemma FindsOwnBucket(n: Native, e: Logged)
    requires DistinctLogged(e)
    ensures SameKey(n, RefKeyOf(e), RefKeyOf(e)) <==> forall f :: f in e.fields && f.mtype == MT_KEY ==> SelfEqual(n, f.value)
  {
    var keys := RefKeyOf(e).keys;
    if SameMtKeys(n, keys, keys) {
      forall f | f in e.fields && f.mtype == MT_KEY ensures SelfEqual(n, f.value) {
        assert (f.key, f.value) in keys && HasField(n, keys, (f.key, f.value));
        var g :| g in keys && g.0 == f.key && EqualKeyValues(n, g.1, f.value);
        var h :| h in e.fields && h.mtype == MT_KEY && (h.key, h.value) == g;
        SameField(e, f, h);
      }
    }
    if forall f :: f in e.fields && f.mtype == MT_KEY ==> SelfEqual(n, f.value) {
      forall k | k in keys ensures HasField(n, keys, k) {
        var f :| f in e.fields && f.mtype == MT_KEY && (f.key, f.value) == k;
        assert k.0 == k.0 && EqualKeyValues(n, k.1, k.1);
      }
    }
  }

  lemma SameField(e: Logged, f: LoggedField, g: LoggedField)
    requires DistinctLogged(e) && f in e.fields && g in e.fields && f.key == g.key
    ensures f == g
  {
    var i :| 0 <= i < |e.fields| && e.fields[i] == f;
    var j :| 0 <= j < |e.fields| && e.fields[j] == g;
  }

  lemma SecondFitsAt(n: Native, width: nat, a: Logged, b: Logged)
    requires width > 0
    ensures FitsAt(n, width, [Log(a), Log(b)], 0) <==> OpFits(n, width, REF_START, Log(a))
    ensures FitsAt(n, width, [Log(a), Log(b)], 1) <==> OpFits(n, width, RefAfterEvent(n, width, REF_START, a), Log(b))
  {
    var ops := [Log(a), Log(b)];
    assert ops[..0] == [] && ops[..1] == [Log(a)] && [Log(a)][..0] == [];
  }

  /** An event seen twice: its key must equal itself, and its numbers must fit both times. */
  lemma TwiceAgrees(n: Native, width: nat, e: Logged)
    requires width > 0 && Widens(n) && DistinctLogged(e)
    ensures AgreeThroughout(n, width, [Log(e), Log(e)]) <==>
      SameKey(n, RefKeyOf(e), RefKeyOf(e)) && Fits(n, map[], e) && Fits(n, KeptAfter(n, map[], e), e)
  {
    var ops, t, key := [Log(e), Log(e)], RefSlot(width, e), RefKeyOf(e);
    RunsAgree(n, width, ops);
    SecondFitsAt(n, width, e, e);
    var es := InsertEvent(n, [], e);
    assert FitsAt(n, width, ops, 0) <==> KeyFits(n, [], e) && Fits(n, map[], e);
    assert FitsAt(n, width, ops, 1) <==> KeyFits(n, es, e) && Fits(n, KeptFor(n, es, key), e);
    if KeyFits(n, [], e) {
      EventIntoOne(n, [], e);
      assert es == [Entry(key, KeptAfter(n, map[], e))];
      assert KeyFits(n, es, e) <==> SameKey(n, key, key);
    }
    assert FitThroughout(n, width, ops) <==> FitsAt(n, width, ops, 0) && FitsAt(n, width, ops, 1);
  }

  /** A raw JSON key is never equal to itself: two sightings of one event make two buckets in the reference, one packed. */
  lemma RawJsonSplits(n: Native, e: Logged, f: LoggedField)
    requires DistinctLogged(e) && f in e.fields && f.mtype == MT_KEY && f.value.RawJsonOf?
    ensures |InsertEvent(n, InsertEvent(n, [], e), e)| >= 2
    ensures |AddTo(n.fp, AddTo(n.fp, map[], Encoded(n, e)), Encoded(n, e))| == 1
  {
    FindsOwnBucket(n, e);
    var key := RefKeyOf(e);
    var one := InsertEvent(n, [], e);
    InsertsAppend(n, InsertValue(n, [], key, "dur", DurationOf(e)), key, e.fields);
    StillUnfound(n, [], one, key);
    InsertsAppend(n, InsertValue(n, one, key, "dur", DurationOf(e)), key, e.fields);
    assert AddTo(n.fp, AddTo(n.fp, map[], Encoded(n, e)), Encoded(n, e)).Keys == {KeyOf(Encoded(n, e))};
  }

  /** Positive and negative zero, whose bits differ: one key in the reference only if their printed forms hash alike. */
  lemma ZeroKeys(n: Native, p: Uint64, m: Uint64)
    requires p != m && n.same(p, m)
    ensures Encode(n, DoubleOf(p)) != Encode(n, DoubleOf(m))
    ensures EqualKeyValues(n, DoubleOf(p), DoubleOf(m)) <==> n.hash(n.shown(DoubleOf(p))) == n.hash(n.shown(DoubleOf(m)))
  {}

  function Sample(mtype: MetadataType, v: Any): Logged {
    Logged("posix", "read", 0, 0, 0, 1, [LoggedField("size", mtype, v)])
  }

  const SAMPLE_KEY := RefKey("posix", "read", 0, 0, {})

  const SAMPLE_FULL_KEY := FullKey("posix", "read", 0, 0, {})

  /** What a run of two such samples leaves in the packed bucket and in the reference's. */
  ghost predicate LeavesSizes(n: Native, v: Any, w: Any, packed: Acc, kept: Kept) {
    var a, b := Sample(MT_VALUE, v), Sample(MT_VALUE, w);
    && AddTo(n.fp, AddTo(n.fp, map[], Encoded(n, a)), Encoded(n, b)) ==
       map[SAMPLE_FULL_KEY := Cell(2, map["dur" := Acc(UINT, 2, 2, 1, 1), "size" := packed])]
    && InsertEvent(n, InsertEvent(n, [], a), b) ==
       [Entry(SAMPLE_KEY, map["dur" := Number(UnsignedLongLong, 2, 2, 1, 1), "size" := kept])]
  }

  /** Two logged numbers of one name, the second of the same or of another type: what either aggregator holds. */
  lemma TwoSamples(n: Native, v: Any, w: Any)
    requires v.IsNumber() && w.IsNumber() && Encode(n, v).IsNumber() && Encode(n, w).IsNumber()
    ensures LeavesSizes(n, v, w,
      Updated(n.fp, Started(Encode(n, v).Tag(), Encode(n, v).Word()), Encode(n, w).Tag(), Encode(n, w).Word()),
      Merged(n, KeptOf(v), KeptOf(w)))
  {
    TwoSamplesPacked(n, v, w);
    TwoSamplesKept(n, v, w);
  }

  lemma TwoSamplesPacked(n: Native, v: Any, w: Any)
    requires v.IsNumber() && w.IsNumber() && Encode(n, v).IsNumber() && Encode(n, w).IsNumber()
    ensures AddTo(n.fp, AddTo(n.fp, map[], Encoded(n, Sample(MT_VALUE, v))), Encoded(n, Sample(MT_VALUE, w))) ==
      map[SAMPLE_FULL_KEY := Cell(2, map["dur" := Acc(UINT, 2, 2, 1, 1),
          "size" := Updated(n.fp, Started(Encode(n, v).Tag(), Encode(n, v).Word()), Encode(n, w).Tag(), Encode(n, w).Word())])]
  {
    var a, b := Encoded(n, Sample(MT_VALUE, v)), Encoded(n, Sample(MT_VALUE, w));
    SampleKey(n, v);
    SampleKey(n, w);
    OneFold(n, EMPTY_CELL, v);
    var c := CellAfter(n.fp, EMPTY_CELL, a);
    assert c == Cell(1, map["dur" := Acc(UINT, 1, 1, 1, 1), "size" := Started(Encode(n, v).Tag(), Encode(n, v).Word())]);
    assert AddTo(n.fp, map[], a) == map[SAMPLE_FULL_KEY := c];
    OneFold(n, c, w);
    assert Updated(n.fp, Acc(UINT, 1, 1, 1, 1), UINT, 1) == Acc(UINT, 2, 2, 1, 1);
    assert FoldNumber(n.fp, c.values, "dur", UINT, 1) == c.values["dur" := Acc(UINT, 2, 2, 1, 1)];
    assert CellAfter(n.fp, c, b) == Cell(2, map["dur" := Acc(UINT, 2, 2, 1, 1),
      "size" := Updated(n.fp, Started(Encode(n, v).Tag(), Encode(n, v).Word()), Encode(n, w).Tag(), Encode(n, w).Word())]);
    assert AddTo(n.fp, map[SAMPLE_FULL_KEY := c], b) == map[SAMPLE_FULL_KEY := CellAfter(n.fp, c, b)];
  }

  lemma SampleKey(n: Native, v: Any)
    ensures RefKeyOf(Sample(MT_VALUE, v)) == SAMPLE_KEY && KeyOf(Encoded(n, Sample(MT_VALUE, v))) == SAMPLE_FULL_KEY
    ensures SameKey(n, SAMPLE_KEY, SAMPLE_KEY)
  {
    EncodedKeyOf(n, Sample(MT_VALUE, v));
    assert RefKeyOf(Sample(MT_VALUE, v)).keys == {};
    assert EncodeKey(n, SAMPLE_KEY).keys == {};
  }

  lemma OneFold(n: Native, c: Cell, v: Any)
    requires v.IsNumber() && Encode(n, v).IsNumber()
    ensures CellAfter(n.fp, c, Encoded(n, Sample(MT_VALUE, v))) ==
      Cell(c.count + 1, FoldNumber(n.fp, FoldNumber(n.fp, c.values, "dur", UINT, 1), "size", Encode(n, v).Tag(), Encode(n, v).Word()))
  {
    var f := LoggedField("size", MT_VALUE, v);
    OneField(n, FoldNumber(n.fp, c.values, "dur", UINT, 1), map[], f);
    assert EncodeFields(n, Sample(MT_VALUE, v).fields) == [EncodeField(n, f)];
  }

  lemma OneField(n: Native, m: map<string, Acc>, vs: map<string, Kept>, f: LoggedField)
    ensures FoldFields(n.fp, m, [EncodeField(n, f)]) == FoldField(n.fp, m, EncodeField(n, f))
    ensures KeptAfterFields(n, vs, [f]) == if Inserts(f) then UpdatedValues(n, vs, f.key, KeptOf(f.value)) else vs
  {
    var fs, gs := [f], [EncodeField(n, f)];
    assert fs[..|fs| - 1] == [] && gs[..|gs| - 1] == [];
  }

  lemma TwoSamplesKept(n: Native, v: Any, w: Any)
    requires v.IsNumber() && w.IsNumber()
    ensures InsertEvent(n, InsertEvent(n, [], Sample(MT_VALUE, v)), Sample(MT_VALUE, w)) ==
      [Entry(SAMPLE_KEY, map["dur" := Number(UnsignedLongLong, 2, 2, 1, 1), "size" := Merged(n, KeptOf(v), KeptOf(w))])]
  {
    FirstKept(n, v);
    var k := map["dur" := Number(UnsignedLongLong, 1, 1, 1, 1), "size" := KeptOf(v)];
    SecondKept(n, k, w);
    assert KeptAfter(n, k, Sample(MT_VALUE, w)) ==
      map["dur" := Number(UnsignedLongLong, 2, 2, 1, 1), "size" := Merged(n, KeptOf(v), KeptOf(w))] by {
      OneKept(n, k, w);
    }
  }

  lemma FirstKept(n: Native, v: Any)
    requires v.IsNumber()
    ensures InsertEvent(n, [], Sample(MT_VALUE, v)) ==
      [Entry(SAMPLE_KEY, map["dur" := Number(UnsignedLongLong, 1, 1, 1, 1), "size" := KeptOf(v)])]
  {
    SampleKey(n, v);
    EventIntoOne(n, [], Sample(MT_VALUE, v));
    OneKept(n, map[], v);
  }

  lemma SecondKept(n: Native, k: map<string, Kept>, w: Any)
    requires w.IsNumber()
    ensures InsertEvent(n, [Entry(SAMPLE_KEY, k)], Sample(MT_VALUE, w)) == [Entry(SAMPLE_KEY, KeptAfter(n, k, Sample(MT_VALUE, w)))]
  {
    SampleKey(n, w);
    var es := [Entry(SAMPLE_KEY, k)];
    assert Found(n, es, SAMPLE_KEY, 0) == 0;
    EventIntoOne(n, es, Sample(MT_VALUE, w));
  }

  lemma OneKept(n: Native, vs: map<string, Kept>, v: Any)
    requires v.IsNumber()
    ensures KeptAfter(n, vs, Sample(MT_VALUE, v)) ==
      UpdatedValues(n, UpdatedValues(n, vs, "dur", Number(UnsignedLongLong, 1, 1, 1, 1)), "size", KeptOf(v))
  {
    var f := LoggedField("size", MT_VALUE, v);
    OneField(n, map[], UpdatedValues(n, vs, "dur", Number(UnsignedLongLong, 1, 1, 1, 1)), f);
    assert Sample(MT_VALUE, v).fields == [f];
  }

  /** A second number of another type, or with an inexact sum: what both hold then, and that they disagree. */
  lemma SecondUnfit(n: Native, v: Any, w: Any)
    requires Widens(n) && v.IsNumber() && w.IsNumber() && Encode(n, v).IsNumber() && Encode(n, w).IsNumber()
    requires v.Type() != w.Type() || !Exact(n, v.Type(), v.Word(), w.Word())
    ensures LeavesSizes(n, v, w,
      Updated(n.fp, Started(Encode(n, v).Tag(), Encode(n, v).Word()), Encode(n, w).Tag(), Encode(n, w).Word()),
      Merged(n, KeptOf(v), KeptOf(w)))
    ensures !AgreeThroughout(n, 1, [Log(Sample(MT_VALUE, v)), Log(Sample(MT_VALUE, w))])
  {
    TwoSamples(n, v, w);
    SecondDoesNotFit(n, v, w);
  }

  lemma SecondDoesNotFit(n: Native, v: Any, w: Any)
    requires Widens(n) && v.IsNumber() && w.IsNumber()
    requires v.Type() != w.Type() || !Exact(n, v.Type(), v.Word(), w.Word())
    ensures !AgreeThroughout(n, 1, [Log(Sample(MT_VALUE, v)), Log(Sample(MT_VALUE, w))])
  {
    var a, b := Sample(MT_VALUE, v), Sample(MT_VALUE, w);
    var ops := [Log(a), Log(b)];
    RunsAgree(n, 1, ops);
    SecondFitsAt(n, 1, a, b);
    SampleKey(n, w);
    FirstKept(n, v);
    var k := map["dur" := Number(UnsignedLongLong, 1, 1, 1, 1), "size" := KeptOf(v)];
    assert Found(n, [Entry(SAMPLE_KEY, k)], SAMPLE_KEY, 0) == 0;
    assert KeptFor(n, [Entry(SAMPLE_KEY, k)], SAMPLE_KEY) == k;
    assert b.fields[0] in b.fields && !FieldFits(n, k, b.fields[0]);
    assert !FitsAt(n, 1, ops, 1);
  }

  /** Logged as signed and then as unsigned: one aggregator converts the second number, the other drops it. */
  lemma MixedTypesDisagree(n: Native)
    requires Widens(n)
    ensures LeavesSizes(n, LongOf(5), UlongOf(7), Acc(INT, 2, 12, 5, 7), Number(SignedLong, 1, 5, 5, 5))
    ensures !AgreeThroughout(n, 1, [Log(Sample(MT_VALUE, LongOf(5))), Log(Sample(MT_VALUE, UlongOf(7)))])
  {
    assert Updated(n.fp, Started(INT, 5), UINT, 7) == Acc(INT, 2, 12, 5, 7);
    SecondUnfit(n, LongOf(5), UlongOf(7));
  }

  /** Logged as int and then as a 64-bit integer: both are encoded alike, and still the reference drops the second. */
  lemma MixedWidthsDisagree(n: Native)
    requires Widens(n)
    ensures LeavesSizes(n, IntOf(5), LongOf(7), Acc(INT, 2, 12, 5, 7), Number(SignedInt, 1, 5, 5, 5))
    ensures !AgreeThroughout(n, 1, [Log(Sample(MT_VALUE, IntOf(5))), Log(Sample(MT_VALUE, LongOf(7)))])
  {
    assert Updated(n.fp, Started(INT, 5), INT, 7) == Acc(INT, 2, 12, 5, 7);
    SecondUnfit(n, IntOf(5), LongOf(7));
  }

  /** One type throughout, but a narrow one: the reference's sum overflows at 32 bits, the packed one does not. */
  lemma NarrowSumsDisagree(n: Native)
    requires Widens(n)
    ensures var v := UintOf(3000000000);
      && LeavesSizes(n, v, v, Acc(UINT, 2, 6000000000, 3000000000, 3000000000),
                     Number(UnsignedInt, 2, 1705032704, 3000000000, 3000000000))
      && !AgreeThroughout(n, 1, [Log(Sample(MT_VALUE, v)), Log(Sample(MT_VALUE, v))])
  {
    var v := UintOf(3000000000);
    assert Merged(n, KeptOf(v), KeptOf(v)) == Number(UnsignedInt, 2, 1705032704, 3000000000, 3000000000);
    assert Updated(n.fp, Started(UINT, 3000000000), UINT, 3000000000) == Acc(UINT, 2, 6000000000, 3000000000, 3000000000);
    SecondUnfit(n, v, v);
  }

  /** The same text at two addresses under a key: two buckets in the reference, one packed. */
  lemma TwoAddressesDisagree(n: Native, text: string)
    requires Widens(n)
    ensures var a, b := Sample(MT_KEY, CString(1, text)), Sample(MT_KEY, CString(2, text));
      && Encoded(n, a) == Encoded(n, b)
      && |InsertEvent(n, InsertEvent(n, [], a), b)| == 2
      && !AgreeThroughout(n, 1, [Log(a), Log(b)])
  {
    var a, b := Sample(MT_KEY, CString(1, text)), Sample(MT_KEY, CString(2, text));
    AddressesApart(n, text);
    EventIntoOne(n, [], a);
    var es := InsertEvent(n, [], a);
    assert es == [Entry(RefKeyOf(a), KeptAfter(n, map[], a))];
    EventIntoOne(n, es, b);
    RunsAgree(n, 1, [Log(a), Log(b)]);
    SecondFitsAt(n, 1, a, b);
    assert !FitsAt(n, 1, [Log(a), Log(b)], 1);
  }

  lemma AddressesApart(n: Native, text: string)
    ensures var a, b := Sample(MT_KEY, CString(1, text)), Sample(MT_KEY, CString(2, text));
      && Encoded(n, a) == Encoded(n, b) && EncodeKey(n, RefKeyOf(a)) == EncodeKey(n, RefKeyOf(b))
      && !SameKey(n, RefKeyOf(a), RefKeyOf(b)) && !InsertsAny(a) && !InsertsAny(b)
  {
    var a, b := Sample(MT_KEY, CString(1, text)), Sample(MT_KEY, CString(2, text));
    var ka, kb := RefKeyOf(a), RefKeyOf(b);
    assert ka.keys == {("size", CString(1, text))} && kb.keys == {("size", CString(2, text))};
    assert EncodeFields(n, a.fields) == EncodeFields(n, b.fields);
    assert !HasField(n, ka.keys, ("size", CString(2, text)));
    EncodedKeyOf(n, a);
    EncodedKeyOf(n, b);
  }
}
