/**
 * When the two aggregators agree: the reference takes an event as it was logged, the packed one takes it encoded, and
 * they agree exactly while each event meets the bucket of its own encoded key and each number meets its own C++ type.
 */
module Agreement {
  import opened Events
  import opened Interning
  import opened MetadataValues
  import opened Rollup
  import opened Aggregators
  import Summaries

  // ----- Keys -----

  /** The bucket identity that a reference key has once it is encoded. */
  function EncodeKey(n: Native, k: RefKey): FullKey {
    FullKey(k.category, k.name, k.typ, k.threadId, set f | f in k.keys :: (f.0, Encode(n, f.1)))
  }

  lemma EncodedKeyOf(n: Native, e: Logged)
    ensures EncodeKey(n, RefKeyOf(e)) == KeyOf(Encoded(n, e))
  {
    EncodedIn(n, e.fields);
    var a, b := EncodeKey(n, RefKeyOf(e)).keys, KeyFields(EncodeFields(n, e.fields));
    forall x | x in a ensures x in b {
      var f :| f in e.fields && f.mtype == MT_KEY && (f.key, Encode(n, f.value)) == x;
      assert EncodeField(n, f) in EncodeFields(n, e.fields);
    }
    forall x | x in b ensures x in a {
      var g :| g in EncodeFields(n, e.fields) && g.mtype == MT_KEY && (g.key, g.value) == x;
      var f :| f in e.fields && EncodeField(n, f) == g;
      assert (f.key, f.value) in RefKeyOf(e).keys;
    }
  }

  // ----- Buckets -----

  predicate SameStats(n: Native, name: string, a: Acc, v: Kept) {
    && v.Number? && a.tag == TagOf(v.ctype) && (name == "dur" ==> v.ctype == UnsignedLongLong)
    && v.count == a.count && InType(v.ctype, v.sum)
    && Widened(n, v.ctype, v.sum) == a.sum && Widened(n, v.ctype, v.min) == a.min && Widened(n, v.ctype, v.max) == a.max
  }

  ghost predicate MirrorsAt(n: Native, m: map<string, Acc>, vs: map<string, Kept>, name: string) {
    && (name in m <==> name in vs && vs[name].Number?)
    && (name in m ==> SameStats(n, name, m[name], vs[name]))
  }

  /** The numbers agree name by name; the reference may also keep counts of strings, which no row shows. */
  ghost predicate ValuesMirror(n: Native, m: map<string, Acc>, vs: map<string, Kept>) {
    forall name: string :: MirrorsAt(n, m, vs, name)
  }

  /** The row's event count is the reference's count of durations. */
  ghost predicate CellMirrors(n: Native, c: Cell, vs: map<string, Kept>) {
    ValuesMirror(n, c.values, vs) && "dur" in c.values && c.values["dur"].count == c.count
  }

  ghost predicate EntryMirrors(n: Native, b: Buckets, es: seq<Entry>, i: nat) {
    i < |es| && EncodeKey(n, es[i].key) in b && CellMirrors(n, b[EncodeKey(n, es[i].key)], es[i].values)
  }

  function Keys(n: Native, es: seq<Entry>): (ks: seq<FullKey>)
    ensures |ks| == |es| && forall i :: 0 <= i < |es| ==> ks[i] == EncodeKey(n, es[i].key)
  {
    if es == [] then [] else Keys(n, es[..|es| - 1]) + [EncodeKey(n, es[|es| - 1].key)]
  }

  /** The same partition into buckets, and the same statistics in each. */
  ghost predicate Mirrors(n: Native, b: Buckets, es: seq<Entry>) {
    && Distinct(Keys(n, es))
    && (forall i :: 0 <= i < |es| ==> EntryMirrors(n, b, es, i))
    && (forall k :: k in b ==> k in Keys(n, es))
  }

  ghost predicate Agree(n: Native, s: State, r: RefState) {
    && s.last == r.last && s.first == r.first && s.store.Keys == r.data.Keys
    && forall t :: t in s.store ==> Mirrors(n, s.store[t], r.data[t])
  }

  // ----- What an event must meet -----

  /** What the reference already keeps in the bucket it finds for the event. */
  function KeptFor(n: Native, es: seq<Entry>, key: RefKey): map<string, Kept> {
    var at := Found(n, es, key, 0);
    if at == |es| then map[] else es[at].values
  }

  predicate InsertsAny(e: Logged) { exists f :: f in e.fields && Inserts(f) }

  /**
   * The bucket found is the one of the event's encoded key; when none is found there is none, and the new one can be
   * found again if anything besides the duration goes into it.
   */
  predicate KeyFits(n: Native, es: seq<Entry>, e: Logged) {
    var key := RefKeyOf(e);
    var at := Found(n, es, key, 0);
    if at < |es| then EncodeKey(n, es[at].key) == EncodeKey(n, key)
    else
      && (forall i :: 0 <= i < |es| ==> EncodeKey(n, es[i].key) != EncodeKey(n, key))
      && (SameKey(n, key, key) || !InsertsAny(e))
  }

  predicate Sums(f: LoggedField) { f.mtype == MT_VALUE && f.value.IsNumber() }

  /** A number fits when its name is free, or already keeps its very C++ type and the sum is exact; "dur" is taken. */
  predicate FieldFits(n: Native, vs: map<string, Kept>, f: LoggedField) {
    Sums(f) ==>
      f.key != "dur" &&
      (f.key in vs ==> vs[f.key].Number? && vs[f.key].ctype == f.value.Type()
                       && Exact(n, f.value.Type(), vs[f.key].sum, f.value.Word()))
  }

  predicate Fits(n: Native, vs: map<string, Kept>, e: Logged) {
    forall f :: f in e.fields ==> FieldFits(n, vs, f)
  }

  // ----- One bucket -----

  function KeptAfterFields(n: Native, vs: map<string, Kept>, fields: seq<LoggedField>): map<string, Kept> {
    if fields == [] then vs else
    var before, f := KeptAfterFields(n, vs, fields[..|fields| - 1]), fields[|fields| - 1];
    if Inserts(f) then UpdatedValues(n, before, f.key, KeptOf(f.value)) else before
  }

  function KeptAfter(n: Native, vs: map<string, Kept>, e: Logged): map<string, Kept> {
    KeptAfterFields(n, UpdatedValues(n, vs, "dur", DurationOf(e)), e.fields)
  }

  lemma {:induction false} KeptMissing(n: Native, vs: map<string, Kept>, fields: seq<LoggedField>, name: string)
    requires forall f :: f in fields && Inserts(f) ==> f.key != name
    ensures name in KeptAfterFields(n, vs, fields) <==> name in vs
    ensures name in vs ==> KeptAfterFields(n, vs, fields)[name] == vs[name]
  {
    if fields != [] {
      var front, f := fields[..|fields| - 1], fields[|fields| - 1];
      assert forall g :: g in front ==> g in fields;
      KeptMissing(n, vs, front, name);
      assert f in fields;
    }
  }

  lemma {:induction false} KeptOnce(n: Native, vs: map<string, Kept>, fields: seq<LoggedField>, f: LoggedField)
    requires forall i, j :: 0 <= i < j < |fields| ==> fields[i].key != fields[j].key
    requires f in fields && Inserts(f)
    ensures f.key in KeptAfterFields(n, vs, fields)
    ensures KeptAfterFields(n, vs, fields)[f.key] == UpdatedValues(n, vs, f.key, KeptOf(f.value))[f.key]
  {
    var front, last := fields[..|fields| - 1], fields[|fields| - 1];
    assert fields == front + [last];
    if f == last {
      KeptMissing(n, vs, front, f.key);
    } else {
      KeptOnce(n, vs, front, f);
    }
  }

  lemma KeptAt(n: Native, vs: map<string, Kept>, fields: seq<LoggedField>, name: string)
    requires forall i, j :: 0 <= i < j < |fields| ==> fields[i].key != fields[j].key
    ensures forall f :: f in fields && Inserts(f) && f.key == name ==>
              name in KeptAfterFields(n, vs, fields)
              && KeptAfterFields(n, vs, fields)[name] == UpdatedValues(n, vs, name, KeptOf(f.value))[name]
    ensures (forall f :: f in fields && Inserts(f) ==> f.key != name) ==>
              (name in KeptAfterFields(n, vs, fields) <==> name in vs)
              && (name in vs ==> KeptAfterFields(n, vs, fields)[name] == vs[name])
  {
    if f :| f in fields && Inserts(f) && f.key == name {
      forall g | g in fields && Inserts(g) && g.key == name
        ensures name in KeptAfterFields(n, vs, fields)
        ensures KeptAfterFields(n, vs, fields)[name] == UpdatedValues(n, vs, name, KeptOf(g.value))[name]
      {
        KeptOnce(n, vs, fields, g);
      }
    } else {
      KeptMissing(n, vs, fields, name);
    }
  }

  /** The packed side's addition and order under a tag. */
  function SumAt(fp: Floats, tag: ValueTag, x: int, y: int): int {
    match tag
    case INT => WrapS(x + y)
    case UINT => WrapU(x + y)
    case _ => fp.add(x, y)
  }

  predicate LessAt(fp: Floats, tag: ValueTag, x: int, y: int) {
    if tag == DOUBLE then fp.less(x, y) else x < y
  }

  lemma UpdatedAlike(fp: Floats, a: Acc, w: int)
    requires a.tag == INT || a.tag == UINT || a.tag == DOUBLE
    ensures Updated(fp, a, a.tag, w) ==
      Acc(a.tag, a.count + 1, SumAt(fp, a.tag, a.sum, w),
          if LessAt(fp, a.tag, w, a.min) then w else a.min, if LessAt(fp, a.tag, a.max, w) then w else a.max)
  {}

  lemma KeptMerged(n: Native, v: Kept, x: Any)
    requires v.Number? && x.IsNumber() && x.Type() == v.ctype
    ensures var w := x.Word();
      Merged(n, v, KeptOf(x)) == Number(v.ctype, v.count + 1, SumIn(n, v.ctype, v.sum, w),
        if LessIn(n, v.ctype, w, v.min) then w else v.min, if LessIn(n, v.ctype, v.max, w) then w else v.max)
  {}

  /** The same number into both accumulators of one type: the statistics stay equal exactly when the sum is exact. */
  lemma StatsAgree(n: Native, name: string, a: Acc, v: Kept, x: Any)
    requires Widens(n) && SameStats(n, name, a, v) && x.IsNumber() && x.Type() == v.ctype
    ensures SameStats(n, name, Updated(n.fp, a, Encode(n, x).Tag(), Encode(n, x).Word()), Merged(n, v, KeptOf(x)))
      <==> Exact(n, v.ctype, v.sum, x.Word())
  {
    EncodeNumber(n, x);
    SumsAgree(n, v.ctype, v.sum, x.Word());
    SumInType(n, v.ctype, v.sum, x.Word());
    LessAgrees(n, v.ctype, x.Word(), v.min);
    LessAgrees(n, v.ctype, v.max, x.Word());
    KeptMerged(n, v, x);
    UpdatedAlike(n.fp, a, Encode(n, x).Word());
  }

  lemma LessAgrees(n: Native, t: CType, x: int, y: int)
    requires Widens(n) && IsSummed(t)
    ensures LessIn(n, t, x, y) == LessAt(n.fp, TagOf(t), Widened(n, t, x), Widened(n, t, y))
  {}

  /** Summing at the type's own width and at 64 bits give the same exactly when the sum is exact. */
  lemma SumsAgree(n: Native, t: CType, x: int, y: int)
    requires InType(t, x) && InType(t, y) && IsSummed(t)
    ensures Widened(n, t, SumIn(n, t, x, y)) == SumAt(n.fp, TagOf(t), Widened(n, t, x), Widened(n, t, y)) <==> Exact(n, t, x, y)
  {}

  lemma SumInType(n: Native, t: CType, x: int, y: int)
    requires InType(t, x) && InType(t, y) && IsSummed(t)
    ensures InType(t, SumIn(n, t, x, y))
  {}

  predicate IsSummed(t: CType) {
    t != ConstCharPointer && t != CharPointer && t != StdString && t != OtherType
  }

  /** One number under one name: the statistics stay equal exactly when it fits. */
  lemma NumberAgrees(n: Native, m: map<string, Acc>, vs: map<string, Kept>, f: LoggedField)
    requires Widens(n) && MirrorsAt(n, m, vs, f.key) && Sums(f) && f.key != "dur"
    ensures MirrorsAt(n, FoldField(n.fp, m, EncodeField(n, f)), UpdatedValues(n, vs, f.key, KeptOf(f.value)), f.key)
      <==> FieldFits(n, vs, f)
  {
    EncodeNumber(n, f.value);
    if f.key in m && vs[f.key].ctype == f.value.Type() {
      StatsAgree(n, f.key, m[f.key], vs[f.key], f.value);
    }
  }

  lemma DurationAgrees(n: Native, m: map<string, Acc>, vs: map<string, Kept>, e: Logged)
    requires ValuesMirror(n, m, vs) && ("dur" in vs ==> "dur" in m)
    ensures ValuesMirror(n, FoldNumber(n.fp, m, "dur", UINT, e.duration), UpdatedValues(n, vs, "dur", DurationOf(e)))
  {
    var m', vs' := FoldNumber(n.fp, m, "dur", UINT, e.duration), UpdatedValues(n, vs, "dur", DurationOf(e));
    forall name: string ensures MirrorsAt(n, m', vs', name) {
      assert MirrorsAt(n, m, vs, name);
    }
  }

  /** The packed fold over the encoded fields, read off the logged ones. */
  lemma FoldEncodedAt(n: Native, m: map<string, Acc>, e: Logged, name: string)
    requires DistinctLogged(e)
    ensures var folded := FoldFields(n.fp, m, EncodeFields(n, e.fields));
      && (forall f :: f in e.fields && Sums(f) && f.key == name ==>
            name in folded && folded[name] == FoldField(n.fp, m, EncodeField(n, f))[name])
      && ((forall f :: f in e.fields && Sums(f) ==> f.key != name) ==>
            (name in folded <==> name in m) && (name in m ==> folded[name] == m[name]))
  {
    var fields := EncodeFields(n, e.fields);
    EncodedIn(n, e.fields);
    Summaries.FoldFieldsAt(n.fp, m, fields, name);
    forall f | f in e.fields ensures Folds(EncodeField(n, f)) <==> Sums(f) {
      EncodeNumber(n, f.value);
    }
    if forall f :: f in e.fields && Sums(f) ==> f.key != name {
      forall g | g in fields && Folds(g) ensures g.key != name {
        var f :| f in e.fields && EncodeField(n, f) == g;
      }
    }
  }

  /** Fields are logged under distinct names, so each meets what was kept under its name before the event. */
  lemma FieldsAgree(n: Native, m: map<string, Acc>, vs: map<string, Kept>, e: Logged, name: string)
    requires Widens(n) && DistinctLogged(e) && MirrorsAt(n, m, vs, name)
    ensures var folded, kept := FoldFields(n.fp, m, EncodeFields(n, e.fields)), KeptAfterFields(n, vs, e.fields);
      && (forall f :: f in e.fields && Sums(f) && f.key == name && name != "dur" ==>
            (MirrorsAt(n, folded, kept, name) <==> FieldFits(n, vs, f)))
      && ((forall f :: f in e.fields && Sums(f) ==> f.key != name) ==> MirrorsAt(n, folded, kept, name))
  {
    FoldEncodedAt(n, m, e, name);
    KeptAt(n, vs, e.fields, name);
    var folded, kept := FoldFields(n.fp, m, EncodeFields(n, e.fields)), KeptAfterFields(n, vs, e.fields);
    forall f | f in e.fields && Sums(f) && f.key == name && name != "dur"
      ensures MirrorsAt(n, folded, kept, name) <==> FieldFits(n, vs, f)
    {
      NumberAgrees(n, m, vs, f);
    }
    if forall f :: f in e.fields && Sums(f) ==> f.key != name {
      TextLeavesNumbers(n, m, vs, e, name);
    }
  }

  lemma TextLeavesNumbers(n: Native, m: map<string, Acc>, vs: map<string, Kept>, e: Logged, name: string)
    requires DistinctLogged(e) && MirrorsAt(n, m, vs, name)
    requires forall f :: f in e.fields && Sums(f) ==> f.key != name
    ensures MirrorsAt(n, FoldFields(n.fp, m, EncodeFields(n, e.fields)), KeptAfterFields(n, vs, e.fields), name)
  {
    FoldEncodedAt(n, m, e, name);
    KeptAt(n, vs, e.fields, name);
    if f :| f in e.fields && Inserts(f) && f.key == name {
      assert f.value.IsText();
    }
  }

  ghost predicate Ready(n: Native, c: Cell, vs: map<string, Kept>) {
    CellMirrors(n, c, vs) || (c == EMPTY_CELL && vs == map[])
  }

  lemma ReadyMirrors(n: Native, c: Cell, vs: map<string, Kept>)
    requires Ready(n, c, vs)
    ensures ValuesMirror(n, c.values, vs) && ("dur" in vs ==> "dur" in c.values)
    ensures (if "dur" in c.values then c.values["dur"].count else 0) == c.count
  {
    assert MirrorsAt(n, c.values, vs, "dur");
  }

  /** One event: its bucket stays equal exactly when every number of the event fits. */
  lemma CellAgrees(n: Native, c: Cell, vs: map<string, Kept>, e: Logged)
    requires Widens(n) && DistinctLogged(e) && Ready(n, c, vs)
    ensures CellMirrors(n, CellAfter(n.fp, c, Encoded(n, e)), KeptAfter(n, vs, e)) <==> Fits(n, vs, e)
  {
    ReadyMirrors(n, c, vs);
    DurationAgrees(n, c.values, vs, e);
    var m, vs0 := FoldNumber(n.fp, c.values, "dur", UINT, e.duration), UpdatedValues(n, vs, "dur", DurationOf(e));
    assert m["dur"].count == c.count + 1;
    if Fits(n, vs, e) {
      FittingCell(n, m, vs, vs0, e);
    } else {
      var f :| f in e.fields && !FieldFits(n, vs, f);
      if f.key == "dur" {
        FoldEncodedAt(n, m, e, "dur");
        EncodeNumber(n, f.value);
      } else {
        UnfitField(n, m, vs0, e, f);
        assert !MirrorsAt(n, CellAfter(n.fp, c, Encoded(n, e)).values, KeptAfter(n, vs, e), f.key);
      }
    }
  }

  lemma UnfitField(n: Native, m: map<string, Acc>, vs: map<string, Kept>, e: Logged, f: LoggedField)
    requires Widens(n) && DistinctLogged(e) && ValuesMirror(n, m, vs) && f in e.fields && f.key != "dur" && !FieldFits(n, vs, f)
    ensures !MirrorsAt(n, FoldFields(n.fp, m, EncodeFields(n, e.fields)), KeptAfterFields(n, vs, e.fields), f.key)
  {
    assert MirrorsAt(n, m, vs, f.key);
    FieldsAgree(n, m, vs, e, f.key);
  }

  lemma FittingCell(n: Native, m: map<string, Acc>, vs: map<string, Kept>, vs0: map<string, Kept>, e: Logged)
    requires Widens(n) && DistinctLogged(e) && ValuesMirror(n, m, vs0) && Fits(n, vs, e)
    requires forall name :: name != "dur" ==> (name in vs <==> name in vs0) && (name in vs ==> vs[name] == vs0[name])
    ensures var folded := FoldFields(n.fp, m, EncodeFields(n, e.fields));
      && ValuesMirror(n, folded, KeptAfterFields(n, vs0, e.fields))
      && ("dur" in folded <==> "dur" in m) && ("dur" in m ==> folded["dur"] == m["dur"])
  {
    var folded, kept := FoldFields(n.fp, m, EncodeFields(n, e.fields)), KeptAfterFields(n, vs0, e.fields);
    forall name: string ensures MirrorsAt(n, folded, kept, name) {
      assert MirrorsAt(n, m, vs0, name);
      FieldsAgree(n, m, vs0, e, name);
      if f :| f in e.fields && Sums(f) && f.key == name {
        assert FieldFits(n, vs, f) && FieldFits(n, vs0, f);
      }
    }
    FoldEncodedAt(n, m, e, "dur");
    forall f | f in e.fields && Sums(f) ensures f.key != "dur" {
      assert FieldFits(n, vs, f);
    }
  }

  /** Whatever else an event brings, its duration raises the reference's count of durations. */
  lemma DurationCounted(n: Native, vs: map<string, Kept>, e: Logged)
    requires DistinctLogged(e) && "dur" in vs && vs["dur"].Number? && vs["dur"].ctype == UnsignedLongLong
    ensures var kept := KeptAfter(n, vs, e);
      "dur" in kept && kept["dur"].Number? && kept["dur"].count > vs["dur"].count
  {
    KeptAt(n, UpdatedValues(n, vs, "dur", DurationOf(e)), e.fields, "dur");
    if f :| f in e.fields && Inserts(f) && f.key == "dur" {
      assert KeptAfter(n, vs, e)["dur"] == UpdatedValues(n, UpdatedValues(n, vs, "dur", DurationOf(e)), "dur", KeptOf(f.value))["dur"];
    }
  }

  // ----- Entries -----

  lemma {:induction false} FoundByKeys(n: Native, es: seq<Entry>, es': seq<Entry>, key: RefKey, i: nat)
    requires i <= |es| && |es| == |es'| && forall j :: 0 <= j < |es| ==> es[j].key == es'[j].key
    ensures Found(n, es, key, i) == Found(n, es', key, i)
    decreases |es| - i
  {
    if i < |es| {
      FoundByKeys(n, es, es', key, i + 1);
    }
  }

  lemma {:induction false} FoundSkips(n: Native, es: seq<Entry>, key: RefKey, i: nat, at: nat)
    requires i <= at < |es| && SameKey(n, es[at].key, key)
    requires forall j :: i <= j < at ==> !SameKey(n, es[j].key, key)
    ensures Found(n, es, key, i) == at
    decreases at - i
  {
    if i < at {
      FoundSkips(n, es, key, i + 1, at);
    }
  }

  lemma {:induction false} FieldsIntoFound(n: Native, es: seq<Entry>, key: RefKey, fields: seq<LoggedField>)
    requires Found(n, es, key, 0) < |es|
    ensures var at := Found(n, es, key, 0);
            InsertFields(n, es, key, fields)
            == es[at := es[at].(values := KeptAfterFields(n, es[at].values, fields))]
  {
    var at := Found(n, es, key, 0);
    if fields != [] {
      FieldsIntoFound(n, es, key, fields[..|fields| - 1]);
      FoundByKeys(n, es, InsertFields(n, es, key, fields[..|fields| - 1]), key, 0);
    }
  }

  lemma {:induction false} NothingInserted(n: Native, es: seq<Entry>, key: RefKey, vs: map<string, Kept>, fields: seq<LoggedField>)
    requires forall f :: f in fields ==> !Inserts(f)
    ensures InsertFields(n, es, key, fields) == es && KeptAfterFields(n, vs, fields) == vs
  {
    if fields != [] {
      assert fields[|fields| - 1] in fields;
      NothingInserted(n, es, key, vs, fields[..|fields| - 1]);
    }
  }

  /** An event whose bucket exists, can be found again, or takes nothing but the duration, goes into one entry. */
  lemma EventIntoOne(n: Native, es: seq<Entry>, e: Logged)
    requires var key := RefKeyOf(e); Found(n, es, key, 0) < |es| || SameKey(n, key, key) || !InsertsAny(e)
    ensures var key := RefKeyOf(e);
      var at, kept := Found(n, es, key, 0), KeptAfter(n, KeptFor(n, es, key), e);
      InsertEvent(n, es, e) == if at == |es| then es + [Entry(key, kept)] else es[at := es[at].(values := kept)]
  {
    var key := RefKeyOf(e);
    var at, first := Found(n, es, key, 0), InsertValue(n, es, key, "dur", DurationOf(e));
    if at < |es| {
      FoundByKeys(n, es, first, key, 0);
      FieldsIntoFound(n, first, key, e.fields);
    } else if SameKey(n, key, key) {
      FoundSkips(n, first, key, 0, at);
      FieldsIntoFound(n, first, key, e.fields);
    } else {
      NothingInserted(n, first, key, first[at].values, e.fields);
    }
  }

  /** Inserting changes no key; what cannot be found is appended. */
  lemma {:induction false} InsertsAppend(n: Native, es: seq<Entry>, key: RefKey, fields: seq<LoggedField>)
    ensures var es' := InsertFields(n, es, key, fields);
      && |es'| >= |es| && (forall i :: 0 <= i < |es| ==> es'[i].key == es[i].key)
      && (forall i :: |es| <= i < |es'| ==> es'[i].key == key)
      && (Found(n, es, key, 0) == |es| && !SameKey(n, key, key) && (exists f :: f in fields && Inserts(f)) ==> |es'| > |es|)
  {
    if fields != [] {
      var front, f := fields[..|fields| - 1], fields[|fields| - 1];
      InsertsAppend(n, es, key, front);
      assert fields == front + [f];
      var before := InsertFields(n, es, key, front);
      if Found(n, es, key, 0) == |es| && !SameKey(n, key, key) && Inserts(f) {
        StillUnfound(n, es, before, key);
      }
    }
  }

  lemma StillUnfound(n: Native, es: seq<Entry>, es': seq<Entry>, key: RefKey)
    requires Found(n, es, key, 0) == |es| <= |es'| && !SameKey(n, key, key)
    requires forall i :: 0 <= i < |es| ==> es'[i].key == es[i].key
    requires forall i :: |es| <= i < |es'| ==> es'[i].key == key
    ensures Found(n, es', key, 0) == |es'|
  {
    var at := Found(n, es', key, 0);
    assert forall j :: 0 <= j < |es| ==> !SameKey(n, es[j].key, key);
  }

  // ----- One interval -----

  /** One event: the intervals stay equal exactly when the event meets its own bucket and every number fits there. */
  lemma IntervalAgrees(n: Native, b: Buckets, es: seq<Entry>, e: Logged)
    requires Widens(n) && Mirrors(n, b, es) && DistinctLogged(e)
    ensures Mirrors(n, AddTo(n.fp, b, Encoded(n, e)), InsertEvent(n, es, e))
      <==> KeyFits(n, es, e) && Fits(n, KeptFor(n, es, RefKeyOf(e)), e)
  {
    EncodedKeyOf(n, e);
    if KeyFits(n, es, e) {
      OwnBucket(n, b, es, e);
    } else if Found(n, es, RefKeyOf(e), 0) < |es| {
      WrongBucket(n, b, es, e);
    } else {
      RepeatedKey(n, es, e);
    }
  }

  lemma OwnBucket(n: Native, b: Buckets, es: seq<Entry>, e: Logged)
    requires Widens(n) && Mirrors(n, b, es) && DistinctLogged(e) && KeyFits(n, es, e)
    ensures Mirrors(n, AddTo(n.fp, b, Encoded(n, e)), InsertEvent(n, es, e)) <==> Fits(n, KeptFor(n, es, RefKeyOf(e)), e)
  {
    var key := RefKeyOf(e);
    var full := EncodeKey(n, key);
    EncodedKeyOf(n, e);
    EventIntoOne(n, es, e);
    var at, vs := Found(n, es, key, 0), KeptFor(n, es, key);
    KeyPlace(n, b, es, full, at);
    CellAgrees(n, CellIn(b, full), vs, e);
    if at == |es| {
      EntryAdded(n, b, es, key, CellAfter(n.fp, CellIn(b, full), Encoded(n, e)), KeptAfter(n, vs, e));
    } else {
      EntryChanged(n, b, es, at, CellAfter(n.fp, CellIn(b, full), Encoded(n, e)), KeptAfter(n, vs, e));
    }
  }

  /** Counted in another bucket, the event raises a count there that the packed side does not. */
  lemma WrongBucket(n: Native, b: Buckets, es: seq<Entry>, e: Logged)
    requires Mirrors(n, b, es) && DistinctLogged(e)
    requires var at := Found(n, es, RefKeyOf(e), 0); at < |es| && EncodeKey(n, es[at].key) != EncodeKey(n, RefKeyOf(e))
    ensures !Mirrors(n, AddTo(n.fp, b, Encoded(n, e)), InsertEvent(n, es, e))
  {
    var key := RefKeyOf(e);
    var at := Found(n, es, key, 0);
    var met := EncodeKey(n, es[at].key);
    EncodedKeyOf(n, e);
    EventIntoOne(n, es, e);
    assert EntryMirrors(n, b, es, at);
    MirroredDuration(n, b, es, at);
    DurationCounted(n, es[at].values, e);
    var b', es' := AddTo(n.fp, b, Encoded(n, e)), InsertEvent(n, es, e);
    assert b'[met] == b[met] && es'[at].key == es[at].key;
    MirroredDuration(n, b', es', at);
    assert !EntryMirrors(n, b', es', at);
  }

  lemma MirroredDuration(n: Native, b: Buckets, es: seq<Entry>, i: nat)
    ensures EntryMirrors(n, b, es, i) ==>
      var vs := es[i].values;
      "dur" in vs && vs["dur"].Number? && vs["dur"].ctype == UnsignedLongLong
      && vs["dur"].count == b[EncodeKey(n, es[i].key)].count
  {
    if EntryMirrors(n, b, es, i) {
      assert MirrorsAt(n, b[EncodeKey(n, es[i].key)].values, es[i].values, "dur");
    }
  }

  /** A second entry of one encoded key is one the packed side does not have. */
  lemma RepeatedKey(n: Native, es: seq<Entry>, e: Logged)
    requires !KeyFits(n, es, e) && Found(n, es, RefKeyOf(e), 0) == |es|
    ensures !Distinct(Keys(n, InsertEvent(n, es, e)))
  {
    var key := RefKeyOf(e);
    var first, es' := InsertValue(n, es, key, "dur", DurationOf(e)), InsertEvent(n, es, e);
    InsertsAppend(n, first, key, e.fields);
    assert es'[|es|].key == key;
    var i, j: nat := |es|, |es| + 1;
    if k :| 0 <= k < |es| && EncodeKey(n, es[k].key) == EncodeKey(n, key) {
      j := k;
      assert es'[k].key == first[k].key == es[k].key;
    } else {
      StillUnfound(n, es, first, key);
      assert |es'| > |first|;
    }
    if Distinct(Keys(n, es')) {
      SamePlace(Keys(n, es'), i, j);
    }
  }

  lemma KeyPlace(n: Native, b: Buckets, es: seq<Entry>, full: FullKey, at: nat)
    requires Mirrors(n, b, es) && at <= |es|
    requires if at < |es| then EncodeKey(n, es[at].key) == full else forall j :: 0 <= j < |es| ==> EncodeKey(n, es[j].key) != full
    ensures full in b <==> at < |es|
    ensures Ready(n, CellIn(b, full), if at < |es| then es[at].values else map[])
  {
    assert full in b ==> full in Keys(n, es);
    if at < |es| {
      assert EntryMirrors(n, b, es, at);
    }
  }

  lemma EntryAdded(n: Native, b: Buckets, es: seq<Entry>, key: RefKey, c: Cell, vs: map<string, Kept>)
    requires Mirrors(n, b, es) && EncodeKey(n, key) !in b
    ensures Mirrors(n, b[EncodeKey(n, key) := c], es + [Entry(key, vs)]) <==> CellMirrors(n, c, vs)
  {
    var full := EncodeKey(n, key);
    var b', es' := b[full := c], es + [Entry(key, vs)];
    forall i | 0 <= i < |es| ensures EncodeKey(n, es[i].key) != full { assert EntryMirrors(n, b, es, i); }
    assert Keys(n, es') == Keys(n, es) + [full] by { assert es'[..|es|] == es; }
    DistinctPush(Keys(n, es), full);
    if CellMirrors(n, c, vs) {
      forall i | 0 <= i < |es'| ensures EntryMirrors(n, b', es', i) {
        assert i < |es| ==> EntryMirrors(n, b, es, i);
      }
      forall k | k in b' ensures k in Keys(n, es') {
        assert k != full ==> k in Keys(n, es);
      }
    }
    if Mirrors(n, b', es') {
      assert EntryMirrors(n, b', es', |es|);
    }
  }

  lemma EntryChanged(n: Native, b: Buckets, es: seq<Entry>, at: nat, c: Cell, vs: map<string, Kept>)
    requires Mirrors(n, b, es) && at < |es|
    ensures Mirrors(n, b[EncodeKey(n, es[at].key) := c], es[at := es[at].(values := vs)]) <==> CellMirrors(n, c, vs)
  {
    var full := EncodeKey(n, es[at].key);
    var b', es' := b[full := c], es[at := es[at].(values := vs)];
    assert Keys(n, es') == Keys(n, es);
    assert EntryMirrors(n, b, es, at);
    if CellMirrors(n, c, vs) {
      forall i | 0 <= i < |es'| ensures EntryMirrors(n, b', es', i) {
        assert EntryMirrors(n, b, es, i);
        SamePlace(Keys(n, es), i, at);
      }
      forall k | k in b' ensures k in Keys(n, es') {
        assert k in b;
      }
    }
    if Mirrors(n, b', es') {
      assert EntryMirrors(n, b', es', at);
    }
  }
}
