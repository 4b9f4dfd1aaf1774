/** The reference's values type by type: when two key values count as one, and what it keeps of two numbers. */
module NativeValues {
  import opened Events
  import opened MetadataValues
  import opened Rollup
  import opened Aggregators
  import opened Agreement
  import AgreementCases
  import Bits

  /** The same type and value: integers by value, C strings by address, texts by text, floating numbers by their `==`. */
  predicate OneValue(n: Native, a: Any, b: Any) {
    || (a.ShortOf? && b.ShortOf? && a.us == b.us)
    || (a.IntOf? && b.IntOf? && a.i == b.i)
    || (a.UintOf? && b.UintOf? && a.u == b.u)
    || (a.LongOf? && b.LongOf? && a.l == b.l)
    || (a.UlongOf? && b.UlongOf? && a.ul == b.ul)
    || (a.LongLongOf? && b.LongLongOf? && a.ll == b.ll)
    || (a.UlongLongOf? && b.UlongLongOf? && a.ull == b.ull)
    || (a.FloatOf? && b.FloatOf? && n.sameF(a.f, b.f))
    || (a.DoubleOf? && b.DoubleOf? && n.same(a.d, b.d))
    || (a.CString? && b.CString? && a.address == b.address)
    || (a.HashText? && b.HashText? && a.address == b.address)
    || (a.StringOf? && b.StringOf? && a.s == b.s)
  }

  /** The hashes stored with them: of what is printed of floating numbers, and of the text behind an address. */
  predicate OneHash(n: Native, a: Any, b: Any) {
    && (a.FloatOf? || a.DoubleOf? ==> n.hash(n.shown(a)) == n.hash(n.shown(b)))
    && (a.CString? && b.CString? ==> n.hash(a.text) == n.hash(b.text))
    && (a.HashText? && b.HashText? ==> n.hash(a.text) == n.hash(b.text))
  }

  /** Key values count as one exactly when they are of one type and value and their stored hashes agree. */
  lemma EqualIff(n: Native, a: Any, b: Any)
    ensures EqualKeyValues(n, a, b) <==> OneValue(n, a, b) && OneHash(n, a, b)
  {}

  /** No two types are one, whatever the hash. */
  lemma TypesApart(n: Native, a: Any, b: Any)
    requires a.Type() != b.Type()
    ensures !EqualKeyValues(n, a, b)
  {
    EqualIff(n, a, b);
  }

  /** The event with another value in one field. */
  function Retyped(e: Logged, j: nat, w: Any): Logged
    requires j < |e.fields|
  {
    e.(fields := e.fields[j := e.fields[j].(value := w)])
  }

  lemma RetypedKeys(n: Native, e: Logged, j: nat, w: Any)
    requires DistinctLogged(e) && j < |e.fields| && e.fields[j].mtype == MT_KEY && !EqualKeyValues(n, e.fields[j].value, w)
    ensures !SameKey(n, RefKeyOf(e), RefKeyOf(Retyped(e, j, w)))
  {
    var f, e' := e.fields[j], Retyped(e, j, w);
    var a, b := RefKeyOf(e).keys, RefKeyOf(e').keys;
    assert e'.fields[j] in e'.fields && (f.key, w) in b;
    forall g | g in a && g.0 == f.key ensures g.1 == f.value {
      var h :| h in e.fields && h.mtype == MT_KEY && (h.key, h.value) == g;
      var i :| 0 <= i < |e.fields| && e.fields[i] == h;
    }
    assert !HasField(n, a, (f.key, w));
  }

  /** An event after another like it, of which the reference finds no bucket, leaves a further one. */
  lemma SecondBucket(n: Native, a: Logged, b: Logged)
    requires !SameKey(n, RefKeyOf(a), RefKeyOf(b))
    ensures |InsertEvent(n, InsertEvent(n, [], a), b)| >= 2
    ensures (SameKey(n, RefKeyOf(a), RefKeyOf(a)) || !InsertsAny(a)) && (SameKey(n, RefKeyOf(b), RefKeyOf(b)) || !InsertsAny(b)) ==>
      |InsertEvent(n, InsertEvent(n, [], a), b)| == 2
  {
    var first := InsertValue(n, [], RefKeyOf(a), "dur", DurationOf(a));
    var es := InsertEvent(n, [], a);
    InsertsAppend(n, first, RefKeyOf(a), a.fields);
    OtherKeyUnfound(n, es, RefKeyOf(a), RefKeyOf(b));
    InsertsAppend(n, InsertValue(n, es, RefKeyOf(b), "dur", DurationOf(b)), RefKeyOf(b), b.fields);
    if SameKey(n, RefKeyOf(a), RefKeyOf(a)) || !InsertsAny(a) {
      EventIntoOne(n, [], a);
    }
    if SameKey(n, RefKeyOf(b), RefKeyOf(b)) || !InsertsAny(b) {
      EventIntoOne(n, es, b);
    }
  }

  lemma OtherKeyUnfound(n: Native, es: seq<Entry>, stored: RefKey, key: RefKey)
    requires (forall i :: 0 <= i < |es| ==> es[i].key == stored) && !SameKey(n, stored, key)
    ensures Found(n, es, key, 0) == |es|
  {}

  /**
   * Two events alike in all but the C++ type of one key value leave two buckets in the reference, whatever the hash: exactly
   * two when their keys equal themselves. Where the two values are encoded alike the packed form has one.
   */
  lemma TypesSplit(n: Native, e: Logged, j: nat, w: Any)
    requires DistinctLogged(e) && j < |e.fields| && e.fields[j].mtype == MT_KEY && e.fields[j].value.Type() != w.Type()
    ensures var e' := Retyped(e, j, w);
      var es := InsertEvent(n, InsertEvent(n, [], e), e');
      && |es| >= 2
      && ((forall f :: (f in e.fields || f in e'.fields) && f.mtype == MT_KEY ==> AgreementCases.SelfEqual(n, f.value)) ==> |es| == 2)
      && (Encode(n, w) == Encode(n, e.fields[j].value) ==>
            |AddTo(n.fp, AddTo(n.fp, map[], Encoded(n, e)), Encoded(n, e'))| == 1)
  {
    var e' := Retyped(e, j, w);
    TypesApart(n, e.fields[j].value, w);
    RetypedKeys(n, e, j, w);
    SecondBucket(n, e, e');
    assert DistinctLogged(e');
    AgreementCases.FindsOwnBucket(n, e);
    AgreementCases.FindsOwnBucket(n, e');
    if Encode(n, w) == Encode(n, e.fields[j].value) {
      assert EncodeFields(n, e'.fields) == EncodeFields(n, e.fields);
      assert AddTo(n.fp, AddTo(n.fp, map[], Encoded(n, e)), Encoded(n, e')).Keys == {KeyOf(Encoded(n, e))};
    }
  }

  lemma SampleRetyped(n: Native)
    ensures var a, b := AgreementCases.Sample(MT_KEY, IntOf(5)), AgreementCases.Sample(MT_KEY, LongOf(5));
      && Retyped(a, 0, LongOf(5)) == b && Encode(n, IntOf(5)) == Encode(n, LongOf(5))
      && a.fields == [LoggedField("size", MT_KEY, IntOf(5))] && b.fields == [LoggedField("size", MT_KEY, LongOf(5))]
  {}

  /** For one: a descriptor logged as `int` and as `long`, five both times. */
  lemma IntAndLongKeys(n: Native)
    ensures var a, b := AgreementCases.Sample(MT_KEY, IntOf(5)), AgreementCases.Sample(MT_KEY, LongOf(5));
      && |InsertEvent(n, InsertEvent(n, [], a), b)| == 2
      && |AddTo(n.fp, AddTo(n.fp, map[], Encoded(n, a)), Encoded(n, b))| == 1
  {
    var a := AgreementCases.Sample(MT_KEY, IntOf(5));
    SampleRetyped(n);
    TypesSplit(n, a, 0, LongOf(5));
  }

  // ----- Values -----

  /** What a value begins a key with: its own C++ type, and of a number itself as sum, minimum and maximum. */
  lemma KeptBegins(a: Any)
    requires a.IsNumber() || a.IsText()
    ensures match a
      case ShortOf(x) => KeptOf(a) == Number(UnsignedShort, 1, x, x, x)
      case IntOf(x) => KeptOf(a) == Number(SignedInt, 1, x, x, x)
      case UintOf(x) => KeptOf(a) == Number(UnsignedInt, 1, x, x, x)
      case LongOf(x) => KeptOf(a) == Number(SignedLong, 1, x, x, x)
      case UlongOf(x) => KeptOf(a) == Number(UnsignedLong, 1, x, x, x)
      case LongLongOf(x) => KeptOf(a) == Number(SignedLongLong, 1, x, x, x)
      case UlongLongOf(x) => KeptOf(a) == Number(UnsignedLongLong, 1, x, x, x)
      case FloatOf(x) => KeptOf(a) == Number(FloatType, 1, x, x, x)
      case DoubleOf(x) => KeptOf(a) == Number(DoubleType, 1, x, x, x)
      case CString(_, _) => KeptOf(a) == Texts(ConstCharPointer, 1)
      case HashText(_, _) => KeptOf(a) == Texts(CharPointer, 1)
      case StringOf(_) => KeptOf(a) == Texts(StdString, 1)
      case _ => false
  {}

  /** A sum in `size` values from `least` on: in range, and off by a multiple of the size. */
  predicate WrapsTo(x: int, least: int, size: nat, sum: int)
    requires size > 0
  {
    least <= sum < least + size && (x - sum) % size == 0
  }

  /** The sum of a number type, in its own width. */
  predicate SummedAs(n: Native, t: CType, x: int, y: int, sum: int) {
    match t
    case UnsignedShort => WrapsTo(x + y, 0, 0x1_0000, sum)
    case SignedInt => WrapsTo(x + y, -0x8000_0000, 0x1_0000_0000, sum)
    case UnsignedInt => WrapsTo(x + y, 0, 0x1_0000_0000, sum)
    case SignedLong => WrapsTo(x + y, -TWO63, TWO64, sum)
    case SignedLongLong => WrapsTo(x + y, -TWO63, TWO64, sum)
    case UnsignedLong => WrapsTo(x + y, 0, TWO64, sum)
    case UnsignedLongLong => WrapsTo(x + y, 0, TWO64, sum)
    case FloatType => sum == n.addF(x, y)
    case DoubleType => sum == n.fp.add(x, y)
    case _ => false
  }

  predicate Below(n: Native, t: CType, x: int, y: int) {
    if t == FloatType then n.lessF(x, y) else if t == DoubleType then n.fp.less(x, y) else x < y
  }

  /** One more number of the type a key keeps joins count, sum, minimum and maximum. */
  lemma SameTypeJoins(n: Native, v: Kept, x: Any)
    requires v.Number? && IsSummed(v.ctype) && x.IsNumber() && KeptOf(x).ctype == v.ctype
    ensures var w := Merged(n, v, KeptOf(x));
      && w.Number? && w.ctype == v.ctype && w.count == v.count + 1 && SummedAs(n, v.ctype, v.sum, KeptOf(x).sum, w.sum)
      && w.min == (if Below(n, v.ctype, KeptOf(x).min, v.min) then KeptOf(x).min else v.min)
      && w.max == (if Below(n, v.ctype, v.max, KeptOf(x).max) then KeptOf(x).max else v.max)
  {
    SumWraps(n, v.ctype, v.sum, KeptOf(x).sum);
  }

  lemma SumWraps(n: Native, t: CType, x: int, y: int)
    requires IsSummed(t)
    ensures SummedAs(n, t, x, y, SumIn(n, t, x, y))
  {
    WrapsBy(x + y, 0, 0x1_0000);
    WrapsBy(x + y, -0x8000_0000, 0x1_0000_0000);
    WrapsBy(x + y, 0, 0x1_0000_0000);
    WrapsBy(x + y, 0, TWO64);
    WrapsBy(x + y, -TWO63, TWO64);
  }

  lemma WrapsBy(x: int, least: int, size: nat)
    requires size > 0
    ensures WrapsTo(x, least, size, (x - least) % size + least)
  {
    var q := (x - least) / size;
    assert x - ((x - least) % size + least) == q * size;
    MultipleOf(q, size);
  }

  lemma MultipleOf(q: int, size: nat)
    requires size > 0
    ensures (q * size) % size == 0
  {
    Bits.RemainderIs(q * size, size, q, 0);
  }

  /** A text of the kind a key keeps is counted, and a value of any other type leaves the key as it is. */
  lemma OtherTypesDropped(n: Native, v: Kept, x: Any)
    requires x.IsNumber() || x.IsText()
    ensures KeptOf(x).ctype != v.ctype ==> Merged(n, v, KeptOf(x)) == v
    ensures v.Texts? && x.IsText() && KeptOf(x).ctype == v.ctype ==> Merged(n, v, KeptOf(x)) == Texts(v.ctype, v.count + 1)
  {}

  /**
   * What an event's field leaves in the bucket it goes into: numbers and texts logged as values begin their key or join it,
   * and nothing else is kept.
   */
  lemma FieldKept(n: Native, es: seq<Entry>, e: Logged, f: LoggedField)
    requires DistinctLogged(e) && f in e.fields && f.key != "dur"
    requires Found(n, es, RefKeyOf(e), 0) < |es| || SameKey(n, RefKeyOf(e), RefKeyOf(e))
    ensures var at, es' := Found(n, es, RefKeyOf(e), 0), InsertEvent(n, es, e);
      at < |es'| &&
      var before, after := if at < |es| then es[at].values else map[], es'[at].values;
      if f.mtype == MT_VALUE && (f.value.IsNumber() || f.value.IsText()) then
        && f.key in after
        && after[f.key] == (if f.key in before then Merged(n, before[f.key], KeptOf(f.value)) else KeptOf(f.value))
      else (f.key in after <==> f.key in before) && (f.key in before ==> after[f.key] == before[f.key])
  {
    EventIntoOne(n, es, e);
    var before := KeptFor(n, es, RefKeyOf(e));
    KeptAt(n, UpdatedValues(n, before, "dur", DurationOf(e)), e.fields, f.key);
    forall g | g in e.fields && g.key == f.key ensures g == f {
      AgreementCases.SameField(e, g, f);
    }
  }

  // ----- Encoding -----

  /** Texts of every kind are encoded as their text, JSON and lists as JSON, and what has no encoding as the empty text. */
  lemma EncodedTexts(n: Native, a: Any)
    ensures a.CString? || a.HashText? ==> Encode(n, a) == StringV(a.text)
    ensures a.StringOf? ==> Encode(n, a) == StringV(a.s)
    ensures a.RawJsonOf? || a.ListOf? ==> Encode(n, a) == RawJsonV(a.json)
    ensures a.OtherOf? ==> Encode(n, a) == StringV([])
    ensures Encode(n, a).RawJsonV? ==> a.RawJsonOf? || a.ListOf?
    ensures Encode(n, a).IsNumber() ==> a.IsNumber()
  {}
}
