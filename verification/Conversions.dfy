/** What a key keeps of a number, type by type and spelled out: like types accumulate, unlike ones are converted first. */
module Conversions {
  import opened Events
  import opened Rollup
  import Conservation
  import Summaries

  /** A word read as a signed 64-bit integer, and as an unsigned one. */
  function AsSigned(u: Uint64): Int64 { if u < TWO63 then u else u - TWO64 }

  function AsUnsigned(i: Int64): Uint64 { if i < 0 then i + TWO64 else i }

  /** A signed 64-bit sum: in range, and off by a multiple of 2^64 at most. */
  predicate SignedSum(x: int, sum: int) { -TWO63 <= sum < TWO63 && (x - sum) % TWO64 == 0 }

  predicate UnsignedSum(x: int, sum: int) { 0 <= sum < TWO64 && (x - sum) % TWO64 == 0 }

  /** `b` is `a` after one more number that an INT key takes as `w`. */
  predicate IntTook(a: Acc, w: int, b: Acc) {
    && b.tag == INT && b.count == a.count + 1 && SignedSum(a.sum + w, b.sum)
    && b.min == (if w < a.min then w else a.min) && b.max == (if a.max < w then w else a.max)
  }

  predicate UintTook(a: Acc, w: int, b: Acc) {
    && b.tag == UINT && b.count == a.count + 1 && UnsignedSum(a.sum + w, b.sum)
    && b.min == (if w < a.min then w else a.min) && b.max == (if a.max < w then w else a.max)
  }

  predicate DoubleTook(fp: Floats, a: Acc, w: int, b: Acc) {
    && b.tag == DOUBLE && b.count == a.count + 1 && b.sum == fp.add(a.sum, w)
    && b.min == (if fp.less(w, a.min) then w else a.min) && b.max == (if fp.less(a.max, w) then w else a.max)
  }

  /** A double as an integer key takes it: the 64-bit word that the cast gives. */
  predicate CastSigned(fp: Floats, bits: int, w: int) { SignedSum(fp.toInt(bits), w) }

  predicate CastUnsigned(fp: Floats, bits: int, w: int) { UnsignedSum(fp.toUint(bits), w) }

  /** What becomes of the accumulator `a` of a key, by the key's type and the number's. */
  ghost predicate Took(fp: Floats, a: Acc, v: Value, b: Acc)
    requires v.IsNumber()
  {
    match (a.tag, v)
    case (INT, IntV(i)) => IntTook(a, i, b)
    case (INT, UintV(u)) => IntTook(a, AsSigned(u), b)
    case (INT, DoubleV(d)) => exists w :: CastSigned(fp, d, w) && IntTook(a, w, b)
    case (UINT, UintV(u)) => UintTook(a, u, b)
    case (UINT, IntV(i)) => UintTook(a, AsUnsigned(i), b)
    case (UINT, DoubleV(d)) => exists w :: CastUnsigned(fp, d, w) && UintTook(a, w, b)
    case (DOUBLE, DoubleV(d)) => DoubleTook(fp, a, d, b)
    case (DOUBLE, IntV(i)) => DoubleTook(fp, a, fp.ofInt(i), b)
    case (DOUBLE, UintV(u)) => DoubleTook(fp, a, fp.ofUint(u), b)
    case _ => true
  }

  /** A first number under a key fixes its type, and is sum, minimum and maximum. */
  predicate Began(v: Value, b: Acc) {
    match v
    case IntV(i) => b == Acc(INT, 1, i, i, i)
    case UintV(u) => b == Acc(UINT, 1, u, u, u)
    case DoubleV(d) => b == Acc(DOUBLE, 1, d, d, d)
    case _ => false
  }

  lemma WrapsSigned(x: int)
    ensures SignedSum(x, WrapS(x))
  {
    var q := (x + TWO63) / TWO64;
    assert x - WrapS(x) == q * TWO64;
  }

  lemma WrapsUnsigned(x: int)
    ensures UnsignedSum(x, WrapU(x))
  {
    var q := x / TWO64;
    assert x - WrapU(x) == q * TWO64;
  }

  lemma SignedRead(u: Uint64)
    ensures WrapS(u) == AsSigned(u)
  {}

  lemma UnsignedRead(i: Int64)
    ensures WrapU(i) == AsUnsigned(i)
  {}

  predicate NumberTag(t: ValueTag) { t == INT || t == UINT || t == DOUBLE }

  lemma IntTakes(fp: Floats, a: Acc, v: Value)
    requires a.tag == INT && v.IsNumber()
    ensures Took(fp, a, v, Updated(fp, a, v.Tag(), v.Word()))
  {
    match v
    case IntV(i) => WrapsSigned(a.sum + i);
    case UintV(u) =>
      SignedRead(u);
      WrapsSigned(a.sum + AsSigned(u));
    case DoubleV(d) =>
      var w := WrapS(fp.toInt(d));
      WrapsSigned(fp.toInt(d));
      WrapsSigned(a.sum + w);
      assert CastSigned(fp, d, w) && IntTook(a, w, Updated(fp, a, DOUBLE, d));
  }

  lemma UintTakes(fp: Floats, a: Acc, v: Value)
    requires a.tag == UINT && v.IsNumber()
    ensures Took(fp, a, v, Updated(fp, a, v.Tag(), v.Word()))
  {
    match v
    case UintV(u) => WrapsUnsigned(a.sum + u);
    case IntV(i) =>
      UnsignedRead(i);
      WrapsUnsigned(a.sum + AsUnsigned(i));
    case DoubleV(d) =>
      var w := WrapU(fp.toUint(d));
      WrapsUnsigned(fp.toUint(d));
      WrapsUnsigned(a.sum + w);
      assert CastUnsigned(fp, d, w) && UintTook(a, w, Updated(fp, a, DOUBLE, d));
  }

  lemma DoubleTakes(fp: Floats, a: Acc, v: Value)
    requires a.tag == DOUBLE && v.IsNumber()
    ensures Took(fp, a, v, Updated(fp, a, v.Tag(), v.Word()))
  {}

  /** Folding a number: a new key begins with it, a known one keeps its type and takes it, all others stay. */
  lemma NumberTaken(fp: Floats, m: map<string, Acc>, key: string, v: Value)
    requires v.IsNumber() && (key in m ==> NumberTag(m[key].tag))
    ensures var f := FoldNumber(fp, m, key, v.Tag(), v.Word());
      && f.Keys == m.Keys + {key} && (forall k :: k in m && k != key ==> f[k] == m[k])
      && (if key in m then Took(fp, m[key], v, f[key]) else Began(v, f[key]))
  {
    if key in m {
      var a := m[key];
      if a.tag == INT {
        IntTakes(fp, a, v);
      } else if a.tag == UINT {
        UintTakes(fp, a, v);
      } else {
        DoubleTakes(fp, a, v);
      }
    }
  }

  // ----- Events -----

  ghost predicate NumberTags(c: Cell) { forall k :: k in c.values ==> NumberTag(c.values[k].tag) }

  /** What an event does to a key: its field's number is taken, or begins the key. */
  ghost predicate KeyTook(fp: Floats, before: map<string, Acc>, key: string, v: Value, after: map<string, Acc>)
    requires v.IsNumber()
  {
    key in after && if key in before then Took(fp, before[key], v, after[key]) else Began(v, after[key])
  }

  /** The fields whose numbers are summed up. */
  predicate IsSummed(f: Field) { f.mtype == MT_VALUE && (f.value.IntV? || f.value.UintV? || f.value.DoubleV?) }

  predicate SameKept(before: map<string, Acc>, key: string, after: map<string, Acc>) {
    (key in before <==> key in after) && (key in before ==> before[key] == after[key])
  }

  /**
   * An event adds one to its bucket's count and takes its numbers there: under every key the field's, and under "dur" the
   * duration first.
   */
  lemma EventTaken(fp: Floats, b: Buckets, e: Event)
    requires DistinctFields(e) && NumberTags(CellIn(b, KeyOf(e)))
    ensures var c, c' := CellIn(b, KeyOf(e)), CellIn(AddTo(fp, b, e), KeyOf(e));
      && KeyOf(e) in AddTo(fp, b, e) && c'.count == c.count + 1 && NumberTags(c')
      && (forall f :: f in e.fields && IsSummed(f) && f.key != "dur" ==> KeyTook(fp, c.values, f.key, f.value, c'.values))
      && ((forall f :: f in e.fields && IsSummed(f) ==> f.key != "dur") ==>
            KeyTook(fp, c.values, "dur", UintV(e.duration), c'.values))
      && (forall f :: f in e.fields && IsSummed(f) && f.key == "dur" ==>
            exists mid :: KeyTook(fp, c.values, "dur", UintV(e.duration), mid) && KeyTook(fp, mid, "dur", f.value, c'.values))
    ensures forall k :: k != "dur" && (forall f :: f in e.fields && IsSummed(f) ==> f.key != k) ==>
      SameKept(CellIn(b, KeyOf(e)).values, k, CellIn(AddTo(fp, b, e), KeyOf(e)).values)
    ensures forall k :: k != KeyOf(e) ==> CellIn(AddTo(fp, b, e), k) == CellIn(b, k)
  {
    var c := CellIn(b, KeyOf(e));
    FieldsTaken(fp, c, e);
  }

  /** The same of the bucket alone. */
  lemma FieldsTaken(fp: Floats, c: Cell, e: Event)
    requires DistinctFields(e) && NumberTags(c)
    ensures var c' := CellAfter(fp, c, e);
      && c'.count == c.count + 1 && NumberTags(c')
      && (forall f :: f in e.fields && IsSummed(f) && f.key != "dur" ==> KeyTook(fp, c.values, f.key, f.value, c'.values))
      && ((forall f :: f in e.fields && IsSummed(f) ==> f.key != "dur") ==>
            KeyTook(fp, c.values, "dur", UintV(e.duration), c'.values))
      && (forall f :: f in e.fields && IsSummed(f) && f.key == "dur" ==>
            exists mid :: KeyTook(fp, c.values, "dur", UintV(e.duration), mid) && KeyTook(fp, mid, "dur", f.value, c'.values))
    ensures forall k :: k != "dur" && (forall f :: f in e.fields && IsSummed(f) ==> f.key != k) ==>
      SameKept(c.values, k, CellAfter(fp, c, e).values)
  {
    var mid := FoldNumber(fp, c.values, "dur", UINT, e.duration);
    NumberTaken(fp, c.values, "dur", UintV(e.duration));
    var after := FoldFields(fp, mid, e.fields);
    forall f | f in e.fields && IsSummed(f) ensures KeyTook(fp, mid, f.key, f.value, after) {
      Summaries.FoldFieldsAt(fp, mid, e.fields, f.key);
      NumberTaken(fp, mid, f.key, f.value);
    }
    Summaries.FoldFieldsAt(fp, mid, e.fields, "dur");
    forall k | k != "dur" && (forall f :: f in e.fields && IsSummed(f) ==> f.key != k) ensures SameKept(c.values, k, after) {
      Summaries.FoldFieldsAt(fp, mid, e.fields, k);
    }
    FieldsTagged(fp, mid, e.fields);
  }

  lemma {:induction false} FieldsTagged(fp: Floats, m: map<string, Acc>, fields: seq<Field>)
    requires forall k :: k in m ==> NumberTag(m[k].tag)
    ensures forall k :: k in FoldFields(fp, m, fields) ==> NumberTag(FoldFields(fp, m, fields)[k].tag)
  {
    if fields != [] {
      FieldsTagged(fp, m, fields[..|fields| - 1]);
    }
  }

  lemma {:induction false} CellTagged(fp: Floats, es: seq<Event>)
    ensures NumberTags(CellOf(fp, es))
  {
    if es != [] {
      var front, e := es[..|es| - 1], es[|es| - 1];
      CellTagged(fp, front);
      FieldsTagged(fp, FoldNumber(fp, CellOf(fp, front).values, "dur", UINT, e.duration), e.fields);
    }
  }

  /** In every reachable state the buckets keep numbers only, so the next event's numbers are taken as spelled out. */
  lemma RunTagged(fp: Floats, width: nat, ops: seq<Op>, t: nat, k: FullKey)
    requires width > 0
    ensures NumberTags(CellIn(Held(Run(fp, width, ops).store, t), k))
  {
    Conservation.HeldCell(fp, width, ops, t, k);
    CellTagged(fp, Select(Pending(width, ops, t), k));
  }
}
