/** What the accumulators of a bucket say about the numbers folded into it. */
module Summaries {
  import opened Events
  import opened Rollup

  /** A number as it is folded: under which key, of which type, with which word. */
  datatype Number = Number(key: string, tag: ValueTag, v: int)

  function FieldNumbers(fields: seq<Field>): seq<Number> {
    if fields == [] then [] else
    var f := fields[|fields| - 1];
    FieldNumbers(fields[..|fields| - 1]) + (if Folds(f) then [Number(f.key, f.value.Tag(), f.value.Word())] else [])
  }

  /** The numbers of a list of events in folding order: each event's duration first. */
  function Numbers(es: seq<Event>): seq<Number> {
    if es == [] then [] else
    var e := es[|es| - 1];
    Numbers(es[..|es| - 1]) + [Number("dur", UINT, e.duration)] + FieldNumbers(e.fields)
  }

  function Under(ns: seq<Number>, key: string): seq<Number> {
    if ns == [] then []
    else Under(ns[..|ns| - 1], key) + (if ns[|ns| - 1].key == key then [ns[|ns| - 1]] else [])
  }

  function Accumulated(fp: Floats, ns: seq<Number>): Acc
    requires ns != []
  {
    var n := ns[|ns| - 1];
    if |ns| == 1 then Started(n.tag, n.v) else Updated(fp, Accumulated(fp, ns[..|ns| - 1]), n.tag, n.v)
  }

  /** `m` holds, per key, what `ns` accumulates to. */
  ghost predicate Accumulates(fp: Floats, m: map<string, Acc>, ns: seq<Number>) {
    forall key ::
      && (key in m <==> Under(ns, key) != [])
      && (key in m ==> m[key] == Accumulated(fp, Under(ns, key)))
  }

  lemma NumberStep(fp: Floats, m: map<string, Acc>, ns: seq<Number>, n: Number)
    requires Accumulates(fp, m, ns)
    ensures Accumulates(fp, FoldNumber(fp, m, n.key, n.tag, n.v), ns + [n])
  {
    var m' := FoldNumber(fp, m, n.key, n.tag, n.v);
    assert (ns + [n])[..|ns|] == ns;
    forall key
      ensures key in m' <==> Under(ns + [n], key) != []
      ensures key in m' ==> m'[key] == Accumulated(fp, Under(ns + [n], key))
    {
      var before := Under(ns, key);
      if key == n.key {
        assert Under(ns + [n], key) == before + [n];
        assert (before + [n])[..|before|] == before;
      } else {
        assert Under(ns + [n], key) == before;
      }
    }
  }

  lemma {:induction false} FieldsStep(fp: Floats, m: map<string, Acc>, ns: seq<Number>, fields: seq<Field>)
    requires Accumulates(fp, m, ns)
    ensures Accumulates(fp, FoldFields(fp, m, fields), ns + FieldNumbers(fields))
  {
    if fields == [] {
      assert ns + [] == ns;
    } else {
      var front, f := fields[..|fields| - 1], fields[|fields| - 1];
      FieldsStep(fp, m, ns, front);
      if Folds(f) {
        var n := Number(f.key, f.value.Tag(), f.value.Word());
        NumberStep(fp, FoldFields(fp, m, front), ns + FieldNumbers(front), n);
        assert ns + FieldNumbers(front) + [n] == ns + FieldNumbers(fields);
      } else {
        assert FieldNumbers(fields) == FieldNumbers(front);
      }
    }
  }

  /** A bucket's values are its events' numbers, accumulated key by key. */
  lemma {:induction false} CellMeaning(fp: Floats, es: seq<Event>)
    ensures Accumulates(fp, CellOf(fp, es).values, Numbers(es))
  {
    if es != [] {
      var front, e := es[..|es| - 1], es[|es| - 1];
      CellMeaning(fp, front);
      var dur := Number("dur", UINT, e.duration);
      NumberStep(fp, CellOf(fp, front).values, Numbers(front), dur);
      FieldsStep(fp, FoldNumber(fp, CellOf(fp, front).values, "dur", UINT, e.duration), Numbers(front) + [dur], e.fields);
    }
  }

  // ----- One integer type: exact statistics -----

  predicate InRange(tag: ValueTag, v: int) {
    (tag == INT && -TWO63 <= v < TWO63) || (tag == UINT && 0 <= v < TWO64)
  }

  function SumOf(ns: seq<Number>): int {
    if ns == [] then 0 else SumOf(ns[..|ns| - 1]) + ns[|ns| - 1].v
  }

  ghost predicate OneType(tag: ValueTag, ns: seq<Number>) {
    forall n :: n in ns ==> n.tag == tag && InRange(tag, n.v)
  }

  /** Exact count and extremes, and the sum up to `wraps` overflows of 64 bits. */
  ghost predicate Summary(a: Acc, tag: ValueTag, ns: seq<Number>, wraps: int) {
    && a.tag == tag && a.count == |ns|
    && InRange(tag, a.sum) && a.sum + wraps * TWO64 == SumOf(ns)
    && (exists n :: n in ns && n.v == a.min)
    && (exists n :: n in ns && n.v == a.max)
    && forall n :: n in ns ==> a.min <= n.v <= a.max
  }

  lemma FirstSummary(fp: Floats, tag: ValueTag, n: Number)
    requires n.tag == tag && InRange(tag, n.v)
    ensures Summary(Accumulated(fp, [n]), tag, [n], 0)
  {
    assert [n][..0] == [] && n in [n];
  }

  lemma {:induction false} OneTypeSummary(fp: Floats, tag: ValueTag, ns: seq<Number>) returns (wraps: int)
    requires ns != [] && OneType(tag, ns)
    ensures Summary(Accumulated(fp, ns), tag, ns, wraps)
  {
    var front, n := ns[..|ns| - 1], ns[|ns| - 1];
    assert ns == front + [n];
    if front == [] {
      assert ns == [n];
      FirstSummary(fp, tag, n);
      return 0;
    }
    wraps := OneTypeSummary(fp, tag, front);
    wraps := UpdatedSummary(fp, tag, Accumulated(fp, front), front, n, wraps);
  }

  lemma UpdatedSummary(fp: Floats, tag: ValueTag, a: Acc, ns: seq<Number>, n: Number, wraps: int) returns (more: int)
    requires Summary(a, tag, ns, wraps) && n.tag == tag && InRange(tag, n.v)
    ensures Summary(Updated(fp, a, n.tag, n.v), tag, ns + [n], more)
  {
    var least :| least in ns && least.v == a.min;
    var most :| most in ns && most.v == a.max;
    assert (ns + [n])[..|ns|] == ns;
    assert least in ns + [n] && most in ns + [n] && n in ns + [n];
    var carry := UpdatedSum(fp, a, n);
    more := wraps + carry;
  }

  lemma UpdatedSum(fp: Floats, a: Acc, n: Number) returns (carry: int)
    requires (a.tag == INT || a.tag == UINT) && n.tag == a.tag && InRange(n.tag, n.v)
    ensures var b := Updated(fp, a, n.tag, n.v);
      && InRange(a.tag, b.sum) && b.sum + carry * TWO64 == a.sum + n.v
      && b.tag == a.tag && b.count == a.count + 1 && b.min == Min(a.min, n.v) && b.max == Max(a.max, n.v)
  {
    carry := if a.tag == INT then (a.sum + n.v + TWO63) / TWO64 else (a.sum + n.v) / TWO64;
  }

  /** Without overflow the sum is exact and lies between count times the extremes. */
  lemma NoOverflow(a: Acc, tag: ValueTag, ns: seq<Number>, wraps: int)
    requires Summary(a, tag, ns, wraps) && InRange(tag, SumOf(ns))
    ensures a.sum == SumOf(ns)
    ensures a.count * a.min <= a.sum <= a.count * a.max
  {
    SumBounds(ns, a.min, a.max);
  }

  lemma {:induction false} SumBounds(ns: seq<Number>, lo: int, hi: int)
    requires forall n :: n in ns ==> lo <= n.v <= hi
    ensures |ns| * lo <= SumOf(ns) <= |ns| * hi
  {
    if ns != [] {
      var front := ns[..|ns| - 1];
      SumBounds(front, lo, hi);
      assert |ns| * lo == |front| * lo + lo && |ns| * hi == |front| * hi + hi;
      assert ns[|ns| - 1] in ns;
    }
  }

  /** The order of the numbers does not matter: rearranged numbers have the same summary. */
  lemma OrderIrrelevant(fp: Floats, tag: ValueTag, ns: seq<Number>, ms: seq<Number>)
    requires ns != [] && OneType(tag, ns) && multiset(ns) == multiset(ms)
    ensures ms != [] && Accumulated(fp, ns) == Accumulated(fp, ms)
  {
    SameSum(ns, ms);
    assert |ns| == |multiset(ns)| == |multiset(ms)| == |ms|;
    assert forall n :: n in ms <==> n in ns by {
      assert forall n :: n in ms <==> n in multiset(ms);
      assert forall n :: n in ns <==> n in multiset(ns);
    }
    var v := OneTypeSummary(fp, tag, ns);
    var w := OneTypeSummary(fp, tag, ms);
    SummaryUnique(Accumulated(fp, ns), Accumulated(fp, ms), tag, ns, ms, v, w);
  }

  lemma SummaryUnique(a: Acc, b: Acc, tag: ValueTag, ns: seq<Number>, ms: seq<Number>, v: int, w: int)
    requires Summary(a, tag, ns, v) && Summary(b, tag, ms, w)
    requires |ns| == |ms| && SumOf(ns) == SumOf(ms) && forall n :: n in ns <==> n in ms
    ensures a == b
  {
    var least :| least in ns && least.v == a.min;
    var least' :| least' in ms && least'.v == b.min;
    var most :| most in ns && most.v == a.max;
    var most' :| most' in ms && most'.v == b.max;
  }

  lemma {:induction false} SameSum(ns: seq<Number>, ms: seq<Number>)
    requires multiset(ns) == multiset(ms)
    ensures SumOf(ns) == SumOf(ms)
  {
    if ns == [] {
      assert |multiset(ms)| == 0;
    } else {
      var k: nat := |ns| - 1;
      MultisetWithout(ns, k);
      assert ns[k] in multiset(ms);
      var i :| 0 <= i < |ms| && ms[i] == ns[k];
      MultisetWithout(ms, i);
      assert ns[..k] + ns[k + 1..] == ns[..k];
      SameSum(ns[..k], ms[..i] + ms[i + 1..]);
      SumTakeOut(ms, i);
    }
  }

  lemma MultisetWithout(ns: seq<Number>, i: nat)
    requires i < |ns|
    ensures multiset(ns[..i] + ns[i + 1..]) == multiset(ns) - multiset{ns[i]} && ns[i] in multiset(ns)
  {
    assert ns == ns[..i] + [ns[i]] + ns[i + 1..];
  }

  lemma {:induction false} SumTakeOut(ms: seq<Number>, i: nat)
    requires i < |ms|
    ensures SumOf(ms) == SumOf(ms[..i] + ms[i + 1..]) + ms[i].v
  {
    if i == |ms| - 1 {
      assert ms[..i] + ms[i + 1..] == ms[..|ms| - 1];
    } else {
      var front, rest := ms[..|ms| - 1], ms[..i] + ms[i + 1..];
      SumTakeOut(front, i);
      assert rest[..|rest| - 1] == front[..i] + front[i + 1..];
    }
  }

  /** A key folded once, of any type, has equal sum, minimum and maximum: writing one of them loses nothing. */
  lemma {:induction false} SingleValue(fp: Floats, ns: seq<Number>)
    requires ns != []
    ensures Accumulated(fp, ns).count == |ns|
    ensures |ns| == 1 ==> var a := Accumulated(fp, ns); a.sum == a.min == a.max == ns[0].v && a.tag == ns[0].tag
  {
    if |ns| > 1 {
      SingleValue(fp, ns[..|ns| - 1]);
    }
  }

  /**
   * In every reachable state, a bucket's accumulator for a key of one integer type holds the exact statistics of the
   * numbers its pending events logged under that key.
   */
  lemma HeldSummary(fp: Floats, width: nat, ops: seq<Op>, t: nat, k: FullKey, key: string, tag: ValueTag) returns (wraps: int)
    requires width > 0 && t in Run(fp, width, ops).store && k in Run(fp, width, ops).store[t]
    requires OneType(tag, Under(Numbers(Select(Pending(width, ops, t), k)), key))
    ensures var cell, ns := Run(fp, width, ops).store[t][k], Under(Numbers(Select(Pending(width, ops, t), k)), key);
            && (key in cell.values <==> ns != [])
            && (key in cell.values ==> Summary(cell.values[key], tag, ns, wraps))
  {
    RunMeaning(fp, width, ops);
    var es := Select(Pending(width, ops, t), k);
    CellMeaning(fp, es);
    wraps := 0;
    if Under(Numbers(es), key) != [] {
      wraps := OneTypeSummary(fp, tag, Under(Numbers(es), key));
    }
  }

  // ----- The listing order of an event's fields -----

  lemma {:induction false} FoldFieldsAt(fp: Floats, m: map<string, Acc>, fields: seq<Field>, key: string)
    requires forall i, j :: 0 <= i < j < |fields| ==> fields[i].key != fields[j].key
    ensures forall f :: f in fields && Folds(f) && f.key == key ==>
              key in FoldFields(fp, m, fields) && FoldFields(fp, m, fields)[key] == FoldField(fp, m, f)[key]
    ensures (forall f :: f in fields && Folds(f) ==> f.key != key) ==>
              (key in FoldFields(fp, m, fields) <==> key in m)
              && (key in m ==> FoldFields(fp, m, fields)[key] == m[key])
  {
    if fields != [] {
      var front, f := fields[..|fields| - 1], fields[|fields| - 1];
      FoldFieldsAt(fp, m, front, key);
      assert forall g :: g in fields <==> g in front || g == f by { assert fields == front + [f]; }
      if f.key == key {
        assert forall g :: g in front ==> g.key != key;
      }
    }
  }

  /** Two listings of the same fields give the same bucket key and fold to the same bucket. */
  lemma ListingIrrelevant(fp: Floats, b: Buckets, e: Event, e': Event)
    requires DistinctFields(e) && DistinctFields(e')
    requires e' == e.(fields := e'.fields) && forall f :: f in e.fields <==> f in e'.fields
    ensures KeyOf(e') == KeyOf(e) && AddTo(fp, b, e') == AddTo(fp, b, e)
  {
    assert KeyFields(e.fields) == KeyFields(e'.fields);
    var m := FoldNumber(fp, CellIn(b, KeyOf(e)).values, "dur", UINT, e.duration);
    var left, right := FoldFields(fp, m, e.fields), FoldFields(fp, m, e'.fields);
    forall key
      ensures key in left <==> key in right
      ensures key in left ==> left[key] == right[key]
    {
      FoldFieldsAt(fp, m, e.fields, key);
      FoldFieldsAt(fp, m, e'.fields, key);
      if f :| f in e.fields && Folds(f) && f.key == key {
        assert f in e'.fields;
      }
    }
    assert left == right;
  }
}
