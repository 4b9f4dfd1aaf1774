/** The interface generator's version algebra: contexts to ranges to guards. */
module Versions {
  import opened Wrappers

  /** One parse of a header: a library version and, for MPI, the implementation assumed. */
  datatype Context = Context(version: nat, impl: Option<string>)

  /** Half-open. */
  datatype Range = Range(start: int, end: int)

  function NextMinor(version: nat): nat {
    var major := version / 100000;
    var minor := (version % 100000) / 100;
    major * 100000 + (minor + 1) * 100
  }

  lemma QuotientIs(v: int, d: int, q: int, r: int)
    requires d > 0 && v == d * q + r && 0 <= r < d
    ensures v / d == q && v % d == r
  {
    var k := v / d - q;
    assert d * k == r - v % d;
    assert k >= 1 ==> d * k >= d;
    assert k <= -1 ==> d * k <= -d;
  }

  /** The next minor series starts right after the hundred the version lies in. */
  lemma NextMinorSplits(v: nat)
    ensures NextMinor(v) == (v / 100 + 1) * 100
  {
    var q, m, t := v / 100000, v % 100000 / 100, v % 100000 % 100;
    QuotientIs(v, 100, 1000 * q + m, t);
  }

  /** The next minor series starts at the least multiple of 100 above the version. */
  lemma NextMinorIsLeast(v: nat, m: nat)
    ensures NextMinor(v) % 100 == 0
    ensures m % 100 == 0 ==> (m > v <==> m >= NextMinor(v))
  {
    NextMinorSplits(v);
    QuotientIs(NextMinor(v), 100, v / 100 + 1, 0);
    if m % 100 == 0 {
      HundredsAbove(v, m / 100);
    }
  }

  lemma HundredsAbove(v: nat, k: nat)
    ensures 100 * k > v <==> 100 * k >= (v / 100 + 1) * 100
  {
    assert v == 100 * (v / 100) + v % 100;
  }

  /** Below the next minor series means within the version's own. */
  lemma SeriesIs(v: nat, w: int)
    ensures v <= w < NextMinor(v) <==> v <= w && w / 100 == v / 100
  {
    NextMinorSplits(v);
  }

  // ----- Merging -----

  ghost predicate Covers(rs: seq<Range>, v: int) {
    exists i :: 0 <= i < |rs| && rs[i].start <= v < rs[i].end
  }

  predicate Before(a: Range, b: Range) {
    a.start < b.start || (a.start == b.start && a.end <= b.end)
  }

  ghost predicate SortedRanges(rs: seq<Range>) {
    forall i, j :: 0 <= i < j < |rs| ==> Before(rs[i], rs[j])
  }

  function InsertRange(r: Range, rs: seq<Range>): seq<Range> {
    if rs == [] || Before(r, rs[0]) then [r] + rs else [rs[0]] + InsertRange(r, rs[1..])
  }

  /** The order of Python's `sorted` on pairs. */
  function Sorted(rs: seq<Range>): seq<Range> {
    if rs == [] then [] else InsertRange(rs[0], Sorted(rs[1..]))
  }

  lemma {:induction false} InsertRangeAdds(r: Range, rs: seq<Range>)
    ensures multiset(InsertRange(r, rs)) == multiset(rs) + multiset{r}
  {
    if rs != [] && !Before(r, rs[0]) {
      InsertRangeAdds(r, rs[1..]);
      assert rs == [rs[0]] + rs[1..];
    }
  }

  lemma {:induction false} InsertRangeSorts(r: Range, rs: seq<Range>)
    requires SortedRanges(rs)
    ensures SortedRanges(InsertRange(r, rs))
  {
    if rs != [] && !Before(r, rs[0]) {
      InsertRangeSorts(r, rs[1..]);
      var rest := InsertRange(r, rs[1..]);
      forall j | 0 <= j < |rest| ensures Before(rs[0], rest[j]) {
        InsertRangeAdds(r, rs[1..]);
        assert rest[j] in multiset(rest);
      }
    } else if rs != [] {
      forall j | 0 <= j < |rs| ensures Before(r, rs[j]) {}
    }
  }

  lemma {:induction false} SortedSorts(rs: seq<Range>)
    ensures SortedRanges(Sorted(rs)) && multiset(Sorted(rs)) == multiset(rs)
  {
    if rs != [] {
      SortedSorts(rs[1..]);
      InsertRangeSorts(rs[0], Sorted(rs[1..]));
      InsertRangeAdds(rs[0], Sorted(rs[1..]));
      assert rs == [rs[0]] + rs[1..];
    }
  }

  /** Non-empty ranges in ascending order with a gap between neighbours. */
  ghost predicate Canonical(rs: seq<Range>) {
    && (forall i :: 0 <= i < |rs| ==> rs[i].start < rs[i].end)
    && (forall i, j :: 0 <= i < j < |rs| ==> rs[i].end < rs[j].start)
  }

  ghost predicate SameUnion(rs: seq<Range>, ss: seq<Range>) {
    forall v :: Covers(rs, v) <==> Covers(ss, v)
  }

  lemma SameCover(rs: seq<Range>, ss: seq<Range>)
    requires multiset(rs) == multiset(ss)
    ensures SameUnion(rs, ss)
  {
    forall v ensures Covers(rs, v) <==> Covers(ss, v) {
      if i :| 0 <= i < |rs| && rs[i].start <= v < rs[i].end {
        assert rs[i] in multiset(ss);
        var j :| 0 <= j < |ss| && ss[j] == rs[i];
      }
      if i :| 0 <= i < |ss| && ss[i].start <= v < ss[i].end {
        assert ss[i] in multiset(rs);
        var j :| 0 <= j < |rs| && rs[j] == ss[i];
      }
    }
  }

  ghost predicate AllNonEmpty(rs: seq<Range>) {
    forall i :: 0 <= i < |rs| ==> rs[i].start < rs[i].end
  }

  ghost predicate MergeOf(merged: seq<Range>, rs: seq<Range>) {
    SameUnion(merged, rs) && Canonical(merged)
  }

  /** The union is kept exactly, and what comes out is canonical. */
  method MergeRanges(ranges: seq<Range>) returns (merged: seq<Range>)
    requires AllNonEmpty(ranges)
    ensures MergeOf(merged, ranges)
  {
    var ordered := Sorted(ranges);
    SortedSorts(ranges);
    SameCover(ranges, ordered);
    SameNonEmpty(ranges, ordered);
    if ordered == [] {
      return [];
    }
    merged := [ordered[0]];
    assert ordered[..1] == merged;
    for n := 1 to |ordered|
      invariant merged != [] && Canonical(merged)
      invariant merged[|merged| - 1].start <= ordered[n - 1].start
      invariant SameUnion(merged, ordered[..n])
    {
      assert Before(ordered[n - 1], ordered[n]);
      merged := MergeOne(ordered[..n], merged, ordered[n]);
      assert ordered[..n + 1] == ordered[..n] + [ordered[n]];
    }
    assert ordered[..|ordered|] == ordered;
  }

  lemma SameNonEmpty(rs: seq<Range>, ss: seq<Range>)
    requires AllNonEmpty(rs) && multiset(rs) == multiset(ss)
    ensures AllNonEmpty(ss)
  {
    forall i | 0 <= i < |ss| ensures ss[i].start < ss[i].end {
      assert ss[i] in multiset(rs);
    }
  }

  /** The loop body: the next range extends the last one, or starts a new one behind a gap. */
  method MergeOne(ghost before: seq<Range>, merged: seq<Range>, r: Range) returns (more: seq<Range>)
    requires merged != [] && Canonical(merged) && r.start < r.end && merged[|merged| - 1].start <= r.start
    requires SameUnion(merged, before)
    ensures more != [] && Canonical(more) && more[|more| - 1].start <= r.start
    ensures SameUnion(more, before + [r])
  {
    var n := |merged| - 1;
    var last := merged[n];
    if r.start <= last.end {
      more := merged[n := Range(last.start, if last.end >= r.end then last.end else r.end)];
    } else {
      more := merged + [r];
    }
    forall v ensures Covers(more, v) <==> Covers(before + [r], v) {
      CoversPush(before, r, v);
      if r.start <= last.end {
        CoversSplit(merged, v);
        CoversSplit(more, v);
        assert more[..n] == merged[..n];
      } else {
        CoversPush(merged, r, v);
      }
    }
  }

  lemma CoversPush(rs: seq<Range>, r: Range, v: int)
    ensures Covers(rs + [r], v) <==> Covers(rs, v) || r.start <= v < r.end
  {
    if i :| 0 <= i < |rs| && rs[i].start <= v < rs[i].end {
      assert (rs + [r])[i] == rs[i];
    }
    if r.start <= v < r.end {
      assert (rs + [r])[|rs|] == r;
    }
  }

  lemma CoversSplit(rs: seq<Range>, v: int)
    requires rs != []
    ensures Covers(rs, v) <==> Covers(rs[..|rs| - 1], v) || rs[|rs| - 1].start <= v < rs[|rs| - 1].end
  {
    CoversPush(rs[..|rs| - 1], rs[|rs| - 1], v);
    assert rs == rs[..|rs| - 1] + [rs[|rs| - 1]];
  }

  /** Two canonical lists that cover the same versions are the same list. */
  lemma {:induction false} CanonicalUnique(rs: seq<Range>, ss: seq<Range>)
    requires Canonical(rs) && Canonical(ss) && SameUnion(rs, ss)
    ensures rs == ss
  {
    if rs == [] || ss == [] {
      NoneCovered(rs, ss);
    } else {
      FirstSame(rs, ss);
      forall v ensures Covers(rs[1..], v) <==> Covers(ss[1..], v) {
        CoversTail(rs, v);
        CoversTail(ss, v);
      }
      CanonicalUnique(rs[1..], ss[1..]);
      assert rs == [rs[0]] + rs[1..] && ss == [ss[0]] + ss[1..];
    }
  }

  lemma NoneCovered(rs: seq<Range>, ss: seq<Range>)
    requires Canonical(rs) && Canonical(ss) && (rs == [] || ss == []) && SameUnion(rs, ss)
    ensures rs == ss
  {
    assert rs != [] ==> Covers(rs, rs[0].start);
    assert ss != [] ==> Covers(ss, ss[0].start);
  }

  lemma CoversTail(rs: seq<Range>, v: int)
    requires rs != [] && Canonical(rs)
    ensures Covers(rs[1..], v) <==> Covers(rs, v) && v >= rs[0].end
  {
    if i :| 0 <= i < |rs| && rs[i].start <= v < rs[i].end {
      assert i > 0 ==> rs[1..][i - 1] == rs[i];
    }
    if i :| 0 <= i < |rs[1..]| && rs[1..][i].start <= v < rs[1..][i].end {
      assert rs[i + 1] == rs[1..][i];
    }
  }

  /** The first range runs from the least covered version to the first gap. */
  lemma FirstSame(rs: seq<Range>, ss: seq<Range>)
    requires rs != [] && ss != [] && Canonical(rs) && Canonical(ss) && SameUnion(rs, ss)
    ensures rs[0] == ss[0]
  {
    FirstRange(rs);
    FirstRange(ss);
    var a, b := rs[0], ss[0];
    assert Covers(ss, a.start) && Covers(rs, b.start);
    assert !Covers(ss, a.end) && !Covers(rs, b.end);
  }

  lemma FirstRange(rs: seq<Range>)
    requires rs != [] && Canonical(rs)
    ensures forall v :: rs[0].start <= v < rs[0].end ==> Covers(rs, v)
    ensures forall v :: Covers(rs, v) ==> rs[0].start <= v && v != rs[0].end
  {}

  /** Merging depends on the union alone: order and repeats of the input make no difference, nor does merging twice. */
  lemma MergeIsCanonical(rs: seq<Range>, ss: seq<Range>, merged: seq<Range>, other: seq<Range>)
    requires MergeOf(merged, rs) && MergeOf(other, ss)
    ensures merged == other <==> SameUnion(rs, ss)
    ensures forall again :: MergeOf(again, merged) ==> again == merged
  {
    if SameUnion(rs, ss) {
      CanonicalUnique(merged, other);
    }
    forall again | MergeOf(again, merged) ensures again == merged {
      CanonicalUnique(again, merged);
    }
  }
}
