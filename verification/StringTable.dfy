/** The string interner: every known string has one id, and a probe from its hash finds it. */
module Interning {
  import opened Bits
  import opened Wrappers

  /** What interning does to the id order: a known string changes nothing, a new one gets the next id. */
  function Interned(strings: seq<string>, s: string): seq<string> {
    if s in strings then strings else strings + [s]
  }

  /** Selection under a name, so that facts about pairs of places are used only where they are called for. */
  function Nth<T>(xs: seq<T>, i: nat): T
    requires i < |xs|
  {
    xs[i]
  }

  ghost predicate Distinct<T>(xs: seq<T>) {
    forall i, j {:trigger Nth(xs, i), Nth(xs, j)} :: 0 <= i < j < |xs| ==> Nth(xs, i) != Nth(xs, j)
  }

  lemma SamePlace<T>(xs: seq<T>, i: nat, j: nat)
    requires Distinct(xs) && i < |xs| && j < |xs|
    ensures xs[i] == xs[j] <==> i == j
  {
    assert Nth(xs, i) == xs[i] && Nth(xs, j) == xs[j];
  }

  lemma DistinctPush<T>(xs: seq<T>, x: T)
    requires Distinct(xs) && x !in xs
    ensures Distinct(xs + [x])
  {
    forall i, j | 0 <= i < j < |xs + [x]| ensures Nth(xs + [x], i) != Nth(xs + [x], j) {
      assert j < |xs| ==> Nth(xs, i) != Nth(xs, j);
    }
  }

  /** Slot `j` lies on the circular walk that starts at `from` and stops before `to`. */
  predicate OnWalk(from: nat, to: nat, j: nat) {
    if from <= to then from <= j < to else from <= j || j < to
  }

  lemma OneBeforeOther(from: nat, i: nat, p: nat)
    ensures i == p || OnWalk(from, p, i) || OnWalk(from, i, p)
  {}

  /** The next slot of a walk over `n` slots, as the code computes it: `(i + 1) & mask`. */
  function Next(i: nat, n: nat): nat
    requires n > 0
  {
    And(i + 1, n - 1)
  }

  lemma NextWraps(i: nat, n: nat)
    requires PowerOfTwo(n) && i < n
    ensures Next(i, n) == if i + 1 == n then 0 else i + 1
  {
    AndMask(i + 1, n);
    RemainderIs(i + 1, n, if i + 1 == n then 1 else 0, if i + 1 == n then 0 else i + 1);
  }

  lemma MaskInRange(h: nat, n: nat)
    requires PowerOfTwo(n)
    ensures And(h, n - 1) < n
  {
    AndMask(h, n);
  }

  /** Steps a walk takes from `i` to reach `e`. */
  function StepsTo(i: nat, e: nat, n: nat): nat
    requires i < n && e < n
  {
    if i <= e then e - i else e + n - i
  }

  /** A probe from `from` that has come to `i` has met no empty slot. */
  ghost predicate WalkFull(slots: seq<nat>, from: nat, i: nat) {
    forall j :: 0 <= j < |slots| && OnWalk(from, i, j) ==> slots[j] != 0
  }

  /** One probe step over a full slot: the walk stays full and comes closer to any empty slot `e`. */
  lemma ProbeStep(slots: seq<nat>, from: nat, i: nat, e: nat)
    requires PowerOfTwo(|slots|) && from < |slots| && i < |slots| && e < |slots|
    requires WalkFull(slots, from, i) && slots[i] != 0 && slots[e] == 0
    ensures Next(i, |slots|) < |slots| && WalkFull(slots, from, Next(i, |slots|))
    ensures StepsTo(Next(i, |slots|), e, |slots|) < StepsTo(i, e, |slots|)
    ensures forall j :: 0 <= j < |slots| ==> (OnWalk(from, Next(i, |slots|), j) <==> OnWalk(from, i, j) || j == i)
  {
    NextWraps(i, |slots|);
    assert !OnWalk(from, i, e);
  }

  /** Id `id` sits in slot `pos[id]`, and the probe from its hash meets no empty slot before it. */
  ghost predicate IdPlaced(hashes: seq<nat>, slots: seq<nat>, pos: seq<nat>, id: nat)
    requires slots != [] && |pos| == |hashes|
  {
    && id < |pos| && pos[id] < |slots| && slots[pos[id]] == id + 1
    && WalkFull(slots, And(hashes[id], |slots| - 1), pos[id])
  }

  /** Slot `j` is empty or holds an id whose place it is. */
  predicate SlotUsed(slots: seq<nat>, pos: seq<nat>, j: nat) {
    j < |slots| && (slots[j] == 0 || (slots[j] - 1 < |pos| && pos[slots[j] - 1] == j))
  }

  /** Slot `j` holds the id of `s`. */
  predicate SlotHolds(strings: seq<string>, slots: seq<nat>, j: nat, s: string) {
    j < |slots| && 0 < slots[j] <= |strings| && strings[slots[j] - 1] == s
  }

  /** Every id sits in exactly one slot of a power-of-two table. */
  ghost predicate Placed(hashes: seq<nat>, slots: seq<nat>, pos: seq<nat>) {
    && PowerOfTwo(|slots|) && |pos| == |hashes|
    && (forall id :: 0 <= id < |pos| ==> IdPlaced(hashes, slots, pos, id))
    && (forall j :: 0 <= j < |slots| ==> SlotUsed(slots, pos, j))
  }

  /** Storing the next id in the empty slot its probe found keeps every id placed. */
  lemma PlaceNext(hashes: seq<nat>, slots: seq<nat>, pos: seq<nat>, h: nat, i: nat)
    requires Placed(hashes, slots, pos)
    requires i < |slots| && slots[i] == 0 && WalkFull(slots, And(h, |slots| - 1), i)
    ensures Placed(hashes + [h], slots[i := |hashes| + 1], pos + [i])
  {
    var slots', pos' := slots[i := |hashes| + 1], pos + [i];
    forall id | 0 <= id < |pos'| ensures IdPlaced(hashes + [h], slots', pos', id) {
      assert id < |pos| ==> IdPlaced(hashes, slots, pos, id);
    }
    forall j | 0 <= j < |slots'| ensures SlotUsed(slots', pos', j) {
      assert SlotUsed(slots, pos, j);
    }
  }

  ghost predicate TableOk(hash: string -> nat, strings: seq<string>, hashes: seq<nat>, slots: seq<nat>, pos: seq<nat>) {
    && |hashes| == |strings|
    && (forall id :: 0 <= id < |strings| ==> hashes[id] == hash(strings[id]))
    && Distinct(strings)
    && (slots == [] ==> strings == [])
    && (slots != [] ==> Placed(hashes, slots, pos) && 2 * |strings| <= |slots|)
  }

  lemma AddNext(hash: string -> nat, strings: seq<string>, hashes: seq<nat>, slots: seq<nat>, pos: seq<nat>, s: string, i: nat,
                more: seq<nat>, posMore: seq<nat>)
    requires TableOk(hash, strings, hashes, slots, pos) && s !in strings
    requires slots != [] && 2 * (|strings| + 1) <= |slots|
    requires i < |slots| && slots[i] == 0 && WalkFull(slots, And(hash(s), |slots| - 1), i)
    requires more == slots[i := |strings| + 1] && posMore == pos + [i]
    ensures TableOk(hash, strings + [s], hashes + [hash(s)], more, posMore)
  {
    PlaceNext(hashes, slots, pos, hash(s), i);
    DistinctPush(strings, s);
  }

  /** Fewer ids than slots leave an empty slot, where every probe stops. */
  lemma SomeEmpty(hashes: seq<nat>, slots: seq<nat>, pos: seq<nat>) returns (e: nat)
    requires Placed(hashes, slots, pos) && |hashes| < |slots|
    ensures e < |slots| && slots[e] == 0
  {
    if e' :| 0 <= e' < |slots| && slots[e'] == 0 {
      e := e';
    } else {
      var all := Below(|slots|);
      assert all <= Image(pos) by {
        forall j | j in all ensures j in Image(pos) {
          assert SlotUsed(slots, pos, j);
          InImage(pos, slots[j] - 1);
        }
      }
      SubsetSize(all, Image(pos));
      assert false;
    }
  }

  ghost function Below(n: nat): (s: set<nat>)
    ensures |s| == n
    ensures forall j: nat :: j in s <==> j < n
  {
    if n == 0 then {} else Below(n - 1) + {n - 1}
  }

  ghost function Image(xs: seq<nat>): (s: set<nat>)
    ensures |s| <= |xs|
  {
    if xs == [] then {} else Image(xs[1..]) + {xs[0]}
  }

  lemma {:induction false} InImage(xs: seq<nat>, i: nat)
    requires i < |xs|
    ensures xs[i] in Image(xs)
  {
    if i > 0 {
      InImage(xs[1..], i - 1);
    }
  }

  lemma {:induction false} SubsetSize(a: set<nat>, b: set<nat>)
    requires a <= b
    ensures |a| <= |b|
  {
    if a != {} {
      var x :| x in a;
      SubsetSize(a - {x}, b - {x});
    }
  }

  class StringTable {
    var strings: seq<string>
    var hashes: seq<nat>      // what each string hashed to
    var slots: seq<nat>       // which id lives here, counted from one; zero in a free slot
    ghost var pos: seq<nat>   // where each id lives
    const hash: string -> nat

    ghost predicate Valid()
      reads this
    {
      Whole(TableOk(hash, strings, hashes, slots, pos))
    }

    constructor (hash: string -> nat)
      ensures Valid() && strings == [] && this.hash == hash
    {
      this.hash := hash;
      strings, hashes, slots, pos := [], [], [], [];
    }

    function At(id: nat): string
      requires id < |strings|
      reads this
    {
      strings[id]
    }

    method Intern(s: string) returns (id: nat)
      requires Valid()
      modifies this
      ensures Valid()
      ensures strings == Interned(old(strings), s)
      ensures id < |strings| && At(id) == s
    {
      if slots == [] || (|strings| + 1) * 2 > |slots| {
        Grow();
      }
      var i := Probe(s);
      assert SlotUsed(slots, pos, i);
      if slots[i] != 0 {
        id := slots[i] - 1;
        assert s in strings;
        return;
      }
      id := |strings|;
      var more := slots[i := id + 1];
      ghost var posMore := pos + [i];
      AddNext(hash, strings, hashes, slots, pos, s, i, more, posMore);
      strings, hashes, slots, pos := strings + [s], hashes + [hash(s)], more, posMore;
    }

    /** The probe loop: stops at the slot of `s`, or at the empty slot where an unknown `s` belongs. */
    method Probe(s: string) returns (i: nat)
      requires Valid() && slots != [] && |strings| < |slots|
      ensures i < |slots|
      ensures s in strings <==> slots[i] != 0
      ensures slots[i] != 0 ==> SlotHolds(strings, slots, i, s)
      ensures slots[i] == 0 ==> WalkFull(slots, And(hash(s), |slots| - 1), i)
    {
      var h := hash(s);
      var n: nat := |slots|;
      ghost var e := SomeEmpty(hashes, slots, pos);
      MaskInRange(h, n);
      var home := And(h, n - 1);
      i := home;
      while slots[i] != 0
        invariant i < n && WalkFull(slots, home, i)
        invariant forall j :: 0 <= j < n && OnWalk(home, i, j) ==> !SlotHolds(strings, slots, j, s)
        decreases StepsTo(i, e, n)
      {
        assert SlotUsed(slots, pos, i);
        if hashes[slots[i] - 1] == h && strings[slots[i] - 1] == s {
          return;
        }
        ProbeStep(slots, home, i, e);
        i := Next(i, n);
      }
      NotInterned(s, h, i);
    }

    /** A probe that reaches an empty slot without meeting `s` proves `s` unknown. */
    lemma NotInterned(s: string, h: nat, i: nat)
      requires Valid() && slots != [] && h == hash(s)
      requires i < |slots| && slots[i] == 0
      requires WalkFull(slots, And(h, |slots| - 1), i)
      requires forall j :: 0 <= j < |slots| && OnWalk(And(h, |slots| - 1), i, j) ==> !SlotHolds(strings, slots, j, s)
      ensures s !in strings
    {
      var mask := |slots| - 1;
      forall id | 0 <= id < |strings| ensures strings[id] != s {
        MaskInRange(hashes[id], |slots|);
        assert IdPlaced(hashes, slots, pos, id) && SlotHolds(strings, slots, pos[id], strings[id]);
        OneBeforeOther(And(hashes[id], mask), i, pos[id]);
      }
    }

    method Grow()
      requires Valid()
      modifies this
      ensures Valid()
      ensures strings == old(strings) && hashes == old(hashes)
      ensures |slots| == if old(slots) == [] then 64 else 2 * |old(slots)|
      ensures slots != [] && 2 * (|strings| + 1) <= |slots|
    {
      var n: nat := if slots == [] then 64 else |slots| * 2;
      assert PowerOfTwo(n) by {
        if slots == [] { assert PowerOfTwo(64); } else { assert n / 2 == |slots|; }
      }
      var table: seq<nat> := seq(n, _ => 0);
      ghost var at: seq<nat> := [];
      var id := 0;
      while id < |strings|
        invariant 0 <= id <= |strings| && |table| == n
        invariant Placed(hashes[..id], table, at)
        modifies {}
      {
        ghost var e := SomeEmpty(hashes[..id], table, at);
        MaskInRange(hashes[id], n);
        var home := And(hashes[id], n - 1);
        var i: nat := home;
        while table[i] != 0
          invariant i < n && WalkFull(table, home, i)
          decreases StepsTo(i, e, n)
          modifies {}
        {
          ProbeStep(table, home, i, e);
          i := Next(i, n);
        }
        PlaceNext(hashes[..id], table, at, hashes[id], i);
        assert hashes[..id + 1] == hashes[..id] + [hashes[id]];
        table := table[i := id + 1];
        at := at + [i];
        id := id + 1;
      }
      assert hashes[..id] == hashes;
      slots, pos := table, at;
    }
  }
}
