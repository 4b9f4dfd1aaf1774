/** The interface generator: parse contexts, the methods found in each, and the preprocessor guards built from them. */
module Guards {
  import opened Wrappers
  import opened Versions

  /** What a guard is evaluated in: the version macro's value and the other macros that are defined. */
  datatype World = World(version: nat, defined: set<string>)

  /** A preprocessor condition; `Between` is the half-open test on the version macro. */
  datatype Guard =
    | Between(range: Range)
    | Defined(macro: string)
    | Both(left: Guard, right: Guard)
    | AnyOf(pieces: seq<Guard>)

  predicate Eval(g: Guard, w: World) {
    match g
    case Between(r) => w.version >= r.start && w.version < r.end
    case Defined(macro) => macro in w.defined
    case Both(a, b) => Eval(a, w) && Eval(b, w)
    case AnyOf(pieces) => exists i :: 0 <= i < |pieces| && Eval(pieces[i], w)
  }

  /** Code without a guard is always compiled. */
  predicate Shown(guard: Option<Guard>, w: World) {
    guard.None? || Eval(guard.value, w)
  }

  function Joined(pieces: seq<Guard>): Guard
    requires pieces != []
  {
    if |pieces| == 1 then pieces[0] else AnyOf(pieces)
  }

  lemma JoinedMeans(pieces: seq<Guard>, w: World)
    requires pieces != []
    ensures Eval(Joined(pieces), w) <==> exists i :: 0 <= i < |pieces| && Eval(pieces[i], w)
  {}

  // ----- Version conditions -----

  ghost predicate SameSeries(v: nat, w: nat) {
    v <= w && v / 100 == w / 100
  }

  ghost predicate Supported(versions: seq<nat>, w: nat) {
    exists i :: 0 <= i < |versions| && SameSeries(versions[i], w)
  }

  function InsertVersion(v: nat, vs: seq<nat>): seq<nat> {
    if vs == [] || v < vs[0] then [v] + vs
    else if v == vs[0] then vs
    else [vs[0]] + InsertVersion(v, vs[1..])
  }

  /** `sorted(set(versions))`. */
  function SortedSet(versions: seq<nat>): seq<nat> {
    if versions == [] then [] else InsertVersion(versions[0], SortedSet(versions[1..]))
  }

  lemma {:induction false} InsertVersionMember(v: nat, vs: seq<nat>, x: nat)
    ensures x in InsertVersion(v, vs) <==> x == v || x in vs
  {
    if vs != [] && v > vs[0] {
      InsertVersionMember(v, vs[1..], x);
      assert vs == [vs[0]] + vs[1..];
    }
  }

  lemma {:induction false} SortedSetMember(versions: seq<nat>, x: nat)
    ensures x in SortedSet(versions) <==> x in versions
  {
    if versions != [] {
      SortedSetMember(versions[1..], x);
      InsertVersionMember(versions[0], SortedSet(versions[1..]), x);
      assert versions == [versions[0]] + versions[1..];
    }
  }

  function SeriesRanges(vs: seq<nat>): seq<Range> {
    seq(|vs|, i requires 0 <= i < |vs| => Range(vs[i], NextMinor(vs[i])))
  }

  lemma SeriesCover(versions: seq<nat>, vs: seq<nat>, w: nat)
    requires forall x :: x in vs <==> x in versions
    ensures Covers(SeriesRanges(vs), w) <==> Supported(versions, w)
  {
    var rs := SeriesRanges(vs);
    if i :| 0 <= i < |rs| && rs[i].start <= w < rs[i].end {
      SeriesIs(vs[i], w);
      assert vs[i] in versions;
      var j :| 0 <= j < |versions| && versions[j] == vs[i];
      assert SameSeries(versions[j], w);
    }
    if i :| 0 <= i < |versions| && SameSeries(versions[i], w) {
      SeriesIs(versions[i], w);
      assert versions[i] in vs;
      var j :| 0 <= j < |vs| && vs[j] == versions[i];
      assert rs[j].start <= w < rs[j].end;
    }
  }

  lemma SeriesNonEmpty(vs: seq<nat>)
    ensures AllNonEmpty(SeriesRanges(vs))
  {
    forall i | 0 <= i < |vs| ensures SeriesRanges(vs)[i].start < SeriesRanges(vs)[i].end {
      NextMinorSplits(vs[i]);
    }
  }

  /** One disjunct per merged range of the versions. */
  ghost predicate VersionGuard(versions: seq<nat>, guard: Option<Guard>) {
    if versions == [] then guard.None?
    else exists ranges: seq<Range> :: MergeOf(ranges, SeriesRanges(SortedSet(versions))) && ranges != [] && guard == Some(Joined(Pieces(ranges)))
  }

  function Pieces(ranges: seq<Range>): seq<Guard> {
    seq(|ranges|, i requires 0 <= i < |ranges| => Between(ranges[i]))
  }

  method BuildVersionCondition(versions: seq<nat>) returns (guard: Option<Guard>)
    ensures VersionGuard(versions, guard)
  {
    if versions == [] {
      return None;
    }
    var vs := SortedSet(versions);
    SeriesNonEmpty(vs);
    var ranges := MergeRanges(SeriesRanges(vs));
    SortedSetMember(versions, versions[0]);
    FirstCovered(vs);
    guard := Some(Joined(Pieces(ranges)));
  }

  lemma FirstCovered(vs: seq<nat>)
    requires vs != []
    ensures Covers(SeriesRanges(vs), vs[0])
  {
    NextMinorSplits(vs[0]);
    assert SeriesRanges(vs)[0].start <= vs[0] < SeriesRanges(vs)[0].end;
  }

  /** The condition holds at a version exactly when some listed version has its minor series and is at most it. */
  lemma VersionGuardMeans(versions: seq<nat>, guard: Option<Guard>, w: World)
    requires versions != [] && VersionGuard(versions, guard)
    ensures guard.Some? && (Eval(guard.value, w) <==> Supported(versions, w.version))
  {
    var vs := SortedSet(versions);
    var ranges: seq<Range> :| MergeOf(ranges, SeriesRanges(vs)) && ranges != [] && guard == Some(Joined(Pieces(ranges)));
    forall x ensures x in vs <==> x in versions { SortedSetMember(versions, x); }
    SeriesCover(versions, vs, w.version);
    var ps := Pieces(ranges);
    JoinedMeans(ps, w);
    assert Covers(ranges, w.version) <==> Covers(SeriesRanges(vs), w.version);
    if i :| 0 <= i < |ranges| && ranges[i].start <= w.version < ranges[i].end {
      assert Eval(ps[i], w);
    }
  }

  lemma BothEmpty<T>(a: seq<T>, b: seq<T>)
    requires forall x :: x in a <==> x in b
    ensures a == [] <==> b == []
  {
    if a != [] { assert a[0] in b; }
    if b != [] { assert b[0] in a; }
  }

  /** The versions as a set decide the condition, text and all. */
  lemma VersionGuardUnique(versions: seq<nat>, others: seq<nat>, guard: Option<Guard>, other: Option<Guard>)
    requires VersionGuard(versions, guard) && VersionGuard(others, other)
    requires forall v :: v in versions <==> v in others
    ensures guard == other
  {
    BothEmpty(versions, others);
    if versions != [] {
      var vs, us := SortedSet(versions), SortedSet(others);
      var rs: seq<Range> :| MergeOf(rs, SeriesRanges(vs)) && rs != [] && guard == Some(Joined(Pieces(rs)));
      var ss: seq<Range> :| MergeOf(ss, SeriesRanges(us)) && ss != [] && other == Some(Joined(Pieces(ss)));
      SameVersions(versions, others);
      CanonicalUnique(rs, ss);
    }
  }

  lemma SameVersions(versions: seq<nat>, others: seq<nat>)
    requires forall v :: v in versions <==> v in others
    ensures SameUnion(SeriesRanges(SortedSet(versions)), SeriesRanges(SortedSet(others)))
  {
    forall x ensures x in SortedSet(versions) <==> x in SortedSet(others) {
      SortedSetMember(versions, x);
      SortedSetMember(others, x);
    }
    var rs, ss := SeriesRanges(SortedSet(versions)), SeriesRanges(SortedSet(others));
    forall v ensures Covers(rs, v) <==> Covers(ss, v) {
      SeriesIn(SortedSet(versions), SortedSet(others), v);
      SeriesIn(SortedSet(others), SortedSet(versions), v);
    }
  }

  lemma SeriesIn(vs: seq<nat>, us: seq<nat>, v: int)
    requires forall x :: x in vs ==> x in us
    ensures Covers(SeriesRanges(vs), v) ==> Covers(SeriesRanges(us), v)
  {
    var rs := SeriesRanges(vs);
    if i :| 0 <= i < |rs| && rs[i].start <= v < rs[i].end {
      assert vs[i] in us;
      var j :| 0 <= j < |us| && us[j] == vs[i];
      assert SeriesRanges(us)[j] == rs[i];
    }
  }

  // ----- Conditions over contexts -----

  /** The context has the implementation the world defines, its minor series, and at most its version. */
  ghost predicate Admits(mpi: bool, c: Context, w: World) {
    SameSeries(c.version, w.version) && (mpi ==> c.impl.Some? && c.impl.value in w.defined)
  }

  ghost predicate Wanted(mpi: bool, contexts: set<Context>, w: World) {
    exists c :: c in contexts && Admits(mpi, c, w)
  }

  ghost predicate HasVersion(contexts: set<Context>, v: nat) {
    exists c :: c in contexts && c.version == v
  }

  ghost predicate UsesImpl(contexts: set<Context>, impl: string) {
    exists v: nat :: Context(v, Some(impl)) in contexts
  }

  ghost predicate ListsVersions(contexts: set<Context>, versions: seq<nat>) {
    forall v :: v in versions <==> HasVersion(contexts, v)
  }

  ghost predicate ListsImpl(contexts: set<Context>, impl: string, versions: seq<nat>) {
    forall v :: v in versions <==> Context(v, Some(impl)) in contexts
  }

  /** `[ctx.version for ctx in contexts]`, in whatever order the set yields. */
  method VersionsOf(contexts: set<Context>) returns (versions: seq<nat>)
    ensures ListsVersions(contexts, versions)
  {
    versions := [];
    var left := contexts;
    while left != {}
      invariant left <= contexts
      invariant ListsVersions(contexts - left, versions)
    {
      var c :| c in left;
      ghost var seen := contexts - left;
      ghost var before := versions;
      left := left - {c};
      versions := versions + [c.version];
      assert contexts - left == seen + {c};
      forall v ensures v in versions <==> HasVersion(contexts - left, v) {
        assert v in before <==> HasVersion(seen, v);
        assert HasVersion(seen + {c}, v) <==> HasVersion(seen, v) || v == c.version by {
          assert c in seen + {c};
        }
      }
    }
    assert contexts - left == contexts;
  }

  ghost predicate Grouped(contexts: set<Context>, byImpl: map<string, seq<nat>>) {
    && (forall impl :: impl in byImpl ==> byImpl[impl] != [] && ListsImpl(contexts, impl, byImpl[impl]))
    && (forall c :: c in contexts && c.impl.Some? ==> c.impl.value in byImpl)
  }

  method GroupByImpl(contexts: set<Context>) returns (byImpl: map<string, seq<nat>>)
    ensures Grouped(contexts, byImpl)
  {
    byImpl := map[];
    var left := contexts;
    while left != {}
      invariant left <= contexts
      invariant Grouped(contexts - left, byImpl)
    {
      var c :| c in left;
      GroupedNext(contexts - left, byImpl, c);
      assert contexts - (left - {c}) == contexts - left + {c};
      left := left - {c};
      if c.impl.None? {
        continue;
      }
      var impl := c.impl.value;
      byImpl := byImpl[impl := (if impl in byImpl then byImpl[impl] else []) + [c.version]];
    }
    assert contexts - left == contexts;
  }

  lemma GroupedNext(seen: set<Context>, byImpl: map<string, seq<nat>>, c: Context)
    requires Grouped(seen, byImpl)
    ensures c.impl.None? ==> Grouped(seen + {c}, byImpl)
    ensures c.impl.Some? ==>
      var impl := c.impl.value;
      Grouped(seen + {c}, byImpl[impl := (if impl in byImpl then byImpl[impl] else []) + [c.version]])
  {
    if c.impl.None? {
      forall impl | impl in byImpl ensures ListsImpl(seen + {c}, impl, byImpl[impl]) {
        assert ListsImpl(seen, impl, byImpl[impl]);
      }
    } else {
      var impl := c.impl.value;
      var old' := if impl in byImpl then byImpl[impl] else [];
      assert ListsImpl(seen, impl, old');
      assert ListsImpl(seen + {c}, impl, old' + [c.version]) by {
        assert forall v :: v in old' + [c.version] <==> v in old' || v == c.version;
      }
      forall other | other in byImpl && other != impl ensures ListsImpl(seen + {c}, other, byImpl[other]) {
        assert ListsImpl(seen, other, byImpl[other]);
      }
    }
  }

  // ----- The order of the implementations -----

  predicate LexLess(a: string, b: string) {
    if b == [] then false
    else if a == [] then true
    else if a[0] != b[0] then a[0] < b[0]
    else LexLess(a[1..], b[1..])
  }

  lemma {:induction false} LexLessOrder(a: string, b: string)
    ensures !(LexLess(a, b) && LexLess(b, a))
    ensures LexLess(a, b) || LexLess(b, a) || a == b
    ensures !LexLess(a, a)
  {
    if a != [] && b != [] && a[0] == b[0] {
      LexLessOrder(a[1..], b[1..]);
      assert a == [a[0]] + a[1..] && b == [b[0]] + b[1..];
    } else if a != [] {
      LexLessOrder(a[1..], a[1..]);
    }
  }

  lemma {:induction false} LexLessTrans(a: string, b: string, c: string)
    requires LexLess(a, b) && LexLess(b, c)
    ensures LexLess(a, c)
  {
    if a != [] && a[0] == b[0] == c[0] {
      LexLessTrans(a[1..], b[1..], c[1..]);
    }
  }

  ghost predicate Ascending(keys: seq<string>) {
    forall i, j :: 0 <= i < j < |keys| ==> LexLess(keys[i], keys[j])
  }

  function InsertKey(k: string, keys: seq<string>): seq<string> {
    if keys == [] || LexLess(k, keys[0]) then [k] + keys else [keys[0]] + InsertKey(k, keys[1..])
  }

  lemma {:induction false} InsertKeyMember(k: string, keys: seq<string>, x: string)
    ensures x in InsertKey(k, keys) <==> x == k || x in keys
  {
    if keys != [] && !LexLess(k, keys[0]) {
      InsertKeyMember(k, keys[1..], x);
      assert keys == [keys[0]] + keys[1..];
    }
  }

  lemma {:induction false} InsertKeyAscends(k: string, keys: seq<string>)
    requires Ascending(keys) && k !in keys
    ensures Ascending(InsertKey(k, keys))
  {
    if keys != [] && !LexLess(k, keys[0]) {
      InsertKeyAscends(k, keys[1..]);
      LexLessOrder(k, keys[0]);
      var rest := InsertKey(k, keys[1..]);
      forall j | 0 <= j < |rest| ensures LexLess(keys[0], rest[j]) {
        InsertKeyMember(k, keys[1..], rest[j]);
      }
    } else if keys != [] {
      forall j | 0 <= j < |keys| ensures LexLess(k, keys[j]) {
        if j > 0 { LexLessTrans(k, keys[0], keys[j]); }
      }
    }
  }

  /** `sorted(by_impl)`. */
  method SortedKeys(names: set<string>) returns (keys: seq<string>)
    ensures Ascending(keys) && forall k :: k in keys <==> k in names
  {
    keys := [];
    var left := names;
    while left != {}
      invariant left <= names && Ascending(keys)
      invariant forall k :: k in keys <==> k in names - left
    {
      var k :| k in left;
      left := left - {k};
      InsertKeyAscends(k, keys);
      forall x ensures x in InsertKey(k, keys) <==> x in names - left {
        InsertKeyMember(k, keys, x);
      }
      keys := InsertKey(k, keys);
    }
  }

  /** A set of strings has one ascending list. */
  lemma {:induction false} AscendingUnique(keys: seq<string>, others: seq<string>)
    requires Ascending(keys) && Ascending(others) && forall k :: k in keys <==> k in others
    ensures keys == others
  {
    BothEmpty(keys, others);
    if keys != [] {
      AscendingHead(keys, others);
      forall k ensures k in keys[1..] <==> k in others[1..] {
        AscendingTail(keys, k);
        AscendingTail(others, k);
      }
      AscendingUnique(keys[1..], others[1..]);
      assert keys == [keys[0]] + keys[1..] && others == [others[0]] + others[1..];
    }
  }

  lemma AscendingHead(keys: seq<string>, others: seq<string>)
    requires keys != [] && others != [] && Ascending(keys) && Ascending(others) && forall k :: k in keys <==> k in others
    ensures keys[0] == others[0]
  {
    assert others[0] in keys && keys[0] in others;
    var i :| 0 <= i < |keys| && keys[i] == others[0];
    var j :| 0 <= j < |others| && others[j] == keys[0];
    LexLessOrder(keys[0], others[0]);
  }

  lemma AscendingTail(keys: seq<string>, k: string)
    requires keys != [] && Ascending(keys)
    ensures k in keys[1..] <==> k in keys && k != keys[0]
  {
    LexLessOrder(keys[0], keys[0]);
    assert keys == [keys[0]] + keys[1..];
    assert forall i :: 0 <= i < |keys[1..]| ==> LexLess(keys[0], keys[1..][i]);
  }

  // ----- The guard of a set of contexts -----

  ghost predicate ImplPiece(contexts: set<Context>, impl: string, piece: Guard) {
    exists versions: seq<nat> ::
      && ListsImpl(contexts, impl, versions) && versions != []
      && piece.Both? && piece.left == Defined(impl) && VersionGuard(versions, Some(piece.right))
  }

  ghost predicate ImplPieces(contexts: set<Context>, keys: seq<string>, pieces: seq<Guard>) {
    |pieces| == |keys| && forall i :: 0 <= i < |keys| ==> ImplPiece(contexts, keys[i], pieces[i])
  }

  ghost predicate ListsImpls(contexts: set<Context>, keys: seq<string>) {
    Ascending(keys) && forall k :: k in keys <==> UsesImpl(contexts, k)
  }

  function JoinedOrNone(pieces: seq<Guard>): Option<Guard> {
    if pieces == [] then None else Some(Joined(pieces))
  }

  ghost predicate ConditionOf(mpi: bool, contexts: set<Context>, guard: Option<Guard>) {
    if mpi then
      exists keys: seq<string>, pieces: seq<Guard> ::
        ListsImpls(contexts, keys) && ImplPieces(contexts, keys, pieces) && guard == JoinedOrNone(pieces)
    else
      exists versions: seq<nat> :: ListsVersions(contexts, versions) && VersionGuard(versions, guard)
  }

  /**
   * A guard is missing when no context is usable, and otherwise holds exactly in the worlds some context admits. The
   * set's iteration order leaves no trace in it.
   */
  method BuildCondition(mpi: bool, contexts: set<Context>) returns (guard: Option<Guard>)
    ensures guard.None? <==> forall c :: c in contexts ==> mpi && c.impl.None?
    ensures guard.Some? ==> forall w :: Eval(guard.value, w) <==> Wanted(mpi, contexts, w)
    ensures ConditionOf(mpi, contexts, guard)
  {
    if contexts == {} {
      guard := None;
      assert ListsVersions(contexts, []) && VersionGuard([], guard);
      assert ListsImpls(contexts, []) && ImplPieces(contexts, [], []) && guard == JoinedOrNone([]);
    } else if !mpi {
      var versions := VersionsOf(contexts);
      guard := BuildVersionCondition(versions);
    } else {
      guard := BuildImplCondition(contexts);
    }
    ConditionMeans(mpi, contexts, guard);
  }

  method BuildImplCondition(contexts: set<Context>) returns (guard: Option<Guard>)
    ensures ConditionOf(true, contexts, guard)
  {
    var byImpl := GroupByImpl(contexts);
    var keys := SortedKeys(byImpl.Keys);
    GroupedKeys(contexts, byImpl, keys);
    var pieces := [];
    for i := 0 to |keys|
      invariant |pieces| == i && forall j :: 0 <= j < i ==> ImplPiece(contexts, keys[j], pieces[j])
    {
      var impl := keys[i];
      assert impl in keys;
      var cond := BuildVersionCondition(byImpl[impl]);
      VersionGuardMeans(byImpl[impl], cond, World(0, {}));
      var piece := if cond.Some? then Both(Defined(impl), cond.value) else Defined(impl);
      assert ImplPiece(contexts, impl, piece) by {
        assert ListsImpl(contexts, impl, byImpl[impl]);
      }
      pieces := pieces + [piece];
    }
    assert ImplPieces(contexts, keys, pieces);
    guard := JoinedOrNone(pieces);
  }

  lemma GroupedKeys(contexts: set<Context>, byImpl: map<string, seq<nat>>, keys: seq<string>)
    requires Grouped(contexts, byImpl) && Ascending(keys) && forall k :: k in keys <==> k in byImpl.Keys
    ensures ListsImpls(contexts, keys)
  {
    forall k ensures k in keys <==> UsesImpl(contexts, k) {
      if k in keys {
        assert byImpl[k][0] in byImpl[k];
      }
      if v: nat :| Context(v, Some(k)) in contexts {
        assert Context(v, Some(k)).impl.Some?;
      }
    }
  }

  lemma PieceMeans(contexts: set<Context>, impl: string, piece: Guard, w: World)
    requires ImplPiece(contexts, impl, piece)
    ensures Eval(piece, w) <==> impl in w.defined && exists v :: Context(v, Some(impl)) in contexts && SameSeries(v, w.version)
  {
    var versions: seq<nat> :| ListsImpl(contexts, impl, versions) && versions != []
      && piece.Both? && piece.left == Defined(impl) && VersionGuard(versions, Some(piece.right));
    VersionGuardMeans(versions, Some(piece.right), w);
    if v :| Context(v, Some(impl)) in contexts && SameSeries(v, w.version) {
      assert v in versions;
      var i :| 0 <= i < |versions| && versions[i] == v;
      assert SameSeries(versions[i], w.version);
    }
  }

  lemma ConditionMeans(mpi: bool, contexts: set<Context>, guard: Option<Guard>)
    requires ConditionOf(mpi, contexts, guard)
    ensures guard.None? <==> forall c :: c in contexts ==> mpi && c.impl.None?
    ensures guard.Some? ==> forall w :: Eval(guard.value, w) <==> Wanted(mpi, contexts, w)
  {
    if mpi {
      ImplConditionMeans(contexts, guard);
    } else {
      var versions: seq<nat> :| ListsVersions(contexts, versions) && VersionGuard(versions, guard);
      forall c | c in contexts ensures versions != [] {
        assert HasVersion(contexts, c.version);
      }
      if versions != [] {
        assert HasVersion(contexts, versions[0]);
        forall w ensures guard.Some? && (Eval(guard.value, w) <==> Wanted(false, contexts, w)) {
          VersionGuardMeans(versions, guard, w);
          SupportedIsWanted(contexts, versions, w);
        }
      }
    }
  }

  lemma SupportedIsWanted(contexts: set<Context>, versions: seq<nat>, w: World)
    requires ListsVersions(contexts, versions)
    ensures Supported(versions, w.version) <==> Wanted(false, contexts, w)
  {
    if i :| 0 <= i < |versions| && SameSeries(versions[i], w.version) {
      assert HasVersion(contexts, versions[i]);
      var c :| c in contexts && c.version == versions[i];
      assert Admits(false, c, w);
    }
    if c :| c in contexts && Admits(false, c, w) {
      assert HasVersion(contexts, c.version);
      assert c.version in versions;
      var i :| 0 <= i < |versions| && versions[i] == c.version;
      assert SameSeries(versions[i], w.version);
    }
  }

  lemma ImplConditionMeans(contexts: set<Context>, guard: Option<Guard>)
    requires ConditionOf(true, contexts, guard)
    ensures guard.None? <==> forall c :: c in contexts ==> c.impl.None?
    ensures guard.Some? ==> forall w :: Eval(guard.value, w) <==> Wanted(true, contexts, w)
  {
    var keys: seq<string>, pieces: seq<Guard> :|
      ListsImpls(contexts, keys) && ImplPieces(contexts, keys, pieces) && guard == JoinedOrNone(pieces);
    forall c | c in contexts && c.impl.Some? ensures c.impl.value in keys {
      assert Context(c.version, Some(c.impl.value)) == c;
      assert UsesImpl(contexts, c.impl.value);
    }
    if keys != [] {
      assert keys[0] in keys;
      var v: nat :| Context(v, Some(keys[0])) in contexts;
      assert Context(v, Some(keys[0])).impl.Some?;
      forall w ensures Eval(guard.value, w) <==> Wanted(true, contexts, w) {
        JoinedMeans(pieces, w);
        PiecesWanted(contexts, keys, pieces, w);
      }
    }
  }

  lemma PiecesWanted(contexts: set<Context>, keys: seq<string>, pieces: seq<Guard>, w: World)
    requires ListsImpls(contexts, keys) && ImplPieces(contexts, keys, pieces)
    ensures (exists i :: 0 <= i < |pieces| && Eval(pieces[i], w)) <==> Wanted(true, contexts, w)
  {
    if i :| 0 <= i < |pieces| && Eval(pieces[i], w) {
      PieceMeans(contexts, keys[i], pieces[i], w);
      var v :| Context(v, Some(keys[i])) in contexts && SameSeries(v, w.version);
      assert Admits(true, Context(v, Some(keys[i])), w);
    }
    if c :| c in contexts && Admits(true, c, w) {
      assert Context(c.version, Some(c.impl.value)) == c;
      assert UsesImpl(contexts, c.impl.value);
      assert c.impl.value in keys;
      var i :| 0 <= i < |keys| && keys[i] == c.impl.value;
      PieceMeans(contexts, keys[i], pieces[i], w);
    }
  }

  /** Two builds from one set of contexts give the same guard, whatever order the set was walked in. */
  lemma ConditionUnique(mpi: bool, contexts: set<Context>, guard: Option<Guard>, other: Option<Guard>)
    requires ConditionOf(mpi, contexts, guard) && ConditionOf(mpi, contexts, other)
    ensures guard == other
  {
    if mpi {
      var keys: seq<string>, pieces: seq<Guard> :|
        ListsImpls(contexts, keys) && ImplPieces(contexts, keys, pieces) && guard == JoinedOrNone(pieces);
      var keys': seq<string>, pieces': seq<Guard> :|
        ListsImpls(contexts, keys') && ImplPieces(contexts, keys', pieces') && other == JoinedOrNone(pieces');
      AscendingUnique(keys, keys');
      forall i | 0 <= i < |keys| ensures pieces[i] == pieces'[i] {
        PieceUnique(contexts, keys[i], pieces[i], pieces'[i]);
      }
      assert pieces == pieces';
    } else {
      var versions: seq<nat> :| ListsVersions(contexts, versions) && VersionGuard(versions, guard);
      var others: seq<nat> :| ListsVersions(contexts, others) && VersionGuard(others, other);
      VersionGuardUnique(versions, others, guard, other);
    }
  }

  lemma PieceUnique(contexts: set<Context>, impl: string, piece: Guard, other: Guard)
    requires ImplPiece(contexts, impl, piece) && ImplPiece(contexts, impl, other)
    ensures piece == other
  {
    var versions: seq<nat> :| ListsImpl(contexts, impl, versions) && versions != []
      && piece.Both? && piece.left == Defined(impl) && VersionGuard(versions, Some(piece.right));
    var others: seq<nat> :| ListsImpl(contexts, impl, others) && others != []
      && other.Both? && other.left == Defined(impl) && VersionGuard(others, Some(other.right));
    VersionGuardUnique(versions, others, Some(piece.right), Some(other.right));
  }

  /** The generated guard says what the contexts say exactly when some context is usable; otherwise there is no guard. */
  lemma GuardMeansContextsIff(mpi: bool, contexts: set<Context>, guard: Option<Guard>)
    requires ConditionOf(mpi, contexts, guard)
    ensures (forall w :: Shown(guard, w) <==> Wanted(mpi, contexts, w))
      <==> exists c :: c in contexts && (mpi ==> c.impl.Some?)
  {
    ConditionMeans(mpi, contexts, guard);
    if c :| c in contexts && (mpi ==> c.impl.Some?) {
      assert guard.Some?;
    } else {
      var w := World(0, {});
      assert Shown(guard, w) && !Wanted(mpi, contexts, w);
    }
  }

  /** The build a context was parsed for. */
  function WorldOf(c: Context): World {
    World(c.version, if c.impl.Some? then {c.impl.value} else {})
  }

  /** A method stays visible wherever it was found exactly when MPI contexts all carry an implementation or none does. */
  lemma ShownWhereFoundIff(mpi: bool, contexts: set<Context>, guard: Option<Guard>)
    requires ConditionOf(mpi, contexts, guard)
    ensures (forall c :: c in contexts ==> Shown(guard, WorldOf(c)))
      <==> (mpi ==> forall a, b :: a in contexts && b in contexts ==> a.impl.Some? == b.impl.Some?)
  {
    ConditionMeans(mpi, contexts, guard);
    forall c | c in contexts && (mpi ==> c.impl.Some?) ensures Shown(guard, WorldOf(c)) {
      assert Admits(mpi, c, WorldOf(c));
    }
    forall a, b | mpi && a in contexts && b in contexts && a.impl.None? && b.impl.Some?
      ensures !Shown(guard, WorldOf(a))
    {
      assert guard.Some?;
    }
  }

  // ----- Exclusion -----

  /** Two sets of contexts that meet in some implementation and minor series. */
  ghost predicate Meet(mpi: bool, a: Context, b: Context) {
    a.version / 100 == b.version / 100 && (mpi ==> a.impl.Some? && a.impl == b.impl)
  }

  /** A real build defines at most one implementation. */
  ghost predicate OneImpl(w: World) {
    forall a, b :: a in w.defined && b in w.defined ==> a == b
  }

  /**
   * Guarded methods are mutually exclusive, in builds that define at most one implementation, exactly when they share
   * no implementation and minor series.
   */
  lemma ExclusiveIff(mpi: bool, mine: set<Context>, theirs: set<Context>, guard: Option<Guard>, other: Option<Guard>)
    requires ConditionOf(mpi, mine, guard) && ConditionOf(mpi, theirs, other)
    requires guard.Some? && other.Some?
    ensures (forall w :: OneImpl(w) ==> !(Shown(guard, w) && Shown(other, w)))
      <==> (forall a, b :: a in mine && b in theirs ==> !Meet(mpi, a, b))
  {
    ConditionMeans(mpi, mine, guard);
    ConditionMeans(mpi, theirs, other);
    forall a, b | a in mine && b in theirs && Meet(mpi, a, b)
      ensures exists w :: OneImpl(w) && Shown(guard, w) && Shown(other, w)
    {
      var w := World(if a.version >= b.version then a.version else b.version, if mpi then {a.impl.value} else {});
      assert OneImpl(w);
      assert Admits(mpi, a, w) && Admits(mpi, b, w);
      assert Shown(guard, w) && Shown(other, w);
    }
    forall w | OneImpl(w) && Shown(guard, w) && Shown(other, w)
      ensures exists a, b :: a in mine && b in theirs && Meet(mpi, a, b)
    {
      var a :| a in mine && Admits(mpi, a, w);
      var b :| b in theirs && Admits(mpi, b, w);
      assert Meet(mpi, a, b);
    }
  }
}
