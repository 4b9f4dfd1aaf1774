/** The interface generator: which contexts a header is parsed in, and the methods collected over them. */
module HeaderContexts {
  import opened Wrappers
  import opened Versions
  import opened Guards

  predicate InCross(mpi: bool, versions: seq<nat>, macros: seq<string>, c: Context) {
    && c.version in versions
    && (if mpi && macros != [] then c.impl.Some? && c.impl.value in macros else c.impl.None?)
  }

  /** One context per version, and for MPI one per implementation and version when the header names implementations. */
  method BuildContexts(mpi: bool, versions: seq<nat>, macros: seq<string>) returns (contexts: seq<Context>)
    ensures forall c :: c in contexts <==> InCross(mpi, versions, macros, c)
    ensures |contexts| == |versions| * (if mpi && macros != [] then |macros| else 1)
  {
    if versions == [] {
      return [];
    }
    if !mpi || macros == [] {
      contexts := WithImpl(versions, None);
      return;
    }
    contexts := [];
    for i := 0 to |macros|
      invariant forall c :: c in contexts <==> c.version in versions && c.impl.Some? && c.impl.value in macros[..i]
      invariant |contexts| == |versions| * i
    {
      var more := WithImpl(versions, Some(macros[i]));
      contexts := contexts + more;
      assert macros[..i + 1] == macros[..i] + [macros[i]];
      assert |versions| * (i + 1) == |versions| * i + |versions|;
    }
    assert macros[..|macros|] == macros;
  }

  method WithImpl(versions: seq<nat>, impl: Option<string>) returns (contexts: seq<Context>)
    ensures forall c :: c in contexts <==> c.version in versions && c.impl == impl
    ensures |contexts| == |versions|
  {
    contexts := [];
    for i := 0 to |versions|
      invariant forall c :: c in contexts <==> c.version in versions[..i] && c.impl == impl
      invariant |contexts| == i
    {
      contexts := contexts + [Context(versions[i], impl)];
      assert versions[..i + 1] == versions[..i] + [versions[i]];
    }
    assert versions[..|versions|] == versions;
  }

  // ----- Collecting -----

  /** A method's identity: its name and its normalised types. */
  datatype Key = Key(name: string, returnType: string, argTypes: seq<string>)

  /** One declaration met while parsing; `decl` stands for the argument texts kept with it. */
  datatype Sighting = Sighting(key: Key, decl: string)

  datatype Info = Info(decl: string, contexts: set<Context>)

  datatype Seen = Seen(ctx: Context, sighting: Sighting)

  function Tagged(c: Context, sightings: seq<Sighting>): seq<Seen> {
    seq(|sightings|, i requires 0 <= i < |sightings| => Seen(c, sightings[i]))
  }

  /** Everything the parses yield, in order. */
  function Trace(contexts: seq<Context>, found: Context -> seq<Sighting>): seq<Seen> {
    if contexts == [] then []
    else
      var n := |contexts| - 1;
      Trace(contexts[..n], found) + Tagged(contexts[n], found(contexts[n]))
  }

  ghost predicate SeenKey(trace: seq<Seen>, key: Key) {
    exists i :: 0 <= i < |trace| && trace[i].sighting.key == key
  }

  ghost predicate SeenIn(trace: seq<Seen>, key: Key, c: Context) {
    exists i :: 0 <= i < |trace| && trace[i].sighting.key == key && trace[i].ctx == c
  }

  ghost predicate FirstDecl(trace: seq<Seen>, key: Key, decl: string) {
    exists i :: 0 <= i < |trace| && trace[i].sighting == Sighting(key, decl) && !SeenKey(trace[..i], key)
  }

  /** The table: the keys seen, the first declaration of each, and every context it was seen in. */
  ghost predicate Collected(trace: seq<Seen>, methods: map<Key, Info>) {
    && (forall key :: key in methods <==> SeenKey(trace, key))
    && (forall key :: key in methods ==> FirstDecl(trace, key, methods[key].decl))
    && (forall key, c :: key in methods ==> (c in methods[key].contexts <==> SeenIn(trace, key, c)))
  }

  method CollectMethods(contexts: seq<Context>, found: Context -> seq<Sighting>) returns (methods: map<Key, Info>)
    ensures Collected(Trace(contexts, found), methods)
  {
    methods := map[];
    for i := 0 to |contexts|
      invariant Collected(Trace(contexts[..i], found), methods)
    {
      methods := CollectFrom(contexts[i], found(contexts[i]), Trace(contexts[..i], found), methods);
      assert contexts[..i + 1][..i] == contexts[..i];
    }
    assert contexts[..|contexts|] == contexts;
  }

  method CollectFrom(ctx: Context, sightings: seq<Sighting>, ghost trace: seq<Seen>, before: map<Key, Info>)
      returns (methods: map<Key, Info>)
    requires Collected(trace, before)
    ensures Collected(trace + Tagged(ctx, sightings), methods)
  {
    methods := before;
    ghost var sofar := trace;
    for j := 0 to |sightings|
      invariant sofar == trace + Tagged(ctx, sightings[..j]) && Whole(Collected(sofar, methods))
    {
      var s := sightings[j];
      CollectedNext(sofar, methods, Seen(ctx, s));
      ghost var next := Noted(methods, Seen(ctx, s));
      if s.key !in methods {
        methods := methods[s.key := Info(s.decl, {})];
      }
      methods := methods[s.key := Info(methods[s.key].decl, methods[s.key].contexts + {ctx})];
      assert methods == next;
      sofar := sofar + [Seen(ctx, s)];
      TaggedPush(ctx, sightings, j);
    }
    assert sightings[..|sightings|] == sightings;
  }

  lemma TaggedPush(ctx: Context, sightings: seq<Sighting>, j: nat)
    requires j < |sightings|
    ensures Tagged(ctx, sightings[..j + 1]) == Tagged(ctx, sightings[..j]) + [Seen(ctx, sightings[j])]
  {}

  function Noted(methods: map<Key, Info>, seen: Seen): map<Key, Info> {
    var key := seen.sighting.key;
    var info := if key in methods then methods[key] else Info(seen.sighting.decl, {});
    methods[key := Info(info.decl, info.contexts + {seen.ctx})]
  }

  lemma CollectedNext(trace: seq<Seen>, methods: map<Key, Info>, seen: Seen)
    requires Collected(trace, methods)
    ensures Whole(Collected(trace + [seen], Noted(methods, seen)))
  {
    var more, next := trace + [seen], Noted(methods, seen);
    forall key ensures key in next <==> SeenKey(more, key) { SeenKeyPush(trace, seen, key); }
    forall key | key in next ensures FirstDecl(more, key, next[key].decl) { FirstDeclPush(trace, methods, seen, key); }
    forall key, c | key in next ensures c in next[key].contexts <==> SeenIn(more, key, c) {
      SeenInPush(trace, seen, key, c);
      SeenSomewhere(trace, key, c);
    }
    assert Collected(more, next);
  }

  lemma SeenKeyPush(trace: seq<Seen>, seen: Seen, key: Key)
    ensures SeenKey(trace + [seen], key) <==> SeenKey(trace, key) || key == seen.sighting.key
  {
    var more := trace + [seen];
    assert more[|trace|] == seen;
    if i :| 0 <= i < |trace| && trace[i].sighting.key == key { assert more[i] == trace[i]; }
  }

  lemma SeenInPush(trace: seq<Seen>, seen: Seen, key: Key, c: Context)
    ensures SeenIn(trace + [seen], key, c) <==> SeenIn(trace, key, c) || (key == seen.sighting.key && c == seen.ctx)
  {
    SeenInPlus(trace, [seen], key, c);
    assert [seen][0] == seen;
  }

  lemma FirstDeclPush(trace: seq<Seen>, methods: map<Key, Info>, seen: Seen, key: Key)
    requires Collected(trace, methods) && key in Noted(methods, seen)
    ensures FirstDecl(trace + [seen], key, Noted(methods, seen)[key].decl)
  {
    var more := trace + [seen];
    if key in methods {
      var i :| 0 <= i < |trace| && trace[i].sighting == Sighting(key, methods[key].decl) && !SeenKey(trace[..i], key);
      assert more[i] == trace[i] && more[..i] == trace[..i];
    } else {
      assert more[|trace|] == seen && more[..|trace|] == trace;
    }
  }

  lemma SeenSomewhere(trace: seq<Seen>, key: Key, c: Context)
    ensures SeenIn(trace, key, c) ==> SeenKey(trace, key)
  {}

  /** The order of the parses aside, a key is seen in a context exactly when that parse yields it. */
  lemma {:induction false} TraceMeans(contexts: seq<Context>, found: Context -> seq<Sighting>, key: Key, c: Context)
    ensures SeenIn(Trace(contexts, found), key, c) <==> c in contexts && exists s :: s in found(c) && s.key == key
  {
    if contexts != [] {
      var n := |contexts| - 1;
      var last, rest := contexts[n], Trace(contexts[..n], found);
      var tail := Tagged(last, found(last));
      TraceMeans(contexts[..n], found, key, c);
      assert contexts == contexts[..n] + [last];
      SeenInPlus(rest, tail, key, c);
      if s :| s in found(last) && s.key == key {
        var i :| 0 <= i < |found(last)| && found(last)[i] == s;
        assert tail[i] == Seen(last, s);
      }
      if i :| 0 <= i < |tail| && tail[i].sighting.key == key && tail[i].ctx == c {
        assert found(last)[i] in found(last);
      }
    }
  }

  lemma SeenInPlus(a: seq<Seen>, b: seq<Seen>, key: Key, c: Context)
    ensures SeenIn(a + b, key, c) <==> SeenIn(a, key, c) || SeenIn(b, key, c)
  {
    if i :| 0 <= i < |a| && a[i].sighting.key == key && a[i].ctx == c { assert (a + b)[i] == a[i]; }
    if i :| 0 <= i < |b| && b[i].sighting.key == key && b[i].ctx == c { assert (a + b)[|a| + i] == b[i]; }
  }

  lemma ContextsFound(contexts: seq<Context>, found: Context -> seq<Sighting>, methods: map<Key, Info>, key: Key)
    requires Collected(Trace(contexts, found), methods) && key in methods
    ensures forall c :: c in methods[key].contexts <==> c in contexts && exists s :: s in found(c) && s.key == key
  {
    forall c ensures c in methods[key].contexts <==> c in contexts && exists s :: s in found(c) && s.key == key {
      TraceMeans(contexts, found, key, c);
    }
  }

  lemma CrossGuard(mpi: bool, versions: seq<nat>, macros: seq<string>, mine: set<Context>, guard: Option<Guard>, some: Context)
    requires some in mine && (forall c :: c in mine ==> InCross(mpi, versions, macros, c)) && ConditionOf(mpi, mine, guard)
    ensures (forall w :: Shown(guard, w) <==> Wanted(mpi, mine, w)) <==> !(mpi && macros == [])
  {
    GuardMeansContextsIff(mpi, mine, guard);
  }

  /**
   * End to end: a collected method is compiled in every build it was found in; and when the header is not an MPI one
   * without implementation macros, in exactly the builds admitted by a context it was found in.
   */
  lemma GeneratedGuards(mpi: bool, versions: seq<nat>, macros: seq<string>, contexts: seq<Context>,
                        found: Context -> seq<Sighting>, methods: map<Key, Info>, key: Key, guard: Option<Guard>)
    requires forall c :: c in contexts <==> InCross(mpi, versions, macros, c)
    requires Collected(Trace(contexts, found), methods) && key in methods
    requires ConditionOf(mpi, methods[key].contexts, guard)
    ensures forall c, s :: c in contexts && s in found(c) && s.key == key ==> Shown(guard, WorldOf(c))
    ensures (forall w :: Shown(guard, w) <==> Wanted(mpi, methods[key].contexts, w)) <==> !(mpi && macros == [])
  {
    var mine := methods[key].contexts;
    ContextsFound(contexts, found, methods, key);
    var i :| 0 <= i < |Trace(contexts, found)| && Trace(contexts, found)[i].sighting.key == key;
    var some := Trace(contexts, found)[i].ctx;
    assert SeenIn(Trace(contexts, found), key, some) && some in mine;
    ShownWhereFoundIff(mpi, mine, guard);
    CrossGuard(mpi, versions, macros, mine, guard, some);
  }
}
