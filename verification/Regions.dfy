/**
 * C regions: the registry's locked sections as atomic steps of threads that may interleave, and what becomes of a
 * region and its metadata over every run.
 */
module Regions {
  import opened Wrappers

  const DATA_EVENT := 0
  const METADATA_EVENT := 1

  /** The tracer core a release meets; an active one says whether it keeps a data event's metadata. */
  datatype Core = Absent | Inactive | Active(consumes: bool)

  datatype Metadata = Metadata(id: nat, fields: nat)

  datatype Record =
    | Event(name: string, cat: string, start: int, duration: int, meta: Option<Metadata>)
    | Fields(name: string, fields: Metadata)
    | Pair(name: string, cat: string)

  /** The metadata goes to the core; otherwise the tracer deletes it. */
  predicate HandsOver(kind: int, core: Core, m: Metadata) {
    core.Active? && ((kind == DATA_EVENT && core.consumes) || (kind == METADATA_EVENT && m.fields > 0))
  }

  /**
   * Where a tracer's metadata goes, case by case: a core that consumes a data event's keeps it, and any active core keeps
   * that of a metadata event with fields; in every other case it is deleted, and without any nothing happens.
   */
  predicate Fate(kind: int, core: Core, m: Option<Metadata>, handed: seq<Metadata>, deleted: seq<Metadata>,
                 handed': seq<Metadata>, deleted': seq<Metadata>)
  {
    match m
    case None => handed' == handed && deleted' == deleted
    case Some(x) =>
      match core
      case Active(true) =>
        if kind == DATA_EVENT || (kind == METADATA_EVENT && x.fields > 0) then handed' == handed + [x] && deleted' == deleted
        else handed' == handed && deleted' == deleted + [x]
      case Active(false) =>
        if kind == METADATA_EVENT && x.fields > 0 then handed' == handed + [x] && deleted' == deleted
        else handed' == handed && deleted' == deleted + [x]
      case _ => handed' == handed && deleted' == deleted + [x]
  }

  /** What the core and the allocator see of tracers. */
  class Sink {
    var records: seq<Record>
    var exits: nat
    var handed: seq<Metadata>
    var deleted: seq<Metadata>

    constructor ()
      ensures records == [] && exits == 0 && handed == [] && deleted == []
    {
      records, exits, handed, deleted := [], 0, [], [];
    }
  }

  class Tracer {
    const name: string
    const cat: string
    const kind: int
    const start: int
    var initialized: bool
    var metadata: Option<Metadata>

    constructor (name: string, cat: string, kind: int, start: int)
      ensures this.name == name && this.cat == cat && this.kind == kind && this.start == start
      ensures initialized && metadata == None
    {
      this.name, this.cat, this.kind, this.start := name, cat, kind, start;
      initialized, metadata := true, None;
    }

    /** The record an active core gets. */
    function RecordOf(now: int): Option<Record>
      reads this
    {
      if kind == DATA_EVENT then Some(Event(name, cat, start, now - start, metadata))
      else if kind != METADATA_EVENT then None
      else if metadata.Some? && metadata.value.fields > 0 then Some(Fields(name, metadata.value))
      else Some(Pair(name, cat))
    }

    /**
     * What an active core is told: of a data event its names, that it began at its start and ended now, and its metadata;
     * of a metadata event its fields, or its two names when it has none.
     */
    ghost predicate Tells(core: Core, now: int, m: Option<Metadata>, records: seq<Record>, records': seq<Record>) {
      if !core.Active? || (kind != DATA_EVENT && kind != METADATA_EVENT) then records' == records
      else
        && |records'| == |records| + 1 && records'[..|records|] == records
        && var r := records'[|records|];
          if kind == DATA_EVENT then
            r.Event? && r.name == name && r.cat == cat && r.start == start && r.start + r.duration == now && r.meta == m
          else if m.Some? && m.value.fields > 0 then r.Fields? && r.name == name && r.fields == m.value
          else r.Pair? && r.name == name && r.cat == cat
    }

    /** One record to an active core, and the metadata to exactly one of the core and the allocator. */
    method Finalize(core: Core, now: int, sink: Sink)
      modifies this, sink
      ensures !initialized && metadata == None
      ensures sink.records == old(sink.records) +
        (if core.Active? && old(RecordOf(now)).Some? then [old(RecordOf(now)).value] else [])
      ensures sink.exits == old(sink.exits) + (if core.Active? then 1 else 0)
      ensures var m := old(metadata);
        && sink.handed == old(sink.handed) + (if m.Some? && HandsOver(kind, core, m.value) then [m.value] else [])
        && sink.deleted == old(sink.deleted) + (if m.Some? && !HandsOver(kind, core, m.value) then [m.value] else [])
      ensures Tells(core, now, old(metadata), old(sink.records), sink.records)
      ensures Fate(kind, core, old(metadata), old(sink.handed), old(sink.deleted), sink.handed, sink.deleted)
    {
      if core.Active? {
        if kind == DATA_EVENT {
          sink.records := sink.records + [Event(name, cat, start, now - start, metadata)];
          if core.consumes {
            if metadata.Some? { sink.handed := sink.handed + [metadata.value]; }
            metadata := None;
          }
        } else if kind == METADATA_EVENT {
          if metadata.Some? && metadata.value.fields > 0 {
            sink.records := sink.records + [Fields(name, metadata.value)];
            sink.handed := sink.handed + [metadata.value];
            metadata := None;
          } else {
            sink.records := sink.records + [Pair(name, cat)];
          }
        }
        sink.exits := sink.exits + 1;
      }
      if metadata.Some? {
        sink.deleted := sink.deleted + [metadata.value];
        metadata := None;
      }
      initialized := false;
    }

    /** The destructor does nothing more once the tracer is finalized. */
    method Dispose(core: Core, now: int, sink: Sink)
      modifies this, sink
      ensures !initialized
      ensures !old(initialized) ==> unchanged(this) && unchanged(sink)
    {
      if initialized {
        Finalize(core, now, sink);
      }
    }

    /** Releasing a region finalizes its tracer, then destroys it: still one record and one fate for the metadata. */
    method Release(core: Core, now: int, sink: Sink)
      requires initialized
      modifies this, sink
      ensures !initialized && metadata == None
      ensures sink.records == old(sink.records) +
        (if core.Active? && old(RecordOf(now)).Some? then [old(RecordOf(now)).value] else [])
      ensures sink.exits == old(sink.exits) + (if core.Active? then 1 else 0)
      ensures var m := old(metadata);
        && sink.handed == old(sink.handed) + (if m.Some? && HandsOver(kind, core, m.value) then [m.value] else [])
        && sink.deleted == old(sink.deleted) + (if m.Some? && !HandsOver(kind, core, m.value) then [m.value] else [])
      ensures Tells(core, now, old(metadata), old(sink.records), sink.records)
      ensures Fate(kind, core, old(metadata), old(sink.handed), old(sink.deleted), sink.handed, sink.deleted)
    {
      Finalize(core, now, sink);
      Dispose(core, now, sink);
    }
  }

  // ----- All threads together -----

  /**
   * Regions are numbered as they are allocated, and a number is not used twice. `pending` holds the regions some thread
   * has taken out of the registry and not yet released; `held` is the metadata each unreleased region carries.
   */
  datatype State = State(created: set<nat>, live: set<nat>, pending: multiset<nat>, released: seq<nat>,
    held: map<nat, Metadata>, owner: map<Metadata, nat>, handed: seq<Metadata>, deleted: seq<Metadata>)

  /** The atomic steps: the three locked sections, a live region's first value, and one release. */
  datatype Op =
    | Create(region: nat)
    | Annotate(region: nat, meta: Metadata)
    | End(region: nat)
    | TakeAll
    | Release(region: nat, kind: int, core: Core)

  function Start(): State {
    State({}, {}, multiset{}, [], map[], map[], [], [])
  }

  /** What callers and the allocator owe: fresh regions and metadata, values only for live regions. */
  predicate Enabled(s: State, op: Op) {
    match op
    case Create(r) => r !in s.created
    case Annotate(r, m) => r in s.live && (r !in s.held ==> m !in s.owner)
    case End(r) => true
    case TakeAll => true
    case Release(r, _, _) => r in s.pending
  }

  function After(s: State, op: Op): State {
    match op
    case Create(r) => s.(created := s.created + {r}, live := s.live + {r})
    case Annotate(r, m) => if r in s.held then s else s.(held := s.held[r := m], owner := s.owner[m := r])
    case End(r) => if r !in s.live then s else s.(live := s.live - {r}, pending := s.pending + multiset{r})
    case TakeAll => s.(live := {}, pending := s.pending + multiset(s.live))
    case Release(r, kind, core) =>
      var s' := s.(pending := s.pending - multiset{r}, released := s.released + [r], held := s.held - {r});
      if r !in s.held then s'
      else if HandsOver(kind, core, s.held[r]) then s'.(handed := s.handed + [s.held[r]])
      else s'.(deleted := s.deleted + [s.held[r]])
  }

  function Run(ops: seq<Op>): State {
    if ops == [] then Start() else After(Run(ops[..|ops| - 1]), ops[|ops| - 1])
  }

  /** Every step was enabled when it was taken. */
  predicate Possible(ops: seq<Op>) {
    ops == [] || (Possible(ops[..|ops| - 1]) && Enabled(Run(ops[..|ops| - 1]), ops[|ops| - 1]))
  }

  ghost predicate Accounted(s: State) {
    multiset(s.live) + s.pending + multiset(s.released) == multiset(s.created)
  }

  /** How often a piece of metadata has been disposed of, either way. */
  function Disposals(s: State, m: Metadata): nat {
    multiset(s.handed)[m] + multiset(s.deleted)[m]
  }

  ghost predicate MetaOk(s: State) {
    && (forall r :: r in s.held ==> s.held[r] in s.owner && s.owner[s.held[r]] == r && r in s.created && r !in s.released)
    && (forall m :: m in s.owner ==> s.owner[m] in s.created)
    && (forall m :: m in s.owner && s.owner[m] !in s.released ==> s.owner[m] in s.held && s.held[s.owner[m]] == m)
    && (forall m :: Disposals(s, m) == if m in s.owner && s.owner[m] in s.released then 1 else 0)
  }

  lemma {:induction false} AccountedStep(s: State, op: Op)
    requires Accounted(s) && Enabled(s, op)
    ensures Accounted(After(s, op))
  {
    var t := After(s, op);
    match op
    case Create(r) =>
      assert multiset(s.live + {r}) == multiset(s.live) + multiset{r} by {
        assert multiset(s.live)[r] <= multiset(s.created)[r];
      }
      assert multiset(s.created + {r}) == multiset(s.created) + multiset{r};
    case End(r) =>
      assert r in s.live ==> multiset(s.live - {r}) + multiset{r} == multiset(s.live);
    case Release(r, _, _) =>
      assert multiset(t.released) == multiset(s.released) + multiset{r};
    case _ =>
  }

  lemma CountsOnce(s: State, r: nat)
    requires Accounted(s)
    ensures multiset(s.live)[r] + s.pending[r] + multiset(s.released)[r] == if r in s.created then 1 else 0
    ensures r in s.live <==> multiset(s.live)[r] == 1
    ensures r in s.released <==> multiset(s.released)[r] > 0
  {
    assert (multiset(s.live) + s.pending + multiset(s.released))[r] == multiset(s.created)[r];
  }

  lemma MetaStep(s: State, op: Op)
    requires Accounted(s) && MetaOk(s) && Enabled(s, op)
    ensures MetaOk(After(s, op))
  {
    match op
    case Release(r, kind, core) => MetaRelease(s, r, kind, core);
    case Create(r) => MetaCreate(s, r);
    case Annotate(r, m) => MetaAnnotate(s, r, m);
    case _ => assert forall m :: Disposals(After(s, op), m) == Disposals(s, m);
  }

  lemma MetaCreate(s: State, r: nat)
    requires Accounted(s) && MetaOk(s) && Enabled(s, Create(r))
    ensures MetaOk(After(s, Create(r)))
  {
    CountsOnce(s, r);
    assert forall m :: Disposals(After(s, Create(r)), m) == Disposals(s, m);
  }

  lemma MetaAnnotate(s: State, r: nat, m: Metadata)
    requires Accounted(s) && MetaOk(s) && Enabled(s, Annotate(r, m))
    ensures MetaOk(After(s, Annotate(r, m)))
  {
    CountsOnce(s, r);
    assert forall x :: Disposals(After(s, Annotate(r, m)), x) == Disposals(s, x);
  }

  lemma MetaRelease(s: State, r: nat, kind: int, core: Core)
    requires Accounted(s) && MetaOk(s) && r in s.pending
    ensures MetaOk(After(s, Release(r, kind, core)))
  {
    var t := After(s, Release(r, kind, core));
    CountsOnce(s, r);
    assert forall x :: x in t.released <==> x in s.released || x == r;
    forall m ensures Disposals(t, m) == if m in t.owner && t.owner[m] in t.released then 1 else 0 {
      assert multiset(s.handed + [m]) == multiset(s.handed) + multiset{m};
      assert Disposals(t, m) == Disposals(s, m) + (if r in s.held && s.held[r] == m then 1 else 0);
    }
  }

  /** In every run each region is in exactly one place, so it is released at most once. */
  lemma {:induction false} EachRegionOnce(ops: seq<Op>)
    requires Possible(ops)
    ensures var s := Run(ops);
      && Accounted(s)
      && forall r :: multiset(s.live)[r] + s.pending[r] + multiset(s.released)[r] == if r in s.created then 1 else 0
  {
    if ops != [] {
      EachRegionOnce(ops[..|ops| - 1]);
      AccountedStep(Run(ops[..|ops| - 1]), ops[|ops| - 1]);
    }
    forall r ensures var s := Run(ops);
      multiset(s.live)[r] + s.pending[r] + multiset(s.released)[r] == if r in s.created then 1 else 0
    {
      CountsOnce(Run(ops), r);
    }
  }

  /** Metadata is disposed of exactly once: not before its region is released, and with it. */
  lemma {:induction false} MetadataOnce(ops: seq<Op>)
    requires Possible(ops)
    ensures MetaOk(Run(ops))
    ensures forall m :: Disposals(Run(ops), m) == if m in Run(ops).owner && Run(ops).owner[m] in Run(ops).released then 1 else 0
  {
    if ops != [] {
      MetadataOnce(ops[..|ops| - 1]);
      EachRegionOnce(ops[..|ops| - 1]);
      MetaStep(Run(ops[..|ops| - 1]), ops[|ops| - 1]);
    }
  }

  /** A core that keeps the metadata of a region released to it as `kind`. */
  predicate Keeps(kind: int, core: Core, m: Metadata) {
    (kind == DATA_EVENT && core == Active(true)) || (kind == METADATA_EVENT && core.Active? && m.fields > 0)
  }

  /** Step `i` releases region `r` to a core that keeps its metadata `m`. */
  predicate KeptAt(ops: seq<Op>, r: nat, m: Metadata, i: nat) {
    i < |ops| && ops[i].Release? && ops[i].region == r && Keeps(ops[i].kind, ops[i].core, m)
  }

  ghost predicate WasKept(ops: seq<Op>, r: nat, m: Metadata) { exists i: nat :: KeptAt(ops, r, m, i) }

  lemma WasKeptPush(ops: seq<Op>, op: Op, r: nat, m: Metadata)
    ensures WasKept(ops + [op], r, m) <==> WasKept(ops, r, m) || (op.Release? && op.region == r && Keeps(op.kind, op.core, m))
  {
    var all := ops + [op];
    if i: nat :| KeptAt(all, r, m, i) {
      assert i < |ops| ==> KeptAt(ops, r, m, i);
    }
    if i: nat :| KeptAt(ops, r, m, i) {
      assert KeptAt(all, r, m, i);
    }
    assert op.Release? && op.region == r && Keeps(op.kind, op.core, m) ==> KeptAt(all, r, m, |ops|);
  }

  lemma {:induction false} ReleasedWhen(ops: seq<Op>, i: nat)
    requires i < |ops| && ops[i].Release?
    ensures ops[i].region in Run(ops).released
  {
    if i < |ops| - 1 {
      ReleasedWhen(ops[..|ops| - 1], i);
    }
  }

  /** What the release of a region does with metadata `m`. */
  lemma HandedStep(s: State, op: Op, m: Metadata)
    requires Accounted(s) && MetaOk(s) && Enabled(s, op)
    ensures m in After(s, op).handed <==>
      m in s.handed || (op.Release? && op.region in s.held && s.held[op.region] == m && Keeps(op.kind, op.core, m))
    ensures m in s.owner ==> m in After(s, op).owner && After(s, op).owner[m] == s.owner[m]
    ensures m in After(s, op).owner && m !in s.owner ==> op == Annotate(After(s, op).owner[m], m) && op.region in s.live
  {}

  /**
   * Over every run, the core keeps exactly the metadata of the regions whose release met a core that keeps it; the rest of
   * what the regions released carried is deleted.
   */
  lemma {:induction false} HandedIff(ops: seq<Op>, m: Metadata)
    requires Possible(ops)
    ensures var s := Run(ops);
      && (m in s.handed <==> m in s.owner && WasKept(ops, s.owner[m], m))
      && (m in s.deleted <==> m in s.owner && s.owner[m] in s.released && !WasKept(ops, s.owner[m], m))
  {
    MetadataOnce(ops);
    var s := Run(ops);
    if ops != [] {
      var init, op := ops[..|ops| - 1], ops[|ops| - 1];
      HandedIff(init, m);
      MetadataOnce(init);
      EachRegionOnce(init);
      HandedStep(Run(init), op, m);
      assert ops == init + [op];
      if m in s.owner {
        WasKeptPush(init, op, s.owner[m], m);
        NewOwner(init, op, m);
      }
    }
    DisposedOnce(s, m);
    if m in s.owner && WasKept(ops, s.owner[m], m) {
      var i: nat :| KeptAt(ops, s.owner[m], m, i);
      ReleasedWhen(ops, i);
    }
  }

  lemma DisposedOnce(s: State, m: Metadata)
    requires MetaOk(s)
    ensures m in s.handed || m in s.deleted <==> m in s.owner && s.owner[m] in s.released
    ensures !(m in s.handed && m in s.deleted)
  {
    assert Disposals(s, m) == if m in s.owner && s.owner[m] in s.released then 1 else 0;
  }

  lemma NewOwner(ops: seq<Op>, op: Op, m: Metadata)
    requires Possible(ops) && Enabled(Run(ops), op) && m in After(Run(ops), op).owner
    ensures var s, t := Run(ops), After(Run(ops), op);
      && (m in s.owner ==> t.owner[m] == s.owner[m])
      && (m !in s.owner ==> !WasKept(ops, t.owner[m], m) && !op.Release?)
      && (op.Release? && op.region == t.owner[m] ==> op.region in s.held && s.held[op.region] == m)
  {
    var s, t := Run(ops), After(Run(ops), op);
    MetadataOnce(ops);
    EachRegionOnce(ops);
    HandedStep(s, op, m);
    if m !in s.owner {
      CountsOnce(s, op.region);
      if i: nat :| KeptAt(ops, op.region, m, i) {
        ReleasedWhen(ops, i);
      }
    }
    if op.Release? && op.region == t.owner[m] {
      CountsOnce(s, op.region);
    }
  }

  lemma {:induction false} Prefix(ops: seq<Op>, more: seq<Op>)
    requires Possible(ops + more)
    ensures Possible(ops)
  {
    var all := ops + more;
    if more != [] {
      assert all[..|all| - 1] == ops + more[..|more| - 1];
      Prefix(ops, more[..|more| - 1]);
    } else {
      assert all == ops;
    }
  }

  /** A region once taken out of the registry never gets back in. */
  lemma {:induction false} StaysOut(ops: seq<Op>, more: seq<Op>, r: nat)
    requires Possible(ops + more) && r in Run(ops).created && r !in Run(ops).live
    ensures r in Run(ops + more).created && r !in Run(ops + more).live
  {
    var all := ops + more;
    if more != [] {
      assert all[..|all| - 1] == ops + more[..|more| - 1] && all[|all| - 1] == more[|more| - 1];
      StaysOut(ops, more[..|more| - 1], r);
    } else {
      assert all == ops;
    }
  }

  /** Ending a region again does nothing, whatever happened in between. */
  lemma SecondEndIsNothing(ops: seq<Op>, more: seq<Op>, r: nat)
    requires Possible(ops + [End(r)] + more) && r in Run(ops).created
    ensures Run(ops + [End(r)] + more + [End(r)]) == Run(ops + [End(r)] + more)
  {
    var first := ops + [End(r)];
    assert first[..|first| - 1] == ops;
    StaysOut(first, more, r);
    var all := first + more + [End(r)];
    assert all[..|all| - 1] == first + more;
  }

  /** Every region live when the registry is emptied ends up released, once the threads have caught up. */
  lemma SnapshotIsReleased(ops: seq<Op>, more: seq<Op>, r: nat)
    requires Possible(ops + [TakeAll] + more) && r in Run(ops).live
    ensures var s := Run(ops + [TakeAll] + more);
      r !in s.live && s.pending[r] + multiset(s.released)[r] == 1 && (s.pending == multiset{} ==> r in s.released)
  {
    var first := ops + [TakeAll];
    assert first[..|first| - 1] == ops;
    Prefix(first, more);
    Prefix(ops, [TakeAll]);
    EachRegionOnce(ops);
    CountsOnce(Run(ops), r);
    assert Run(first) == After(Run(ops), TakeAll);
    StaysOut(first, more, r);
    EachRegionOnce(first + more);
    CountsOnce(Run(first + more), r);
  }

  // ----- The registry -----

  datatype DebugEntry = DebugEntry(id: nat, name: string, cat: string, kind: int)

  /** The globals behind the lock. `state` is what all threads have done; each locked section is one of its steps. */
  class Registry {
    const tracking: bool
    var live: set<nat>
    var debugMap: map<nat, DebugEntry>
    var nextId: nat
    ghost var state: State

    /** With tracking on, the debug table describes exactly the live regions, each under its own id. */
    ghost predicate Valid()
      reads this
    {
      && live == state.live && Accounted(state)
      && debugMap.Keys == (if tracking then live else {})
      && (forall r :: r in debugMap ==> debugMap[r].id < nextId)
      && (forall r, q :: r in debugMap && q in debugMap && debugMap[r].id == debugMap[q].id ==> r == q)
    }

    constructor (tracking: bool)
      ensures Valid() && state == Start() && this.tracking == tracking
    {
      this.tracking := tracking;
      live, debugMap, nextId, state := {}, map[], 1, Start();
    }

    /** `new_region`. */
    method Insert(r: nat, name: string, cat: string, kind: int)
      requires Valid() && Enabled(state, Create(r))
      modifies this
      ensures Valid() && state == After(old(state), Create(r))
      ensures tracking ==> debugMap == old(debugMap)[r := DebugEntry(old(nextId), name, cat, kind)]
    {
      AccountedStep(state, Create(r));
      live := live + {r};
      if tracking {
        debugMap := debugMap[r := DebugEntry(nextId, name, cat, kind)];
        nextId := nextId + 1;
      }
      state := After(state, Create(r));
    }

    /** The locked section of `finalize_region`; only a caller told `true` goes on to release. */
    method Withdraw(r: nat) returns (found: bool)
      requires Valid()
      modifies this
      ensures Valid() && state == After(old(state), End(r)) && found == (r in old(state).live)
      ensures debugMap == old(debugMap) - {r}
    {
      AccountedStep(state, End(r));
      found := r in live;
      if !found {
        assert debugMap == debugMap - {r};
        return;
      }
      if tracking && r in debugMap {
        debugMap := debugMap - {r};
      }
      live := live - {r};
      state := After(state, End(r));
    }

    /** The locked section of `release_all_live_regions`: each live region goes on the list once. */
    method TakeAll() returns (taken: seq<nat>)
      requires Valid()
      modifies this
      ensures Valid() && state == After(old(state), Op.TakeAll)
      ensures multiset(taken) == multiset(old(state).live) && debugMap == map[]
    {
      AccountedStep(state, Op.TakeAll);
      taken, debugMap := ListLive(live, debugMap);
      live := {};
      state := After(state, Op.TakeAll);
    }

    /** `finalize_region`, run without interruption: the first end of a region releases it, any other does nothing. */
    method FinalizeRegion(data: Option<nat>, kind: int, core: Core)
      requires Valid()
      modifies this
      ensures Valid()
      ensures data.None? || data.value !in old(state).live ==> state == old(state)
      ensures data.Some? && data.value in old(state).live ==>
        state == After(After(old(state), End(data.value)), Op.Release(data.value, kind, core))
    {
      if data.None? {
        return;
      }
      var found := Withdraw(data.value);
      if found {
        AccountedStep(state, Op.Release(data.value, kind, core));
        state := After(state, Op.Release(data.value, kind, core));
      }
    }

    /** `finalize_region_cleanup`: the variable is cleared, so that leaving its scope again ends nothing. */
    method FinalizeRegionCleanup(data: Option<nat>, kind: int, core: Core) returns (cleared: Option<nat>)
      requires Valid()
      modifies this
      ensures Valid() && cleared.None?
      ensures data.None? || data.value !in old(state).live ==> state == old(state)
      ensures data.Some? && data.value in old(state).live ==>
        state == After(After(old(state), End(data.value)), Op.Release(data.value, kind, core))
    {
      FinalizeRegion(data, kind, core);
      cleared := None;
    }

    /** `release_all_live_regions`, run without interruption: everything live is released, and nothing else is touched. */
    method ReleaseAll(kindOf: nat -> int, core: Core)
      requires Valid()
      modifies this
      ensures Valid() && state.live == {} && state.pending == old(state.pending)
      ensures multiset(state.released) == multiset(old(state.released)) + multiset(old(state.live))
    {
      var taken := TakeAll();
      state := ReleaseEach(taken, kindOf, core, state);
    }
  }

  /** The loop under the lock: each live region is listed and loses its debug entry. */
  method ListLive(live: set<nat>, entries: map<nat, DebugEntry>) returns (taken: seq<nat>, rest: map<nat, DebugEntry>)
    requires entries.Keys <= live
    ensures multiset(taken) == multiset(live) && rest == map[]
  {
    var left := live;
    taken, rest := [], entries;
    while left != {}
      invariant left <= live && rest.Keys <= left
      invariant multiset(taken) + multiset(left) == multiset(live)
    {
      var r :| r in left;
      assert multiset(left) == multiset(left - {r}) + multiset{r};
      left, taken, rest := left - {r}, taken + [r], rest - {r};
    }
  }

  /** The loop after the lock. */
  ghost method ReleaseEach(taken: seq<nat>, kindOf: nat -> int, core: Core, before: State) returns (s: State)
    requires Accounted(before) && multiset(taken) <= before.pending
    ensures Accounted(s) && s.live == before.live && s.pending == before.pending - multiset(taken)
    ensures multiset(s.released) == multiset(before.released) + multiset(taken)
  {
    s := before;
    ghost var others := before.pending - multiset(taken);
    for i := 0 to |taken|
      invariant Accounted(s) && s.live == before.live && s.created == before.created
      invariant s.pending == others + multiset(taken[i..])
    {
      assert taken[i..] == [taken[i]] + taken[i + 1..];
      s := ReleaseNext(taken[i], Op.Release(taken[i], kindOf(taken[i]), core), others, multiset(taken[i + 1..]), s);
    }
    Balance(before, s, multiset(taken));
  }

  ghost method ReleaseNext(r: nat, op: Op, others: multiset<nat>, rest: multiset<nat>, before: State) returns (s: State)
    requires Accounted(before) && op.Release? && op.region == r
    requires before.pending == others + (multiset{r} + rest)
    ensures Accounted(s) && s.live == before.live && s.created == before.created && s.pending == others + rest
  {
    AccountedStep(before, op);
    s := After(before, op);
  }

  lemma Balance(before: State, s: State, taken: multiset<nat>)
    requires Accounted(before) && Accounted(s) && s.live == before.live && s.created == before.created
    requires taken <= before.pending && s.pending == before.pending - taken
    ensures multiset(s.released) == multiset(before.released) + taken
  {
    forall r ensures multiset(s.released)[r] == (multiset(before.released) + taken)[r] {
      CountsOnce(before, r);
      CountsOnce(s, r);
    }
  }
}
