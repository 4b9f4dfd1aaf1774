/** List arguments of a region: values appended one by one under a key and, in a nested list, a sub-name. */
module ArgLists {
  import opened Wrappers
  import opened Grouping

  datatype Value = Text(s: string) | Number(i: int) | Id(u: nat)

  /** The key, a sub-name, is missing in a plain list. */
  type Sub = Group<Option<string>, Value>

  /** A key's value: a list being built, or anything `update` put there. */
  datatype Entry = List(nested: bool, subs: seq<Sub>) | Other

  type Args = map<string, Entry>

  /** What a program does to a region's arguments. */
  datatype Call = Append(key: string, sub: Option<string>, value: Value) | Put(key: string)

  /** The first sub of that name takes the value; without one, a new sub does. */
  function Push(subs: seq<Sub>, name: Option<string>, v: Value): seq<Sub> {
    if subs == [] then [Group(name, [v])]
    else if subs[0].key == name then [Group(name, subs[0].values + [v])] + subs[1..]
    else [subs[0]] + Push(subs[1..], name, v)
  }

  function AfterCall(m: Args, c: Call): Args {
    match c
    case Put(key) => m[key := Other]
    case Append(key, sub, v) =>
      var e := if key in m then m[key] else List(sub.Some?, []);
      if e.Other? || e.nested != sub.Some? then m else m[key := List(e.nested, Push(e.subs, sub, v))]
  }

  function Run(calls: seq<Call>): Args {
    if calls == [] then map[] else AfterCall(Run(calls[..|calls| - 1]), calls[|calls| - 1])
  }

  /** Plain lists have nameless subs, nested lists named ones. */
  ghost predicate ArgsOk(m: Args) {
    forall key :: key in m && m[key].List? ==> forall i :: 0 <= i < |m[key].subs| ==> m[key].subs[i].key.Some? == m[key].nested
  }

  class TracerArgs {
    var initialized: bool
    var metadata: Option<Args>

    function Held(): Args
      reads this
    {
      if metadata.Some? then metadata.value else map[]
    }

    constructor ()
      ensures initialized && metadata == None && Held() == map[]
    {
      initialized, metadata := true, None;
    }

    /** A missing key, or a finalized tracer, changes nothing. */
    method Append(key: Option<string>, sub: Option<string>, v: Value)
      requires ArgsOk(Held())
      modifies this
      ensures ArgsOk(Held()) && initialized == old(initialized)
      ensures initialized && key.Some? ==> metadata == Some(AfterCall(old(Held()), Call.Append(key.value, sub, v)))
      ensures !initialized || key.None? ==> metadata == old(metadata)
    {
      if initialized && key.Some? {
        var m := AppendValue(Held(), key.value, sub, v);
        metadata := Some(m);
      }
    }
  }

  /** `append_value`. */
  method AppendValue(args: Args, key: string, sub: Option<string>, v: Value) returns (m: Args)
    requires ArgsOk(args)
    ensures m == AfterCall(args, Append(key, sub, v)) && ArgsOk(m)
  {
    m := args;
    if key !in m {
      m := m[key := List(sub.Some?, [])];
    }
    var list := m[key];
    if list.Other? || list.nested != sub.Some? {
      return;
    }
    var n := |list.subs|;
    for i := 0 to n
      invariant forall j :: 0 <= j < i ==> list.subs[j].key != sub
    {
      if sub.None? || list.subs[i].key == sub {
        PushFound(list.subs, sub, v, i);
        m := m[key := List(list.nested, list.subs[i := Group(sub, list.subs[i].values + [v])])];
        return;
      }
    }
    PushMissing(list.subs, sub, v);
    m := m[key := List(list.nested, list.subs + [Group(sub, [v])])];
  }

  lemma {:induction false} PushFound(subs: seq<Sub>, name: Option<string>, v: Value, i: nat)
    requires i < |subs| && subs[i].key == name && forall j :: 0 <= j < i ==> subs[j].key != name
    ensures Push(subs, name, v) == subs[i := Group(name, subs[i].values + [v])]
  {
    if i > 0 {
      PushFound(subs[1..], name, v, i - 1);
    }
  }

  lemma {:induction false} PushMissing(subs: seq<Sub>, name: Option<string>, v: Value)
    requires forall j :: 0 <= j < |subs| ==> subs[j].key != name
    ensures Push(subs, name, v) == subs + [Group(name, [v])]
  {
    if subs != [] {
      PushMissing(subs[1..], name, v);
    }
  }

  // ----- What a history of calls means -----

  type SubItem = Item<Option<string>, Value>

  function AppendsTo(calls: seq<Call>, key: string): seq<SubItem> {
    if calls == [] then []
    else
      var before, c := AppendsTo(calls[..|calls| - 1], key), calls[|calls| - 1];
      if c.Append? && c.key == key then before + [Item(c.sub, c.value)] else before
  }

  /** The appends of one shape. */
  function OfShape(items: seq<SubItem>, nested: bool): seq<SubItem> {
    if items == [] then []
    else
      var before, c := OfShape(items[..|items| - 1], nested), items[|items| - 1];
      if c.key.Some? == nested then before + [c] else before
  }

  /** Pushing a value is the stable group-by of one more call. */
  lemma PushGroups(items: seq<SubItem>, c: SubItem)
    ensures Push(GroupBy(items), c.key, c.value) == GroupBy(items + [c])
  {
    GroupNext(items, c);
    KeysMember(items);
    var keys := Keys(items);
    if c.key in keys {
      var i :| 0 <= i < |keys| && keys[i] == c.key;
      PushFound(GroupBy(items), c.key, c.value, i);
    } else {
      assert forall j :: 0 <= j < |keys| ==> keys[j] in keys;
      PushMissing(GroupBy(items), c.key, c.value);
    }
  }

  ghost predicate PutOnce(calls: seq<Call>, key: string) {
    exists i :: 0 <= i < |calls| && calls[i] == Put(key)
  }

  /** The first append decides the shape; those of the other shape leave no trace. */
  function Grouped(items: seq<SubItem>): Entry
    requires items != []
  {
    var nested := items[0].key.Some?;
    List(nested, GroupBy(OfShape(items, nested)))
  }

  function Found(m: Args, key: string): Option<Entry> {
    if key in m then Some(m[key]) else None
  }

  /** What a history leaves under a key. */
  ghost function Expected(calls: seq<Call>, key: string): Option<Entry> {
    if PutOnce(calls, key) then Some(Other)
    else if AppendsTo(calls, key) == [] then None
    else Some(Grouped(AppendsTo(calls, key)))
  }

  /** The step of one call, seen from one key. */
  function EntryAfter(e: Option<Entry>, c: Call, key: string): Option<Entry> {
    if c.key != key then e
    else if c.Put? then Some(Other)
    else
      var list := if e.Some? then e.value else List(c.sub.Some?, []);
      Some(if list.Other? || list.nested != c.sub.Some? then list else List(list.nested, Push(list.subs, c.sub, c.value)))
  }

  /**
   * Over every history: a key that `update` ever set holds that value, whenever the appends came; any other holds the
   * stable group-by of the appends that have the first one's shape, and nothing without an append.
   */
  lemma {:induction false} HistoryMeaning(calls: seq<Call>, key: string)
    ensures Found(Run(calls), key) == Expected(calls, key)
  {
    if calls != [] {
      var before, c := calls[..|calls| - 1], calls[|calls| - 1];
      HistoryMeaning(before, key);
      assert calls == before + [c];
      ExpectedNext(before, c, key);
      FoundNext(Run(before), c, key);
    }
  }

  lemma FoundNext(m: Args, c: Call, key: string)
    ensures Found(AfterCall(m, c), key) == EntryAfter(Found(m, key), c, key)
  {}

  lemma AppendsNext(before: seq<Call>, c: Call, key: string)
    ensures AppendsTo(before + [c], key) ==
      if c.Append? && c.key == key then AppendsTo(before, key) + [Item(c.sub, c.value)] else AppendsTo(before, key)
  {
    assert (before + [c])[..|before|] == before;
  }

  lemma ExpectedNext(before: seq<Call>, c: Call, key: string)
    ensures Expected(before + [c], key) == EntryAfter(Expected(before, key), c, key)
  {
    PutNext(before, c, key);
    AppendsNext(before, c, key);
    if c.Append? && c.key == key {
      GroupedNext(AppendsTo(before, key), Item(c.sub, c.value));
    }
  }

  lemma PutNext(before: seq<Call>, c: Call, key: string)
    ensures PutOnce(before + [c], key) <==> PutOnce(before, key) || c == Put(key)
  {
    var calls := before + [c];
    if i :| 0 <= i < |before| && before[i] == Put(key) { assert calls[i] == Put(key); }
    assert calls[|before|] == c;
  }

  lemma GroupedNext(items: seq<SubItem>, c: SubItem)
    ensures var e := if items == [] then List(c.key.Some?, []) else Grouped(items);
      Grouped(items + [c]) == if e.nested == c.key.Some? then List(e.nested, Push(e.subs, c.key, c.value)) else e
  {
    var more := items + [c];
    assert more[..|more| - 1] == items;
    var nested := more[0].key.Some?;
    assert items == [] ==> OfShape(items, nested) == [] && GroupBy(OfShape(items, nested)) == [];
    if nested == c.key.Some? {
      PushGroups(OfShape(items, nested), c);
    }
  }

  /** A plain list has exactly one group, holding every accepted value in order. */
  lemma {:induction false} PlainIsOneGroup(items: seq<SubItem>)
    requires items != [] && forall i :: 0 <= i < |items| ==> items[i].key == None
    ensures Keys(items) == [None] && |ValuesUnder(items, None)| == |items|
    ensures forall i :: 0 <= i < |items| ==> ValuesUnder(items, None)[i] == items[i].value
  {
    var before := items[..|items| - 1];
    if before != [] {
      PlainIsOneGroup(before);
    }
  }

  /** Every list a program can build is well shaped: groups of its own kind under names that do not repeat. */
  lemma GroupsShape(items: seq<SubItem>, nested: bool)
    ensures var groups := GroupBy(OfShape(items, nested));
      && (forall i, j :: 0 <= i < j < |groups| ==> groups[i].key != groups[j].key)
      && (forall i :: 0 <= i < |groups| ==> groups[i].key.Some? == nested)
  {
    KeysMember(OfShape(items, nested));
    ShapeOfKeys(items, nested);
  }

  lemma {:induction false} ShapeOfKeys(items: seq<SubItem>, nested: bool)
    ensures forall i :: 0 <= i < |Keys(OfShape(items, nested))| ==> Keys(OfShape(items, nested))[i].Some? == nested
  {
    if items != [] {
      ShapeOfKeys(items[..|items| - 1], nested);
      var before, c := OfShape(items[..|items| - 1], nested), items[|items| - 1];
      assert (before + [c])[..|before|] == before;
    }
  }
}
