/** Stable grouping: keys in the order of their first use, the values of each in their own order. */
module Grouping {

  datatype Item<K, V> = Item(key: K, value: V)

  datatype Group<K, V> = Group(key: K, values: seq<V>)

  function Keys<K(==), V>(items: seq<Item<K, V>>): seq<K> {
    if items == [] then []
    else
      var before, c := Keys(items[..|items| - 1]), items[|items| - 1];
      if c.key in before then before else before + [c.key]
  }

  function ValuesUnder<K(==), V>(items: seq<Item<K, V>>, key: K): seq<V> {
    if items == [] then []
    else
      var before, c := ValuesUnder(items[..|items| - 1], key), items[|items| - 1];
      if c.key == key then before + [c.value] else before
  }

  function GroupsFor<K(==), V>(items: seq<Item<K, V>>, keys: seq<K>): seq<Group<K, V>> {
    seq(|keys|, i requires 0 <= i < |keys| => Group(keys[i], ValuesUnder(items, keys[i])))
  }

  function GroupBy<K(==), V>(items: seq<Item<K, V>>): seq<Group<K, V>> {
    GroupsFor(items, Keys(items))
  }

  lemma {:induction false} KeysMember<K, V>(items: seq<Item<K, V>>)
    ensures forall i :: 0 <= i < |items| ==> items[i].key in Keys(items)
    ensures forall i, j :: 0 <= i < j < |Keys(items)| ==> Keys(items)[i] != Keys(items)[j]
    ensures forall key :: key !in Keys(items) ==> ValuesUnder(items, key) == []
  {
    if items != [] {
      KeysMember(items[..|items| - 1]);
    }
  }

  /** One more item joins its key's group at the end, or starts a last group. */
  lemma GroupNext<K, V>(items: seq<Item<K, V>>, c: Item<K, V>)
    ensures c.key !in Keys(items) ==> GroupBy(items + [c]) == GroupBy(items) + [Group(c.key, [c.value])]
    ensures forall i :: 0 <= i < |Keys(items)| && Keys(items)[i] == c.key ==>
      GroupBy(items + [c]) == GroupBy(items)[i := Group(c.key, GroupBy(items)[i].values + [c.value])]
  {
    var more := items + [c];
    assert more[..|more| - 1] == items;
    KeysMember(items);
    var keys, groups := Keys(items), GroupBy(items);
    assert forall key :: key != c.key ==> ValuesUnder(more, key) == ValuesUnder(items, key);
    if c.key !in keys {
      assert ValuesUnder(more, c.key) == [c.value];
      assert forall j :: 0 <= j < |keys| ==> keys[j] in keys;
      assert GroupBy(more) == groups + [Group(c.key, [c.value])];
    }
    forall i | 0 <= i < |keys| && keys[i] == c.key
      ensures GroupBy(more) == groups[i := Group(c.key, groups[i].values + [c.value])]
    {
      assert Keys(more) == keys;
    }
  }

  function Flat<K, V>(groups: seq<Group<K, V>>): seq<V> {
    if groups == [] then [] else Flat(groups[..|groups| - 1]) + groups[|groups| - 1].values
  }

  function Values<K, V>(items: seq<Item<K, V>>): seq<V> {
    seq(|items|, i requires 0 <= i < |items| => items[i].value)
  }

  lemma FlatSnoc<K, V>(groups: seq<Group<K, V>>, last: Group<K, V>)
    ensures multiset(Flat(groups + [last])) == multiset(Flat(groups)) + multiset(last.values)
  {
    assert (groups + [last])[..|groups|] == groups;
  }

  lemma Regroup<T>(a: seq<T>, init: seq<T>, last: T, b: seq<T>)
    requires b != [] && init == b[..|b| - 1] && last == b[|b| - 1]
    ensures b == init + [last] && a + b == (a + init) + [last]
  {}

  lemma {:induction false} FlatSplit<K, V>(a: seq<Group<K, V>>, g: Group<K, V>, b: seq<Group<K, V>>)
    ensures multiset(Flat(a + [g] + b)) == multiset(Flat(a)) + multiset(g.values) + multiset(Flat(b))
  {
    if b == [] {
      FlatSnoc(a, g);
      assert a + [g] + b == a + [g];
    } else {
      var init, last := b[..|b| - 1], b[|b| - 1];
      FlatSplit(a, g, init);
      FlatSnoc(a + [g] + init, last);
      FlatSnoc(init, last);
      Regroup(a + [g], init, last, b);
    }
  }

  lemma FlatGrows<K, V>(groups: seq<Group<K, V>>, i: nat, grown: Group<K, V>, v: V)
    requires i < |groups| && grown.values == groups[i].values + [v]
    ensures multiset(Flat(groups[i := grown])) == multiset(Flat(groups)) + multiset{v}
  {
    var a, b := groups[..i], groups[i + 1..];
    assert groups == a + [groups[i]] + b && groups[i := grown] == a + [grown] + b;
    FlatSplit(a, groups[i], b);
    FlatSplit(a, grown, b);
  }

  /** Grouping is a partition: each value ends up in the groups as often as it came in. */
  lemma {:induction false} GroupsPartition<K, V>(items: seq<Item<K, V>>)
    ensures multiset(Flat(GroupBy(items))) == multiset(Values(items))
  {
    if items != [] {
      var before, c := items[..|items| - 1], items[|items| - 1];
      GroupsPartition(before);
      GroupNext(before, c);
      assert items == before + [c];
      assert Values(items) == Values(before) + [c.value];
      var groups := GroupBy(before);
      if c.key in Keys(before) {
        var i :| 0 <= i < |Keys(before)| && Keys(before)[i] == c.key;
        FlatGrows(groups, i, Group(c.key, groups[i].values + [c.value]), c.value);
      } else {
        FlatSnoc(groups, Group(c.key, [c.value]));
      }
    }
  }
}
