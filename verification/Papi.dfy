/** The PAPI probe: the family of a counter, and the grouped list it prints. */
module PapiProbe {
  import opened Grouping
  import opened Wrappers
  import Text

  datatype Family = Family(prefix: string, category: string)

  const FAMILIES: seq<Family> := [
    Family("PAPI_TOT_CYC", "CYCLE"),
    Family("PAPI_REF_CYC", "CYCLE"),
    Family("PAPI_TOT_INS", "INSTRUCTION"),
    Family("PAPI_TOT_IIS", "INSTRUCTION"),
    Family("PAPI_INT_INS", "INSTRUCTION"),
    Family("PAPI_SYC_INS", "INSTRUCTION"),
    Family("PAPI_HW_INT", "INTERRUPT"),
    Family("PAPI_FMA_INS", "FLOP"),
    Family("PAPI_FML_INS", "FLOP"),
    Family("PAPI_FAD_INS", "FLOP"),
    Family("PAPI_FDV_INS", "FLOP"),
    Family("PAPI_FSQ_INS", "FLOP"),
    Family("PAPI_FNV_INS", "FLOP"),
    Family("PAPI_FPU_IDL", "STALL"),
    Family("PAPI_FP_STAL", "STALL"),
    Family("PAPI_FP_", "FLOP"),
    Family("PAPI_SP_", "FLOP"),
    Family("PAPI_DP_", "FLOP"),
    Family("PAPI_VEC_", "FLOP"),
    Family("PAPI_L1_", "CACHE"),
    Family("PAPI_L2_", "CACHE"),
    Family("PAPI_L3_", "CACHE"),
    Family("PAPI_CA_", "COHERENCY"),
    Family("PAPI_PRF_DM", "PREFETCH"),
    Family("PAPI_TLB_", "TLB"),
    Family("PAPI_BTAC_M", "BRANCH"),
    Family("PAPI_BRU_IDL", "STALL"),
    Family("PAPI_BR_", "BRANCH"),
    Family("PAPI_LST_INS", "MEMORY"),
    Family("PAPI_LD_INS", "MEMORY"),
    Family("PAPI_SR_INS", "MEMORY"),
    Family("PAPI_MEM_SCY", "STALL"),
    Family("PAPI_MEM_RCY", "STALL"),
    Family("PAPI_MEM_WCY", "STALL"),
    Family("PAPI_MEM_", "MEMORY"),
    Family("PAPI_CSR_", "SYNC"),
    Family("PAPI_STL_", "STALL"),
    Family("PAPI_FUL_", "STALL"),
    Family("PAPI_RES_STL", "STALL"),
    Family("PAPI_FXU_IDL", "STALL"),
    Family("PAPI_LSU_IDL", "STALL")
  ]

  const MAX_EVENTS := 256

  /** The first row from `i` on whose prefix the event has. */
  function FirstRow(table: seq<Family>, event: string, i: nat): (row: nat)
    requires i <= |table|
    ensures i <= row <= |table| && (row < |table| ==> table[row].prefix <= event)
    ensures forall k :: i <= k < row ==> !(table[k].prefix <= event)
    decreases |table| - i
  {
    if i == |table| || table[i].prefix <= event then i else FirstRow(table, event, i + 1)
  }

  function FamilyOf(table: seq<Family>, event: string): string {
    var row := FirstRow(table, event, 0);
    if row < |table| then table[row].category else "PAPI"
  }

  method FindFamily(table: seq<Family>, event: string) returns (category: string)
    ensures category == FamilyOf(table, event)
  {
    for i := 0 to |table|
      invariant FirstRow(table, event, 0) == FirstRow(table, event, i)
    {
      if table[i].prefix <= event {
        return table[i].category;
      }
    }
    return "PAPI";
  }

  // ----- The order of the table -----

  predicate SameLetters(i: nat, j: nat)
    requires i < |FAMILIES| && j < |FAMILIES|
  {
    var p, q := FAMILIES[i].prefix, FAMILIES[j].prefix;
    |p| >= 8 && |q| >= 8 && p[5] == q[5] && p[6] == q[6] && p[7] == q[7]
  }

  /** Rows of one class share three letters after "PAPI_": the TOT, FP and MEM ones, and no others. */
  function RowClass(i: nat): nat {
    if i in {0, 2, 3} then 0 else if i in {14, 15} then 1 else if i in {31, 32, 33, 34} then 2 else 3 + i
  }

  /** The class told by the three letters. */
  function LetterClass(a: char, b: char, c: char): nat {
    match (a, b, c)
    case ('T', 'O', 'T') => 0
    case ('R', 'E', 'F') => 4
    case ('I', 'N', 'T') => 7
    case ('S', 'Y', 'C') => 8
    case ('H', 'W', '_') => 9
    case ('F', 'M', 'A') => 10
    case ('F', 'M', 'L') => 11
    case ('F', 'A', 'D') => 12
    case ('F', 'D', 'V') => 13
    case ('F', 'S', 'Q') => 14
    case ('F', 'N', 'V') => 15
    case ('F', 'P', 'U') => 16
    case ('F', 'P', '_') => 1
    case ('S', 'P', '_') => 19
    case ('D', 'P', '_') => 20
    case ('V', 'E', 'C') => 21
    case ('L', '1', '_') => 22
    case ('L', '2', '_') => 23
    case ('L', '3', '_') => 24
    case ('C', 'A', '_') => 25
    case ('P', 'R', 'F') => 26
    case ('T', 'L', 'B') => 27
    case ('B', 'T', 'A') => 28
    case ('B', 'R', 'U') => 29
    case ('B', 'R', '_') => 30
    case ('L', 'S', 'T') => 31
    case ('L', 'D', '_') => 32
    case ('S', 'R', '_') => 33
    case ('M', 'E', 'M') => 2
    case ('C', 'S', 'R') => 38
    case ('S', 'T', 'L') => 39
    case ('F', 'U', 'L') => 40
    case ('R', 'E', 'S') => 41
    case ('F', 'X', 'U') => 42
    case ('L', 'S', 'U') => 43
    case _ => 3 + |FAMILIES|
  }

  predicate Classed(i: nat)
    requires i < |FAMILIES|
  {
    var p := FAMILIES[i].prefix;
    |p| >= 8 && LetterClass(p[5], p[6], p[7]) == RowClass(i)
  }

  lemma LongEnough(i: nat)
    requires i < |FAMILIES|
    ensures |FAMILIES[i].prefix| >= 8
  {}

  lemma ClassedTo10(i: nat)
    requires i < 10
    ensures Classed(i)
  {}

  lemma ClassedTo20(i: nat)
    requires 10 <= i < 20
    ensures Classed(i)
  {}

  lemma ClassedTo30(i: nat)
    requires 20 <= i < 30
    ensures Classed(i)
  {}

  lemma ClassedToEnd(i: nat)
    requires 30 <= i < |FAMILIES|
    ensures Classed(i)
  {}

  lemma RowClassed(i: nat)
    requires i < |FAMILIES|
    ensures Classed(i)
  {
    if i < 10 {
      ClassedTo10(i);
    } else if i < 20 {
      ClassedTo20(i);
    } else if i < 30 {
      ClassedTo30(i);
    } else {
      ClassedToEnd(i);
    }
  }

  lemma SameLettersAreKin(i: nat, j: nat)
    requires i < j < |FAMILIES| && SameLetters(i, j)
    ensures RowClass(i) == RowClass(j)
  {
    RowClassed(i);
    RowClassed(j);
  }

  predicate Apart(p: string, q: string) {
    |q| < |p| || (|p| > 10 && |q| > 10 && (p[9] != q[9] || p[10] != q[10]))
  }

  lemma EarlyKinApart(i: nat, j: nat)
    requires i < j && i in {0, 2, 14} && j in {2, 3, 15} && RowClass(i) == RowClass(j)
    ensures Apart(FAMILIES[i].prefix, FAMILIES[j].prefix)
  {}

  lemma LateKinApart(i: nat, j: nat)
    requires i < j && i in {31, 32, 33} && j in {32, 33, 34}
    ensures Apart(FAMILIES[i].prefix, FAMILIES[j].prefix)
  {}

  lemma KinApart(i: nat, j: nat)
    requires i < j < |FAMILIES| && RowClass(i) == RowClass(j)
    ensures Apart(FAMILIES[i].prefix, FAMILIES[j].prefix)
  {
    if i < 20 {
      EarlyKinApart(i, j);
    } else {
      LateKinApart(i, j);
    }
  }

  /** An event begins with a row's prefix only if its letters tell the row's class. */
  lemma OwnClass(event: string, i: nat)
    requires i < |FAMILIES| && FAMILIES[i].prefix <= event
    ensures |event| >= 8 && LetterClass(event[5], event[6], event[7]) == RowClass(i)
  {
    RowClassed(i);
  }

  /** A row that shares its letters with no other decides alone. */
  lemma LoneRow(event: string, i: nat)
    requires i < |FAMILIES| && RowClass(i) == 3 + i && FAMILIES[i].prefix <= event
    ensures FamilyOf(FAMILIES, event) == FAMILIES[i].category
  {
    OwnClass(event, i);
    OwnClass(event, FirstRow(FAMILIES, event, 0));
  }

  /** An event whose letters tell no class is in none of the families. */
  lemma NoRow(event: string)
    requires |event| < 8 || LetterClass(event[5], event[6], event[7]) == 3 + |FAMILIES|
    ensures FamilyOf(FAMILIES, event) == "PAPI"
  {
    var row := FirstRow(FAMILIES, event, 0);
    if row < |FAMILIES| {
      OwnClass(event, row);
    }
  }

  /** No prefix in the table begins a later one. */
  lemma LongerComesFirst(i: nat, j: nat)
    requires i < j < |FAMILIES|
    ensures !(FAMILIES[i].prefix <= FAMILIES[j].prefix)
  {
    LongEnough(i);
    LongEnough(j);
    PrefixLetters(FAMILIES[i].prefix, FAMILIES[j].prefix);
    if SameLetters(i, j) {
      SameLettersAreKin(i, j);
      KinApart(i, j);
    }
  }

  lemma PrefixLetters(p: string, q: string)
    requires |p| >= 8
    ensures p <= q ==> |p| <= |q| && p[5] == q[5] && p[6] == q[6] && p[7] == q[7]
    ensures p <= q && |p| > 10 ==> p[9] == q[9] && p[10] == q[10]
  {}

  /** The first match is the longest one, for every event name. */
  lemma FirstIsLongest(event: string, k: nat)
    requires k < |FAMILIES| && FAMILIES[k].prefix <= event
    ensures var row := FirstRow(FAMILIES, event, 0);
      row <= k && (row != k ==> |FAMILIES[k].prefix| < |FAMILIES[row].prefix|)
  {
    var row := FirstRow(FAMILIES, event, 0);
    if row < k {
      LongerComesFirst(row, k);
      ShorterIsPrefix(FAMILIES[row].prefix, FAMILIES[k].prefix, event);
    }
  }

  lemma ShorterIsPrefix(p: string, q: string, event: string)
    requires p <= event && q <= event
    ensures |p| <= |q| ==> p <= q
  {
    assert |p| <= |q| ==> q[..|p|] == event[..|p|];
  }

  // ----- The grouped list -----

  function Tagged(table: seq<Family>, events: seq<string>): seq<Item<string, string>> {
    seq(|events|, i requires 0 <= i < |events| => Item(FamilyOf(table, events[i]), events[i]))
  }

  function PrintGroup(g: Group<string, string>): string {
    g.key + ":" + Text.Join(g.values, ",")
  }

  function Printed(groups: seq<Group<string, string>>): seq<string> {
    seq(|groups|, i requires 0 <= i < |groups| => PrintGroup(groups[i]))
  }

  function PrintGroups(groups: seq<Group<string, string>>): string {
    Text.Join(Printed(groups), ";")
  }

  /** The texts are joined as they come: separators go before every item but the first. */
  lemma {:induction false} JoinPush(items: seq<string>, x: string, sep: string)
    ensures Text.Join(items + [x], sep) == if items == [] then x else Text.Join(items, sep) + sep + x
  {
    if |items| == 1 {
      assert (items + [x])[1..] == [x];
    } else if items != [] {
      JoinPush(items[1..], x, sep);
      assert (items + [x])[1..] == items[1..] + [x];
    }
  }

  lemma TaggedNext(table: seq<Family>, events: seq<string>, i: nat, family: string)
    requires i < |events|
    ensures var items, more := Tagged(table, events[..i]), Tagged(table, events[..i + 1]);
      var f := FamilyOf(table, events[i]);
      && Keys(more) == (if f in Keys(items) then Keys(items) else Keys(items) + [f])
      && ValuesUnder(more, family) == ValuesUnder(items, family) + (if f == family then [events[i]] else [])
  {
    var items, more := Tagged(table, events[..i]), Tagged(table, events[..i + 1]);
    assert more[..|more| - 1] == items && more[i] == Item(FamilyOf(table, events[i]), events[i]);
  }

  lemma KeysNext(table: seq<Family>, events: seq<string>, i: nat, keys: seq<string>)
    requires i < |events| && keys == Keys(Tagged(table, events[..i]))
    ensures var f := FamilyOf(table, events[i]);
      Whole((if f in keys then keys else keys + [f]) == Keys(Tagged(table, events[..i + 1])))
  {
    TaggedNext(table, events, i, "");
  }

  /** The members of one family, printed in a scan over all counters. */
  method PrintMembers(table: seq<Family>, countable: array<string>, n: nat, family: string) returns (text: string)
    requires n <= countable.Length
    ensures text == Text.Join(ValuesUnder(Tagged(table, countable[..n]), family), ",")
  {
    text := "";
    var first := true;
    ghost var events := countable[..n];
    ghost var members: seq<string> := [];
    for j := 0 to n
      invariant members == ValuesUnder(Tagged(table, events[..j]), family)
      invariant text == Text.Join(members, ",") && first == (members == [])
    {
      TaggedNext(table, events, j, family);
      var category := FindFamily(table, countable[j]);
      if category == family {
        JoinPush(members, countable[j], ",");
        text := text + (if first then "" else ",") + countable[j];
        first := false;
        members := members + [countable[j]];
      }
    }
    assert events[..n] == events;
  }

  /** What has been printed once the given families are out. */
  ghost predicate PrintedSofar(text: string, items: seq<Item<string, string>>, keys: seq<string>) {
    text == PrintGroups(GroupsFor(items, keys))
  }

  method PrintFamily(table: seq<Family>, countable: array<string>, n: nat, family: string, first: bool, text: string,
                     ghost keys: seq<string>)
      returns (more: string)
    requires n <= countable.Length && first == (keys == [])
    requires PrintedSofar(text, Tagged(table, countable[..n]), keys)
    ensures PrintedSofar(more, Tagged(table, countable[..n]), keys + [family])
  {
    var members := PrintMembers(table, countable, n, family);
    GroupPrinted(text, Tagged(table, countable[..n]), keys, family);
    more := text + (if first then "" else ";") + (family + ":" + members);
  }

  /** The families in the order of their first counter, each with all its counters in order. */
  method PrintEvents(table: seq<Family>, countable: array<string>, n: nat) returns (text: string)
    requires n <= countable.Length == MAX_EVENTS
    ensures text == PrintGroups(GroupBy(Tagged(table, countable[..n])))
  {
    text := "";
    var emitted := new string[MAX_EVENTS];
    var count: nat := 0;
    ghost var events, keys: seq<string> := countable[..n], [];
    for i := 0 to n
      invariant |keys| == count <= i && emitted[..count] == keys
      invariant Whole(keys == Keys(Tagged(table, events[..i]))) && Whole(PrintedSofar(text, Tagged(table, events), keys))
    {
      text, count, keys := PrintNext(table, countable, n, i, emitted, count, text, events, keys);
    }
    AllPrinted(table, events, keys, text);
  }

  lemma AllPrinted(table: seq<Family>, events: seq<string>, keys: seq<string>, text: string)
    requires Whole(keys == Keys(Tagged(table, events[..|events|]))) && Whole(PrintedSofar(text, Tagged(table, events), keys))
    ensures text == PrintGroups(GroupBy(Tagged(table, events)))
  {
    assert events[..|events|] == events;
  }

  /** The body of the outer loop: a family not emitted yet is noted and printed. */
  method PrintNext(table: seq<Family>, countable: array<string>, n: nat, i: nat, emitted: array<string>, count: nat,
                   text: string, ghost events: seq<string>, ghost keys: seq<string>)
      returns (more: string, counted: nat, ghost keys': seq<string>)
    requires i < n <= countable.Length && emitted != countable && events == countable[..n]
    requires |keys| == count <= i < emitted.Length && emitted[..count] == keys
    requires Whole(keys == Keys(Tagged(table, events[..i]))) && Whole(PrintedSofar(text, Tagged(table, events), keys))
    modifies emitted
    ensures |keys'| == counted <= i + 1 && emitted[..counted] == keys'
    ensures Whole(keys' == Keys(Tagged(table, events[..i + 1]))) && Whole(PrintedSofar(more, Tagged(table, events), keys'))
  {
    var family := FindFamily(table, countable[i]);
    KeysNext(table, events, i, keys);
    var seen := Contains(emitted, count, family);
    if seen {
      return text, count, keys;
    }
    more := PrintFamily(table, countable, n, family, count == 0, text, keys);
    Note(emitted, count, family);
    counted, keys' := count + 1, keys + [family];
  }

  method Note(emitted: array<string>, count: nat, family: string)
    requires count < emitted.Length
    modifies emitted
    ensures emitted[..count + 1] == old(emitted[..count]) + [family]
  {
    emitted[count] := family;
  }

  method Contains(emitted: array<string>, count: nat, family: string) returns (seen: bool)
    requires count <= emitted.Length
    ensures seen == (family in emitted[..count])
  {
    for j := 0 to count
      invariant family !in emitted[..j]
    {
      if emitted[j] == family {
        return true;
      }
    }
    return false;
  }

  lemma GroupPrinted(text: string, items: seq<Item<string, string>>, keys: seq<string>, key: string)
    requires PrintedSofar(text, items, keys)
    ensures var more := text + (if keys == [] then "" else ";") + (key + ":" + Text.Join(ValuesUnder(items, key), ","));
      PrintedSofar(more, items, keys + [key])
  {
    var groups, last := GroupsFor(items, keys), Group(key, ValuesUnder(items, key));
    assert GroupsFor(items, keys + [key]) == groups + [last];
    assert Printed(groups + [last]) == Printed(groups) + [PrintGroup(last)];
    JoinPush(Printed(groups), PrintGroup(last), ";");
    assert keys == [] ==> PrintGroups(groups) == "";
  }

  // ----- What the printed list tells -----

  predicate Plain(s: string) { ';' !in s && ':' !in s && ',' !in s }

  /** Splitting on ';', then at ':' and on ','. */
  function ParsedGroup(piece: string): Group<string, string> {
    var parts := Text.Split(piece, ':');
    Group(parts[0], if |parts| < 2 then [] else Text.Split(parts[1], ','))
  }

  function Parsed(text: string): seq<Group<string, string>> {
    var pieces := Text.Split(text, ';');
    seq(|pieces|, i requires 0 <= i < |pieces| => ParsedGroup(pieces[i]))
  }

  lemma {:induction false} JoinPlain(items: seq<string>, sep: string, c: char)
    requires c !in sep && forall x :: x in items ==> c !in x
    ensures c !in Text.Join(items, sep)
  {
    if |items| > 1 {
      JoinPlain(items[1..], sep, c);
    } else if items != [] {
      assert items[0] in items;
    }
  }

  lemma GroupRead(g: Group<string, string>)
    requires Plain(g.key) && g.values != [] && forall x :: x in g.values ==> Plain(x)
    ensures ParsedGroup(PrintGroup(g)) == g && ';' !in PrintGroup(g)
  {
    var list := Text.Join(g.values, ",");
    JoinPlain(g.values, ",", ':');
    JoinPlain(g.values, ",", ';');
    Text.SplitJoin(g.values, ',');
    Text.SplitHead(g.key, ':', list);
    Text.FreeOfChar(list, ':');
  }

  predicate Readable(g: Group<string, string>) {
    Plain(g.key) && g.values != [] && forall x :: x in g.values ==> Plain(x)
  }

  lemma GroupsRead(groups: seq<Group<string, string>>)
    requires groups != [] && forall i :: 0 <= i < |groups| ==> Readable(groups[i])
    ensures Parsed(PrintGroups(groups)) == groups
  {
    var texts := Printed(groups);
    forall i | 0 <= i < |groups| ensures ParsedGroup(texts[i]) == groups[i] && ';' !in texts[i] {
      GroupRead(groups[i]);
    }
    Text.SplitJoin(texts, ';');
  }

  lemma {:induction false} ValuesOfFamily(table: seq<Family>, events: seq<string>, family: string)
    ensures forall e :: e in ValuesUnder(Tagged(table, events), family) <==> e in events && FamilyOf(table, e) == family
  {
    if events != [] {
      var n := |events| - 1;
      ValuesOfFamily(table, events[..n], family);
      assert events[..n + 1] == events && events == events[..n] + [events[n]];
      TaggedNext(table, events, n, family);
    }
  }

  lemma {:induction false} KeysOfEvents(table: seq<Family>, events: seq<string>)
    ensures forall f :: f in Keys(Tagged(table, events)) <==> exists e :: e in events && FamilyOf(table, e) == f
  {
    if events != [] {
      var n := |events| - 1;
      KeysOfEvents(table, events[..n]);
      assert events[..n + 1] == events && events == events[..n] + [events[n]];
      TaggedNext(table, events, n, "");
    }
  }

  /** A group's members are exactly the counters of its family, of which there are some. */
  ghost predicate IsFamily(table: seq<Family>, events: seq<string>, g: Group<string, string>) {
    g.values != [] && forall e :: e in g.values <==> e in events && FamilyOf(table, e) == g.key
  }

  /** The list is a stable partition: every counter is printed once, under its own family, and no family comes twice. */
  lemma GroupsOfEvents(table: seq<Family>, events: seq<string>)
    ensures multiset(Flat(GroupBy(Tagged(table, events)))) == multiset(events)
    ensures forall i, j :: 0 <= i < j < |GroupBy(Tagged(table, events))| ==>
      GroupBy(Tagged(table, events))[i].key != GroupBy(Tagged(table, events))[j].key
    ensures forall i :: 0 <= i < |GroupBy(Tagged(table, events))| ==> IsFamily(table, events, GroupBy(Tagged(table, events))[i])
  {
    var items := Tagged(table, events);
    GroupsPartition(items);
    assert Values(items) == events;
    KeysMember(items);
    forall i | 0 <= i < |Keys(items)| ensures IsFamily(table, events, GroupBy(items)[i]) {
      assert Keys(items)[i] in Keys(items);
      FamilyFilled(table, events, Keys(items)[i]);
    }
  }

  lemma FamilyFilled(table: seq<Family>, events: seq<string>, family: string)
    requires family in Keys(Tagged(table, events))
    ensures IsFamily(table, events, Group(family, ValuesUnder(Tagged(table, events), family)))
  {
    KeysOfEvents(table, events);
    ValuesOfFamily(table, events, family);
    var e :| e in events && FamilyOf(table, e) == family;
    assert e in ValuesUnder(Tagged(table, events), family);
  }

  /** The groups of any counters can be read off the printed text. */
  lemma PrintedGroupsReadBack(table: seq<Family>, events: seq<string>)
    requires events != [] && forall e :: e in events ==> Plain(e) && Plain(FamilyOf(table, e))
    ensures Parsed(PrintGroups(GroupBy(Tagged(table, events)))) == GroupBy(Tagged(table, events))
  {
    var items := Tagged(table, events);
    var groups := GroupBy(items);
    GroupsOfEvents(table, events);
    forall i | 0 <= i < |groups| ensures Readable(groups[i]) {
      FamilyReadable(table, events, groups[i]);
    }
    KeysMember(items);
    assert items[0].key in Keys(items);
    GroupsRead(groups);
  }

  lemma FamilyReadable(table: seq<Family>, events: seq<string>, g: Group<string, string>)
    requires IsFamily(table, events, g) && forall e :: e in events ==> Plain(e) && Plain(FamilyOf(table, e))
    ensures Readable(g)
  {
    assert g.values[0] in g.values;
  }

  /** Row `i`, as it stands in the table. */
  predicate RowIs(i: nat, prefix: string, category: string) {
    i < |FAMILIES| && FAMILIES[i].prefix == prefix && FAMILIES[i].category == category
  }

  lemma LoneCounter(event: string, i: nat, prefix: string, category: string)
    requires RowIs(i, prefix, category) && RowClass(i) == 3 + i && prefix <= event
    ensures FamilyOf(FAMILIES, event) == category
  {
    LoneRow(event, i);
  }

  /** Counters told by their three letters. */
  lemma CacheCounter(event: string)
    requires event == "PAPI_L1_DCM"
    ensures FamilyOf(FAMILIES, event) == "CACHE"
  {
    LoneCounter(event, 19, "PAPI_L1_", "CACHE");
  }

  lemma BranchCounter(event: string)
    requires event == "PAPI_BR_MSP"
    ensures FamilyOf(FAMILIES, event) == "BRANCH"
  {
    LoneCounter(event, 27, "PAPI_BR_", "BRANCH");
  }

  lemma FloatingLetters(event: string)
    requires |event| >= 8 && event[..8] == "PAPI_FP_"
    ensures event[5] == 'F' && event[6] == 'P' && event[7] == '_'
  {}

  lemma FloatingRow(event: string, row: nat)
    requires row < |FAMILIES| && FAMILIES[row].prefix <= event && |event| >= 8 && event[..8] == "PAPI_FP_"
    ensures row == 14 || row == 15
  {
    OwnClass(event, row);
    FloatingLetters(event);
  }

  lemma FloatingRows()
    ensures RowIs(14, "PAPI_FP_STAL", "STALL") && RowIs(15, "PAPI_FP_", "FLOP")
  {}

  /** Of the two floating-point rows the longer comes first, so that stalls are no operations. */
  lemma FloatingCounters(event: string)
    requires |event| >= 8 && event[..8] == "PAPI_FP_"
    ensures FamilyOf(FAMILIES, event) == if "PAPI_FP_STAL" <= event then "STALL" else "FLOP"
  {
    FloatingRows();
    assert FAMILIES[15].prefix <= event;
    FloatingRow(event, FirstRow(FAMILIES, event, 0));
  }

  lemma MemoryRows()
    ensures RowIs(31, "PAPI_MEM_SCY", "STALL") && RowIs(32, "PAPI_MEM_RCY", "STALL")
    ensures RowIs(33, "PAPI_MEM_WCY", "STALL") && RowIs(34, "PAPI_MEM_", "MEMORY")
  {}

  lemma MemoryRow(event: string, row: nat)
    requires row < |FAMILIES| && FAMILIES[row].prefix <= event && |event| >= 9 && event[..9] == "PAPI_MEM_"
    ensures 31 <= row <= 34
  {
    OwnClass(event, row);
    MemoryLetters(event);
  }

  lemma MemoryLetters(event: string)
    requires |event| >= 9 && event[..9] == "PAPI_MEM_"
    ensures event[5] == 'M' && event[6] == 'E' && event[7] == 'M'
  {}

  /** Memory counters are of memory, but for the cycles stalled on it. */
  lemma MemoryCounters(event: string)
    requires |event| >= 9 && event[..9] == "PAPI_MEM_"
    ensures FamilyOf(FAMILIES, event) ==
      if "PAPI_MEM_SCY" <= event || "PAPI_MEM_RCY" <= event || "PAPI_MEM_WCY" <= event then "STALL" else "MEMORY"
  {
    var row := FirstRow(FAMILIES, event, 0);
    MemoryFirst(event, row);
    MemoryRows();
  }

  /** The three longer rows come before the short one. */
  lemma MemoryFirst(event: string, row: nat)
    requires row == FirstRow(FAMILIES, event, 0) && |event| >= 9 && event[..9] == "PAPI_MEM_"
    ensures row == if "PAPI_MEM_SCY" <= event then 31 else if "PAPI_MEM_RCY" <= event then 32
      else if "PAPI_MEM_WCY" <= event then 33 else 34
  {
    MemoryPrefixes(event);
    MemoryRow(event, row);
  }

  lemma MemoryPrefixes(event: string)
    requires |event| >= 9 && event[..9] == "PAPI_MEM_"
    ensures FAMILIES[31].prefix <= event <==> "PAPI_MEM_SCY" <= event
    ensures FAMILIES[32].prefix <= event <==> "PAPI_MEM_RCY" <= event
    ensures FAMILIES[33].prefix <= event <==> "PAPI_MEM_WCY" <= event
    ensures FAMILIES[34].prefix <= event
  {
    MemoryRows();
  }

  lemma TotalRows()
    ensures RowIs(0, "PAPI_TOT_CYC", "CYCLE") && RowIs(2, "PAPI_TOT_INS", "INSTRUCTION") && RowIs(3, "PAPI_TOT_IIS", "INSTRUCTION")
  {}

  lemma TotalLetters(event: string)
    requires |event| >= 9 && event[..9] == "PAPI_TOT_"
    ensures event[5] == 'T' && event[6] == 'O' && event[7] == 'T'
  {}

  lemma TotalRow(event: string, row: nat)
    requires row < |FAMILIES| && FAMILIES[row].prefix <= event && |event| >= 9 && event[..9] == "PAPI_TOT_"
    ensures row == 0 || row == 2 || row == 3
  {
    OwnClass(event, row);
    TotalLetters(event);
  }

  /** Totals are of cycles or of instructions, and others of no family. */
  lemma TotalCounters(event: string)
    requires |event| >= 9 && event[..9] == "PAPI_TOT_"
    ensures FamilyOf(FAMILIES, event) ==
      if "PAPI_TOT_CYC" <= event then "CYCLE"
      else if "PAPI_TOT_INS" <= event || "PAPI_TOT_IIS" <= event then "INSTRUCTION" else "PAPI"
  {
    TotalRows();
    var row := FirstRow(FAMILIES, event, 0);
    if row < |FAMILIES| {
      TotalRow(event, row);
    }
  }

  /** Outside the table. */
  lemma ForeignCounters(native: string, short: string)
    requires native == "PAPI_NATIVE_MASK" && short == "cycles"
    ensures FamilyOf(FAMILIES, native) == "PAPI" && FamilyOf(FAMILIES, short) == "PAPI"
  {
    NoRow(native);
    NoRow(short);
  }

  predicate Known(category: string) {
    || category == "CYCLE" || category == "INSTRUCTION" || category == "INTERRUPT" || category == "FLOP" || category == "STALL"
    || category == "CACHE" || category == "COHERENCY" || category == "PREFETCH" || category == "TLB" || category == "BRANCH"
    || category == "MEMORY" || category == "SYNC"
  }

  lemma KnownPlain(category: string)
    requires Known(category)
    ensures Plain(category)
  {}

  lemma EarlyKnown(i: nat)
    requires i < 20
    ensures Known(FAMILIES[i].category)
  {}

  lemma LateKnown(i: nat)
    requires 20 <= i < |FAMILIES|
    ensures Known(FAMILIES[i].category)
  {}

  /** The categories of the table hold none of the separators. */
  lemma CategoriesPlain(event: string)
    ensures Plain(FamilyOf(FAMILIES, event))
  {
    var row := FirstRow(FAMILIES, event, 0);
    if row < |FAMILIES| {
      if row < 20 {
        EarlyKnown(row);
      } else {
        LateKnown(row);
      }
      KnownPlain(FAMILIES[row].category);
    }
  }
}
