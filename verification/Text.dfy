/** The few string operations the parsers use. */
module Text {
  import opened Wrappers

  predicate Blank(c: char) { c == ' ' || c == '\t' }

  function TrimLeft(s: string): string {
    if s != "" && Blank(s[0]) then TrimLeft(s[1..]) else s
  }

  function TrimRight(s: string): string {
    if s != "" && Blank(s[|s| - 1]) then TrimRight(s[..|s| - 1]) else s
  }

  function Trim(s: string): string { TrimRight(TrimLeft(s)) }

  predicate Trimmed(s: string) {
    s == "" || (!Blank(s[0]) && !Blank(s[|s| - 1]))
  }

  predicate OccursAt(s: string, pat: string, i: nat) {
    i + |pat| <= |s| && s[i..i + |pat|] == pat
  }

  predicate Free(s: string, pat: string) {
    forall i :: 0 <= i <= |s| ==> !OccursAt(s, pat, i)
  }

  function FindFrom(s: string, pat: string, i: nat): (r: Option<nat>)
    requires i <= |s|
    ensures r.Some? ==> i <= r.value <= |s| && OccursAt(s, pat, r.value)
    ensures r.Some? ==> forall j :: i <= j < r.value ==> !OccursAt(s, pat, j)
    ensures r.None? ==> forall j :: i <= j <= |s| ==> !OccursAt(s, pat, j)
    decreases |s| - i
  {
    if OccursAt(s, pat, i) then Some(i) else if i == |s| then None else FindFrom(s, pat, i + 1)
  }

  /** The first occurrence, as `std::string::find`. */
  function Find(s: string, pat: string): (r: Option<nat>)
    ensures r.Some? ==> r.value <= |s| && OccursAt(s, pat, r.value)
    ensures r.Some? ==> forall j :: 0 <= j < r.value ==> !OccursAt(s, pat, j)
    ensures r.None? <==> Free(s, pat)
  {
    FindFrom(s, pat, 0)
  }

  lemma FoundAt(s: string, pat: string, i: nat)
    requires OccursAt(s, pat, i) && forall j :: 0 <= j < i ==> !OccursAt(s, pat, j)
    ensures Find(s, pat) == Some(i)
  {}

  lemma {:induction false} TrimLeftSuffix(s: string)
    ensures |TrimLeft(s)| <= |s| && TrimLeft(s) == s[|s| - |TrimLeft(s)|..]
    ensures TrimLeft(s) == "" || !Blank(TrimLeft(s)[0])
    ensures forall i :: 0 <= i < |s| - |TrimLeft(s)| ==> Blank(s[i])
  {
    if s != "" && Blank(s[0]) {
      TrimLeftSuffix(s[1..]);
      forall i | 0 <= i < |s| - |TrimLeft(s)| ensures Blank(s[i]) {
        assert i > 0 ==> s[i] == s[1..][i - 1];
      }
    }
  }

  lemma {:induction false} TrimRightPrefix(s: string)
    ensures TrimRight(s) <= s
    ensures TrimRight(s) == "" || !Blank(TrimRight(s)[|TrimRight(s)| - 1])
    ensures forall i :: |TrimRight(s)| <= i < |s| ==> Blank(s[i])
  {
    if s != "" && Blank(s[|s| - 1]) {
      TrimRightPrefix(s[..|s| - 1]);
    }
  }

  lemma TrimmedEnds(s: string, a: nat, b: nat)
    requires a < b <= |s|
    ensures Trimmed(s[a..b]) <==> !Blank(s[a]) && !Blank(s[b - 1])
  {
    assert s[a..b][0] == s[a] && s[a..b][b - a - 1] == s[b - 1];
  }

  /** Trimming cuts a middle without blank ends out of the text. */
  lemma TrimIs(s: string) returns (a: nat, b: nat)
    ensures a <= b <= |s| && Trim(s) == s[a..b] && Trimmed(s[a..b])
    ensures (forall i :: 0 <= i < a ==> Blank(s[i])) && (forall i :: b <= i < |s| ==> Blank(s[i]))
    ensures a < b ==> !Blank(s[a]) && !Blank(s[b - 1])
  {
    var t := TrimLeft(s);
    TrimLeftSuffix(s);
    TrimRightPrefix(t);
    a := |s| - |t|;
    b := a + |Trim(s)|;
    assert Trim(s) == s[a..b];
    forall i | b <= i < |s| ensures Blank(s[i]) {
      assert s[i] == t[i - a];
    }
    if a < b {
      assert Trim(s)[0] == t[0];
      TrimmedEnds(s, a, b);
    }
  }

  lemma TrimTrimmed(s: string)
    requires Trimmed(s)
    ensures Trim(s) == s
  {}

  lemma TrimShorter(s: string)
    ensures |Trim(s)| <= |s|
  {
    var a, b := TrimIs(s);
  }

  /** What is not blank at both ends is exactly what trimming finds between blanks. */
  lemma TrimBetween(s: string, a: nat, b: nat)
    requires a <= b <= |s| && Trimmed(s[a..b])
    requires forall i :: 0 <= i < a ==> Blank(s[i])
    requires forall i :: b <= i < |s| ==> Blank(s[i])
    ensures Trim(s) == s[a..b]
  {
    var x, y := TrimIs(s);
    if a < b {
      TrimmedEnds(s, a, b);
      assert x <= a && b <= y;
    }
  }

  lemma SliceOfSlice(s: string, a: nat, b: nat, i: nat, j: nat)
    requires a <= b <= |s| && i <= j <= b - a
    ensures s[a..b][i..j] == s[a + i..a + j]
  {
    var x, y := s[a..b][i..j], s[a + i..a + j];
    assert |x| == |y| && forall k :: 0 <= k < |x| ==> x[k] == y[k];
  }

  lemma FreeSlice(s: string, pat: string, a: nat, b: nat)
    requires Free(s, pat) && a <= b <= |s|
    ensures Free(s[a..b], pat)
  {
    forall i | 0 <= i <= b - a ensures !OccursAt(s[a..b], pat, i) {
      assert !OccursAt(s, pat, a + i);
      if i + |pat| <= b - a {
        SliceOfSlice(s, a, b, i, i + |pat|);
      }
    }
  }

  lemma FreeFrom(s: string, pat: string, a: nat)
    requires Free(s, pat) && a <= |s|
    ensures Free(s[a..], pat)
  {
    FreeSlice(s, pat, a, |s|);
    assert s[a..|s|] == s[a..];
  }

  lemma FreeUpTo(s: string, pat: string, b: nat)
    requires Free(s, pat) && b <= |s|
    ensures Free(s[..b], pat)
  {
    FreeSlice(s, pat, 0, b);
    assert s[0..b] == s[..b];
  }

  lemma FreeTrim(s: string, pat: string)
    requires Free(s, pat)
    ensures Free(Trim(s), pat)
  {
    var a, b := TrimIs(s);
    FreeSlice(s, pat, a, b);
  }

  /** A word none of whose letters occurs in `m` cannot reach across `m`. */
  lemma FreeAcross(u: string, m: string, v: string, pat: string)
    requires Free(u, pat) && Free(v, pat) && m != "" && pat != ""
    requires forall c :: c in m ==> c !in pat
    ensures Free(u + m + v, pat)
  {
    var s := u + m + v;
    forall i | 0 <= i <= |s| ensures !OccursAt(s, pat, i) {
      if i + |pat| <= |u| {
        assert !OccursAt(u, pat, i);
        assert s[i..i + |pat|] == u[i..i + |pat|];
      } else if i >= |u| + |m| {
        assert !OccursAt(v, pat, i - |u| - |m|);
        if i + |pat| <= |s| {
          assert s[i..i + |pat|] == v[i - |u| - |m|..i - |u| - |m| + |pat|];
        }
      } else if i + |pat| <= |s| {
        var at := if i < |u| then |u| else i;
        assert s[at] == m[at - |u|] && m[at - |u|] in m;
        assert s[i..i + |pat|][at - i] == s[at];
        assert pat[at - i] in pat;
      }
    }
  }

  // ----- Lists of items -----

  function Join(items: seq<string>, sep: string): string {
    if items == [] then "" else if |items| == 1 then items[0] else items[0] + sep + Join(items[1..], sep)
  }

  /** The pieces between the separators, empty ones included. */
  function Split(s: string, sep: char): seq<string> {
    match Find(s, [sep])
    case None => [s]
    case Some(i) => [s[..i]] + Split(s[i + 1..], sep)
  }

  lemma FreeOfChar(s: string, c: char)
    requires c !in s
    ensures Free(s, [c])
  {
    forall i | 0 <= i <= |s| ensures !OccursAt(s, [c], i) {
      if i + 1 <= |s| {
        assert s[i..i + 1][0] == s[i];
      }
    }
  }

  /** Splitting undoes joining when no item holds the separator. */
  lemma {:induction false} SplitJoin(items: seq<string>, sep: char)
    requires items != [] && forall x :: x in items ==> sep !in x
    ensures Split(Join(items, [sep]), sep) == items
  {
    if |items| == 1 {
      FreeOfChar(items[0], sep);
    } else {
      var rest := Join(items[1..], [sep]);
      SplitJoin(items[1..], sep);
      SplitHead(items[0], sep, rest);
    }
  }

  lemma SplitHead(x: string, sep: char, rest: string)
    requires sep !in x
    ensures Split(x + [sep] + rest, sep) == [x] + Split(rest, sep)
  {
    var s := x + [sep] + rest;
    forall j | 0 <= j < |x| ensures !OccursAt(s, [sep], j) {
      assert s[j..j + 1][0] == x[j];
    }
    assert s[|x|..|x| + 1] == [sep];
    FoundAt(s, [sep], |x|);
    assert s[..|x|] == x && s[|x| + 1..] == rest;
  }
}
