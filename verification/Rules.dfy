/** The rule language: a recursive splitter with its own precedence, and the meaning of what it reads. */
module RuleLanguage {
  import opened Text
  import opened Wrappers

  datatype Op = EQ | NEQ | GTE | LTE | GT | LT

  /** `Nothing` is the empty tree. A literal is kept as text; reading it as a number is left to the atom. */
  datatype Rule =
    | Nothing
    | And(left: Rule, right: Rule)
    | Or(left: Rule, right: Rule)
    | Not(operand: Rule)
    | In(field: string, values: set<string>)
    | Like(field: string, pattern: string)
    | Compare(op: Op, field: string, literal: string)
  {
    predicate IsAtom() { In? || Like? || Compare? || Nothing? }
  }

  /** Removes one pair of equal quotes. */
  function FixString(s: string): string {
    if s != "" && ((s[0] == '\'' && s[|s| - 1] == '\'') || (s[0] == '"' && s[|s| - 1] == '"')) then Inner(s) else s
  }

  /** `substr(1, size - 2)`: the text without its first and last character, "" when there is only one. */
  function Inner(s: string): string { if |s| < 2 then "" else s[1..|s| - 1] }

  function Symbol(op: Op): string {
    match op
    case EQ => "=="
    case NEQ => "!="
    case GTE => ">="
    case LTE => "<="
    case GT => ">"
    case LT => "<"
  }

  const OPS: seq<Op> := [EQ, NEQ, GTE, LTE, GT, LT]

  /** The first operator of the list, not of the text, that occurs anywhere. */
  function ParseCompare(t: string, i: nat): Rule
    requires i <= |OPS|
    decreases |OPS| - i
  {
    if i == |OPS| then Nothing else
    match Find(t, Symbol(OPS[i]))
    case None => ParseCompare(t, i + 1)
    case Some(at) => Compare(OPS[i], Trim(t[..at]), FixString(Trim(t[at + |Symbol(OPS[i])|..])))
  }

  function ParseLike(t: string): Rule {
    match Find(t, " LIKE ")
    case None => ParseCompare(t, 0)
    case Some(at) => Like(t[..at], FixString(Inner(t[at + 6..])))
  }

  predicate Braced(s: string) { s != "" && s[0] == '{' && s[|s| - 1] == '}' }

  function FixAll(items: seq<string>): set<string> { set x | x in items :: FixString(x) }

  function ParseAtom(t: string): Rule {
    match Find(t, " IN ")
    case None => ParseLike(t)
    case Some(at) =>
      if Braced(t[at + 4..]) then In(t[..at], FixAll(Split(Inner(t[at + 4..]), ','))) else ParseLike(t)
  }

  predicate StartsNot(t: string) { "NOT " <= t }

  /** A leading NOT takes the whole rest, AND splits before OR, and both split at their first occurrence. */
  function Parse(rule: string): Rule
    decreases |rule|
  {
    TrimShorter(rule);
    var t := Trim(rule);
    if StartsNot(t) then Not(Parse(t[4..])) else
    match Find(t, " AND ")
    case Some(i) => And(Parse(t[..i]), Parse(t[i + 5..]))
    case None =>
      match Find(t, " OR ")
      case Some(i) => Or(Parse(t[..i]), Parse(t[i + 4..]))
      case None => ParseAtom(t)
  }

  function Eval(r: Rule, holds: Rule -> bool): bool {
    match r
    case Nothing => true
    case And(a, b) => Eval(a, holds) && Eval(b, holds)
    case Or(a, b) => Eval(a, holds) || Eval(b, holds)
    case Not(a) => !Eval(a, holds)
    case _ => holds(r)
  }

  /** The items of a braced set, gathered comma by comma. */
  method ParseItems(s: string) returns (values: set<string>)
    ensures values == FixAll(Split(s, ','))
  {
    values := {};
    var start := 0;
    ghost var done: seq<string> := [];
    var end := Find(s, [',']);
    while end.Some?
      invariant 0 <= start <= |s| && end == Find(s[start..], [','])
      invariant Split(s, ',') == done + Split(s[start..], ',')
      invariant values == FixAll(done)
      decreases |s| - start
    {
      var item := s[start..][..end.value];
      values := values + {FixString(item)};
      SplitOff(s[start..], end.value, done);
      FixAllPush(done, item);
      done := done + [item];
      assert s[start..][end.value + 1..] == s[start + end.value + 1..];
      start := start + end.value + 1;
      end := Find(s[start..], [',']);
    }
    FixAllPush(done, s[start..]);
    values := values + {FixString(s[start..])};
  }

  lemma SplitOff(rest: string, n: nat, done: seq<string>)
    requires Find(rest, [',']) == Some(n)
    ensures n < |rest| && done + Split(rest, ',') == done + [rest[..n]] + Split(rest[n + 1..], ',')
  {
    Regroup(done, [rest[..n]], Split(rest[n + 1..], ','));
  }

  lemma Regroup<T>(a: seq<T>, b: seq<T>, c: seq<T>)
    ensures a + (b + c) == a + b + c
  {}

  lemma FixAllPush(items: seq<string>, x: string)
    ensures FixAll(items + [x]) == FixAll(items) + {FixString(x)}
  {
    assert forall y :: y in items + [x] <==> y in items || y == x;
  }

  /** The recursive parser as the rules class runs it. */
  method ParseRule(rule: string) returns (r: Rule)
    ensures r == Parse(rule)
    decreases |rule|
  {
    var t := Trim(rule);
    TrimShorter(rule);
    if StartsNot(t) {
      var operand := ParseRule(t[4..]);
      return Not(operand);
    }
    var andPos, orPos := Find(t, " AND "), Find(t, " OR ");
    if andPos.Some? {
      var left := ParseRule(t[..andPos.value]);
      var right := ParseRule(t[andPos.value + 5..]);
      return And(left, right);
    }
    if orPos.Some? {
      var left := ParseRule(t[..orPos.value]);
      var right := ParseRule(t[orPos.value + 4..]);
      return Or(left, right);
    }
    var inPos := Find(t, " IN ");
    if inPos.Some? {
      var braced := t[inPos.value + 4..];
      if Braced(braced) {
        var values := ParseItems(Inner(braced));
        return In(t[..inPos.value], values);
      }
    }
    r := ParseLike(t);
  }

  ghost predicate SomeRule(asts: seq<Rule>, holds: Rule -> bool) {
    exists i :: 0 <= i < |asts| && Eval(asts[i], holds)
  }

  /** With no rules at all everything is aggregated; else what some inclusion rule and no exclusion rule selects. */
  ghost predicate Aggregates(inclusion: seq<Rule>, exclusion: seq<Rule>, holds: Rule -> bool) {
    (inclusion == [] && exclusion == []) || (SomeRule(inclusion, holds) && !SomeRule(exclusion, holds))
  }

  class Rules {
    var asts: seq<Rule>

    constructor ()
      ensures asts == []
    {
      asts := [];
    }

    method AddRule(rule: string)
      modifies this
      ensures asts == old(asts) + [Parse(rule)]
    {
      var ast := ParseRule(rule);
      asts := asts + [ast];
    }

    /** Some rule holds. */
    method Satisfies(holds: Rule -> bool) returns (b: bool)
      ensures b <==> SomeRule(asts, holds)
    {
      for i := 0 to |asts|
        invariant forall j :: 0 <= j < i ==> !Eval(asts[j], holds)
      {
        if Eval(asts[i], holds) {
          return true;
        }
      }
      b := false;
    }
  }

  method ShouldAggregate(inclusion: Rules, exclusion: Rules, holds: Rule -> bool) returns (b: bool)
    ensures b <==> Aggregates(inclusion.asts, exclusion.asts, holds)
  {
    if inclusion.asts == [] && exclusion.asts == [] {
      return true;
    }
    var included := inclusion.Satisfies(holds);
    var excluded := exclusion.Satisfies(holds);
    b := included && !excluded;
  }
}
