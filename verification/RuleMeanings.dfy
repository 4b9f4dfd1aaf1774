/** What rules say, letter by letter: each comparison operator as it is written, and the texts that are no rule at all. */
module RuleMeanings {
  import opened Text
  import opened RuleLanguage
  import opened PrintedRules
  import opened Wrappers

  // ----- Operators -----

  /** The field and the value can stand on either side of any operator. */
  ghost predicate Comparable(field: string, l: Literal) {
    forall op :: AtomOk(Compares(op, field, l))
  }

  ghost predicate ReadAs(text: string, r: Rule) { Parse(text) == r }

  /** The value as `l` says it is written. */
  predicate Spelled(l: Literal, value: string) {
    match l.quoting
    case Bare => value == l.text
    case Single => value == ['\''] + l.text + ['\'']
    case Double => value == ['"'] + l.text + ['"']
  }

  lemma ComparisonParsed(op: Op, mid: string, field: string, l: Literal, value: string)
    requires Comparable(field, l) && Spelled(l, value) && mid == " " + Symbol(op) + " "
    ensures Whole(ReadAs(field + mid + value, Compare(op, field, l.text)))
  {
    SpelledIs(l, value);
    Joined(field, Symbol(op), mid, value);
    AtomReads(Compares(op, field, l), field + mid + value);
  }

  lemma SpelledIs(l: Literal, value: string)
    requires Spelled(l, value)
    ensures value == Spell(l)
  {}

  lemma Joined(field: string, sym: string, mid: string, value: string)
    requires mid == " " + sym + " "
    ensures field + mid + value == field + " " + sym + " " + value
  {}

  lemma AtomReads(a: Atom, text: string)
    requires AtomOk(a) && text == PrintAtom(a)
    ensures Whole(ReadAs(text, AtomMeaning(a)))
  {
    LeafParsed(a);
  }

  lemma Letters(op: Op)
    ensures match op
      case EQ => " " + Symbol(op) + " " == " == "
      case NEQ => " " + Symbol(op) + " " == " != "
      case GTE => " " + Symbol(op) + " " == " >= "
      case LTE => " " + Symbol(op) + " " == " <= "
      case GT => " " + Symbol(op) + " " == " > "
      case LT => " " + Symbol(op) + " " == " < "
  {}

  lemma EqualityRead(field: string, l: Literal, value: string)
    requires Comparable(field, l) && Spelled(l, value)
    ensures Whole(ReadAs(field + " == " + value, Compare(EQ, field, l.text)))
    ensures Whole(ReadAs(field + " != " + value, Compare(NEQ, field, l.text)))
  {
    Letters(EQ);
    ComparisonParsed(EQ, " == ", field, l, value);
    Letters(NEQ);
    ComparisonParsed(NEQ, " != ", field, l, value);
  }

  lemma BoundsRead(field: string, l: Literal, value: string)
    requires Comparable(field, l) && Spelled(l, value)
    ensures Whole(ReadAs(field + " >= " + value, Compare(GTE, field, l.text)))
    ensures Whole(ReadAs(field + " <= " + value, Compare(LTE, field, l.text)))
  {
    Letters(GTE);
    ComparisonParsed(GTE, " >= ", field, l, value);
    Letters(LTE);
    ComparisonParsed(LTE, " <= ", field, l, value);
  }

  lemma OrderRead(field: string, l: Literal, value: string)
    requires Comparable(field, l) && Spelled(l, value)
    ensures Whole(ReadAs(field + " > " + value, Compare(GT, field, l.text)))
    ensures Whole(ReadAs(field + " < " + value, Compare(LT, field, l.text)))
  {
    Letters(GT);
    ComparisonParsed(GT, " > ", field, l, value);
    Letters(LT);
    ComparisonParsed(LT, " < ", field, l, value);
  }

  /** Each operator as it is written, before a value that is bare or between quotes of either kind. */
  lemma OperatorsRead(field: string, l: Literal, value: string)
    requires Comparable(field, l) && Spelled(l, value)
    ensures Whole(ReadAs(field + " == " + value, Compare(EQ, field, l.text)))
    ensures Whole(ReadAs(field + " != " + value, Compare(NEQ, field, l.text)))
    ensures Whole(ReadAs(field + " >= " + value, Compare(GTE, field, l.text)))
    ensures Whole(ReadAs(field + " <= " + value, Compare(LTE, field, l.text)))
    ensures Whole(ReadAs(field + " > " + value, Compare(GT, field, l.text)))
    ensures Whole(ReadAs(field + " < " + value, Compare(LT, field, l.text)))
  {
    EqualityRead(field, l, value);
    BoundsRead(field, l, value);
    OrderRead(field, l, value);
  }

  /** Words of small letters, digits and the like: nothing in them can be taken for an operator. */
  predicate Small(c: char) {
    && !Blank(c) && c != '\'' && c != '"' && c != '=' && c != '!' && c != '<' && c != '>'
    && c != 'A' && c != 'O' && c != 'I' && c != 'L' && c != 'N'
  }

  predicate SmallWord(s: string) { s != "" && forall c :: c in s ==> Small(c) }

  lemma FreeByChar(t: string, pat: string, k: nat)
    requires k < |pat| && pat[k] !in t
    ensures Free(t, pat)
  {
    forall i | 0 <= i <= |t| ensures !OccursAt(t, pat, i) {
      if i + |pat| <= |t| {
        assert t[i..i + |pat|][k] == t[i + k];
      }
    }
  }

  /** So any operator can stand between two of them. */
  lemma SmallWordsComparable(field: string, l: Literal)
    requires SmallWord(field) && SmallWord(l.text)
    ensures Comparable(field, l)
  {
    forall op ensures AtomOk(Compares(op, field, l)) {
      SmallAtom(op, field, l);
    }
  }

  lemma SmallAtom(op: Op, field: string, l: Literal)
    requires SmallWord(field) && SmallWord(l.text)
    ensures AtomOk(Compares(op, field, l))
  {
    var t := Comparison(op, field, Spell(l));
    SmallComparison(op, field, l, t);
    FreeByChar(Pad(t), " AND ", 1);
    FreeByChar(Pad(t), " OR ", 1);
    FreeByChar(t, " IN ", 1);
    FreeByChar(t, " LIKE ", 1);
  }

  lemma SmallComparison(op: Op, field: string, l: Literal, t: string)
    requires SmallWord(field) && SmallWord(l.text) && t == Comparison(op, field, Spell(l))
    ensures forall c :: c in Pad(t) ==> c != 'A' && c != 'O' && c != 'I' && c != 'L'
    ensures t != "" && Trimmed(t) && !StartsNot(t + " ")
    ensures Trimmed(field) && NoOperators(field) && NoOperators(l.text) && LiteralOk(l) && Trimmed(Spell(l))
  {
    SmallEnds(field);
    SmallEnds(l.text);
    SmallSpelled(l);
    SmallLetters(op, field, Spell(l), t);
    SmallText(field, " " + Symbol(op) + " ", Spell(l), t);
  }

  lemma SmallEnds(s: string)
    requires SmallWord(s)
    ensures Small(s[0]) && Small(s[|s| - 1]) && Trimmed(s) && NoOperators(s) && FixString(s) == s
  {
    assert s[0] in s && s[|s| - 1] in s;
  }

  predicate Unlike(c: char) { c != 'A' && c != 'O' && c != 'I' && c != 'L' }

  lemma SmallSpelled(l: Literal)
    requires SmallWord(l.text)
    ensures Spell(l) != "" && Trimmed(Spell(l)) && forall c :: c in Spell(l) ==> Unlike(c)
  {
    SmallEnds(l.text);
  }

  lemma SmallLetters(op: Op, field: string, value: string, t: string)
    requires SmallWord(field) && (forall c :: c in value ==> Unlike(c)) && t == Comparison(op, field, value)
    ensures forall c :: c in Pad(t) ==> Unlike(c)
  {
    assert forall c :: c in Symbol(op) ==> Unlike(c);
  }

  lemma SmallText(x: string, mid: string, y: string, t: string)
    requires x != "" && y != "" && t == x + mid + y && Small(x[0]) && Trimmed(y)
    ensures t != "" && Trimmed(t) && !StartsNot(t + " ")
  {
    assert t[0] == x[0] && t[|t| - 1] == y[|y| - 1] && (t + " ")[0] == x[0];
  }

  /** For one: durations over a thousand. */
  lemma LongDurations(rule: string)
    requires rule == "dur > 1000"
    ensures Whole(ReadAs(rule, Compare(GT, "dur", "1000")))
  {
    var field, number := DurationWords(rule);
    SmallWordsComparable(field, Literal(Bare, number));
    OrderRead(field, Literal(Bare, number), number);
  }

  lemma DurationWords(rule: string) returns (field: string, number: string)
    requires rule == "dur > 1000"
    ensures field == "dur" && number == "1000" && SmallWord(field) && SmallWord(number) && rule == field + " > " + number
  {
    field, number := "dur", "1000";
  }

  /** Blanks and tabs around a rule do not matter. */
  lemma BlanksAround(rule: string, left: char, right: char)
    requires (left == ' ' || left == '\t') && (right == ' ' || right == '\t')
    ensures Whole(Parse([left] + rule + [right]) == Parse(rule))
  {
    var a, b := TrimIs(rule);
    var s := [left] + rule + [right];
    assert s[a + 1..b + 1] == rule[a..b];
    forall i | 0 <= i < a + 1 ensures Blank(s[i]) {
      assert i > 0 ==> s[i] == rule[i - 1];
    }
    forall i | b + 1 <= i < |s| ensures Blank(s[i]) {
      assert i < |rule| + 1 ==> s[i] == rule[i - 1];
    }
    TrimBetween(s, a + 1, b + 1);
    SameTrimSameRule(s, rule);
  }

  /** And no other character is taken off. */
  lemma OthersStay(s: string)
    requires s != "" && s[0] != ' ' && s[0] != '\t' && s[|s| - 1] != ' ' && s[|s| - 1] != '\t'
    ensures Trim(s) == s
  {
    TrimTrimmed(s);
  }

  // ----- Patterns -----

  /** The first and the last letter behind LIKE are taken for quotes, whatever they are. */
  lemma LikeCutsEnds(field: string, pattern: string)
    requires |pattern| >= 2 && Free(field + " ", " LIKE ")
    requires forall c :: c in pattern ==> c != '\'' && c != '"'
    ensures ParseLike(field + " LIKE " + pattern) == Like(field, pattern[1..|pattern| - 1])
  {
    FirstAt(field, " LIKE ", pattern);
    Unquoted(pattern, pattern[1..|pattern| - 1]);
  }

  lemma Unquoted(s: string, x: string)
    requires (forall c :: c in s ==> c != '\'' && c != '"') && forall c :: c in x ==> c in s
    ensures FixString(x) == x
  {
    assert x != "" ==> x[0] in x;
  }

  /** A set that is not closed is none: the text is read on as if IN were not there. */
  lemma OpenSet(t: string)
    requires t != "" && t[|t| - 1] != '}'
    ensures ParseAtom(t) == ParseLike(t)
  {}

  // ----- No rule at all -----

  /** A braced set behind the first IN. */
  predicate HasSet(t: string) {
    match Find(t, " IN ")
    case None => false
    case Some(at) => at + 4 < |t| && t[at + 4] == '{' && t[|t| - 1] == '}'
  }

  /** A text with no NOT in front and no operator in it. */
  predicate NoOperator(t: string) {
    && !("NOT " <= t) && Free(t, " AND ") && Free(t, " OR ") && !HasSet(t) && Free(t, " LIKE ")
    && NoComparisonIn(t)
  }

  lemma LongerFree(t: string, one: string, two: string)
    requires Free(t, one) && |one| == 1 && |two| == 2 && two[0] == one[0]
    ensures Free(t, two)
  {
    forall i | 0 <= i <= |t| ensures !OccursAt(t, two, i) {
      assert !OccursAt(t, one, i);
      if i + 2 <= |t| {
        assert t[i..i + 2][0] == t[i..i + 1][0];
      }
    }
  }

  ghost predicate FreeOf(t: string, k: nat) { k < |OPS| && Free(t, Symbol(OPS[k])) }

  ghost predicate AllFree(t: string, i: nat)
    requires i <= |OPS|
    decreases |OPS| - i
  {
    i == |OPS| || (FreeOf(t, i) && AllFree(t, i + 1))
  }

  lemma {:induction false} NoComparison(t: string, i: nat)
    requires i <= |OPS|
    ensures ParseCompare(t, i) == Nothing <==> AllFree(t, i)
    decreases |OPS| - i
  {
    if i < |OPS| {
      NoComparison(t, i + 1);
    }
  }

  lemma AllFreeStep(t: string, i: nat)
    requires i < |OPS|
    ensures AllFree(t, i) <==> FreeOf(t, i) && (i + 1 == |OPS| || AllFree(t, i + 1))
  {}

  lemma OperatorsListed(t: string)
    ensures FreeOf(t, 0) <==> Free(t, "==")
    ensures FreeOf(t, 1) <==> Free(t, "!=")
    ensures FreeOf(t, 2) <==> Free(t, ">=")
    ensures FreeOf(t, 3) <==> Free(t, "<=")
    ensures FreeOf(t, 4) <==> Free(t, ">")
    ensures FreeOf(t, 5) <==> Free(t, "<")
  {}

  lemma AllFreeIs(t: string)
    ensures AllFree(t, 0) <==>
      FreeOf(t, 0) && FreeOf(t, 1) && FreeOf(t, 2) && FreeOf(t, 3) && FreeOf(t, 4) && FreeOf(t, 5)
  {
    AllFreeStep(t, 0);
    AllFreeStep(t, 1);
    AllFreeStep(t, 2);
    AllFreeStep(t, 3);
    AllFreeStep(t, 4);
    AllFreeStep(t, 5);
  }

  predicate NoComparisonIn(t: string) { Free(t, "==") && Free(t, "!=") && Free(t, ">") && Free(t, "<") }

  lemma AllFreeSpelled(t: string)
    ensures AllFree(t, 0) <==> NoComparisonIn(t)
  {
    AllFreeIs(t);
    OperatorsListed(t);
    if Free(t, ">") {
      LongerFree(t, ">", ">=");
    }
    if Free(t, "<") {
      LongerFree(t, "<", "<=");
    }
  }

  lemma NoComparisonIff(t: string)
    ensures ParseCompare(t, 0) == Nothing <==> NoComparisonIn(t)
  {
    NoComparison(t, 0);
    AllFreeSpelled(t);
  }

  /** A text is no rule at all exactly when, between its blanks, it has no operator. */
  lemma NothingIff(s: string)
    ensures Parse(s) == Nothing <==> NoOperator(Trim(s))
  {
    NoComparisonIff(Trim(s));
  }

  /** And then it holds of every event, whatever the atoms mean. */
  lemma NoOperatorHolds(s: string, holds: Rule -> bool)
    requires NoOperator(Trim(s))
    ensures Eval(Parse(s), holds)
  {
    NothingIff(s);
  }

  /** So does NOT before blanks, while NOT before any other text without operator never holds. */
  lemma NotNothing(s: string, holds: Rule -> bool)
    requires Trim(s) == "" || NoOperator(Trim(s))
    ensures Eval(Parse("NOT " + s), holds) <==> Trim(s) == ""
  {
    if Trim(s) == "" {
      BlankNot(s);
    } else {
      NothingIff(s);
      NotTakesTheRest(s);
    }
  }

  /** A rule that holds of every event. */
  ghost predicate Always(rule: string) { forall holds: Rule -> bool :: Eval(Parse(rule), holds) }

  lemma NoOperatorAlways(rule: string)
    requires NoOperator(Trim(rule))
    ensures Always(rule)
  {
    NothingIff(rule);
  }

  lemma BlankNotAlways(text: string)
    requires Trim(text) == ""
    ensures Always("NOT " + text)
  {
    BlankNot(text);
  }

  /** Added to the rules, it makes some rule hold: nothing is left out by inclusion, or everything by exclusion. */
  lemma AlwaysDecides(inclusion: seq<Rule>, exclusion: seq<Rule>, rule: string, holds: Rule -> bool)
    requires Always(rule)
    ensures SomeRule(inclusion + [Parse(rule)], holds)
    ensures Aggregates(inclusion + [Parse(rule)], exclusion, holds) <==> !SomeRule(exclusion, holds)
    ensures Aggregates(inclusion + [Parse(rule)], [], holds)
    ensures !Aggregates(inclusion, exclusion + [Parse(rule)], holds)
  {
    assert (inclusion + [Parse(rule)])[|inclusion|] == Parse(rule);
    assert (exclusion + [Parse(rule)])[|exclusion|] == Parse(rule);
  }

  /** The text `posix`, taken for a rule. */
  lemma BareWord(holds: Rule -> bool)
    ensures Eval(Parse("posix"), holds) && Aggregates([Parse("posix")], [], holds) && !Aggregates([], [Parse("posix")], holds)
  {
    FreeByChar("posix", " AND ", 0);
    FreeByChar("posix", " OR ", 0);
    FreeByChar("posix", " IN ", 0);
    FreeByChar("posix", " LIKE ", 0);
    FreeByChar("posix", "==", 0);
    FreeByChar("posix", "!=", 0);
    FreeByChar("posix", ">", 0);
    FreeByChar("posix", "<", 0);
    TrimTrimmed("posix");
    NoOperatorAlways("posix");
    AlwaysDecides([], [], "posix", holds);
    assert [] + [Parse("posix")] == [Parse("posix")];
  }
}
