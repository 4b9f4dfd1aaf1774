/** Rules as they are written: printing a tree of the splitter's shape and parsing it again gives the tree back. */
module PrintedRules {
  import opened Text
  import opened RuleLanguage
  import opened Wrappers

  /** How a value is written: as it is, or between quotes of either kind. */
  datatype Quoting = Bare | Single | Double

  datatype Literal = Literal(quoting: Quoting, text: string)

  datatype Atom =
    | InSet(field: string, items: seq<Literal>)
    | Matches(field: string, pattern: Literal)
    | Compares(op: Op, field: string, literal: Literal)

  datatype Written = Leaf(atom: Atom) | Both(l: Written, r: Written) | Either(l: Written, r: Written) | Negated(w: Written)

  function Spell(l: Literal): string {
    match l.quoting
    case Bare => l.text
    case Single => "'" + l.text + "'"
    case Double => "\"" + l.text + "\""
  }

  function SpellAll(items: seq<Literal>): seq<string> {
    if items == [] then [] else [Spell(items[0])] + SpellAll(items[1..])
  }

  /** A bare value must not look quoted. */
  predicate LiteralOk(l: Literal) { l.quoting == Bare ==> FixString(l.text) == l.text }

  function Comparison(op: Op, field: string, value: string): string {
    field + " " + Symbol(op) + " " + value
  }

  function PrintAtom(a: Atom): string {
    match a
    case InSet(field, items) => field + " IN " + "{" + Join(SpellAll(items), ",") + "}"
    case Matches(field, pattern) => field + " LIKE " + Spell(pattern)
    case Compares(op, field, literal) => Comparison(op, field, Spell(literal))
  }

  function Print(w: Written): string {
    match w
    case Leaf(a) => PrintAtom(a)
    case Both(l, r) => Print(l) + " AND " + Print(r)
    case Either(l, r) => Print(l) + " OR " + Print(r)
    case Negated(x) => "NOT " + Print(x)
  }

  function AtomMeaning(a: Atom): Rule {
    match a
    case InSet(field, items) => In(field, set l | l in items :: l.text)
    case Matches(field, pattern) => Like(field, pattern.text)
    case Compares(op, field, literal) => Compare(op, field, literal.text)
  }

  function Meaning(w: Written): Rule {
    match w
    case Leaf(a) => AtomMeaning(a)
    case Both(l, r) => And(Meaning(l), Meaning(r))
    case Either(l, r) => Or(Meaning(l), Meaning(r))
    case Negated(x) => Not(Meaning(x))
  }

  // ----- Shapes -----

  /** What an OR can start: an atom, or an atom OR something without AND. */
  predicate OrShape(w: Written)
    decreases w, 0
  {
    w.Leaf? || (w.Either? && w.l.Leaf? && NoAndShape(w.r))
  }

  predicate NoAndShape(w: Written)
    decreases w, 1
  {
    (w.Negated? && NoAndShape(w.w)) || OrShape(w)
  }

  /** The shape of every rule: NOT of a rule, or AND of a segment and a rule, or a segment. */
  predicate RuleShape(w: Written) {
    (w.Negated? && RuleShape(w.w)) || (w.Both? && OrShape(w.l) && RuleShape(w.r)) || OrShape(w)
  }

  predicate OrShaped(r: Rule)
    decreases r, 0
  {
    r.IsAtom() || (r.Or? && r.left.IsAtom() && NoAndShaped(r.right))
  }

  predicate NoAndShaped(r: Rule)
    decreases r, 1
  {
    (r.Not? && NoAndShaped(r.operand)) || OrShaped(r)
  }

  predicate RuleShaped(r: Rule) {
    (r.Not? && RuleShaped(r.operand)) || (r.And? && OrShaped(r.left) && RuleShaped(r.right)) || OrShaped(r)
  }

  /** The shape of a parse, given what its trimmed text is free of. */
  ghost predicate ShapeKnown(s: string) {
    && RuleShaped(Parse(s))
    && (Free(Trim(s), " AND ") ==> NoAndShaped(Parse(s)))
    && (Free(Trim(s), " AND ") && !StartsNot(Trim(s)) ==> OrShaped(Parse(s)))
    && (Free(Trim(s), " AND ") && !StartsNot(Trim(s)) && Free(Trim(s), " OR ") ==> Parse(s).IsAtom())
  }

  /** The splitter produces no other shape, from any text. */
  lemma {:induction false} ParseShape(s: string)
    ensures ShapeKnown(s)
    decreases |s|
  {
    TrimShorter(s);
    var t := Trim(s);
    if StartsNot(t) {
      ParseShape(t[4..]);
      NotShape(s);
    } else {
      match Find(t, " AND ")
      case Some(i) =>
        ParseShape(t[..i]);
        ParseShape(t[i + 5..]);
        AndShape(s, i);
      case None =>
        match Find(t, " OR ")
        case Some(i) =>
          ParseShape(t[..i]);
          ParseShape(t[i + 4..]);
          EitherShape(s, i);
        case None => AtomShape(t);
    }
  }

  lemma NotShape(s: string)
    requires StartsNot(Trim(s)) && ShapeKnown(Trim(s)[4..])
    ensures ShapeKnown(s)
  {
    if Free(Trim(s), " AND ") {
      FreeFrom(Trim(s), " AND ", 4);
      FreeTrim(Trim(s)[4..], " AND ");
    }
  }

  lemma AndShape(s: string, i: nat)
    requires !StartsNot(Trim(s)) && Find(Trim(s), " AND ") == Some(i)
    requires ShapeKnown(Trim(s)[..i]) && ShapeKnown(Trim(s)[i + 5..])
    ensures ShapeKnown(s)
  {
    LeftOfSplit(s, " AND ", i);
  }

  lemma EitherShape(s: string, i: nat)
    requires !StartsNot(Trim(s)) && Free(Trim(s), " AND ") && Find(Trim(s), " OR ") == Some(i)
    requires ShapeKnown(Trim(s)[..i]) && ShapeKnown(Trim(s)[i + 4..])
    ensures ShapeKnown(s)
  {
    LeftOfSplit(s, " OR ", i);
    FreeUpTo(Trim(s), " AND ", i);
    FreeTrim(Trim(s)[..i], " AND ");
    FreeFrom(Trim(s), " AND ", i + 4);
    FreeTrim(Trim(s)[i + 4..], " AND ");
  }

  lemma AtomShape(t: string)
    ensures ParseAtom(t).IsAtom()
  {
    CompareShape(t, 0);
  }

  lemma {:induction false} CompareShape(t: string, i: nat)
    requires i <= |OPS|
    ensures ParseCompare(t, i).IsAtom()
    decreases |OPS| - i
  {
    if i < |OPS| {
      CompareShape(t, i + 1);
    }
  }

  /** Left of the first separator there is no separator, and no NOT in front either. */
  lemma LeftOfSplit(s: string, sep: string, i: nat)
    requires sep != "" && Blank(sep[0]) && Find(Trim(s), sep) == Some(i) && !StartsNot(Trim(s))
    ensures Free(Trim(Trim(s)[..i]), sep) && !StartsNot(Trim(Trim(s)[..i]))
  {
    var t := Trim(s);
    forall j | 0 <= j <= i ensures !OccursAt(t[..i], sep, j) {
      if j + |sep| <= i {
        assert j < i && !OccursAt(t, sep, j);
        SliceOfSlice(t, 0, i, j, j + |sep|);
        assert t[0..i] == t[..i];
      }
    }
    FreeTrim(t[..i], sep);
    var a, b := TrimIs(s);
    assert i > 0 by { assert t[i..i + |sep|][0] == t[i]; }
    assert t[..i][0] == t[0];
    TrimRightPrefix(t[..i]);
  }

  // ----- Printing, then parsing -----

  function Pad(t: string): string { " " + t + " " }

  /** Text that no AND, OR or leading NOT can be found in, whatever stands around it. */
  predicate Clean(t: string) {
    t != "" && Trimmed(t) && Free(Pad(t), " AND ") && Free(Pad(t), " OR ") && !StartsNot(t + " ")
  }

  predicate Separator(sep: string) { sep == " AND " || sep == " OR " }

  lemma FreeInside(t: string, pat: string)
    requires Free(Pad(t), pat)
    ensures Free(t, pat)
  {
    FreeSlice(Pad(t), pat, 1, 1 + |t|);
    assert Pad(t)[1..1 + |t|] == t;
  }

  lemma FindsSeparator(x: string, sep: string, y: string)
    requires Separator(sep) && Free(Pad(x), sep)
    ensures Find(x + sep + y, sep) == Some(|x|)
    ensures (x + sep + y)[..|x|] == x && (x + sep + y)[|x| + |sep|..] == y
  {
    var t := x + sep + y;
    forall j | 0 <= j < |x| ensures !OccursAt(t, sep, j) {
      assert !OccursAt(Pad(x), sep, j + 1);
      if j + |sep| <= |x| + 1 {
        assert t[j..j + |sep|] == Pad(x)[j + 1..j + 1 + |sep|];
      } else if j + |sep| <= |t| {
        assert t[|x|] == ' ' && t[j..j + |sep|][|x| - j] == t[|x|];
        assert sep[|x| - j] != ' ';
      }
    }
    assert t[|x|..|x| + |sep|] == sep;
    FoundAt(t, sep, |x|);
  }

  lemma NoNotInFront(x: string, sep: string, y: string)
    requires Separator(sep) && !StartsNot(x + " ")
    ensures !StartsNot(x + sep + y)
  {
    var t := x + sep + y;
    assert t[..|x| + 1] == x + " ";
    assert |x| + 1 >= 4 ==> (x + " ")[..4] == t[..4];
    assert |x| < 3 ==> t[..4][|x|] == ' ';
  }

  lemma PadJoins(x: string, y: string)
    ensures Pad(x + " OR " + y) == Pad(x) + "OR" + Pad(y)
    ensures Pad("NOT " + y) == " NOT" + Pad(y)
  {}

  lemma FreeBehindNot(v: string)
    requires Free(v, " AND ")
    ensures Free(" NOT" + v, " AND ")
  {
    var s := " NOT" + v;
    forall i | 0 <= i <= |s| ensures !OccursAt(s, " AND ", i) {
      if i >= 4 {
        assert !OccursAt(v, " AND ", i - 4);
        if i + 5 <= |s| {
          assert s[i..i + 5] == v[i - 4..i + 1];
        }
      } else if i + 5 <= |s| {
        assert s[i..i + 5][0] == s[i] && s[i..i + 5][1] == s[i + 1];
      }
    }
  }

  /** The atoms' own conditions: what the atom parsers look for is where it was printed, and nowhere before. */
  predicate AtomOk(a: Atom) {
    Clean(PrintAtom(a)) &&
    match a
    case InSet(field, items) =>
      items != [] && Free(field + " ", " IN ") && forall l :: l in items ==> LiteralOk(l) && ',' !in l.text
    case Matches(field, pattern) =>
      && Free(PrintAtom(a), " IN ") && Free(field + " ", " LIKE ")
      && pattern.quoting != Bare && FixString(pattern.text) == pattern.text
    case Compares(op, field, literal) =>
      && Free(PrintAtom(a), " IN ") && Free(PrintAtom(a), " LIKE ") && Trimmed(field) && NoOperators(field)
      && LiteralOk(literal) && Trimmed(Spell(literal)) && NoOperators(literal.text)
  }

  predicate NoOperators(s: string) {
    forall c :: c in s ==> c != '=' && c != '!' && c != '<' && c != '>'
  }

  predicate AtomsOk(w: Written) {
    match w
    case Leaf(a) => AtomOk(a)
    case Both(l, r) => AtomsOk(l) && AtomsOk(r)
    case Either(l, r) => AtomsOk(l) && AtomsOk(r)
    case Negated(x) => AtomsOk(x)
  }

  lemma FirstAt(x: string, sep: string, y: string)
    requires |sep| >= 2 && sep[0] == ' ' && forall k :: 0 < k < |sep| - 1 ==> sep[k] != ' '
    requires Free(x + " ", sep)
    ensures Find(x + sep + y, sep) == Some(|x|)
    ensures (x + sep + y)[..|x|] == x && (x + sep + y)[|x| + |sep|..] == y
  {
    var t := x + sep + y;
    forall j | 0 <= j < |x| ensures !OccursAt(t, sep, j) {
      assert !OccursAt(x + " ", sep, j);
      if j + |sep| <= |x| + 1 {
        assert t[j..j + |sep|] == (x + " ")[j..j + |sep|];
      } else if j + |sep| <= |t| {
        assert t[|x|] == ' ' && t[j..j + |sep|][|x| - j] == t[|x|];
      }
    }
    assert t[|x|..|x| + |sep|] == sep;
    FoundAt(t, sep, |x|);
  }

  lemma QuotesFix(l: Literal)
    requires LiteralOk(l)
    ensures FixString(Spell(l)) == l.text && (l.quoting != Bare ==> Inner(Spell(l)) == l.text)
  {
    if l.quoting != Bare {
      assert Spell(l)[1..|Spell(l)| - 1] == l.text;
    }
  }

  lemma {:induction false} SpelledItems(items: seq<Literal>)
    requires forall l :: l in items ==> LiteralOk(l) && ',' !in l.text
    ensures |SpellAll(items)| == |items| && FixAll(SpellAll(items)) == set l | l in items :: l.text
    ensures forall x :: x in SpellAll(items) ==> ',' !in x
  {
    if items != [] {
      var rest := items[1..];
      SpelledItems(rest);
      QuotesFix(items[0]);
      assert items == [items[0]] + rest;
      assert forall x :: x in SpellAll(items) <==> x == Spell(items[0]) || x in SpellAll(rest);
      assert FixAll(SpellAll(items)) == FixAll(SpellAll(rest)) + {items[0].text};
    }
  }

  /** Each kind of atom is read back as written. */
  lemma AtomParsed(a: Atom)
    requires AtomOk(a)
    ensures ParseAtom(PrintAtom(a)) == AtomMeaning(a)
  {
    match a
    case InSet(field, items) =>
      InSetParsed(field, items);
    case Matches(field, pattern) =>
      MatchesParsed(field, pattern);
    case Compares(op, field, literal) =>
      SpelledPlain(literal);
      QuotesFix(literal);
      CompareParsed(op, field, Spell(literal));
  }

  lemma MatchesParsed(field: string, pattern: Literal)
    requires Free(field + " ", " LIKE ") && pattern.quoting != Bare && FixString(pattern.text) == pattern.text
    ensures ParseLike(field + " LIKE " + Spell(pattern)) == Like(field, pattern.text)
  {
    FirstAt(field, " LIKE ", Spell(pattern));
    QuotesFix(pattern);
  }

  lemma SpelledPlain(l: Literal)
    requires NoOperators(l.text)
    ensures NoOperators(Spell(l))
  {}

  lemma InSetParsed(field: string, items: seq<Literal>)
    requires items != [] && Free(field + " ", " IN ") && forall l :: l in items ==> LiteralOk(l) && ',' !in l.text
    ensures ParseAtom(PrintAtom(InSet(field, items))) == In(field, set l | l in items :: l.text)
  {
    var body := Join(SpellAll(items), ",");
    var braced := "{" + body + "}";
    assert PrintAtom(InSet(field, items)) == field + " IN " + braced;
    FirstAt(field, " IN ", braced);
    assert Inner(braced) == body;
    SpelledItems(items);
    SplitJoin(SpellAll(items), ',');
  }

  lemma CompareParsed(op: Op, field: string, value: string)
    requires Trimmed(field) && NoOperators(field) && NoOperators(value) && Trimmed(value)
    ensures ParseCompare(Comparison(op, field, value), 0) == Compare(op, field, FixString(value))
  {
    var t, sym := Comparison(op, field, value), Symbol(op);
    OperatorReached(op, field, value);
    OperatorFound(op, field, value);
    CompareAt(t, IndexOf(op), |field| + 1);
    CompareSides(field, sym, value);
    TrimSides(field, value);
  }

  lemma CompareAt(t: string, i: nat, at: nat)
    requires i < |OPS| && Find(t, Symbol(OPS[i])) == Some(at)
    ensures at + |Symbol(OPS[i])| <= |t|
    ensures ParseCompare(t, i) == Compare(OPS[i], Trim(t[..at]), FixString(Trim(t[at + |Symbol(OPS[i])|..])))
  {}

  lemma OperatorReached(op: Op, field: string, value: string)
    requires NoOperators(field) && NoOperators(value)
    ensures var t := Comparison(op, field, value); ParseCompare(t, 0) == ParseCompare(t, IndexOf(op))
  {
    forall i | 0 <= i < IndexOf(op) ensures Find(Comparison(op, field, value), Symbol(OPS[i])).None? {
      NoEarlierOperator(op, field, value, i);
    }
    SkipOperators(Comparison(op, field, value), 0, IndexOf(op));
  }

  lemma CompareSides(field: string, sym: string, value: string)
    ensures var t := field + " " + sym + " " + value;
            t[..|field| + 1] == field + " " && t[|field| + 1 + |sym|..] == " " + value
  {}

  lemma TrimSides(field: string, value: string)
    requires Trimmed(field) && Trimmed(value)
    ensures Trim(field + " ") == field && Trim(" " + value) == value
  {
    var left, right := field + " ", " " + value;
    assert left[0..|field|] == field;
    TrimBetween(left, 0, |field|);
    assert right[1..|right|] == value;
    TrimBetween(right, 1, |right|);
  }

  function IndexOf(op: Op): (i: nat)
    ensures i < |OPS| && OPS[i] == op
  {
    match op
    case EQ => 0
    case NEQ => 1
    case GTE => 2
    case LTE => 3
    case GT => 4
    case LT => 5
  }

  lemma {:induction false} SkipOperators(t: string, i: nat, k: nat)
    requires i <= k < |OPS| && forall j :: i <= j < k ==> Find(t, Symbol(OPS[j])).None?
    ensures ParseCompare(t, i) == ParseCompare(t, k)
    decreases k - i
  {
    if i < k {
      SkipOperators(t, i + 1, k);
    }
  }

  /** The only operator letters of a printed comparison are those of its symbol. */
  lemma OperatorLetters(op: Op, field: string, value: string, j: nat)
    requires NoOperators(field) && NoOperators(value)
    requires j < |Comparison(op, field, value)|
    ensures var t := Comparison(op, field, value);
            if |field| + 1 <= j < |field| + 1 + |Symbol(op)| then t[j] == Symbol(op)[j - |field| - 1]
            else t[j] != '=' && t[j] != '!' && t[j] != '<' && t[j] != '>'
  {
    var t := Comparison(op, field, value);
    if j < |field| {
      assert t[j] == field[j] && field[j] in field;
    } else if |field| + |Symbol(op)| + 2 <= j {
      var k := j - |field| - |Symbol(op)| - 2;
      assert t[j] == value[k] && value[k] in value;
    }
  }

  lemma NoEarlierOperator(op: Op, field: string, value: string, i: nat)
    requires NoOperators(field) && NoOperators(value) && i < IndexOf(op)
    ensures Free(Comparison(op, field, value), Symbol(OPS[i]))
  {
    var t, pat := Comparison(op, field, value), Symbol(OPS[i]);
    forall j | 0 <= j <= |t| ensures !OccursAt(t, pat, j) {
      if j + |pat| <= |t| {
        assert t[j..j + |pat|][0] == t[j];
        OperatorLetters(op, field, value, j);
        if |pat| == 2 {
          assert t[j..j + |pat|][1] == t[j + 1];
          OperatorLetters(op, field, value, j + 1);
        }
      }
    }
  }

  lemma OperatorFound(op: Op, field: string, value: string)
    requires NoOperators(field) && NoOperators(value)
    ensures Find(Comparison(op, field, value), Symbol(op)) == Some(|field| + 1)
  {
    var t, sym := Comparison(op, field, value), Symbol(op);
    forall j | 0 <= j < |field| + 1 ensures !OccursAt(t, sym, j) {
      if j + |sym| <= |t| {
        OperatorLetters(op, field, value, j);
        assert t[j..j + |sym|][0] == t[j];
      }
    }
    assert t[|field| + 1..|field| + 1 + |sym|] == sym;
    FoundAt(t, sym, |field| + 1);
  }

  // ----- The round trip -----

  lemma LeafParsed(a: Atom)
    requires AtomOk(a)
    ensures Parse(PrintAtom(a)) == AtomMeaning(a)
  {
    var t := PrintAtom(a);
    TrimTrimmed(t);
    FreeInside(t, " AND ");
    FreeInside(t, " OR ");
    assert StartsNot(t) ==> StartsNot(t + " ");
    AtomParsed(a);
  }

  /** Printed text without AND: no AND can be found in it. */
  lemma {:induction false} NoAndPrinted(w: Written)
    requires NoAndShape(w) && AtomsOk(w)
    ensures Print(w) != "" && Trimmed(Print(w)) && Free(Pad(Print(w)), " AND ")
    ensures OrShape(w) ==> !StartsNot(Print(w) + " ")
  {
    match w
    case Leaf(_) =>
    case Either(l, r) =>
      NoAndPrinted(r);
      EitherPrinted(PrintAtom(l.atom), Print(r));
    case Negated(x) =>
      NoAndPrinted(x);
      PadJoins("", Print(x));
      FreeBehindNot(Pad(Print(x)));
  }

  lemma EitherPrinted(x: string, y: string)
    requires Clean(x) && y != "" && Trimmed(y) && Free(Pad(y), " AND ")
    ensures Trimmed(x + " OR " + y) && Free(Pad(x + " OR " + y), " AND ") && !StartsNot(x + " OR " + y + " ")
  {
    PadJoins(x, y);
    FreeAcross(Pad(x), "OR", Pad(y), " AND ");
    NoNotInFront(x, " OR ", y + " ");
    assert x + " OR " + y + " " == x + " OR " + (y + " ");
  }

  lemma {:induction false} NoAndParsed(w: Written)
    requires NoAndShape(w) && AtomsOk(w)
    ensures Parse(Print(w)) == Meaning(w)
  {
    NoAndPrinted(w);
    var t := Print(w);
    TrimTrimmed(t);
    FreeInside(t, " AND ");
    match w
    case Leaf(a) => LeafParsed(a);
    case Either(l, r) =>
      assert StartsNot(t) ==> StartsNot(t + " ");
      FindsSeparator(Print(l), " OR ", Print(r));
      LeafParsed(l.atom);
      NoAndParsed(r);
    case Negated(x) =>
      assert t[4..] == Print(x);
      NoAndParsed(x);
  }

  lemma {:induction false} RulePrinted(w: Written)
    requires RuleShape(w) && AtomsOk(w)
    ensures Print(w) != "" && Trimmed(Print(w))
  {
    match w
    case Negated(x) => RulePrinted(x);
    case Both(l, r) =>
      NoAndPrinted(l);
      RulePrinted(r);
    case _ => NoAndPrinted(w);
  }

  /** Parsing a printed rule gives the tree back, for every tree of the splitter's shape. */
  lemma {:induction false} RoundTrip(w: Written)
    requires RuleShape(w) && AtomsOk(w)
    ensures Parse(Print(w)) == Meaning(w)
  {
    var t := Print(w);
    RulePrinted(w);
    TrimTrimmed(t);
    match w
    case Negated(x) =>
      assert t[4..] == Print(x);
      RoundTrip(x);
    case Both(l, r) =>
      NoAndPrinted(l);
      NoNotInFront(Print(l), " AND ", Print(r));
      FindsSeparator(Print(l), " AND ", Print(r));
      NoAndParsed(l);
      RoundTrip(r);
    case _ => NoAndParsed(w);
  }

  // ----- Segments of alternatives -----

  /** A segment: atoms, one at least, joined by OR. */
  predicate Segment(seg: seq<Atom>) {
    seg != [] && AtomOk(seg[0]) && (|seg| > 1 ==> Segment(seg[1..]))
  }

  /** A rule without NOT: segments, one at least, joined by AND. */
  predicate Segments(segs: seq<seq<Atom>>) {
    segs != [] && Segment(segs[0]) && (|segs| > 1 ==> Segments(segs[1..]))
  }

  function OrTree(seg: seq<Atom>): Written
    requires Segment(seg)
  {
    if |seg| == 1 then Leaf(seg[0]) else Either(Leaf(seg[0]), OrTree(seg[1..]))
  }

  /** The segments, then `rest` if there is more. */
  function AndTree(segs: seq<seq<Atom>>, rest: Option<Written>): Written
    requires Segments(segs)
  {
    if |segs| > 1 then Both(OrTree(segs[0]), AndTree(segs[1..], rest))
    else if rest.Some? then Both(OrTree(segs[0]), rest.value)
    else OrTree(segs[0])
  }

  function SegmentText(seg: seq<Atom>): string
    requires Segment(seg)
  {
    if |seg| == 1 then PrintAtom(seg[0]) else PrintAtom(seg[0]) + " OR " + SegmentText(seg[1..])
  }

  function RuleText(segs: seq<seq<Atom>>): string
    requires Segments(segs)
  {
    if |segs| == 1 then SegmentText(segs[0]) else SegmentText(segs[0]) + " AND " + RuleText(segs[1..])
  }

  ghost predicate SomeHolds(seg: seq<Atom>, holds: Rule -> bool) {
    exists i :: 0 <= i < |seg| && holds(AtomMeaning(seg[i]))
  }

  ghost predicate AllHold(segs: seq<seq<Atom>>, holds: Rule -> bool) {
    forall i :: 0 <= i < |segs| ==> SomeHolds(segs[i], holds)
  }

  lemma SomeHoldsStep(seg: seq<Atom>, holds: Rule -> bool)
    requires seg != []
    ensures SomeHolds(seg, holds) <==> holds(AtomMeaning(seg[0])) || SomeHolds(seg[1..], holds)
  {
    if i :| 0 <= i < |seg| && holds(AtomMeaning(seg[i])) {
      assert i > 0 ==> seg[1..][i - 1] == seg[i];
    }
    if i :| 0 <= i < |seg[1..]| && holds(AtomMeaning(seg[1..][i])) {
      assert seg[i + 1] == seg[1..][i];
    }
  }

  lemma AllHoldStep(segs: seq<seq<Atom>>, holds: Rule -> bool)
    requires segs != []
    ensures AllHold(segs, holds) <==> SomeHolds(segs[0], holds) && AllHold(segs[1..], holds)
  {
    if AllHold(segs, holds) {
      forall i | 0 <= i < |segs[1..]| ensures SomeHolds(segs[1..][i], holds) {
        assert SomeHolds(segs[i + 1], holds);
      }
    }
    if SomeHolds(segs[0], holds) && AllHold(segs[1..], holds) {
      forall i | 0 <= i < |segs| ensures SomeHolds(segs[i], holds) {
        assert i > 0 ==> segs[i] == segs[1..][i - 1];
      }
    }
  }

  lemma {:induction false} OrTreeIs(seg: seq<Atom>)
    requires Segment(seg)
    ensures OrShape(OrTree(seg)) && AtomsOk(OrTree(seg)) && Print(OrTree(seg)) == SegmentText(seg)
  {
    if |seg| > 1 {
      OrTreeIs(seg[1..]);
    }
  }

  lemma {:induction false} OrTreeMeans(seg: seq<Atom>, holds: Rule -> bool)
    requires Segment(seg)
    ensures Eval(Meaning(OrTree(seg)), holds) <==> SomeHolds(seg, holds)
  {
    SomeHoldsStep(seg, holds);
    AtomEval(seg[0], holds);
    if |seg| > 1 {
      OrTreeMeans(seg[1..], holds);
    }
  }

  lemma AtomEval(a: Atom, holds: Rule -> bool)
    ensures Eval(AtomMeaning(a), holds) == holds(AtomMeaning(a))
  {}

  lemma {:induction false} AndTreeIs(segs: seq<seq<Atom>>, rest: Option<Written>)
    requires Segments(segs) && (rest.Some? ==> RuleShape(rest.value) && AtomsOk(rest.value))
    ensures RuleShape(AndTree(segs, rest)) && AtomsOk(AndTree(segs, rest))
    ensures Print(AndTree(segs, rest)) == if rest.None? then RuleText(segs) else RuleText(segs) + " AND " + Print(rest.value)
  {
    OrTreeIs(segs[0]);
    if |segs| > 1 {
      AndTreeIs(segs[1..], rest);
      if rest.Some? {
        AndRegroups(SegmentText(segs[0]), RuleText(segs[1..]), Print(rest.value));
      }
    }
  }

  lemma AndRegroups(x: string, y: string, z: string)
    ensures x + " AND " + (y + " AND " + z) == x + " AND " + y + " AND " + z
  {}

  lemma {:induction false} AndTreeMeans(segs: seq<seq<Atom>>, rest: Option<Written>, holds: Rule -> bool)
    requires Segments(segs)
    ensures Eval(Meaning(AndTree(segs, rest)), holds) <==>
            AllHold(segs, holds) && (rest.Some? ==> Eval(Meaning(rest.value), holds))
  {
    AllHoldStep(segs, holds);
    OrTreeMeans(segs[0], holds);
    if |segs| > 1 {
      AndTreeMeans(segs[1..], rest, holds);
    }
  }

  /** A rule written without NOT holds exactly when every segment between ANDs has some alternative that holds. */
  lemma SegmentsMeaning(segs: seq<seq<Atom>>, holds: Rule -> bool)
    requires Segments(segs)
    ensures Eval(Parse(RuleText(segs)), holds) <==> AllHold(segs, holds)
  {
    AndTreeIs(segs, None);
    AndTreeMeans(segs, None, holds);
    RoundTrip(AndTree(segs, None));
  }

  /** A NOT heading a later segment negates everything behind it, the ANDs included. */
  lemma NotHeadsTheTail(segs: seq<seq<Atom>>, tail: seq<seq<Atom>>, holds: Rule -> bool)
    requires Segments(segs) && Segments(tail)
    ensures Eval(Parse(RuleText(segs) + " AND " + ("NOT " + RuleText(tail))), holds) <==>
            AllHold(segs, holds) && !AllHold(tail, holds)
  {
    var rest := Negated(AndTree(tail, None));
    AndTreeIs(tail, None);
    AndTreeMeans(tail, None, holds);
    AndTreeIs(segs, Some(rest));
    AndTreeMeans(segs, Some(rest), holds);
    ReadBack(AndTree(segs, Some(rest)), RuleText(segs) + " AND " + ("NOT " + RuleText(tail)));
  }

  lemma ReadBack(w: Written, text: string)
    requires RuleShape(w) && AtomsOk(w) && text == Print(w)
    ensures Parse(text) == Meaning(w)
  {
    RoundTrip(w);
  }

  /** A NOT behind an OR negates the rest of its segment only: the ANDs still split first. */
  lemma NotEndsWithItsSegment(a: Atom, seg: seq<Atom>, tail: seq<seq<Atom>>, holds: Rule -> bool)
    requires AtomOk(a) && Segment(seg) && Segments(tail)
    ensures Eval(Parse(PrintAtom(a) + " OR " + ("NOT " + SegmentText(seg)) + " AND " + RuleText(tail)), holds) <==>
            (holds(AtomMeaning(a)) || !SomeHolds(seg, holds)) && AllHold(tail, holds)
  {
    var left, right := Either(Leaf(a), Negated(OrTree(seg))), AndTree(tail, None);
    OrTreeIs(seg);
    OrTreeMeans(seg, holds);
    OrNotIs(a, OrTree(seg), holds);
    AndTreeIs(tail, None);
    AndTreeMeans(tail, None, holds);
    ReadBack(Both(left, right), Print(left) + " AND " + RuleText(tail));
  }

  lemma PrintNegated(x: Written)
    ensures Print(Negated(x)) == "NOT " + Print(x)
  {}

  lemma OrNotIs(a: Atom, x: Written, holds: Rule -> bool)
    requires AtomOk(a) && OrShape(x) && AtomsOk(x)
    ensures var w := Either(Leaf(a), Negated(x));
            && OrShape(w) && AtomsOk(w) && Print(w) == PrintAtom(a) + " OR " + ("NOT " + Print(x))
            && Eval(Meaning(w), holds) == (holds(AtomMeaning(a)) || !Eval(Meaning(x), holds))
  {
    AtomEval(a, holds);
    PrintNegated(x);
    assert NoAndShape(Negated(x)) && AtomsOk(Negated(x));
    assert Meaning(Negated(x)) == Not(Meaning(x)) && Eval(Not(Meaning(x)), holds) == !Eval(Meaning(x), holds);
  }

  // ----- NOT in front of any text -----

  /** A NOT in front negates the whole text behind it, whatever it is, exactly when that text is not blank. */
  lemma NotTakesTheRest(text: string)
    ensures Parse("NOT " + text) == Not(Parse(text)) <==> Trim(text) != ""
  {
    if Trim(text) == "" {
      BlankNot(text);
    } else {
      NotTrims(text);
    }
  }

  lemma NotTrims(text: string)
    requires Trim(text) != ""
    ensures Parse("NOT " + text) == Not(Parse(text))
  {
    var a, b := TrimIs(text);
    NotTrim(text, a, b);
    NotOfTrimmed("NOT " + text, text[..b]);
    SameTrimSameRule(text[..b], text);
  }

  lemma NotTrim(text: string, a: nat, b: nat)
    requires a < b <= |text| && Trimmed(text[a..b])
    requires (forall i :: 0 <= i < a ==> Blank(text[i])) && (forall i :: b <= i < |text| ==> Blank(text[i]))
    ensures Trim("NOT " + text) == "NOT " + text[..b] && Trim(text[..b]) == Trim(text)
  {
    var s := "NOT " + text;
    assert text[a..b][b - a - 1] == text[b - 1];
    assert s[0..4 + b] == "NOT " + text[..b];
    TrimBetween(s, 0, 4 + b);
    assert text[..b][a..b] == text[a..b];
    TrimBetween(text[..b], a, b);
    TrimBetween(text, a, b);
  }

  lemma NotOfTrimmed(s: string, rest: string)
    requires Trim(s) == "NOT " + rest
    ensures Parse(s) == Not(Parse(rest))
  {
    assert Trim(s)[4..] == rest;
  }

  lemma SameTrimSameRule(x: string, y: string)
    requires Trim(x) == Trim(y)
    ensures Parse(x) == Parse(y)
  {}

  /** NOT before nothing is no rule at all, and so holds. */
  lemma BlankNot(text: string)
    requires Trim(text) == ""
    ensures Parse("NOT " + text) == Nothing
  {
    var s := "NOT " + text;
    var a, b := TrimIs(text);
    assert s[0..3] == "NOT";
    TrimBetween(s, 0, 3);
    NothingInNot();
    TrimTrimmed("NOT");
    SameTrimSameRule(s, "NOT");
  }

  lemma NothingInNot()
    ensures Parse("NOT") == Nothing
  {
    TrimTrimmed("NOT");
    forall i | 0 <= i < |OPS| ensures Find("NOT", Symbol(OPS[i])).None? {
      NoSymbol(Symbol(OPS[i]));
    }
    SkipOperators("NOT", 0, 5);
  }

  lemma NoSymbol(sym: string)
    requires sym != "" && sym[0] != 'N' && sym[0] != 'O' && sym[0] != 'T'
    ensures Free("NOT", sym)
  {
    forall i | 0 <= i <= 3 ensures !OccursAt("NOT", sym, i) {
      if i + |sym| <= 3 {
        assert "NOT"[i..i + |sym|][0] == "NOT"[i];
      }
    }
  }
}
