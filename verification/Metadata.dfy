/**
 * Metadata as a traced process keeps it: values under their C++ types, the hashes stored beside key fields, and the
 * encoding that turns a logged event into the decoded form of `Events`.
 */
module MetadataValues {
  import opened Events

  type Uint16 = x: int | 0 <= x < 0x1_0000
  type Uint32 = x: int | 0 <= x < 0x1_0000_0000
  type Int32 = x: int | -0x8000_0000 <= x < 0x8000_0000

  /** The types the aggregation macros tell apart on a 64-bit system; the aliases of each are one type. */
  datatype CType =
    | UnsignedShort | SignedInt | UnsignedInt | SignedLong | UnsignedLong | SignedLongLong | UnsignedLongLong
    | FloatType | DoubleType | ConstCharPointer | CharPointer | StdString | OtherType

  /** A `std::any`. Floating values are bit patterns; C strings come with the address they are known by. */
  datatype Any =
    | ShortOf(us: Uint16)
    | IntOf(i: Int32)
    | UintOf(u: Uint32)
    | LongOf(l: Int64)
    | UlongOf(ul: Uint64)
    | LongLongOf(ll: Int64)
    | UlongLongOf(ull: Uint64)
    | FloatOf(f: Uint32)
    | DoubleOf(d: Uint64)
    | CString(address: nat, text: string)
    | HashText(address: nat, text: string)
    | StringOf(s: string)
    | RawJsonOf(json: string)
    | ListOf(json: string)
    | OtherOf
  {
    function Type(): CType {
      match this
      case ShortOf(_) => UnsignedShort
      case IntOf(_) => SignedInt
      case UintOf(_) => UnsignedInt
      case LongOf(_) => SignedLong
      case UlongOf(_) => UnsignedLong
      case LongLongOf(_) => SignedLongLong
      case UlongLongOf(_) => UnsignedLongLong
      case FloatOf(_) => FloatType
      case DoubleOf(_) => DoubleType
      case CString(_, _) => ConstCharPointer
      case HashText(_, _) => CharPointer
      case StringOf(_) => StdString
      case _ => OtherType
    }

    predicate IsInteger() {
      ShortOf? || IntOf? || UintOf? || LongOf? || UlongOf? || LongLongOf? || UlongLongOf?
    }

    predicate IsNumber() { IsInteger() || FloatOf? || DoubleOf? }

    predicate IsText() { CString? || HashText? || StringOf? }

    function Text(): string
      requires IsText()
    {
      match this
      case StringOf(s) => s
      case _ => text
    }

    /** A number's value; of a floating one the bits. */
    function Word(): int
      requires IsNumber()
    {
      match this
      case ShortOf(x) => x
      case IntOf(x) => x
      case UintOf(x) => x
      case LongOf(x) => x
      case UlongOf(x) => x
      case LongLongOf(x) => x
      case UlongLongOf(x) => x
      case FloatOf(b) => b
      case DoubleOf(b) => b
    }
  }

  /**
   * What the process's own arithmetic and library do, all of it arbitrary: doubles, floats (`addF`, `lessF`), widening a
   * float to a double, `==` on either, `std::hash` of a string and `std::to_string`.
   */
  datatype Native = Native(
    fp: Floats, addF: (int, int) -> int, lessF: (int, int) -> bool, widen: int -> Uint64,
    same: (int, int) -> bool, sameF: (int, int) -> bool, hash: string -> nat, shown: Any -> string)

  /** Widening a float keeps its order: the one law of floating numbers used. */
  ghost predicate Widens(n: Native) {
    forall a, b :: n.fp.less(n.widen(a), n.widen(b)) == n.lessF(a, b)
  }

  // ----- Key values -----

  /** The hash stored with a key field: of a number's printed form, of a text, and zero for anything else. */
  function StoredHash(n: Native, a: Any): nat {
    if a.IsNumber() then n.hash(n.shown(a)) else if a.IsText() then n.hash(a.Text()) else 0
  }

  /** `compare_any`: types differ, then values; C strings by address, values of no listed type never equal. */
  predicate CompareAny(n: Native, a: Any, b: Any) {
    match (a, b)
    case (DoubleOf(x), DoubleOf(y)) => n.same(x, y)
    case (FloatOf(x), FloatOf(y)) => n.sameF(x, y)
    case (CString(p, _), CString(q, _)) => p == q
    case (HashText(p, _), HashText(q, _)) => p == q
    case (RawJsonOf(_), _) => false
    case (ListOf(_), _) => false
    case (OtherOf, _) => false
    case _ => a == b
  }

  /** Two key values count as equal when both the stored hashes and the values do. */
  predicate EqualKeyValues(n: Native, a: Any, b: Any) {
    StoredHash(n, a) == StoredHash(n, b) && CompareAny(n, a, b)
  }

  // ----- Logged events -----

  datatype LoggedField = LoggedField(key: string, mtype: MetadataType, value: Any)

  datatype Logged = Logged(
    category: string, name: string, typ: nat, threadId: nat, startTime: nat, duration: Uint64, fields: seq<LoggedField>)

  ghost predicate DistinctLogged(e: Logged) {
    forall i, j :: 0 <= i < j < |e.fields| ==> e.fields[i].key != e.fields[j].key
  }

  // ----- Encoding -----

  /** `encode_metadata`, then decoding: widths and the kinds of text are gone, unlisted types become "". */
  function Encode(n: Native, a: Any): Value {
    match a
    case ShortOf(x) => UintV(x)
    case IntOf(x) => IntV(x)
    case UintOf(x) => UintV(x)
    case LongOf(x) => IntV(x)
    case UlongOf(x) => UintV(x)
    case LongLongOf(x) => IntV(x)
    case UlongLongOf(x) => UintV(x)
    case FloatOf(b) => DoubleV(n.widen(b))
    case DoubleOf(b) => DoubleV(b)
    case CString(_, text) => StringV(text)
    case HashText(_, text) => StringV(text)
    case StringOf(s) => StringV(s)
    case RawJsonOf(json) => RawJsonV(json)
    case ListOf(json) => RawJsonV(json)
    case OtherOf => StringV("")
  }

  function EncodeField(n: Native, f: LoggedField): Field {
    Field(f.key, f.mtype, Encode(n, f.value))
  }

  function EncodeFields(n: Native, fields: seq<LoggedField>): (r: seq<Field>)
    ensures |r| == |fields|
  {
    seq(|fields|, i requires 0 <= i < |fields| => EncodeField(n, fields[i]))
  }

  function Encoded(n: Native, e: Logged): Event {
    Event(e.category, e.name, e.typ, e.threadId, e.startTime, e.duration, EncodeFields(n, e.fields))
  }

  lemma EncodedDistinct(n: Native, e: Logged)
    requires DistinctLogged(e)
    ensures DistinctFields(Encoded(n, e))
  {}

  lemma EncodedIn(n: Native, fields: seq<LoggedField>)
    ensures forall f :: f in fields ==> EncodeField(n, f) in EncodeFields(n, fields)
    ensures forall g :: g in EncodeFields(n, fields) ==> exists f :: f in fields && EncodeField(n, f) == g
  {
    forall f | f in fields ensures EncodeField(n, f) in EncodeFields(n, fields) {
      var i :| 0 <= i < |fields| && fields[i] == f;
      assert EncodeFields(n, fields)[i] == EncodeField(n, f);
    }
    forall g | g in EncodeFields(n, fields) ensures exists f :: f in fields && EncodeField(n, f) == g {
      var i :| 0 <= i < |fields| && EncodeFields(n, fields)[i] == g;
      assert fields[i] in fields;
    }
  }

  /** A number's tag and word after encoding. */
  lemma EncodeNumber(n: Native, a: Any)
    ensures Encode(n, a).IsNumber() <==> a.IsNumber()
    ensures a.IsNumber() ==> Encode(n, a).Tag() == TagOf(a.Type()) && Encode(n, a).Word() == Widened(n, a.Type(), a.Word())
  {}

  // ----- Number types -----

  /** The tag a number type is encoded under. */
  function TagOf(t: CType): ValueTag {
    match t
    case SignedInt => INT
    case SignedLong => INT
    case SignedLongLong => INT
    case FloatType => DOUBLE
    case DoubleType => DOUBLE
    case _ => UINT
  }

  function Widened(n: Native, t: CType, x: int): int { if t == FloatType then n.widen(x) else x }

  /** Whether a value of the type can hold `x`; floating patterns always do. */
  predicate InType(t: CType, x: int) {
    match t
    case UnsignedShort => 0 <= x < 0x1_0000
    case SignedInt => -0x8000_0000 <= x < 0x8000_0000
    case UnsignedInt => 0 <= x < 0x1_0000_0000
    case UnsignedLong => 0 <= x < TWO64
    case UnsignedLongLong => 0 <= x < TWO64
    case SignedLong => -TWO63 <= x < TWO63
    case SignedLongLong => -TWO63 <= x < TWO63
    case _ => true
  }

  predicate Wide(t: CType) {
    t == SignedLong || t == UnsignedLong || t == SignedLongLong || t == UnsignedLongLong || t == DoubleType
  }

  /** Addition in the type's own width. */
  function SumIn(n: Native, t: CType, x: int, y: int): int {
    match t
    case UnsignedShort => (x + y) % 0x1_0000
    case UnsignedInt => (x + y) % 0x1_0000_0000
    case SignedInt => (x + y + 0x8000_0000) % 0x1_0000_0000 - 0x8000_0000
    case UnsignedLong => WrapU(x + y)
    case UnsignedLongLong => WrapU(x + y)
    case FloatType => n.addF(x, y)
    case DoubleType => n.fp.add(x, y)
    case _ => WrapS(x + y)
  }

  predicate LessIn(n: Native, t: CType, x: int, y: int) {
    if t == FloatType then n.lessF(x, y) else if t == DoubleType then n.fp.less(x, y) else x < y
  }

  /** The sum loses nothing against a 64-bit one: no overflow below 64 bits, no rounding of floats. */
  predicate Exact(n: Native, t: CType, x: int, y: int) {
    if t == FloatType then n.widen(n.addF(x, y)) == n.fp.add(n.widen(x), n.widen(y))
    else Wide(t) || InType(t, x + y)
  }
}
