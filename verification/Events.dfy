/** The decoded events both aggregators consume, and the folding of their numbers. */
module Events {

  const TWO63: int := 0x8000_0000_0000_0000
  const TWO64: int := 0x1_0000_0000_0000_0000

  type Int64 = x: int | -TWO63 <= x < TWO63
  type Uint64 = x: int | 0 <= x < TWO64

  /** Reduction to 64 bits, unsigned and two's complement. */
  function WrapU(x: int): Uint64 { x % TWO64 }

  function WrapS(x: int): Int64 { (x + TWO63) % TWO64 - TWO63 }

  datatype ValueTag = INT | UINT | DOUBLE | STRING | RAW_JSON

  datatype MetadataType = MT_KEY | MT_VALUE | MT_IGNORE

  /** A metadata value under its tag. A double is its 64-bit pattern. */
  datatype Value =
    | IntV(i: Int64)
    | UintV(u: Uint64)
    | DoubleV(bits: Uint64)
    | StringV(s: string)
    | RawJsonV(json: string)
  {
    function Tag(): ValueTag {
      match this
      case IntV(_) => INT
      case UintV(_) => UINT
      case DoubleV(_) => DOUBLE
      case StringV(_) => STRING
      case RawJsonV(_) => RAW_JSON
    }

    predicate IsNumber() { IntV? || UintV? || DoubleV? }

    /** The word a number's tag reads it as. */
    function Word(): int
      requires IsNumber()
    {
      match this
      case IntV(i) => i
      case UintV(u) => u
      case DoubleV(b) => b
    }
  }

  datatype Field = Field(key: string, mtype: MetadataType, value: Value)

  datatype Event = Event(
    category: string, name: string, typ: nat, threadId: nat, startTime: nat, duration: Uint64, fields: seq<Field>)

  /** An event's fields come from a map, so no key is listed twice. */
  ghost predicate DistinctFields(e: Event) {
    forall i, j :: 0 <= i < j < |e.fields| ==> e.fields[i].key != e.fields[j].key
  }

  /** What makes two events of an interval fall into one bucket. */
  datatype FullKey = FullKey(category: string, name: string, typ: nat, threadId: nat, keys: set<(string, Value)>)

  function KeyFields(fields: seq<Field>): set<(string, Value)> {
    set f | f in fields && f.mtype == MT_KEY :: (f.key, f.value)
  }

  function KeyOf(e: Event): FullKey {
    FullKey(e.category, e.name, e.typ, e.threadId, KeyFields(e.fields))
  }

  /** Double arithmetic on bit patterns. Nothing below depends on what it computes. */
  datatype Floats = Floats(
    add: (int, int) -> int, less: (int, int) -> bool,
    ofInt: int -> int, ofUint: int -> int, toInt: int -> int, toUint: int -> int)

  /** Count, sum, minimum and maximum of the numbers logged under one key. */
  datatype Acc = Acc(tag: ValueTag, count: nat, sum: int, min: int, max: int)

  function Min(a: int, b: int): int { if b < a then b else a }

  function Max(a: int, b: int): int { if a < b then b else a }

  /** A number logged under `tag`, as a key of type `to` takes it. */
  function Converted(fp: Floats, to: ValueTag, tag: ValueTag, v: int): int {
    if to == tag then v else
    var d := if tag == DOUBLE then v else if tag == INT then fp.ofInt(v) else fp.ofUint(v);
    if to == DOUBLE then d
    else if to == INT then WrapS(if tag == UINT then v else fp.toInt(d))
    else WrapU(if tag == INT then v else fp.toUint(d))
  }

  function Updated(fp: Floats, a: Acc, tag: ValueTag, v: int): Acc {
    var w := Converted(fp, a.tag, tag, v);
    match a.tag
    case INT => Acc(INT, a.count + 1, WrapS(a.sum + w), Min(a.min, w), Max(a.max, w))
    case UINT => Acc(UINT, a.count + 1, WrapU(a.sum + w), Min(a.min, w), Max(a.max, w))
    case _ => Acc(a.tag, a.count + 1, fp.add(a.sum, w), if fp.less(w, a.min) then w else a.min, if fp.less(a.max, w) then w else a.max)
  }

  function Started(tag: ValueTag, v: int): Acc { Acc(tag, 1, v, v, v) }

  /** Folds one number into the values of a bucket: a new key starts, a known one keeps its first type. */
  function FoldNumber(fp: Floats, m: map<string, Acc>, key: string, tag: ValueTag, v: int): map<string, Acc> {
    m[key := if key in m then Updated(fp, m[key], tag, v) else Started(tag, v)]
  }

  predicate Folds(f: Field) { f.mtype == MT_VALUE && f.value.IsNumber() }

  function FoldField(fp: Floats, m: map<string, Acc>, f: Field): map<string, Acc> {
    if Folds(f) then FoldNumber(fp, m, f.key, f.value.Tag(), f.value.Word()) else m
  }

  function FoldFields(fp: Floats, m: map<string, Acc>, fields: seq<Field>): map<string, Acc> {
    if fields == [] then m
    else FoldField(fp, FoldFields(fp, m, fields[..|fields| - 1]), fields[|fields| - 1])
  }

  /** A bucket: how many events it took, and their numbers by key. */
  datatype Cell = Cell(count: nat, values: map<string, Acc>)

  const EMPTY_CELL := Cell(0, map[])

  function CellAfter(fp: Floats, c: Cell, e: Event): Cell {
    Cell(c.count + 1, FoldFields(fp, FoldNumber(fp, c.values, "dur", UINT, e.duration), e.fields))
  }
}
