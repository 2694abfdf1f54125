/** Firestore values, their order, and the equality array union uses
    (src/firestore.rs, compare and transform_value_equal). */
module Values {
  import opened Order

  const MIN_I64: int := -0x8000_0000_0000_0000
  const TWO_63: int := 0x8000_0000_0000_0000

  newtype i64 = x: int | -0x8000_0000_0000_0000 <= x < 0x8000_0000_0000_0000

  /** A double by its exact value; negative and positive zero are one number. */
  datatype Double = NaN | NegInf | PosInf | Fin(r: real)

  datatype Time = Time(seconds: int, nanos: int)

  datatype Value =
    | Unset
    | Null
    | Boolean(b: bool)
    | Integer(i: i64)
    | DoubleValue(d: Double)
    | Timestamp(seconds: int, nanos: int)
    | Str(s: string)
    | Bytes(bytes: seq<nat>)
    | Reference(name: string)
    | Geo(latitude: Double, longitude: Double)
    | Array(values: seq<Value>)
    | Map(fields: map<string, Value>)

  // ----- Numbers -----------------------------------------------------------

  /** The real number a double stands for on the extended line, NaN lowest. */
  datatype Extended = Lowest | Minus | Exact(r: real) | Plus

  function DoubleLine(d: Double): Extended {
    match d
    case NaN => Lowest
    case NegInf => Minus
    case Fin(r) => Exact(r)
    case PosInf => Plus
  }

  function Place(x: Extended): (int, real) {
    match x
    case Lowest => (0, 0.0)
    case Minus => (1, 0.0)
    case Exact(r) => (2, r)
    case Plus => (3, 0.0)
  }

  function CompareExtended(a: Extended, b: Extended): Ordering {
    CompareInt(Place(a).0, Place(b).0).Then(CompareReal(Place(a).1, Place(b).1))
  }

  /** Rounds toward zero, as a cast from double to integer does. */
  function Truncate(r: real): int {
    if r >= 0.0 then r.Floor else -((-r).Floor)
  }

  predicate Below(d: Double, bound: real) {
    d.NegInf? || (d.Fin? && d.r < bound)
  }

  predicate AtLeast(d: Double, bound: real) {
    d.PosInf? || (d.Fin? && d.r >= bound)
  }

  function CompareIntegerDouble(integer: i64, double: Double): Ordering {
    if double.NaN? || Below(double, MIN_I64 as real) then Greater
    else if AtLeast(double, TWO_63 as real) then Less
    else
      CompareInt(integer as int, Truncate(double.r))
        .Then(CompareReal(0.0, double.r - Truncate(double.r) as real))
  }

  /** The mixed comparison is the exact order of the two real numbers. */
  lemma IntegerDoubleExact(integer: i64, double: Double)
    ensures CompareIntegerDouble(integer, double) == CompareExtended(Exact(integer as int as real), DoubleLine(double))
  {
  }

  function CompareDoubles(a: Double, b: Double): Ordering {
    if a.NaN? then if b.NaN? then Equal else Less
    else if b.NaN? then Greater
    else CompareExtended(DoubleLine(a), DoubleLine(b))
  }

  // ----- The value order ---------------------------------------------------

  function Rank(v: Value): int {
    match v
    case Unset => 0
    case Null => 0
    case Boolean(_) => 1
    case Integer(_) => 2
    case DoubleValue(_) => 2
    case Timestamp(_, _) => 3
    case Str(_) => 4
    case Bytes(_) => 5
    case Reference(_) => 6
    case Geo(_, _) => 7
    case Array(_) => 8
    case Map(_) => 9
  }

  function CompareBool(a: bool, b: bool): Ordering {
    if a == b then Equal else if b then Less else Greater
  }

  function CompareBytes(a: seq<nat>, b: seq<nat>): Ordering {
    if a == [] || b == [] then CompareInt(|a|, |b|)
    else CompareInt(a[0], b[0]).Then(CompareBytes(a[1..], b[1..]))
  }

  function Compare(a: Value, b: Value): Ordering
    decreases a, 2, 0
  {
    if Rank(a) != Rank(b) then CompareInt(Rank(a), Rank(b))
    else
      match (a, b)
      case (Integer(x), Integer(y)) => CompareInt(x as int, y as int)
      case (Integer(x), DoubleValue(y)) => CompareIntegerDouble(x, y)
      case (DoubleValue(x), Integer(y)) => CompareIntegerDouble(y, x).Reverse()
      case (DoubleValue(x), DoubleValue(y)) => CompareDoubles(x, y)
      case (Boolean(x), Boolean(y)) => CompareBool(x, y)
      case (Str(x), Str(y)) => CompareString(x, y)
      case (Reference(x), Reference(y)) => CompareString(x, y)
      case (Bytes(x), Bytes(y)) => CompareBytes(x, y)
      case (Timestamp(s, n), Timestamp(t, m)) => CompareInt(s, t).Then(CompareInt(n, m))
      case (Geo(x, y), Geo(z, w)) => CompareDoubles(x, z).Then(CompareDoubles(y, w))
      case (Array(x), Array(y)) => CompareLists(x, y)
      case (Map(_), Map(_)) => CompareEntries(a, SortedKeys(a.fields.Keys), b, SortedKeys(b.fields.Keys))
      case _ => Equal
  }

  function CompareLists(a: seq<Value>, b: seq<Value>): Ordering
    decreases a, 1, 0
  {
    if a == [] || b == [] then CompareInt(|a|, |b|)
    else Compare(a[0], b[0]).Then(CompareLists(a[1..], b[1..]))
  }

  /** Entries in key order: first the keys, then the values. */
  function CompareEntries(a: Value, ak: seq<string>, b: Value, bk: seq<string>): Ordering
    requires a.Map? && b.Map?
    requires forall k :: k in ak ==> k in a.fields
    requires forall k :: k in bk ==> k in b.fields
    decreases a, 1, |ak|
  {
    if ak == [] || bk == [] then CompareInt(|ak|, |bk|)
    else
      CompareString(ak[0], bk[0])
        .Then(Compare(a.fields[ak[0]], b.fields[bk[0]]))
        .Then(CompareEntries(a, ak[1..], b, bk[1..]))
  }
}
