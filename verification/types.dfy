/** The closed type enumeration, literal payloads and constant nodes that the
    binder's type-constraint logic works on, together with the fixed-width
    integer semantics of reading a payload at a machine width. */
module Types {

  /** The scalar SQL type tags relevant to binding. `Invalid` is the parser's
      tag for NULL and for nodes that have no type yet. */
  datatype TypeId =
    | Invalid
    | TinyInt
    | SmallInt
    | Integer
    | BigInt
    | Decimal
    | Varchar
    | Date
    | Timestamp

  /** The ways binding can fail, one per kind of fatal error the binder raises. */
  datatype Failure =
    | ConstraintViolated   // a node's final type differs from its recorded constraint
    | OutOfRange           // an integer does not fit the destination width
    | Unparsable           // text is not a value of the destination type
    | UnsupportedCoercion  // no conversion is defined for this pair of types

  /** The payload of a constant. `Null` is the SQL NULL of whatever type the
      node carries; dates and timestamps hold their native unsigned encoding. */
  datatype Value =
    | Null
    | Int(i: int)
    | Real(r: real)
    | Text(s: string)
    | DateVal(days: nat)
    | TimestampVal(micros: nat)

  /** A constant (literal) expression node: a resolved type and a payload. */
  datatype Constant = Constant(typ: TypeId, val: Value)

  predicate IsIntegerType(t: TypeId) {
    t == TinyInt || t == SmallInt || t == Integer || t == BigInt
  }

  /** 2^(N-1) for the N-bit signed type `t`. */
  function HalfRange(t: TypeId): (h: nat)
    requires IsIntegerType(t)
    ensures h >= 0x80
  {
    match t
    case TinyInt => 0x80
    case SmallInt => 0x8000
    case Integer => 0x8000_0000
    case BigInt => 0x8000_0000_0000_0000
  }

  function MinOf(t: TypeId): int
    requires IsIntegerType(t)
  {
    -(HalfRange(t) as int)
  }

  function MaxOf(t: TypeId): int
    requires IsIntegerType(t)
  {
    HalfRange(t) - 1
  }

  /** The range check `IsRepresentable<intN_t>`: `v` lies in [-2^(N-1), 2^(N-1)-1]. */
  predicate IsRepresentable(v: int, t: TypeId)
    requires IsIntegerType(t)
  {
    MinOf(t) <= v <= MaxOf(t)
  }

  const LongMin: int := -0x8000_0000_0000_0000
  const LongMax: int := 0x7FFF_FFFF_FFFF_FFFF
  const Uint32Modulus: nat := 0x1_0000_0000
  const Uint64Modulus: nat := 0x1_0000_0000_0000_0000

  /** Two's-complement truncation of `v` to the width of `t`, as a C++
      conversion to `intN_t` performs it. */
  function Truncate(v: int, t: TypeId): (w: int)
    requires IsIntegerType(t)
    ensures IsRepresentable(w, t)
    ensures (w - v) % (2 * HalfRange(t)) == 0
    ensures IsRepresentable(v, t) ==> w == v
  {
    (v + HalfRange(t)) % (2 * HalfRange(t)) - HalfRange(t)
  }

  /** The payload can be read at the native width of the node's type: integer
      types hold an integer and VARCHAR holds text. */
  predicate Readable(c: Constant) {
    (IsIntegerType(c.typ) ==> c.val.Int?) && (c.typ == Varchar ==> c.val.Text?)
  }

  /** `Peek<intN_t>`: the payload read at the native width of an integer node. */
  function PeekInt(c: Constant): (v: int)
    requires IsIntegerType(c.typ) && c.val.Int?
    ensures IsRepresentable(v, c.typ)
    ensures IsRepresentable(c.val.i, c.typ) ==> v == c.val.i
  {
    Truncate(c.val.i, c.typ)
  }

  /** A payload consistent with its type: NULL of any type, or a non-null value
      of the representation and range that type stores. */
  predicate WellFormed(c: Constant) {
    match c.val
    case Null => true
    case Int(i) => IsIntegerType(c.typ) && IsRepresentable(i, c.typ)
    case Real(_) => c.typ == Decimal
    case Text(_) => c.typ == Varchar
    case DateVal(d) => c.typ == Date && d < Uint32Modulus
    case TimestampVal(t) => c.typ == Timestamp && t < Uint64Modulus
  }
}
