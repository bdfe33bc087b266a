/** `BinderSherpa::CheckAndTryPromoteType`: driving a constant toward the type
    the binder has decided it must hold, by dispatch on (current type,
    desired type). */
module Coercion {
  import opened Wrappers
  import opened Types
  import opened IntText

  /** The collaborators the coercion calls but does not define: the calendar
      parsers, the floating-point parse behind `std::stod`, and the numeric
      cast `TryCastNumericAll`, which receives the node, the integer it holds
      read at its native width, and the desired type. */
  datatype Collaborators = Collaborators(
    parseDate: string -> Option<int>,
    parseTimestamp: string -> Option<int>,
    parseDouble: string -> Option<real>,
    castNumeric: (Constant, int, TypeId) -> Result<Constant, Failure>)

  /** The VARCHAR branch: coercing the text `s` to `desired`. */
  function PromoteText(s: string, desired: TypeId, env: Collaborators): (r: Result<Constant, Failure>)
    // Every success yields a node of the desired type whose payload fits it.
    ensures r.Ok? ==> r.value.typ == desired && WellFormed(r.value)
    // Integer targets: success iff the text is a `long` numeral that fits the target.
    ensures IsIntegerType(desired) ==>
              (r.Ok? <==> StoL(s).Ok? && IsRepresentable(StoL(s).value, desired))
    ensures IsIntegerType(desired) && r.Ok? ==> r.value.val == Int(StoL(s).value)
    ensures IsIntegerType(desired) && StoL(s).Ok? && !IsRepresentable(StoL(s).value, desired)
            ==> r == Err(OutOfRange)
    ensures IsIntegerType(desired) && StoL(s).Err? ==> r == Err(StoL(s).error)
    // Calendar and decimal targets: success iff the collaborator parses the text.
    ensures desired == Date ==> (r.Ok? <==> env.parseDate(s).Some?)
    ensures desired == Date && r.Ok? ==> r.value.val.DateVal? && r.value.val.days == env.parseDate(s).value % Uint32Modulus
    ensures desired == Timestamp ==> (r.Ok? <==> env.parseTimestamp(s).Some?)
    ensures desired == Timestamp && r.Ok? ==> r.value.val.TimestampVal? && r.value.val.micros == env.parseTimestamp(s).value % Uint64Modulus
    ensures desired == Decimal ==> (r.Ok? <==> env.parseDouble(s).Some?)
    ensures desired == Decimal && r.Ok? ==> r.value.val == Real(env.parseDouble(s).value)
    ensures (desired == Date || desired == Timestamp || desired == Decimal) && r.Err? ==> r.error == Unparsable
    // No other target is reachable from text.
    ensures desired in {Invalid, Varchar} ==> r == Err(UnsupportedCoercion)
  {
    match desired
    case Date =>
      (match env.parseDate(s)
       case None => Err(Unparsable)
       case Some(d) => Ok(Constant(Date, DateVal(d % Uint32Modulus))))
    case Timestamp =>
      (match env.parseTimestamp(s)
       case None => Err(Unparsable)
       case Some(t) => Ok(Constant(Timestamp, TimestampVal(t % Uint64Modulus))))
    case TinyInt | SmallInt | Integer | BigInt =>
      (match StoL(s)
       case Err(e) => Err(e)
       case Ok(v) => if IsRepresentable(v, desired) then Ok(Constant(desired, Int(v))) else Err(OutOfRange))
    case Decimal =>
      (match env.parseDouble(s)
       case None => Err(Unparsable)
       case Some(d) => Ok(Constant(Decimal, Real(d))))
    case _ => Err(UnsupportedCoercion)
  }

  /** `CheckAndTryPromoteType`: the constant after coercion to `desired`, or
      the failure. On failure the caller's node is left as it was. */
  function CheckAndTryPromoteType(c: Constant, desired: TypeId, env: Collaborators): (r: Result<Constant, Failure>)
    requires c.typ != desired ==> Readable(c)
    // Equal types: nothing happens.
    ensures c.typ == desired ==> r == Ok(c)
    // NULL promotion always succeeds.
    ensures c.typ == Invalid && desired != Invalid ==> r == Ok(Constant(desired, Null))
    // Integer sources hand their value, read at native width, to the numeric cast.
    ensures IsIntegerType(c.typ) && c.typ != desired ==> r == env.castNumeric(c, PeekInt(c), desired)
    // Text sources follow the VARCHAR branch.
    ensures c.typ == Varchar && desired != Varchar ==> r == PromoteText(c.val.s, desired, env)
    // Every other source has no coercion path.
    ensures c.typ in {Decimal, Date, Timestamp} && c.typ != desired ==> r == Err(UnsupportedCoercion)
    // Outside the numeric cast, a success has the desired type and a fitting payload.
    ensures !IsIntegerType(c.typ) && c.typ != desired && r.Ok?
            ==> r.value.typ == desired && WellFormed(r.value)
  {
    if c.typ == desired then Ok(c)
    else
      match c.typ
      case Invalid => Ok(Constant(desired, Null))
      case TinyInt | SmallInt | Integer | BigInt => env.castNumeric(c, PeekInt(c), desired)
      case Varchar => PromoteText(c.val.s, desired, env)
      case _ => Err(UnsupportedCoercion)
  }

  /** Range law for text: the canonical text of any integer `v` coerces to an
      integer type exactly when `v` fits it, and then to the value `v`. */
  lemma TextToIntegerRangeLaw(v: int, t: TypeId, env: Collaborators)
    requires IsIntegerType(t)
    ensures CheckAndTryPromoteType(Constant(Varchar, Text(Show(v))), t, env)
            == if IsRepresentable(v, t) then Ok(Constant(t, Int(v))) else Err(OutOfRange)
  {
    StoLShow(v);
  }
}
