/** `String.convertTo(kType)` of Bot.kt: turning the text of one capture group
    into the value of a handler parameter, chosen by the parameter's declared
    Kotlin type. */
module Coercion {
  import opened Runtime
  import opened Text

  /** The classifier of a parameter's `KType`. */
  datatype Classifier =
    | ByteClass | ShortClass | IntClass | LongClass
    | FloatClass | DoubleClass | BooleanClass | StringClass
    | OtherClass(name: string)

  datatype KType = KType(classifier: Classifier, isMarkedNullable: bool)

  /** An argument value handed to a handler; `Null` is Kotlin's `null`. */
  datatype Value =
    | Null
    | ByteValue(b: int) | ShortValue(sh: int) | IntValue(i: int) | LongValue(l: int)
    | FloatValue(f: real) | DoubleValue(d: real)
    | BooleanValue(flag: bool)
    | StringValue(str: string)

  const BYTE_MIN: int := -0x80
  const BYTE_MAX: int := 0x7F
  const SHORT_MIN: int := -0x8000
  const SHORT_MAX: int := 0x7FFF
  const INT_MIN: int := -0x8000_0000
  const INT_MAX: int := 0x7FFF_FFFF
  const LONG_MIN: int := -0x8000_0000_0000_0000
  const LONG_MAX: int := 0x7FFF_FFFF_FFFF_FFFF

  predicate IsIntegral(c: Classifier) {
    c == ByteClass || c == ShortClass || c == IntClass || c == LongClass
  }

  function MinOf(c: Classifier): int
    requires IsIntegral(c)
  {
    match c
    case ByteClass => BYTE_MIN
    case ShortClass => SHORT_MIN
    case IntClass => INT_MIN
    case LongClass => LONG_MIN
  }

  function MaxOf(c: Classifier): int
    requires IsIntegral(c)
  {
    match c
    case ByteClass => BYTE_MAX
    case ShortClass => SHORT_MAX
    case IntClass => INT_MAX
    case LongClass => LONG_MAX
  }

  /** The boxed integer of classifier `c` holding `n`. */
  function IntegralValue(c: Classifier, n: int): Value
    requires IsIntegral(c)
  {
    match c
    case ByteClass => ByteValue(n)
    case ShortClass => ShortValue(n)
    case IntClass => IntValue(n)
    case LongClass => LongValue(n)
  }

  /** `v` is a non-null value of the Kotlin type whose classifier is `c`
      (an integer within that type's range). */
  predicate HasClass(v: Value, c: Classifier) {
    match v
    case Null => false
    case ByteValue(n) => c == ByteClass && BYTE_MIN <= n <= BYTE_MAX
    case ShortValue(n) => c == ShortClass && SHORT_MIN <= n <= SHORT_MAX
    case IntValue(n) => c == IntClass && INT_MIN <= n <= INT_MAX
    case LongValue(n) => c == LongClass && LONG_MIN <= n <= LONG_MAX
    case FloatValue(_) => c == FloatClass
    case DoubleValue(_) => c == DoubleClass
    case BooleanValue(_) => c == BooleanClass
    case StringValue(_) => c == StringClass
  }

  /** The local `validateNullability`: a present value passes; `null` passes
      only for a nullable type and otherwise throws. */
  function ValidateNullability(v: Option<Value>, isNullable: bool): Result<Value> {
    match v
    case Some(x) => Ok(x)
    case None => if isNullable then Ok(Null) else Throw(IllegalState)
  }

  function IntegralOrNullValue(s: string, c: Classifier): Option<Value>
    requires IsIntegral(c)
  {
    match IntegralOrNull(s, MinOf(c), MaxOf(c))
    case Some(n) => Some(IntegralValue(c, n))
    case None => None
  }

  function RealOrNullValue(r: Option<real>, double: bool): Option<Value> {
    match r
    case Some(x) => Some(if double then DoubleValue(x) else FloatValue(x))
    case None => None
  }

  /** `s.convertTo(kType)`. A result that is not `null` always has the declared
      type; `null` comes out only for a nullable type or for Boolean (which
      never throws); the only exception is `IllegalStateException`. */
  function ConvertTo(p: Platform, s: string, kType: KType): (r: Result<Value>)
    ensures r.Ok? && r.value != Null ==> HasClass(r.value, kType.classifier)
    ensures r == Ok(Null) ==> kType.isMarkedNullable || kType.classifier == BooleanClass
    ensures r.Throw? ==> r.error == IllegalState
  {
    var c := kType.classifier;
    match c
    case ByteClass => ValidateNullability(IntegralOrNullValue(s, c), kType.isMarkedNullable)
    case ShortClass => ValidateNullability(IntegralOrNullValue(s, c), kType.isMarkedNullable)
    case IntClass => ValidateNullability(IntegralOrNullValue(s, c), kType.isMarkedNullable)
    case LongClass => ValidateNullability(IntegralOrNullValue(s, c), kType.isMarkedNullable)
    case FloatClass => ValidateNullability(RealOrNullValue(p.toFloatOrNull(s), false), kType.isMarkedNullable)
    case DoubleClass => ValidateNullability(RealOrNullValue(p.toDoubleOrNull(s), true), kType.isMarkedNullable)
    case BooleanClass =>
      if s == "true" then Ok(BooleanValue(true))
      else if s == "false" then Ok(BooleanValue(false))
      else Ok(Null)
    case StringClass => Ok(StringValue(s))
    case OtherClass(_) => Throw(IllegalState)
  }

  /** Integer coercion: the parsed value when the text is a base-10 integer in
      the type's range; otherwise `null` for a nullable type and
      `IllegalStateException` for a non-nullable one. */
  lemma IntegralCoercion(p: Platform, s: string, kType: KType)
    requires IsIntegral(kType.classifier)
    ensures var c := kType.classifier;
      match ParseDecimal(s)
      case Some(n) =>
        if MinOf(c) <= n <= MaxOf(c) then ConvertTo(p, s, kType) == Ok(IntegralValue(c, n))
        else ConvertTo(p, s, kType) == if kType.isMarkedNullable then Ok(Null) else Throw(IllegalState)
      case None =>
        ConvertTo(p, s, kType) == if kType.isMarkedNullable then Ok(Null) else Throw(IllegalState)
  {
  }

  /** A nullable numeric parameter turns every parse failure into `null`:
      its conversion never throws. */
  lemma NullableNumberNeverThrows(p: Platform, s: string, kType: KType)
    requires IsIntegral(kType.classifier) || kType.classifier == FloatClass || kType.classifier == DoubleClass
    requires kType.isMarkedNullable
    ensures ConvertTo(p, s, kType).Ok?
  {
  }

  /** Boolean coercion ignores nullability: "true" and "false" map to their
      values and any other text to `null`, and it never throws. */
  lemma BooleanCoercion(p: Platform, s: string, nullable: bool)
    ensures ConvertTo(p, s, KType(BooleanClass, nullable)) ==
      if s == "true" then Ok(BooleanValue(true))
      else if s == "false" then Ok(BooleanValue(false))
      else Ok(Null)
  {
  }

  /** String coercion returns the text unchanged; any classifier outside the
      supported set throws `IllegalStateException`. */
  lemma StringAndUnsupportedCoercion(p: Platform, s: string, nullable: bool, name: string)
    ensures ConvertTo(p, s, KType(StringClass, nullable)) == Ok(StringValue(s))
    ensures ConvertTo(p, s, KType(OtherClass(name), nullable)) == Throw(IllegalState)
  {
  }

  /** Floating-point coercion is the platform parser's answer, with
      `validateNullability` applied to its `null`. */
  lemma FloatingCoercion(p: Platform, s: string, kType: KType)
    requires kType.classifier == FloatClass || kType.classifier == DoubleClass
    ensures var parsed := if kType.classifier == FloatClass then p.toFloatOrNull(s) else p.toDoubleOrNull(s);
      match parsed
      case Some(x) =>
        ConvertTo(p, s, kType) == Ok(if kType.classifier == FloatClass then FloatValue(x) else DoubleValue(x))
      case None =>
        ConvertTo(p, s, kType) == if kType.isMarkedNullable then Ok(Null) else Throw(IllegalState)
  {
  }

  /** The text Kotlin's `toString` gives for a non-floating value. */
  function ToText(v: Value): string
    requires !v.Null? && !v.FloatValue? && !v.DoubleValue?
  {
    match v
    case ByteValue(n) => FormatDecimal(n)
    case ShortValue(n) => FormatDecimal(n)
    case IntValue(n) => FormatDecimal(n)
    case LongValue(n) => FormatDecimal(n)
    case BooleanValue(b) => if b then "true" else "false"
    case StringValue(t) => t
  }

  /** Coercion round trip: printing a Byte, Short, Int, Long, Boolean or
      String value and converting the text back to the same type gives the
      value again, nullable type or not. */
  lemma CoercionRoundTrip(p: Platform, v: Value, c: Classifier, nullable: bool)
    requires HasClass(v, c) && !v.FloatValue? && !v.DoubleValue?
    ensures ConvertTo(p, ToText(v), KType(c, nullable)) == Ok(v)
  {
    match v
    case ByteValue(n) => ParseFormatRoundTrip(n);
    case ShortValue(n) => ParseFormatRoundTrip(n);
    case IntValue(n) => ParseFormatRoundTrip(n);
    case LongValue(n) => ParseFormatRoundTrip(n);
    case BooleanValue(_) =>
    case StringValue(_) =>
  }
}
