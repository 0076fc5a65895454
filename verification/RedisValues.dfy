/** The reply values shared by the Redis wire protocol and the Redis store. */
module RedisValues {
  import opened Common
  import opened Text

  datatype RedisValue =
    | Nil
    | Status(text: Bytes)
    | Int(number: int)
    | Bulk(bytes: Bytes)
    | Array(items: seq<RedisValue>)

  // ---- reading replies ----

  datatype ValueError = NotAnArray | NotAScalar | NotUtf8 | NotANumber | Negative

  function ArrayItems(value: RedisValue): Result<seq<RedisValue>, ValueError> {
    match value
    case Array(items) => Ok(items)
    case Nil => Ok([])
    case _ => Err(NotAnArray)
  }

  function ValueBytes(value: RedisValue): Result<Bytes, ValueError> {
    match value
    case Bulk(bytes) => Ok(bytes)
    case Status(text) => Ok(text)
    case Int(number) => Ok(DecimalInt(number))
    case _ => Err(NotAScalar)
  }

  function ValueString(value: RedisValue): Result<Bytes, ValueError> {
    match ValueBytes(value)
    case Ok(bytes) => if IsUtf8(bytes) then Ok(bytes) else Err(NotUtf8)
    case Err(error) => Err(error)
  }

  function ValueU64(value: RedisValue): Result<nat, ValueError> {
    match value
    case Int(number) => if number < 0 then Err(Negative) else Ok(number)
    case Bulk(text) =>
      if !IsUtf8(text) then Err(NotUtf8)
      else (match ParseU64(text) case Some(n) => Ok(n) case None => Err(NotANumber))
    case Status(text) => (match ParseU64(text) case Some(n) => Ok(n) case None => Err(NotANumber))
    case _ => Err(NotAScalar)
  }

  /** A scalar reply that may be missing: a one-element array stands for its element. */
  function OptionalU64(value: RedisValue): Result<nat, ValueError> {
    var scalar := if value.Array? && |value.items| == 1 then value.items[0] else value;
    if scalar.Nil? then Ok(0) else ValueU64(scalar)
  }

  lemma NumeralIsUtf8(text: Bytes, n: nat)
    requires UnsignedNumeral(text, n)
    ensures IsUtf8(text)
  {
    hide Numeral, IsUtf8;
    var digits := if Numeral(text, n) then text else text[1..];
    NumeralReads(digits, n);
    assert digits != text ==> text == [43] + digits;
    AsciiIsUtf8(text);
  }

  /**
   * Which replies read as a count: an integer, and text that spells one within 64 bits. A
   * missing counter is zero where it may be missing, and there an array of one item stands for it.
   */
  lemma CountsRead(value: RedisValue, n: nat)
    ensures ValueU64(value) == Ok(n) <==>
      || value == Int(n)
      || (value.Bulk? && n <= U64_MAX && UnsignedNumeral(value.bytes, n))
      || (value.Status? && n <= U64_MAX && UnsignedNumeral(value.text, n))
    ensures value.Int? && value.number < 0 ==> ValueU64(value) == Err(Negative)
    ensures !value.Array? ==>
      && OptionalU64(Array([value])) == OptionalU64(value)
      && (OptionalU64(value) == Ok(n) <==> ValueU64(value) == Ok(n) || (value.Nil? && n == 0))
    ensures value.Array? && |value.items| != 1 ==> OptionalU64(value).Err?
  {
    if value.Bulk? {
      ParsesExactly(value.bytes, n);
      if UnsignedNumeral(value.bytes, n) { NumeralIsUtf8(value.bytes, n); }
    } else if value.Status? {
      ParsesExactly(value.text, n);
    }
    hide UnsignedNumeral, ParseU64, IsUtf8;
  }

  /** Text is read as it is if it is UTF-8, an integer as its digits, and nothing else is text. */
  lemma TextsRead(bytes: Bytes, n: int)
    ensures IsUtf8(bytes) ==> ValueString(Bulk(bytes)) == ValueString(Status(bytes)) == Ok(bytes)
    ensures !IsUtf8(bytes) ==> ValueString(Bulk(bytes)) == Err(NotUtf8) && ValueU64(Bulk(bytes)) == Err(NotUtf8)
    ensures ValueString(Int(n)) == Ok(DecimalInt(n))
    ensures ValueString(Nil).Err? && forall items :: ValueString(Array(items)).Err?
  {
    DecimalParses(if n < 0 then -n else n);
    AsciiIsUtf8(DecimalInt(n));
    hide Decimal, ParseU64, IsUtf8;
  }

  /** Only arrays have items; a missing array has none. */
  lemma ArraysRead(value: RedisValue)
    ensures value.Array? ==> ArrayItems(value) == Ok(value.items)
    ensures value.Nil? ==> ArrayItems(value) == Ok([])
    ensures !value.Array? && !value.Nil? ==> ArrayItems(value).Err?
  {
  }
}
