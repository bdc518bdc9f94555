/** Java's 32- and 64-bit integers, and IntegerUtil: saturating narrowing and null-tolerant parsing. */
module IntegerUtil {
  import opened Wrappers
  import opened JavaErrors

  const INT_MIN: int := -0x8000_0000
  const INT_MAX: int := 0x7fff_ffff

  /** Java int */
  type int32 = x: int | -0x8000_0000 <= x < 0x8000_0000
  /** Java long */
  type int64 = x: int | -0x8000_0000_0000_0000 <= x < 0x8000_0000_0000_0000

  function Distance(a: int, b: int): nat {
    if a <= b then b - a else a - b
  }

  /** The int a Java (int) cast or an overflowing int operation yields: the value modulo 2^32. */
  function ToInt32(x: int): (r: int32)
    ensures (r - x) % 0x1_0000_0000 == 0
    ensures INT_MIN <= x <= INT_MAX ==> r == x
  {
    (x - INT_MIN) % 0x1_0000_0000 + INT_MIN
  }

  /** Java's a / 10 on ints, which truncates toward zero (Dafny's / rounds down). */
  function JavaDivTen(a: int): (q: int)
    ensures a >= 0 ==> 0 <= q * 10 <= a < q * 10 + 10
    ensures a < 0 ==> q * 10 - 10 < a <= q * 10 <= 0
  {
    if a >= 0 then a / 10 else -((-a) / 10)
  }

  /**
   * saturatedCast(long): the int closest to value, so value itself when it
   * fits, Integer.MAX_VALUE above the range and Integer.MIN_VALUE below it.
   */
  function SaturatedCast(value: int64): (r: int32)
    ensures forall y: int32 :: Distance(value, r) <= Distance(value, y)
    ensures INT_MIN <= value <= INT_MAX ==> r == value
  {
    if value > INT_MAX then INT_MAX
    else if value < INT_MIN then INT_MIN
    else value
  }

  /** Above the int range saturatedCast gives MAX_VALUE, below it MIN_VALUE. */
  lemma SaturatedCastClamps(value: int64)
    ensures value > INT_MAX ==> SaturatedCast(value) == INT_MAX
    ensures value < INT_MIN ==> SaturatedCast(value) == INT_MIN
  {
    var r := SaturatedCast(value);
    if value > INT_MAX {
      assert Distance(value, r) <= Distance(value, INT_MAX);
    } else if value < INT_MIN {
      assert Distance(value, r) <= Distance(value, INT_MIN);
    }
  }

  /** saturatedCast preserves order. */
  lemma SaturatedCastMonotone(a: int64, b: int64)
    requires a <= b
    ensures SaturatedCast(a) <= SaturatedCast(b)
  {
    SaturatedCastClamps(a);
    SaturatedCastClamps(b);
  }

  /**
   * parseInteger(object): null for a null object, otherwise what
   * Integer.parseInt makes of its text (a given function; its
   * NumberFormatException is its Failure).
   */
  function ParseInteger(obj: Option<string>, parseInt: string -> Result<int32, Exception>)
    : (r: Result<Option<int32>, Exception>)
    ensures obj.None? ==> r == Success(None)
    ensures obj.Some? ==> r.Success? == parseInt(obj.value).Success?
    ensures obj.Some? && r.Success? ==> r.value == Some(parseInt(obj.value).value)
  {
    match obj
    case None => Success(None)
    case Some(text) =>
      match parseInt(text)
      case Success(v) => Success(Some(v))
      case Failure(e) => Failure(e)
  }

  /** parseIntegerOrDefault(object, d): d for a null object, otherwise parseInteger(object). */
  function ParseIntegerOrDefault(obj: Option<string>, defaultValue: Option<int32>,
                                 parseInt: string -> Result<int32, Exception>)
    : (r: Result<Option<int32>, Exception>)
    ensures obj.None? ==> r == Success(defaultValue)
    ensures obj.Some? ==> r == ParseInteger(obj, parseInt)
  {
    if obj.None? then Success(defaultValue) else ParseInteger(obj, parseInt)
  }
}
