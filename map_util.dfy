/**
 * MapUtil: capacity sizing and null-tolerant lookups. A map reference is an
 * Option of a Dafny map (None is null); values are never null.
 */
module MapUtil {
  import opened Wrappers
  import opened JavaErrors
  import opened IntegerUtil
  import opened Text

  /** MAX_POWER_OF_TWO = 1 << (Integer.SIZE - 2) */
  const MAX_POWER_OF_TWO: int32 := 0x4000_0000

  /** The message of checkNonNegative's exception: the name, then the value in decimal. */
  function NegativeMessage(name: string, value: int32): (r: string)
    ensures r == name + " cannot be negative but was: " + IntToDecimal(value as int)
    ensures DecimalToInt(r[|name| + 29..]) == value as int
  {
    var r := name + " cannot be negative but was: " + IntToDecimal(value as int);
    IntToDecimalRoundTrip(value as int);
    assert r[|name| + 29..] == IntToDecimal(value as int);
    r
  }

  /** checkNonNegative(value, name): the value, or IllegalArgumentException when it is negative. */
  function CheckNonNegative(value: int32, name: string): (r: Result<int32, Exception>)
    ensures r.Success? <==> value >= 0
    ensures r.Success? ==> r.value == value
    ensures r.Failure? ==> r.error == Err(IllegalArgumentException, NegativeMessage(name, value))
  {
    if value < 0 then Failure(Err(IllegalArgumentException, NegativeMessage(name, value)))
    else Success(value)
  }

  /**
   * capacity(expectedSize). The middle branch, (int) (expectedSize / 0.75F + 1.0F),
   * is float arithmetic and is the given function loadFactorSize.
   */
  function Capacity(expectedSize: int32, loadFactorSize: int32 -> int32): (r: Result<int32, Exception>)
    ensures r.Failure? <==> expectedSize < 0
    ensures r.Failure? ==> r.error.kind == IllegalArgumentException
    ensures 0 <= expectedSize < 3 ==> r == Success(expectedSize + 1)
    ensures expectedSize >= MAX_POWER_OF_TWO ==> r == Success(INT_MAX)
  {
    if expectedSize < 3 then
      match CheckNonNegative(expectedSize, "expectedSize")
      case Failure(e) => Failure(e)
      case Success(_) => Success(expectedSize + 1)
    else if expectedSize < MAX_POWER_OF_TWO then
      Success(loadFactorSize(expectedSize))
    else
      Success(INT_MAX)
  }

  /** Outside the float branch capacity is strictly above the expected size or saturated at MAX_VALUE. */
  lemma CapacityIntegerBranches(expectedSize: int32, loadFactorSize: int32 -> int32)
    requires expectedSize < 3 || expectedSize >= MAX_POWER_OF_TWO
    ensures Capacity(expectedSize, loadFactorSize).Success? ==>
      var c := Capacity(expectedSize, loadFactorSize).value;
      c > expectedSize || c == INT_MAX
  {
  }

  /** isEmpty(map) */
  predicate IsEmpty<K, V>(m: Option<map<K, V>>) {
    m.None? || |m.value| == 0
  }

  /** isNotEmpty(map) */
  predicate IsNotEmpty<K, V>(m: Option<map<K, V>>) {
    !IsEmpty(m)
  }

  /** parseValue(map, key): null for a null or empty map, else map.get(key). */
  function ParseValue<K, V>(m: Option<map<K, V>>, key: K): (r: Option<V>)
    ensures r.Some? <==> m.Some? && key in m.value
    ensures r.Some? ==> r.value == m.value[key]
  {
    if IsEmpty(m) then None
    else if key in m.value then Some(m.value[key])
    else None
  }

  /** parseValueOrDefault(map, key, default): the default for a null or empty map, else map.get(key). */
  function ParseValueOrDefault<K, V>(m: Option<map<K, V>>, key: K, defaultValue: Option<V>): (r: Option<V>)
    ensures IsEmpty(m) ==> r == defaultValue
    ensures IsNotEmpty(m) ==> r == ParseValue(m, key)
  {
    if IsEmpty(m) then defaultValue
    else if key in m.value then Some(m.value[key])
    else None
  }

  /** The default is used only for a null or empty map: a present map missing the key gives null. */
  lemma DefaultOnlyForEmptyMap<K, V>(m: Option<map<K, V>>, key: K, defaultValue: V)
    ensures ParseValueOrDefault(m, key, Some(defaultValue)).Some? <==> IsEmpty(m) || key in m.value
    ensures IsNotEmpty(m) && key !in m.value ==> ParseValueOrDefault(m, key, Some(defaultValue)) == None
  {
  }

  /**
   * fromProperties(properties): an empty map for null; otherwise each property
   * name mapped to its value (the Properties object is taken as its map of
   * string entries).
   */
  function FromProperties(properties: Option<map<string, string>>): (r: map<string, string>)
    ensures properties.None? ==> r == map[]
    ensures properties.Some? ==> r.Keys == properties.value.Keys
  {
    if properties.None? then map[] else properties.value
  }
}
