/** Values shared by the models: optional values, failures, and the JSON documents the Python code exchanges. */
module Common {

  datatype Option<+T> = None | Some(value: T)

  datatype Result<+T, +E> = Ok(value: T) | Err(error: E)

  newtype byte = x: int | 0 <= x < 256

  type Bytes = seq<byte>

  /** A finite binary floating-point value: the mantissa times a power of two. */
  datatype Binary = Binary(mantissa: int, exponent: int)

  /** Lowest terms, so that equal values are equal. */
  type Float = f: Binary | f.mantissa % 2 != 0 || f == Binary(0, 0) witness Binary(0, 0)

  function Pow2(n: nat): nat
  {
    if n == 0 then 1 else 2 * Pow2(n - 1)
  }

  /** The value lies between zero and one. */
  predicate InUnit(f: Float)
  {
    0 <= f.mantissa && if f.exponent >= 0 then f.mantissa * Pow2(f.exponent) <= 1 else f.mantissa <= Pow2(-f.exponent)
  }

  /** A decoded JSON value. Objects have no duplicate members and no member order. */
  datatype Json =
    | JNull
    | JBool(flag: bool)
    | JInt(number: int)
    | JReal(fraction: Float)
    | JString(text: string)
    | JArray(items: seq<Json>)
    | JObject(fields: map<string, Json>)

  /** `value.get(name)` on a decoded object: an absent member reads as null. */
  function Member(fields: map<string, Json>, name: string): Json
  {
    if name in fields then fields[name] else JNull
  }

  /** Python's `value == 1`: booleans and floats compare equal to integers. */
  predicate EqualsOne(value: Json)
  {
    value == JInt(1) || value == JBool(true) || value == JReal(Binary(1, 0))
  }

  function Strings(names: seq<string>): (r: seq<Json>)
    ensures |r| == |names| && forall i :: 0 <= i < |r| ==> r[i] == JString(names[i])
  {
    seq(|names|, i requires 0 <= i < |names| => JString(names[i]))
  }
}
