/**
 * Decoded JSON values as the JSON library hands them over. Numbers are integers here
 * (prices are only copied and compared). The conversions mirror the library's: a string
 * field converts only from a JSON string, a `double` only from a number, and an `int`
 * from a number or a boolean (as 0 or 1), cut to 32 bits by the library's `static_cast`
 * from its 64-bit integer. A conversion that does not apply throws.
 */
module Json {
  import opened Wrappers

  datatype JVal =
    | JNull
    | JBool(b: bool)
    | JNumber(n: int)
    | JString(s: string)
    | JArray(elems: seq<JVal>)
    | JObject(fields: map<string, JVal>)

  /** A message: one JSON object. */
  type JsonObject = map<string, JVal>

  /** The range of a 32-bit C++ `int`. */
  predicate IsInt32(n: int)
  {
    -0x8000_0000 <= n < 0x8000_0000
  }

  /** A 64-bit integer cast to a 32-bit `int`: the low 32 bits, read as two's complement. */
  function Wrap32(n: int): (r: int)
    ensures IsInt32(r)
    ensures (r - n) % 0x1_0000_0000 == 0
    ensures IsInt32(n) ==> r == n
  {
    (n + 0x8000_0000) % 0x1_0000_0000 - 0x8000_0000
  }

  /** Conversion to a C++ `int`. */
  function ToInt(v: JVal): (r: Option<int>)
    ensures r.Some? <==> v.JNumber? || v.JBool?
    ensures r.Some? ==> IsInt32(r.value)
    ensures v.JNumber? ==> r == Some(Wrap32(v.n))
  {
    match v
    case JNumber(n) => Some(Wrap32(n))
    case JBool(b) => Some(if b then 1 else 0)
    case _ => None
  }

  /** Conversion to a C++ `double`. */
  function ToNumber(v: JVal): Option<int>
  {
    match v
    case JNumber(n) => Some(n)
    case _ => None
  }

  /** Conversion to `std::string`. */
  function ToStr(v: JVal): Option<string>
  {
    match v
    case JString(s) => Some(s)
    case _ => None
  }

  /**
   * Reading `j[key]` into an `int`/`double`/`std::string` field of `parseMessage`, whose
   * object is not const: a missing key reads as null (the non-const `operator[]` inserts
   * one), and null converts to nothing, so the read fails.
   */
  function IntField(j: JsonObject, key: string): Option<int>
  {
    if key in j then ToInt(j[key]) else None
  }

  function NumberField(j: JsonObject, key: string): Option<int>
  {
    if key in j then ToNumber(j[key]) else None
  }

  function StrField(j: JsonObject, key: string): Option<string>
  {
    if key in j then ToStr(j[key]) else None
  }
}
