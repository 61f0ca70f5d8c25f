/**
 * The slice of a jsoncpp `Json::Value` that the telemetry codec touches:
 * its kind, object membership, and the `isUInt64` / `asUInt64` accessors.
 * jsoncpp keeps an object's members in an ordered map keyed by name, so an
 * object is a Dafny `map` here (one value per name).
 */
module JsonValue {

  newtype uint64 = x: int | 0 <= x < 0x1_0000_0000_0000_0000
  newtype int64 = x: int | -0x8000_0000_0000_0000 <= x < 0x8000_0000_0000_0000

  datatype Option<+T> = None | Some(value: T)

  /** A JSON value. `Other` stands for null, booleans and reals, which the codec never accepts as a counter. */
  datatype Json =
    | Object(members: map<string, Json>)
    | Array(elements: seq<Json>)
    | String(text: string)
    | Int(i: int64)
    | UInt(u: uint64)
    | Other

  /** `Value::isMember`: only an object has members. */
  predicate IsMember(j: Json, name: string)
  {
    j.Object? && name in j.members
  }

  /** `Value::isUInt64` on the integer kinds: a signed integer qualifies when it is not negative. */
  predicate IsUInt64(j: Json)
  {
    match j
    case Int(i) => i >= 0
    case UInt(_) => true
    case _ => false
  }

  /** `Value::asUInt64`, defined exactly where `isUInt64` holds; the numeric value is kept. */
  function AsUInt64(j: Json): (r: uint64)
    requires IsUInt64(j)
    ensures j.Int? ==> r as int == j.i as int
    ensures j.UInt? ==> r == j.u
  {
    match j
    case Int(i) => i as int as uint64
    case UInt(u) => u
  }
}
