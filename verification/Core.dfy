/** Names and values shared by the other modules. */
module Core {
  type CacheName = string
  type CacheGroupName = string
  type CacheType = string
  type DeliveryServiceName = string
  type MonitorName = string

  datatype Option<+T> = None | Some(value: T)

  /** A decoded JSON value. Decoding only makes `Float`, text and flags out of primitives;
      `Integer` stands for the integer Go types, `Composite` for null, arrays and objects. */
  datatype Value =
    | Float(f: real)
    | Integer(i: int)
    | Text(s: string)
    | Flag(b: bool)
    | Composite(id: nat)

  /** The number held by a value of any numeric type. */
  function ToNumeric(v: Value): Option<real> {
    match v
    case Float(f) => Some(f)
    case Integer(i) => Some(i as real)
    case _ => None
  }

  function Min(a: nat, b: nat): nat {
    if a < b then a else b
  }

  /** What a map holds for a key. */
  function Entry<K, V>(m: map<K, V>, k: K): Option<V> {
    if k in m then Some(m[k]) else None
  }
}
