/** Bytes, operations and the materialised map shared by every layer of the store. */
module Types {

  datatype Option<+T> = None | Some(value: T) {
    function GetOr(default: T): T { if None? then default else value }
  }

  type Byte = x: int | 0 <= x < 256

  type Bytes = seq<Byte>

  /** A stored value and the commit index that wrote it. */
  datatype Entry = Entry(value: Bytes, version: nat)

  type Map = map<Bytes, Entry>

  /** One write. */
  datatype Op = Put(key: Bytes, value: Bytes) | Delete(key: Bytes)

  /** Whether applying `op` changes what `m` holds. A put of the value already there does not. */
  predicate Changes(op: Op, m: Map) {
    match op
    case Put(key, value) => key !in m || m[key].value != value
    case Delete(key) => key in m
  }

  /** The map after `op` commits at `index`. */
  function Apply(op: Op, m: Map, index: nat): Map {
    if !Changes(op, m) then m
    else match op
      case Put(key, value) => m[key := Entry(value, index)]
      case Delete(key) => m - {key}
  }

  function Min(a: int, b: int): int { if a <= b then a else b }

  function Max(a: int, b: int): int { if a <= b then b else a }
}
