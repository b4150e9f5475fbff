/** Stock datatypes shared by every module. */
module Prelude {
  datatype Option<+T> = None | Some(value: T)

  type Byte = b: nat | b < 256
  type Bytes = seq<Byte>

  /** The entry of `m` at `k`, as a lookup that can miss. */
  function Get<K, V>(m: map<K, V>, k: K): Option<V> {
    if k in m then Some(m[k]) else None
  }
}
