/** Shared vocabulary: bytes, addresses, log entries and a few arithmetic helpers. */
module Base {
  type byte = x: int | 0 <= x < 256
  type Bytes = seq<byte>
  type Addr = string

  /** The bytes of a text without characters past 255. */
  function Ascii(text: string): Bytes
    requires forall i :: 0 <= i < |text| ==> text[i] as int < 256
  {
    seq(|text|, i requires 0 <= i < |text| => text[i] as int)
  }

  datatype Option<+T> = None | Some(value: T)

  // Operation codes of proto/airdb_node.proto, stored in one byte.
  const PUT_OP: byte := 1
  const DELETE_OP: byte := 3
  const LOCK_OP: byte := 4
  const UNLOCK_OP: byte := 5
  const NOP: byte := 6

  datatype Entry = Entry(op: byte, key: Bytes, value: Bytes, term: int)

  function Min(a: int, b: int): int {
    if a < b then a else b
  }

  function Max(a: int, b: int): int {
    if a < b then b else a
  }

  /** The value std::map's operator[] reads: an absent key reads as 0. */
  function Lookup<K>(m: map<K, int>, k: K): int {
    if k in m then m[k] else 0
  }

  /** The term of the last entry, -1 for an empty log. */
  function LastTerm(log: seq<Entry>): int {
    if log == [] then -1 else log[|log| - 1].term
  }
}
