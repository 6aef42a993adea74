/** The key-value store behind a node, as the apply loop writes it. */
module DataStore {
  import opened Base
  import opened Decimal

  type Store = map<Bytes, Bytes>

  // "#TAG_LAST_APPLIED_INDEX#"
  const APPLIED_TAG: Bytes :=
    [35, 84, 65, 71, 95, 76, 65, 83, 84, 95, 65, 80, 80, 76, 73, 69, 68, 95, 73, 78, 68, 69, 88, 35]

  /** The store write of one log entry; a Nop writes nothing. */
  function StoreEntry(store: Store, e: Entry): Store {
    if e.op == PUT_OP || e.op == LOCK_OP then
      store[e.key := [e.op] + e.value]
    else if e.op == DELETE_OP || e.op == UNLOCK_OP then
      store - {e.key}
    else
      store
  }

  /** The tag write that follows it. */
  function StoreTag(store: Store, index: int): Store {
    store[APPLIED_TAG := IntToString(index)]
  }

  /** The store reached from an empty one by applying the entries in order, each once. */
  function Replay(es: seq<Entry>): Store {
    if es == [] then map[]
    else StoreTag(StoreEntry(Replay(es[..|es| - 1]), es[|es| - 1]), |es| - 1)
  }
}
