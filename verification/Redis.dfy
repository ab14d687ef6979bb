/** The Redis commands the services rely on, over a store whose expired keys are dropped when the
    clock moves. */
module Redis {
  import opened Wrappers

  datatype Entry<V> = Entry(value: V, expiresAt: Option<int>)

  type Store<K, V> = map<K, Entry<V>>

  predicate Expired<V>(e: Entry<V>, now: int) {
    e.expiresAt.Some? && e.expiresAt.value <= now
  }

  /** The store once the clock shows now. */
  function Expire<K, V>(store: Store<K, V>, now: int): Store<K, V> {
    map k | k in store && !Expired(store[k], now) :: store[k]
  }

  /** GET */
  function Get<K, V>(store: Store<K, V>, key: K): Option<V> {
    if key in store then Some(store[key].value) else None
  }

  /** SET key value PX ttl */
  function Set<K, V>(store: Store<K, V>, now: int, key: K, value: V, ttl: int): Store<K, V> {
    store[key := Entry(value, Some(now + ttl))]
  }

  /** SET key value PX ttl NX */
  function SetNx<K, V>(store: Store<K, V>, now: int, key: K, value: V, ttl: int): Store<K, V> {
    if key in store then store else Set(store, now, key, value, ttl)
  }

  /** DEL key */
  function Delete<K, V>(store: Store<K, V>, key: K): Store<K, V> {
    store - {key}
  }

  /** The script of releaseLockKey: delete the key only if it still holds the given value. */
  function CompareAndDelete<K, V(==)>(store: Store<K, V>, key: K, value: V): Store<K, V> {
    if Get(store, key) == Some(value) then Delete(store, key) else store
  }
}
