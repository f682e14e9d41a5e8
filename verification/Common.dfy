/** Small shared vocabulary. */
module Common {

  datatype Option<+T> = None | Some(value: T)

  /** What a finite map says about a key. */
  function Lookup<K, V>(m: map<K, V>, k: K): Option<V> {
    if k in m then Some(m[k]) else None
  }

  /** A map with one key bound, or unbound when there is nothing to bind it to. */
  function Bind<K, V>(m: map<K, V>, k: K, v: Option<V>): map<K, V> {
    match v
    case Some(value) => m[k := value]
    case None => m - {k}
  }

  function Max(a: int, b: int): int { if a < b then b else a }

  function Min(a: int, b: int): int { if a < b then a else b }

  lemma Regroup<T>(a: seq<T>, b: seq<T>, c: seq<T>)
    ensures a + b + c == a + (b + c)
  {
  }
}
