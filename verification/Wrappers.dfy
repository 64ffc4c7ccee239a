/** Optional values, outcomes and bytes, used by every module of the model. */
module Wrappers {

  datatype Option<+T> = None | Some(value: T)

  /** What a call that may be refused gives back: the source raises instead of returning an `Err`. */
  datatype Outcome<+T, +E> = Ok(value: T) | Err(error: E)

  function Lookup<K, V>(m: map<K, V>, k: K): Option<V> {
    if k in m then Some(m[k]) else None
  }

  function Min(a: int, b: int): int {
    if a <= b then a else b
  }

  function Max(a: int, b: int): int {
    if a <= b then b else a
  }

  type Byte = n: nat | n < 256

  /** A number's bytes, most significant first, at least one and as few as will do. */
  function BigEndian(n: nat): (b: seq<Byte>)
    ensures b != []
  {
    if n < 256 then [n] else BigEndian(n / 256) + [n % 256]
  }

  lemma SubsetSize<T>(a: set<T>, b: set<T>)
    requires a <= b
    ensures |a| <= |b|
  {
    assert |b| == |a| + |b - a| by { assert b == a + (b - a); }
  }
}
