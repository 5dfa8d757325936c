/** Small things several components share. */
module Common {

  datatype Option<+T> = None | Some(value: T)

  /** The entries that differ. */
  function Changed<K, V(==)>(before: map<K, V>, after: map<K, V>): set<K> {
    set k | k in before && k in after && before[k] != after[k]
  }

  lemma SubsetSize<T>(a: set<T>, b: set<T>)
    requires a <= b
    ensures |a| <= |b|
    ensures |a| == |b| ==> a == b
  {
    assert b == a + (b - a);
  }

  /** The first k parts, one after the other. */
  function Concat<T>(part: nat -> seq<T>, k: nat): seq<T> {
    if k == 0 then [] else Concat(part, k - 1) + part(k - 1)
  }

  lemma {:induction false} ConcatExact<T>(part: nat -> seq<T>, k: nat, x: T)
    ensures x in Concat(part, k) <==> exists i :: 0 <= i < k && x in part(i)
  {
    if k > 0 { ConcatExact(part, k - 1, x); }
  }
}
