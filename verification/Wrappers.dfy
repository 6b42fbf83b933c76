/** The value a lookup may or may not find. */
module Wrappers {
  datatype Option<+T> = None | Some(value: T)

  function Find<K, V>(m: map<K, V>, k: K): Option<V> {
    if k in m then Some(m[k]) else None
  }

  predicate Distinct<T(==)>(xs: seq<T>) {
    forall i, j :: 0 <= i < j < |xs| ==> xs[i] != xs[j]
  }

  lemma {:induction false} SubsetSize<T>(a: set<T>, b: set<T>)
    requires a <= b
    ensures |a| <= |b|
  {
    if a == {} {
    } else {
      var x :| x in a;
      SubsetSize(a - {x}, b - {x});
    }
  }

  lemma Distribute(n: nat, x: nat)
    ensures n * x >= 0 && (n - 1) * x == n * x - x && (n + 1) * x == n * x + x
  {
  }

  /** The count a Go map of integers holds at `k`: a missing key reads as zero. */
  function CountAt<K>(m: map<K, int>, k: K): int {
    if k in m then m[k] else 0
  }
}
