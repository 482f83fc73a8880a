/** Option and Result wrappers shared by every module of the model. */
module Wrappers {

  /** An optional value: Go's `(value, ok)` pairs and nil pointers. */
  datatype Option<+T> = None | Some(value: T)

  /** A value or an error: Go's `(value, error)` pairs. */
  datatype Result<+T, +E> = Ok(value: T) | Err(error: E)

  /** `a` and `b` agree on key `k`: both lack it, or both map it to the same value. */
  predicate SameEntry<K, V(==)>(a: map<K, V>, b: map<K, V>, k: K)
  {
    (k in a <==> k in b) && (k in a ==> a[k] == b[k])
  }
}
