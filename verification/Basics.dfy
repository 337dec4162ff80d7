/** Small shared datatypes and functions. */
module Basics {

  datatype Option<+T> = None | Some(value: T)

  datatype Result<+T, +E> = Ok(value: T) | Err(error: E)

  /** Label sets, annotations and other string maps of API objects. */
  type StringMap = map<string, string>

  function Find<K, V>(m: map<K, V>, k: K): Option<V> {
    if k in m then Some(m[k]) else None
  }

  /** Reading a missing key of a Go map gives the empty string. */
  function Get(m: StringMap, k: string): string {
    if k in m then m[k] else ""
  }

  ghost predicate Distinct<T>(s: seq<T>) {
    forall i, j :: 0 <= i < j < |s| ==> s[i] != s[j]
  }
}
