/** Small notions that several parts share. */
module Common {
  datatype Option<+T> = None | Some(value: T)

  predicate NoDuplicates<K(==)>(keys: seq<K>) {
    forall i, j | 0 <= i < j < |keys| :: keys[i] != keys[j]
  }
}
