/** Small result types and identifiers shared by every component. */
module Common {

  datatype Option<+T> = None | Some(value: T) {
    function UnwrapOr(default: T): T {
      match this
      case Some(v) => v
      case None => default
    }
  }

  datatype Result<+T, +E> = Ok(value: T) | Err(error: E)

  /** UUIDs are only compared, so natural numbers stand for them; their order is the byte order of the UUIDs. */
  type Id = nat

  /** The nil UUID. gen_random_uuid() only makes version 4 UUIDs, so no stored row ever carries it. */
  const NIL: Id := 0

  /** Some element of a non-empty set. */
  lemma Member<T>(s: set<T>) returns (e: T)
    requires s != {}
    ensures e in s
  {
    e :| e in s;
  }
}
