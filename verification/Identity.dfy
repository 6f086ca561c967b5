/** Facts shared by the registry and the cache. */
module Identity {

  /** Nanoseconds; 0 is the zero time. */
  type Time = int

  const SECOND := 1_000_000_000
  const MINUTE := 60 * SECOND
  const HOUR := 60 * MINUTE

  /** The comparable identity of a service. */
  datatype ServiceKey = ServiceKey(name: string, address: string) {
    predicate Valid() { address != "" }
  }

  datatype Option<T> = None | Some(value: T)
}
