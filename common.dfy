/** Small shared vocabulary: optional values and abstract clock readings. */
module Common {

  /** Python's `Optional[T]`: either `None` or a present value. */
  datatype Option<T> = None | Some(value: T)

  /** A clock reading. Wall-clock `datetime` values are abstracted to integers that the
      caller supplies as "now"; no formatting of them is modelled. */
  type Timestamp = int

  /** `timestamp or datetime.now()`: a `datetime` is always truthy, so only an
      absent timestamp falls back to the current time. */
  function OrNow(t: Option<Timestamp>, now: Timestamp): (r: Timestamp)
    ensures t.Some? ==> r == t.value
    ensures t.None? ==> r == now
  {
    match t
    case Some(v) => v
    case None => now
  }
}
