/** Optional values and PHP's null-coalescing operator. */
module Options {

  /** A value that may be absent (PHP `null`, an unset array key or property). */
  datatype Option<+T> = None | Some(value: T)

  /** PHP's `a ?? b`: the first operand unless it is null. */
  function Coalesce<T>(a: Option<T>, b: Option<T>): (r: Option<T>)
    ensures a.Some? ==> r == a
    ensures a.None? ==> r == b
  {
    if a.Some? then a else b
  }

  /** `a ?? default` for a non-null default. */
  function GetOr<T>(a: Option<T>, default: T): (r: T)
    ensures a.Some? ==> r == a.value
    ensures a.None? ==> r == default
  {
    if a.Some? then a.value else default
  }
}
