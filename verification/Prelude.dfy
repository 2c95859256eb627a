/** Optional values, and the clock every module shares. */
module Prelude {

  datatype Option<+T> = None | Some(value: T)

  // Instants and lengths of time are whole microseconds, the resolution of both the
  // database's timestamps and the program's datetimes.
  const MINUTE := 60_000_000
  const HOUR := 60 * MINUTE
  const DAY := 24 * HOUR

  function Max(a: int, b: int): int {
    if a < b then b else a
  }

  function Min(a: int, b: int): int {
    if a < b then a else b
  }
}
