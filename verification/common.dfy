// Shared by the models of every component.

module Common {
  datatype Option<+T> = None | Some(value: T)

  // Times and durations are integers counting nanoseconds.
  const SECOND: int := 1_000_000_000
  const MINUTE: int := 60 * SECOND

  // `n` times the same.
  function Repeated<T>(x: T, n: nat): seq<T> {
    seq(n, _ => x)
  }
}
