/** Optional values and the source's (value, error) returns. */
module Wrappers {
  datatype Option<+T> = None | Some(value: T)

  /** An error always carries its message; an error with an empty message is representable. */
  datatype Result<+T> = Ok(value: T) | Err(message: string)
}

/** The two's-complement arithmetic behind time.Duration. */
module Int64 {
  const MIN: int := -0x8000_0000_0000_0000
  const MAX: int := 0x7FFF_FFFF_FFFF_FFFF
  const MODULUS: int := 0x1_0000_0000_0000_0000

  /** Nanoseconds per millisecond (time.Millisecond). */
  const MILLISECOND: int := 1_000_000

  predicate InRange(x: int) {
    MIN <= x <= MAX
  }

  /** What is left of `x` after an int64 operation. */
  function Wrap(x: int): (r: int)
    ensures InRange(r)
    ensures InRange(x) ==> r == x
    ensures exists k: int :: r == x + k * MODULUS
  {
    var r := (x - MIN) % MODULUS + MIN;
    assert r == x + (-((x - MIN) / MODULUS)) * MODULUS;
    r
  }

  /** time.Duration(ms) * time.Millisecond */
  function FromMilliseconds(ms: int): int {
    Wrap(ms * MILLISECOND)
  }

  /** Duration.Milliseconds: Go's division truncates toward zero. */
  function Milliseconds(d: int): int {
    if d >= 0 then d / MILLISECOND else -((-d) / MILLISECOND)
  }
}
