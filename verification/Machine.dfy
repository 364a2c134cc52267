/** Machine arithmetic (`usize` on a 64-bit target), and a monotone clock. */
module Machine {
  const U32_MAX: nat := 0xFFFF_FFFF
  const U64_MAX: nat := 0xFFFF_FFFF_FFFF_FFFF
  const USIZE_MAX := U64_MAX

  type Byte = b: nat | b < 256

  /** `usize::saturating_add`. */
  function SaturatingAdd(a: nat, b: nat): nat {
    if a + b > USIZE_MAX then USIZE_MAX else a + b
  }

  /** `usize::saturating_sub`. */
  function SaturatingSub(a: nat, b: nat): nat {
    if a < b then 0 else a - b
  }

  /** `a.checked_add(b).is_none_or(|sum| sum > limit)`. */
  predicate Exceeds(a: nat, b: nat, limit: nat) {
    a + b > USIZE_MAX || a + b > limit
  }

  /** Division of signed machine integers truncates toward zero. */
  function TruncatingDiv(a: int, b: int): int
    requires b > 0
  {
    if a >= 0 then a / b else -((-a) / b)
  }

  function Max(a: nat, b: nat): nat {
    if a < b then b else a
  }

  /** `Instant::now()`: an arbitrary clock that never runs backwards. */
  class Clock {
    var now: nat

    constructor (start: nat)
      ensures now == start
    {
      now := start;
    }

    method Read() returns (t: nat)
      modifies this
      ensures t == now && old(now) <= now
    {
      var later: int := *;
      if later > now {
        now := later;
      }
      t := now;
    }
  }
}
