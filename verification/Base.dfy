/** Shared vocabulary: 32-bit numbers, optional values and the outcomes of calls to foreign code. */
module Base {
  const MAX_UINT32: int := 0xFFFF_FFFF
  const TWO_32: int := 0x1_0000_0000

  type uint32 = n: int | 0 <= n < 0x1_0000_0000

  /** uint32 arithmetic. */
  function Wrap(x: int): (r: uint32)
    ensures 0 <= x < TWO_32 ==> r == x
  {
    x % 0x1_0000_0000
  }

  datatype Option<+T> = None | Some(value: T)

  /**
   What became of a call that changes something elsewhere: it worked, it was refused without
   effect, or it took effect although an error was reported (a reply lost on the way back).
   */
  datatype Effect = Done | Refused | Lost {
    predicate Took() { !Refused? }
  }

  /** The answer of a lookup: the thing, a definite "no such thing", or an error. */
  datatype Lookup = Found | Absent | Unavailable

  function Min(a: int, b: int): int { if a < b then a else b }
}
