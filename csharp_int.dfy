/** The 32-bit signed integers of C#, with the wrap-around of unchecked arithmetic. */
module CSharpInt {

  newtype int32 = x: int | -0x8000_0000 <= x < 0x8000_0000

  const MinValue: int32 := -0x8000_0000
  const MaxValue: int32 := 0x7FFF_FFFF

  /** The 32-bit value that an unbounded result `n` wraps to. */
  function Wrap(n: int): (r: int32)
    ensures (r as int - n) % 0x1_0000_0000 == 0
    ensures MinValue as int <= n <= MaxValue as int ==> r as int == n
  {
    ((n + 0x8000_0000) % 0x1_0000_0000 - 0x8000_0000) as int32
  }

  /** `x++` on a C# `int` in the (default) unchecked context: `int.MaxValue` wraps to `int.MinValue`. */
  function Increment(x: int32): int32
  {
    if x == MaxValue then MinValue else x + 1
  }

  /** Counting in 32 bits: incrementing the wrapped value of `n` gives the wrapped value of `n + 1`. */
  lemma IncrementWrap(n: int)
    ensures Increment(Wrap(n)) == Wrap(n + 1)
  {
    var w := Wrap(n) as int;
    var k := (n + 0x8000_0000) / 0x1_0000_0000;
    assert w == n - k * 0x1_0000_0000;
    assert (w + 1 + 0x8000_0000) % 0x1_0000_0000 == (n + 1 + 0x8000_0000) % 0x1_0000_0000 by {
      assert w + 1 + 0x8000_0000 == (n + 1 + 0x8000_0000) - k * 0x1_0000_0000;
    }
  }

  /** A counter that starts at 0 and has been incremented `n` times. */
  function Counted(n: nat): int32
  {
    if n == 0 then 0 else Increment(Counted(n - 1))
  }

  /** Such a counter holds `n` reduced into the range of `int`, so it equals `n` up to `int.MaxValue`. */
  lemma {:induction false} CountedIsWrapped(n: nat)
    ensures Counted(n) == Wrap(n)
  {
    if n > 0 {
      CountedIsWrapped(n - 1);
      IncrementWrap(n - 1);
    }
  }

  /** The two's-complement bit pattern of a C# `int`. */
  function Bits(x: int32): bv32
  {
    if x < 0 then (x as int + 0x1_0000_0000) as bv32 else x as int as bv32
  }
}
