/** Java's fixed-width integer conversions, written out over unbounded integers. */
module JavaInts {
  const TWO_32: int := 0x1_0000_0000
  const TWO_16: int := 0x1_0000
  const TWO_64: int := 0x1_0000_0000_0000_0000

  predicate IsInt32(x: int) { -0x8000_0000 <= x < 0x8000_0000 }
  predicate IsShort(x: int) { -0x8000 <= x < 0x8000 }

  /** Two's-complement wrap-around of Java `int` arithmetic. */
  function Wrap32(x: int): (r: int)
    ensures IsInt32(r)
    ensures (r - x) % TWO_32 == 0
    ensures IsInt32(x) ==> r == x
  {
    var m := (x + 0x8000_0000) % TWO_32;
    m - 0x8000_0000
  }

  /** The narrowing cast `(short) x`: keeps the low 16 bits as a signed value. */
  function ToShort(x: int): (r: int)
    ensures IsShort(r)
    ensures (r - x) % TWO_16 == 0
    ensures IsShort(x) ==> r == x
  {
    var m := (x + 0x8000) % TWO_16;
    m - 0x8000
  }
}
