/** The fixed-width integers of the C++ implementation, with the conversions
    and the truncating division it relies on written out explicitly. */
module MachineInt {

  const TWO_16: int := 0x1_0000
  const TWO_32: int := 0x1_0000_0000
  const INT32_MIN: int := -0x8000_0000
  const INT32_MAX: int := 0x7FFF_FFFF

  type u16 = x: int | 0 <= x < 0x1_0000
  type i16 = x: int | -0x8000 <= x < 0x8000
  type u32 = x: int | 0 <= x < 0x1_0000_0000
  type i32 = x: int | -0x8000_0000 <= x < 0x8000_0000

  /** Conversion to `uint32_t`: reduction modulo 2^32. */
  function ToU32(x: int): (r: u32)
    ensures 0 <= x < TWO_32 ==> r == x
  {
    x % TWO_32
  }

  /** Conversion to `int32_t` (two's complement wrap-around). */
  function ToI32(x: int): (r: i32)
    ensures INT32_MIN <= x <= INT32_MAX ==> r == x
  {
    var m := x % TWO_32;
    if m <= INT32_MAX then m else m - TWO_32
  }

  function Abs(x: int): nat { if x < 0 then -x else x }

  /** C++ integer division: the quotient is truncated toward zero. */
  function TruncDiv(a: int, b: int): (q: int)
    requires b != 0
    ensures Abs(q) == Abs(a) / Abs(b)
    ensures (a < 0) == (b < 0) ==> q >= 0
    ensures (a < 0) != (b < 0) ==> q <= 0
  {
    var n: nat := Abs(a);
    var d: nat := Abs(b);
    var q := n / d;
    assert 0 <= q by { assert q * d <= n; }
    if (a < 0) == (b < 0) then q else -q
  }

  /** C++ remainder: it takes the sign of the dividend. */
  function TruncRem(a: int, b: int): (r: int)
    requires b != 0
    ensures a == TruncDiv(a, b) * b + r
    ensures Abs(r) < Abs(b)
    ensures r != 0 ==> (r < 0) == (a < 0)
  {
    a - TruncDiv(a, b) * b
  }

  /** Reducing an intermediate result does not change the final reduction. */
  lemma ToU32Add(x: int, y: int)
    ensures ToU32(ToU32(x) + y) == ToU32(x + y)
  {
    var q := x / TWO_32;
    assert x == q * TWO_32 + ToU32(x);
    ModShift(ToU32(x) + y, q);
  }

  lemma ModShift(x: int, k: int)
    ensures (x + k * TWO_32) % TWO_32 == x % TWO_32
  {
  }
}
