/** How a clamped byte array keeps a number: in range, and to the nearest, a half to the even. */
module Clamped {
  import opened Grid

  function HalfToEven(v: real): int {
    var f := v.Floor;
    var d := v - f as real;
    if d < 0.5 then f else if d > 0.5 then f + 1 else if f % 2 == 0 then f else f + 1
  }

  function ToByte(v: real): byte {
    var n := HalfToEven(v);
    if n < 0 then 0 else if n > 255 then 255 else n as byte
  }

  /** Clamping and rounding never cross a byte on either side, so they leave bytes alone. */
  lemma KeptBetween(v: real, low: byte, high: byte)
    requires low as real <= v <= high as real
    ensures low <= ToByte(v) <= high
    ensures low == high ==> ToByte(v) == low
  {
    var l, h := low as int, high as int;
    assert low as real == l as real && high as real == h as real;
    assert l <= v.Floor <= h;
  }

  function Off(a: real, b: real): real {
    if a < b then b - a else a - b
  }

  /** No byte is nearer than the one kept; of two as near, it is the even one. */
  lemma KeptNearest(v: real, b: byte)
    ensures Off(ToByte(v) as real, v) <= Off(b as real, v)
    ensures b != ToByte(v) && Off(ToByte(v) as real, v) == Off(b as real, v) ==> ToByte(v) % 2 == 0
  {
    var f, m := v.Floor, b as int;
    assert b as real == m as real && ToByte(v) as real == (ToByte(v) as int) as real;
    assert m <= f || m >= f + 1;
    assert m as real <= f as real || m as real >= f as real + 1.0;
  }
}
