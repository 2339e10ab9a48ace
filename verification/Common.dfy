/** Small shared vocabulary: optional values, bytes and the widths of C's integer types. */
module Common {
  datatype Option<+T> = None | Some(value: T)

  newtype Byte = x: int | 0 <= x < 256

  const TWO_TO_THE_32: nat := 0x1_0000_0000
  const TWO_TO_THE_64: nat := 0x1_0000_0000_0000_0000

  type U32 = n: int | 0 <= n < TWO_TO_THE_32

  type S32 = n: int | -0x8000_0000 <= n < 0x8000_0000

  lemma MulLe(a: nat, b: nat, c: nat)
    requires a <= b
    ensures a * c <= b * c
  {
    assert b * c == a * c + (b - a) * c;
  }

  lemma DivBounds(x: nat, d: nat)
    requires d > 0
    ensures (x / d) * d <= x < (x / d + 1) * d
  {
    assert x == (x / d) * d + x % d;
    assert (x / d + 1) * d == (x / d) * d + d;
  }

  /** Integer division by a positive number, without division. */
  lemma DivAtLeast(x: nat, d: nat, n: nat)
    requires d > 0
    ensures x / d >= n <==> x >= n * d
  {
    DivBounds(x, d);
    if n <= x / d {
      MulLe(n, x / d, d);
    } else {
      MulLe(x / d + 1, n, d);
    }
  }

  function Min(a: nat, b: nat): nat {
    if a <= b then a else b
  }
}
