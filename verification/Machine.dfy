/**
 Fixed-width arithmetic as the processor does it. Overflow of a signed product is undefined
 in C; here it wraps, as two's-complement hardware does.
 */
module Machine {
  const INT32_MIN: int := -0x8000_0000
  const INT32_MAX: int := 0x7FFF_FFFF

  /** The range of the 64-bit millisecond clocks. */
  const CLOCK: nat := 0x1_0000_0000_0000_0000

  type u32 = n: int | 0 <= n < 0x1_0000_0000

  /** A remaining count that never runs down: the largest unsigned number. */
  const ENDLESS: u32 := 0xFFFF_FFFF

  predicate Fits32(x: int) {
    INT32_MIN <= x <= INT32_MAX
  }

  predicate Fits16(x: int) {
    -0x8000 <= x <= 0x7FFF
  }

  /** The value of `x` kept in a signed 32-bit register. */
  function Wrap32(x: int): (r: int)
    ensures Fits32(r) && (Fits32(x) ==> r == x)
  {
    (x + 0x8000_0000) % 0x1_0000_0000 - 0x8000_0000
  }

  /** The value of `x` stored in a signed 16-bit cell. */
  function Wrap16(x: int): (r: int)
    ensures Fits16(r) && (Fits16(x) ==> r == x)
  {
    (x + 0x8000) % 0x1_0000 - 0x8000
  }

  function Abs(x: int): nat {
    if x < 0 then -x else x
  }

  /** Keeping a value in fewer bits never makes it larger. */
  lemma WrapsAreSmaller(x: int)
    ensures Abs(Wrap32(x)) <= Abs(x) && Abs(Wrap16(x)) <= Abs(x)
  {
  }

  /** The wrap of a value just outside the range. */
  lemma Wrap32Once(x: int)
    ensures INT32_MAX < x <= 3 * INT32_MAX ==> Wrap32(x) == x - 0x1_0000_0000
    ensures 3 * INT32_MIN <= x < INT32_MIN ==> Wrap32(x) == x + 0x1_0000_0000
  {
  }

  /** Division that rounds toward zero. */
  function Quotient(a: int, b: int): int
    requires b != 0
  {
    if (a >= 0) == (b > 0) then Abs(a) / Abs(b) else -(Abs(a) / Abs(b))
  }

  lemma MulMono(a: nat, b: nat, c: nat)
    requires b <= c
    ensures a * b <= a * c
  {
  }

  /** A quotient from its bounds. */
  lemma DivIs(a: nat, b: nat, q: nat)
    requires b > 0 && q * b <= a < q * b + b
    ensures a / b == q
  {
    var d := a / b;
    assert d * b <= a < d * b + b;
    if d > q {
      MulMono(b, q + 1, d);
    } else if d < q {
      MulMono(b, d + 1, q);
    }
  }

  lemma DivBounds(a: nat, b: nat) returns (q: nat)
    requires b > 0
    ensures q == a / b && q * b <= a < q * b + b
  {
    q := a / b;
  }

  lemma DivWithin(a: nat, b: nat, bound: nat)
    requires b > 0 && a <= bound * b
    ensures a / b <= bound
  {
    if a / b > bound {
      MulMono(b, bound + 1, a / b);
    }
  }

  lemma DivMono(a: nat, b: nat, d: nat)
    requires a <= b && d > 0
    ensures a / d <= b / d
  {
    if a / d > b / d {
      MulMono(d, b / d + 1, a / d);
    }
  }

  /** The size of a product and its sign. */
  lemma AbsProduct(x: int, r: nat)
    ensures Abs(x * r) == Abs(x) * r
    ensures x >= 0 ==> x * r >= 0
    ensures x <= 0 ==> x * r <= 0
  {
    if x >= 0 {
      MulMono(x, 0, r);
    } else {
      MulMono(-x, 0, r);
      assert x * r == -((-x) * r);
    }
  }

  /** The size of a quotient and its sign. */
  lemma AbsQuotient(a: int, b: nat)
    requires b > 0
    ensures Abs(Quotient(a, b)) == Abs(a) / b
    ensures a >= 0 ==> Quotient(a, b) >= 0
    ensures a <= 0 ==> Quotient(a, b) <= 0
  {
    var n: nat := Abs(a);
    DivIsNat(n, b);
    assert Abs(b) == b;
    assert Quotient(a, b) == if a >= 0 then n / b else -(n / b);
  }

  lemma DivIsNat(n: nat, b: nat)
    requires b > 0
    ensures n / b >= 0
    ensures n == 0 ==> n / b == 0
  {
  }
}
