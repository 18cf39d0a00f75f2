/** Machine words, and the few facts about division the model needs. */
module Words {

  const TWO_32: nat := 0x1_0000_0000
  const TWO_63: nat := 0x8000_0000_0000_0000
  const TWO_64: nat := 0x1_0000_0000_0000_0000

  /** The value a 64-bit unsigned word keeps of `x`. */
  function Wrap64(x: int): (r: nat)
    ensures r < TWO_64
    ensures 0 <= x < TWO_64 ==> r == x
  {
    x % TWO_64
  }

  /** The value a 32-bit unsigned word keeps of `x`. */
  function Wrap32(x: int): (r: nat)
    ensures r < TWO_32
    ensures 0 <= x < TWO_32 ==> r == x
  {
    x % TWO_32
  }

  /** An unsigned 64-bit word read as a signed one. */
  function Signed64(x: nat): int {
    if x < TWO_63 then x else x - TWO_64
  }

  function Min(a: nat, b: nat): nat {
    if a <= b then a else b
  }

  function Max(a: nat, b: nat): nat {
    if a >= b then a else b
  }

  /** The number of whole or started periods in `x`; none when `x` is not positive. */
  function CeilDiv(x: int, period: nat): nat
    requires period > 0
  {
    if x <= 0 then 0 else (x + period - 1) / period
  }

  lemma DivBounds(x: nat, d: nat)
    requires d > 0
    ensures x / d * d <= x < x / d * d + d
    ensures x / d <= x
  {
    assert x == x / d * d + x % d;
    if x / d > x {
      MulGrows(x / d, d);
      assert false;
    }
  }

  lemma MulGrows(q: nat, d: nat)
    requires d > 0
    ensures q <= q * d
  {
  }

  /** A quotient is pinned down by bracketing. */
  lemma DivUnique(x: int, d: nat, q: int)
    requires d > 0
    requires q * d <= x < q * d + d
    ensures x / d == q
  {
    var p := x / d;
    assert x == p * d + x % d;
    if p < q {
      MulMono(p + 1, q, d);
      assert false;
    } else if p > q {
      MulMono(q + 1, p, d);
      assert false;
    }
  }

  lemma MulMono(a: int, b: int, d: nat)
    requires a <= b
    ensures a * d <= b * d
  {
  }

  lemma DivMono(x: int, y: int, d: nat)
    requires d > 0 && x <= y
    ensures x / d <= y / d
  {
    if x / d > y / d {
      MulMono(y / d + 1, x / d, d);
      assert false;
    }
  }

  lemma CeilDivMono(x: int, y: int, d: nat)
    requires d > 0 && x <= y
    ensures CeilDiv(x, d) <= CeilDiv(y, d)
  {
    if 0 < x {
      DivMono(x + d - 1, y + d - 1, d);
    }
  }

  /** Moving on by `k` whole periods adds `k` ticks. */
  lemma CeilDivShift(x: int, k: nat, d: nat)
    requires d > 0 && x + d > 0
    ensures CeilDiv(x + k * d, d) == CeilDiv(x, d) + k
  {
    var q := CeilDiv(x, d);
    assert q * d - d < x <= q * d || (x <= 0 && q == 0) by {
      if x > 0 {
        DivBounds(x + d - 1, d);
      }
    }
    assert (q + k) * d == q * d + k * d;
    if x + k * d > 0 {
      DivUnique(x + k * d + d - 1, d, q + k);
    } else if k > 0 {
      MulMono(1, k, d);
      assert false;
    }
  }

  /** Adding before or after cutting to `m` makes no difference to what is kept. */
  lemma ModAdd(a: int, b: int, m: nat)
    requires m > 0
    ensures (a % m + b) % m == (a + b) % m
  {
    var q := a / m;
    assert a == q * m + a % m;
    ModShift(a % m + b, q, m);
  }

  lemma ModShift(x: int, q: int, m: nat)
    requires m > 0
    ensures (x + q * m) % m == x % m
  {
    var p := x / m;
    assert x == p * m + x % m;
    assert (p + q) * m == p * m + q * m;
    DivUnique(x + q * m, m, p + q);
  }

  lemma WrapSum(a: nat, b: nat)
    ensures Wrap64(Wrap64(a) + b) == Wrap64(a + b)
  {
    ModAdd(a, b, TWO_64);
  }

  lemma WrapIsLess(x: nat)
    ensures Wrap64(x) <= x
  {
  }
}
