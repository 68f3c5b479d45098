/** Exact natural-number facts used by the D10 gates: powers, bit lengths and
    the few nonlinear steps that the gate proofs share. */
module Numbers {

  const U64_MAX: nat := 0xFFFF_FFFF_FFFF_FFFF
  const U128_MAX: nat := 0xFFFF_FFFF_FFFF_FFFF_FFFF_FFFF_FFFF_FFFF

  type u64 = n: int | 0 <= n <= U64_MAX
  type pos = n: int | 1 <= n witness 1

  function Pow(b: nat, e: nat): nat
    decreases e
  {
    if e == 0 then 1 else b * Pow(b, e - 1)
  }

  /** The number of bits of `n` without leading zeros; zero for zero. */
  function BitLen(n: nat): nat {
    if n == 0 then 0 else 1 + BitLen(n / 2)
  }

  // ---- multiplication

  lemma MulMono(a: nat, b: nat, c: nat, d: nat)
    requires a <= b && c <= d
    ensures a * c <= b * d
  {
    assert a * c <= b * c;
    assert b * c <= b * d;
  }

  lemma MulStrict(a: nat, b: nat, c: nat, d: nat)
    requires a < b && c <= d && 0 < d
    ensures a * c < b * d
  {
    assert a * c <= a * d;
    assert a * d < b * d;
  }

  lemma MulCancel(a: nat, b: nat, c: nat)
    requires 0 < c && a * c <= b * c
    ensures a <= b
  {
    if b < a { MulStrict(b, a, c, c); }
  }

  /** (a * b) * (c * d) == (a * c) * (b * d) */
  lemma MulSwap(a: nat, b: nat, c: nat, d: nat)
    ensures (a * b) * (c * d) == (a * c) * (b * d)
  {
    calc {
      (a * b) * (c * d);
      a * (b * (c * d));
      { assert b * (c * d) == c * (b * d); }
      a * (c * (b * d));
      (a * c) * (b * d);
    }
  }

  /** A floor quotient is at least `m` exactly when `m` divisors fit. */
  lemma FloorAtLeast(top: nat, bottom: nat, m: nat)
    requires 0 < bottom
    ensures top / bottom >= m <==> top >= m * bottom
  {
    var q, r := top / bottom, top % bottom;
    assert top == q * bottom + r && r < bottom;
    if q >= m { MulMono(m, q, bottom, bottom); }
    if q < m { MulMono(q + 1, m, bottom, bottom); }
  }

  lemma FloorAntitone(top: nat, d: nat, d': nat)
    requires 0 < d' <= d
    ensures top / d <= top / d'
  {
    FloorAtLeast(top, d, top / d);
    MulMono(top / d, top / d, d', d);
    FloorAtLeast(top, d', top / d);
  }

  // ---- powers

  lemma {:induction false} PowAdd(b: nat, x: nat, y: nat)
    ensures Pow(b, x + y) == Pow(b, x) * Pow(b, y)
    decreases x
  {
    if x != 0 { PowAdd(b, x - 1, y); }
  }

  lemma {:induction false} PowOfProduct(a: nat, b: nat, e: nat)
    ensures Pow(a * b, e) == Pow(a, e) * Pow(b, e)
  {
    if e != 0 {
      PowOfProduct(a, b, e - 1);
      MulSwap(a, b, Pow(a, e - 1), Pow(b, e - 1));
    }
  }

  lemma {:induction false} PowMono(a: nat, b: nat, e: nat)
    requires a <= b
    ensures Pow(a, e) <= Pow(b, e)
  {
    if e != 0 {
      PowMono(a, b, e - 1);
      MulMono(a, b, Pow(a, e - 1), Pow(b, e - 1));
    }
  }

  lemma {:induction false} PowPositive(b: nat, e: nat)
    requires 0 < b
    ensures 0 < Pow(b, e)
  {
    if e != 0 { PowPositive(b, e - 1); }
  }

  lemma {:induction false} PowStrict(a: nat, b: nat, e: nat)
    requires a < b && 0 < e
    ensures Pow(a, e) < Pow(b, e)
  {
    PowMono(a, b, e - 1);
    PowPositive(b, e - 1);
    MulStrict(a, b, Pow(a, e - 1), Pow(b, e - 1));
  }

  // ---- bit lengths

  /** `n` has at most `k` bits exactly when it is below 2^k. */
  lemma {:induction false} BitLenBound(n: nat, k: nat)
    ensures BitLen(n) <= k <==> n < Pow(2, k)
  {
    if n == 0 {
      PowPositive(2, k);
    } else if k != 0 {
      BitLenBound(n / 2, k - 1);
    }
  }

  lemma ProductBelow(a: nat, b: nat, j: nat, k: nat)
    requires a < Pow(2, j) && b < Pow(2, k)
    ensures a * b < Pow(2, j + k)
  {
    PowAdd(2, j, k);
    MulStrict(a, Pow(2, j), b, Pow(2, k));
  }

  lemma ProductBits(a: nat, b: nat, product: nat, j: nat, k: nat)
    requires BitLen(a) <= j && BitLen(b) <= k && product == a * b
    ensures BitLen(product) <= j + k
  {
    BitLenBound(a, j);
    BitLenBound(b, k);
    ProductBelow(a, b, j, k);
    BitLenBound(product, j + k);
  }

  lemma {:induction false} BitLenPow(b: nat, e: nat)
    ensures BitLen(Pow(b, e)) <= if e == 0 then 1 else BitLen(b) * e
  {
    if e == 1 {
      assert Pow(b, 1) == b * Pow(b, 0) == b;
    } else if e != 0 {
      BitLenPow(b, e - 1);
      ProductBits(b, Pow(b, e - 1), Pow(b, e), BitLen(b), BitLen(b) * (e - 1));
    }
  }
}
