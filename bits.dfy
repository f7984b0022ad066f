/**
 * Integer powers of two and bit operations on non-negative integers.
 *
 * The C code computes powers of two with floating-point `pow` and tests
 * bits with `&`; here both are exact operations on `nat`. The module also
 * holds the facts about residues that the periodic patterns rely on.
 */
module Bits {

  /** 2^n. */
  function Pow2(n: nat): (r: nat)
    ensures r >= 1
  {
    if n == 0 then 1 else 2 * Pow2(n - 1)
  }

  /** Bitwise AND of two non-negative integers, from the least significant bit up. */
  function BitAnd(x: nat, y: nat): (r: nat)
    ensures r <= x && r <= y
    decreases x
  {
    if x == 0 || y == 0 then 0
    else 2 * BitAnd(x / 2, y / 2) + (if x % 2 == 1 && y % 2 == 1 then 1 else 0)
  }

  /** Bit i of x is set. */
  predicate BitSet(x: nat, i: nat) {
    (x / Pow2(i)) % 2 == 1
  }

  /** The n low bits of x, least significant first. */
  function BitsOf(x: nat, n: nat): seq<bool> {
    seq(n, i requires 0 <= i < n => BitSet(x, i))
  }

  /** The number whose binary digits, least significant first, are b. */
  function FromBits(b: seq<bool>): nat {
    if b == [] then 0 else (if b[0] then 1 else 0) + 2 * FromBits(b[1..])
  }

  /** A positive multiple of m is at least m. */
  lemma MulAtLeast(m: int, d: int)
    requires m > 0 && d >= 1
    ensures m * d >= m
  {
    assert m * d == m * (d - 1) + m;
  }

  /** Quotient and remainder are determined by the division equation. */
  lemma DivModUnique(x: int, m: int, q: int, s: int)
    requires m > 0 && 0 <= s < m && x == m * q + s
    ensures x / m == q && x % m == s
  {
    var q', s' := x / m, x % m;
    assert x == m * q' + s';
    assert m * (q - q') == s' - s;
    if q > q' {
      MulAtLeast(m, q - q');
    } else if q < q' {
      MulAtLeast(m, q' - q);
    }
  }

  /** Dividing by 2^(i+1) is halving and then dividing by 2^i; likewise for the remainder. */
  lemma Halve(x: nat, i: nat)
    ensures x / Pow2(i + 1) == (x / 2) / Pow2(i)
    ensures x % Pow2(i + 1) == 2 * ((x / 2) % Pow2(i)) + x % 2
  {
    var p := Pow2(i);
    var a, b := (x / 2) / p, (x / 2) % p;
    assert x / 2 == p * a + b;
    assert x == (2 * p) * a + (2 * b + x % 2);
    DivModUnique(x, 2 * p, a, 2 * b + x % 2);
  }

  /** Bits of x above the lowest are the bits of x / 2. */
  lemma BitSetShift(x: nat, i: nat)
    ensures BitSet(x, i + 1) == BitSet(x / 2, i)
  {
    Halve(x, i);
  }

  /**
   * Testing `(x & 2^i) == 2^i`, as the binary counter does, is testing bit i:
   * the AND keeps exactly bit i of x.
   */
  lemma {:induction false} BitAndPow2(x: nat, i: nat)
    ensures BitAnd(x, Pow2(i)) == if BitSet(x, i) then Pow2(i) else 0
  {
    if x == 0 {
    } else if i == 0 {
    } else {
      var p := Pow2(i - 1);
      assert Pow2(i) / 2 == p && Pow2(i) % 2 == 0;
      BitAndPow2(x / 2, i - 1);
      BitSetShift(x, i - 1);
    }
  }

  /** Masking with 2^n - 1, as `counter &= mask` does, keeps x modulo 2^n. */
  lemma {:induction false} BitAndLowMask(x: nat, n: nat)
    ensures BitAnd(x, Pow2(n) - 1) == x % Pow2(n)
  {
    if n == 0 {
      assert Pow2(n) == 1;
    } else if x == 0 {
      DivModUnique(0, Pow2(n), 0, 0);
    } else {
      var m := Pow2(n) - 1;
      assert m / 2 == Pow2(n - 1) - 1 && m % 2 == 1;
      BitAndLowMask(x / 2, n - 1);
      Halve(x, n - 1);
    }
  }

  /** Reading the n low bits of x back as a number gives x, for x < 2^n. */
  lemma {:induction false} FromBitsOf(x: nat, n: nat)
    requires x < Pow2(n)
    ensures FromBits(BitsOf(x, n)) == x
  {
    if n > 0 {
      var b := BitsOf(x, n);
      forall i | 0 <= i < n - 1
        ensures b[1..][i] == BitsOf(x / 2, n - 1)[i]
      {
        BitSetShift(x, i);
      }
      assert b[1..] == BitsOf(x / 2, n - 1);
      assert b[0] == (x % 2 == 1);
      Halve(x, n - 1);
      FromBitsOf(x / 2, n - 1);
    }
  }

  /** If c is (k - 1) mod m, then (c + 1) mod m is k mod m. */
  lemma ModStep(c: nat, k: nat, m: nat, next: nat)
    requires m > 0 && k > 0 && c == (k - 1) % m && next == (c + 1) % m
    ensures next == k % m && next < m
  {
    ModNext(k - 1, m);
    ModNext(c, m);
    DivModUnique(c, m, 0, c);
  }

  /** Residues modulo m repeat with period m. */
  lemma ModPeriod(a: nat, m: nat)
    requires m > 0
    ensures (a + m) % m == a % m
  {
    var q, r := a / m, a % m;
    assert a == m * q + r;
    assert a + m == m * (q + 1) + r;
    DivModUnique(a + m, m, q + 1, r);
  }

  /** Among m consecutive numbers from start there is one, j, with j + 1 congruent to m - 1. */
  lemma ResidueWithin(start: nat, m: nat) returns (j: nat)
    requires m > 0
    ensures start <= j < start + m && (j + 1) % m == m - 1
  {
    var q, s := (start + 1) / m, (start + 1) % m;
    j := start + (m - 1 - s);
    assert start + 1 == m * q + s;
    DivModUnique(j + 1, m, q, m - 1);
  }

  /** Two numbers less than m apart with the same residue modulo m are equal. */
  lemma SameResidue(a: nat, b: nat, m: nat)
    requires m > 0 && a % m == b % m && a < b + m && b < a + m
    ensures a == b
  {
    var qa, qb, r := a / m, b / m, a % m;
    assert a == m * qa + r && b == m * qb + r;
    assert a - b == m * (qa - qb);
    if qa > qb {
      MulAtLeast(m, qa - qb);
    } else if qa < qb {
      MulAtLeast(m, qb - qa);
    }
  }

  /** The successor's residue: one more, or 0 after m - 1. */
  lemma ModNext(a: nat, m: nat)
    requires m > 0
    ensures (a + 1) % m == if a % m + 1 < m then a % m + 1 else 0
  {
    var q, r := a / m, a % m;
    assert a == m * q + r;
    if r + 1 < m {
      DivModUnique(a + 1, m, q, r + 1);
    } else {
      DivModUnique(a + 1, m, q + 1, 0);
    }
  }
}
