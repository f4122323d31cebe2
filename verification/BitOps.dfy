/** Bitwise operations on unsigned words, as functions of unbounded natural numbers. */
module BitOps {
  function Both(p: nat, q: nat): nat {
    if p == 1 && q == 1 then 1 else 0
  }

  function Either(p: nat, q: nat): nat {
    if p == 1 || q == 1 then 1 else 0
  }

  /** `x & y`. */
  function And(x: nat, y: nat): nat {
    if x == 0 || y == 0 then 0
    else 2 * And(x / 2, y / 2) + Both(x % 2, y % 2)
  }

  /** `x | y`. */
  function Or(x: nat, y: nat): nat {
    if x == 0 then y
    else if y == 0 then x
    else 2 * Or(x / 2, y / 2) + Either(x % 2, y % 2)
  }

  lemma AndStep(x: nat, y: nat)
    ensures And(x, y) == 2 * And(x / 2, y / 2) + Both(x % 2, y % 2)
  {
  }

  lemma OrStep(x: nat, y: nat)
    ensures Or(x, y) == 2 * Or(x / 2, y / 2) + Either(x % 2, y % 2)
  {
  }

  /** The same with the last bits split off. */
  lemma AndCons(x: nat, p: nat, y: nat, q: nat)
    requires p < 2 && q < 2
    ensures And(2 * x + p, 2 * y + q) == 2 * And(x, y) + Both(p, q)
  {
    assert (2 * x + p) / 2 == x && (2 * y + q) / 2 == y;
    AndStep(2 * x + p, 2 * y + q);
  }

  lemma OrCons(x: nat, p: nat, y: nat, q: nat)
    requires p < 2 && q < 2
    ensures Or(2 * x + p, 2 * y + q) == 2 * Or(x, y) + Either(p, q)
  {
    assert (2 * x + p) / 2 == x && (2 * y + q) / 2 == y;
    OrStep(2 * x + p, 2 * y + q);
  }

  function Pow2(k: nat): (r: nat)
    ensures r >= 1
  {
    if k == 0 then 1 else 2 * Pow2(k - 1)
  }

  /** `y << k`. */
  function Shl(y: nat, k: nat): nat {
    if k == 0 then y else 2 * Shl(y, k - 1)
  }

  /** `x >> k`. */
  function Shr(x: nat, k: nat): nat {
    if k == 0 then x else Shr(x / 2, k - 1)
  }

  /** The low `k` bits of `x`. */
  function Low(x: nat, k: nat): (r: nat)
    ensures r < Pow2(k)
  {
    if k == 0 then 0 else 2 * Low(x / 2, k - 1) + x % 2
  }

  /** `x | (y << k)` is a sum when `x` has only `k` bits. */
  lemma {:induction false} OrShifted(x: nat, y: nat, k: nat)
    requires x < Pow2(k)
    ensures Or(x, Shl(y, k)) == x + Shl(y, k)
  {
    if k > 0 {
      OrShifted(x / 2, y, k - 1);
      OrStep(x, Shl(y, k));
    }
  }

  /** Masking with `k` ones takes the low bits. */
  lemma {:induction false} AndLowMask(x: nat, k: nat)
    ensures And(x, Pow2(k) - 1) == Low(x, k)
  {
    if k > 0 {
      AndLowMask(x / 2, k - 1);
      AndStep(x, Pow2(k) - 1);
    }
  }

  /** Masking with the ones from bit `k` to bit `w - 1` clears the low bits of a `w`-bit word. */
  lemma {:induction false} AndHighMask(x: nat, k: nat, w: nat)
    requires k <= w && x < Pow2(w)
    ensures Pow2(k) <= Pow2(w) && And(x, Pow2(w) - Pow2(k)) == x - Low(x, k)
    decreases w
  {
    if k == 0 {
      AndLowMask(x, w);
      LowOfSmall(x, w);
    } else {
      AndHighMask(x / 2, k - 1, w - 1);
      AndStep(x, Pow2(w) - Pow2(k));
    }
  }

  lemma {:induction false} LowOfSmall(x: nat, k: nat)
    requires x < Pow2(k)
    ensures Low(x, k) == x
  {
    if k > 0 {
      LowOfSmall(x / 2, k - 1);
    }
  }

  /** What a division leaves is determined by the equation. */
  lemma Remainder(x: nat, m: nat, q: nat, r: nat)
    requires m > 0 && r < m && x == m * q + r
    ensures x % m == r
  {
    var d := x / m - q;
    assert x == m * (x / m) + x % m;
    assert m * (x / m) - m * q == m * d;
    NoSmallMultiple(d, m);
  }

  lemma NoSmallMultiple(d: int, m: nat)
    requires m > 0 && -(m as int) < m * d < m
    ensures d == 0
  {
    assert d >= 1 ==> m * d >= m * 1;
    assert d <= -1 ==> m * d <= m * -1;
  }
}
