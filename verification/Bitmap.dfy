/** Single bits of a word: setting one, clearing one, and the highest one. */
module Bitmap {
  import opened BitOps

  predicate Bit(x: nat, i: nat) {
    if i == 0 then x % 2 == 1 else Bit(x / 2, i - 1)
  }

  lemma BitAt(x: nat, h: nat, b: nat, i: nat)
    requires b < 2 && x == 2 * h + b
    ensures Bit(x, i) <==> if i == 0 then b == 1 else Bit(h, i - 1)
  {
    assert x / 2 == h && x % 2 == b;
  }

  lemma {:induction false} BitOr(x: nat, y: nat, i: nat)
    ensures Bit(Or(x, y), i) <==> Bit(x, i) || Bit(y, i)
    decreases i
  {
    OrStep(x, y);
    BitAt(Or(x, y), Or(x / 2, y / 2), Either(x % 2, y % 2), i);
    if i > 0 {
      BitOr(x / 2, y / 2, i - 1);
    }
  }

  lemma {:induction false} BitAnd(x: nat, y: nat, i: nat)
    ensures Bit(And(x, y), i) <==> Bit(x, i) && Bit(y, i)
    decreases i
  {
    AndStep(x, y);
    BitAt(And(x, y), And(x / 2, y / 2), Both(x % 2, y % 2), i);
    if i > 0 {
      BitAnd(x / 2, y / 2, i - 1);
    }
  }

  lemma {:induction false} BitOfZero(i: nat)
    ensures !Bit(0, i)
  {
    if i > 0 {
      BitOfZero(i - 1);
    }
  }

  lemma {:induction false} BitOfPow2(i: nat, j: nat)
    ensures Bit(Pow2(i), j) <==> i == j
    decreases j
  {
    if i == 0 {
      if j > 0 {
        BitOfZero(j - 1);
      }
    } else if j > 0 {
      BitOfPow2(i - 1, j - 1);
    }
  }

  /** The `w`-bit complement of `1 << i`. */
  function Complement(i: nat, w: nat): nat
    requires i < w
  {
    Pow2Below(i, w);
    Pow2(w) - 1 - Pow2(i)
  }

  lemma {:induction false} Pow2Below(i: nat, w: nat)
    requires i < w
    ensures Pow2(i) < Pow2(w)
    decreases w
  {
    if i < w - 1 {
      Pow2Below(i, w - 1);
    }
  }

  lemma {:induction false} BitOfOnes(w: nat, j: nat)
    ensures Bit(Pow2(w) - 1, j) <==> j < w
    decreases w
  {
    if w == 0 {
      BitOfZero(j);
    } else if j > 0 {
      assert (Pow2(w) - 1) / 2 == Pow2(w - 1) - 1;
      BitOfOnes(w - 1, j - 1);
    }
  }

  lemma {:induction false} BitOfComplement(i: nat, w: nat, j: nat)
    requires i < w
    ensures Bit(Complement(i, w), j) <==> j < w && j != i
    decreases j
  {
    if i == 0 {
      if j > 0 {
        assert Complement(i, w) / 2 == Pow2(w - 1) - 1;
        BitOfOnes(w - 1, j - 1);
      }
    } else if j > 0 {
      assert Complement(i, w) / 2 == Complement(i - 1, w - 1);
      BitOfComplement(i - 1, w - 1, j - 1);
    }
  }

  /** `bitmap |= 1 << i` */
  function SetBit(x: nat, i: nat): nat {
    Or(x, Pow2(i))
  }

  /** `bitmap &= !(1 << i)` on 64 bits */
  function ClearBit(x: nat, i: nat): nat
    requires i < 64
  {
    And(x, Complement(i, 64))
  }

  lemma BitOfSet(x: nat, i: nat, j: nat)
    ensures Bit(SetBit(x, i), j) <==> j == i || Bit(x, j)
  {
    BitOr(x, Pow2(i), j);
    BitOfPow2(i, j);
  }

  lemma BitOfClear(x: nat, i: nat, j: nat)
    requires i < 64
    ensures Bit(ClearBit(x, i), j) <==> j < 64 && j != i && Bit(x, j)
  {
    BitAnd(x, Complement(i, 64), j);
    BitOfComplement(i, 64, j);
  }

  /** `msb`: the place of the highest one. */
  function Msb(x: nat): nat
    requires x > 0
  {
    if x == 1 then 0 else 1 + Msb(x / 2)
  }

  lemma {:induction false} MsbIsOne(x: nat)
    requires x > 0
    ensures Bit(x, Msb(x))
  {
    if x > 1 {
      MsbIsOne(x / 2);
    }
  }

  lemma {:induction false} MsbIsHighest(x: nat, j: nat)
    requires x > 0 && Bit(x, j)
    ensures j <= Msb(x)
    decreases x
  {
    if x == 1 {
      if j > 0 {
        BitOfZero(j - 1);
        assert false;
      }
    } else if j > 0 {
      assert Bit(x / 2, j - 1);
      MsbIsHighest(x / 2, j - 1);
    }
  }
}
