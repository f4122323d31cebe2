/** Z-order (Morton) indices: interleaved row and column bits, the masks that take them apart, and
    the counter that steps through the even bits. */
module ZOrder {
  import opened BitOps

  function Pow4(m: nat): (r: nat)
    ensures r >= 1
  {
    if m == 0 then 1 else 4 * Pow4(m - 1)
  }

  /** The bits of `k` moved to the even positions. */
  function Spread(k: nat): nat {
    if k == 0 then 0 else 4 * Spread(k / 2) + k % 2
  }

  /** The index of row `r`, column `c`: row bits odd, column bits even. */
  function Z(r: nat, c: nat): nat {
    2 * Spread(r) + Spread(c)
  }

  /** The even bits of `z`, gathered. */
  function Col(z: nat): nat {
    if z == 0 then 0 else 2 * Col(z / 4) + (z % 4) % 2
  }

  /** The odd bits of `z`, gathered. */
  function Row(z: nat): nat {
    if z == 0 then 0 else 2 * Row(z / 4) + (z % 4) / 2
  }

  lemma SpreadCons(k: nat, b: nat)
    requires b < 2
    ensures Spread(2 * k + b) == 4 * Spread(k) + b
  {
    assert (2 * k + b) / 2 == k && (2 * k + b) % 2 == b;
  }

  /** The same with the number named. */
  lemma SpreadAt(k: nat, h: nat, b: nat)
    requires b < 2 && k == 2 * h + b
    ensures Spread(k) == 4 * Spread(h) + b
  {
    assert k / 2 == h && k % 2 == b;
  }

  lemma DigitDiv(x: nat, z: nat, p: nat, q: nat)
    requires p < 2 && q < 2 && x == 4 * z + 2 * p + q
    ensures x / 4 == z && x % 4 == 2 * p + q
  {
  }

  lemma RowColCons(z: nat, p: nat, q: nat)
    requires p < 2 && q < 2
    ensures Row(4 * z + 2 * p + q) == 2 * Row(z) + p && Col(4 * z + 2 * p + q) == 2 * Col(z) + q
  {
    DigitDiv(4 * z + 2 * p + q, z, p, q);
  }

  lemma RowColAt(z: nat, h: nat, p: nat, q: nat)
    requires p < 2 && q < 2 && z == 4 * h + 2 * p + q
    ensures Row(z) == 2 * Row(h) + p && Col(z) == 2 * Col(h) + q
  {
    DigitDiv(z, h, p, q);
  }

  /** The last base-4 digit as two bits. */
  lemma LastDigit(z: nat) returns (h: nat, p: nat, q: nat)
    ensures z == 4 * h + 2 * p + q && p < 2 && q < 2 && (z > 0 ==> h < z)
  {
    h, p, q := z / 4, (z % 4) / 2, (z % 4) % 2;
  }

  lemma LastBit(k: nat) returns (h: nat, b: nat)
    ensures k == 2 * h + b && b < 2 && (k > 0 ==> h < k)
  {
    h, b := k / 2, k % 2;
  }

  lemma ZCons(r: nat, p: nat, c: nat, q: nat)
    requires p < 2 && q < 2
    ensures Z(2 * r + p, 2 * c + q) == 4 * Z(r, c) + 2 * p + q
  {
    SpreadCons(r, p);
    SpreadCons(c, q);
  }

  /** Rows and columns are recovered from the index, and the index from them. */
  lemma {:induction false} ZOfRowCol(z: nat)
    ensures Z(Row(z), Col(z)) == z
  {
    if z > 0 {
      var h, p, q := LastDigit(z);
      ZOfRowCol(h);
      RowColCons(h, p, q);
      ZCons(Row(h), p, Col(h), q);
    }
  }

  lemma RowColOfZCons(r: nat, rh: nat, p: nat, c: nat, ch: nat, q: nat, z: nat, h: nat)
    requires p < 2 && q < 2 && r == 2 * rh + p && c == 2 * ch + q && z == Z(r, c) && h == Z(rh, ch)
    requires Row(h) == rh && Col(h) == ch
    ensures Row(z) == r && Col(z) == c
  {
    SpreadAt(r, rh, p);
    SpreadAt(c, ch, q);
    RowColAt(z, h, p, q);
  }

  lemma {:induction false} RowColOfZ(r: nat, c: nat)
    ensures Row(Z(r, c)) == r && Col(Z(r, c)) == c
    decreases r + c
  {
    if r > 0 || c > 0 {
      var rh, p := LastBit(r);
      var ch, q := LastBit(c);
      RowColOfZ(rh, ch);
      RowColOfZCons(r, rh, p, c, ch, q, Z(r, c), Z(rh, ch));
    }
  }

  lemma {:induction false} ZBound(r: nat, c: nat, m: nat)
    requires r < Pow2(m) && c < Pow2(m)
    ensures Z(r, c) < Pow4(m)
    decreases m
  {
    if m > 0 {
      var rh, p := LastBit(r);
      var ch, q := LastBit(c);
      ZBound(rh, ch, m - 1);
      ZCons(rh, p, ch, q);
    }
  }

  lemma {:induction false} RowColBound(z: nat, m: nat)
    requires z < Pow4(m)
    ensures Row(z) < Pow2(m) && Col(z) < Pow2(m)
    decreases m
  {
    if m > 0 {
      var h, p, q := LastDigit(z);
      RowColBound(h, m - 1);
      RowColCons(h, p, q);
    }
  }

  // ---------- masks ----------

  /** `01` repeated `n` times; `0x5555_5555` for 16 and `0xaaaa_aaaa` is its double. */
  function EvenMask(n: nat): nat {
    if n == 0 then 0 else 4 * EvenMask(n - 1) + 1
  }

  lemma SourceMasks()
    ensures EvenMask(16) == 0x5555_5555 && 2 * EvenMask(16) == 0xaaaa_aaaa
    ensures Pow4(16) == 0x1_0000_0000 && Pow2(16) == 0x1_0000
  {
    assert EvenMask(8) == 0x5555;
    assert Pow4(8) == 0x1_0000 && Pow2(8) == 0x100;
  }

  /** `&` and `|` digit by digit in base 4. */
  lemma AndFour(x: nat, p: nat, q: nat, y: nat, s: nat, t: nat)
    requires p < 2 && q < 2 && s < 2 && t < 2
    ensures And(4 * x + 2 * p + q, 4 * y + 2 * s + t) ==
            4 * And(x, y) + 2 * Both(p, s) + Both(q, t)
  {
    AndCons(x, p, y, s);
    AndCons(2 * x + p, q, 2 * y + s, t);
  }

  lemma OrFour(x: nat, p: nat, q: nat, y: nat, s: nat, t: nat)
    requires p < 2 && q < 2 && s < 2 && t < 2
    ensures Or(4 * x + 2 * p + q, 4 * y + 2 * s + t) ==
            4 * Or(x, y) + 2 * Either(p, s) + Either(q, t)
  {
    OrCons(x, p, y, s);
    OrCons(2 * x + p, q, 2 * y + s, t);
  }

  /** The even bits of the `n` lowest base-4 digits, in place. */
  function EvenBits(z: nat, n: nat): nat {
    if n == 0 then 0 else 4 * EvenBits(z / 4, n - 1) + (z % 4) % 2
  }

  lemma EvenBitsStep(z: nat, n: nat)
    requires n > 0
    ensures EvenBits(z, n) == 4 * EvenBits(z / 4, n - 1) + (z % 4) % 2
  {
  }

  lemma EvenBitsCons(z: nat, p: nat, q: nat, n: nat)
    requires p < 2 && q < 2
    ensures EvenBits(4 * z + 2 * p + q, n + 1) == 4 * EvenBits(z, n) + q
  {
    var x := 4 * z + 2 * p + q;
    DigitDiv(x, z, p, q);
    EvenBitsStep(x, n + 1);
  }

  lemma {:induction false} EvenMaskTakes(z: nat, n: nat)
    ensures And(z, EvenMask(n)) == EvenBits(z, n)
    decreases n
  {
    if n > 0 {
      var h, p, q := LastDigit(z);
      EvenMaskTakes(h, n - 1);
      AndFour(h, p, q, EvenMask(n - 1), 0, 1);
      EvenBitsCons(h, p, q, n - 1);
    }
  }

  lemma EvenBitsAreColumnCons(z: nat, h: nat, p: nat, q: nat, n: nat)
    requires p < 2 && q < 2 && z == 4 * h + 2 * p + q && EvenBits(h, n) == Spread(Col(h))
    ensures EvenBits(z, n + 1) == Spread(Col(z))
  {
    EvenBitsCons(h, p, q, n);
    RowColAt(z, h, p, q);
    SpreadAt(Col(z), Col(h), q);
  }

  lemma {:induction false} EvenBitsAreColumn(z: nat, n: nat)
    requires z < Pow4(n)
    ensures EvenBits(z, n) == Spread(Col(z))
    decreases n
  {
    if n > 0 {
      var h, p, q := LastDigit(z);
      EvenBitsAreColumn(h, n - 1);
      EvenBitsAreColumnCons(z, h, p, q, n - 1);
    }
  }

  /** The odd mask leaves the row bits. */
  lemma {:induction false} OddMaskTakes(z: nat, n: nat)
    requires z < Pow4(n)
    ensures And(z, 2 * EvenMask(n)) == 2 * Spread(Row(z))
    decreases n
  {
    if n > 0 {
      var h, p, q := LastDigit(z);
      OddMaskTakes(h, n - 1);
      AndFour(h, p, q, 2 * EvenMask(n - 1), 1, 0);
      SpreadRowCons(z, h, p, q);
    }
  }

  lemma SpreadRowCons(z: nat, h: nat, p: nat, q: nat)
    requires p < 2 && q < 2 && z == 4 * h + 2 * p + q
    ensures Spread(Row(z)) == 4 * Spread(Row(h)) + p
  {
    RowColAt(z, h, p, q);
    SpreadAt(Row(z), Row(h), p);
  }

  /** The even mask leaves the column bits. */
  lemma EvenMaskTakesColumn(z: nat, n: nat)
    requires z < Pow4(n)
    ensures And(z, EvenMask(n)) == Spread(Col(z))
  {
    EvenMaskTakes(z, n);
    EvenBitsAreColumn(z, n);
  }

  /** Joining row bits and column bits with `|` gives the index. */
  lemma {:induction false} OrPutsTogether(r: nat, c: nat)
    ensures Or(2 * Spread(r), Spread(c)) == Z(r, c)
    decreases r + c
  {
    if r > 0 || c > 0 {
      var rh, p := LastBit(r);
      var ch, q := LastBit(c);
      OrPutsTogether(rh, ch);
      OrPutsTogetherCons(rh, p, ch, q);
    }
  }

  lemma OrPutsTogetherCons(r: nat, p: nat, c: nat, q: nat)
    requires p < 2 && q < 2 && Or(2 * Spread(r), Spread(c)) == Z(r, c)
    ensures Or(2 * Spread(2 * r + p), Spread(2 * c + q)) == Z(2 * r + p, 2 * c + q)
  {
    SpreadCons(r, p);
    SpreadCons(c, q);
    OrFour(2 * Spread(r), p, 0, Spread(c), 0, q);
  }

  // ---------- the counter ----------

  lemma {:induction false} SpreadBound(j: nat, m: nat)
    ensures Spread(j) < Pow4(m) <==> j < Pow2(m)
    decreases m
  {
    var h, b := LastBit(j);
    SpreadCons(h, b);
    if m > 0 {
      SpreadBound(h, m - 1);
    } else {
      SpreadPositive(j);
    }
  }

  lemma {:induction false} SpreadPositive(j: nat)
    ensures j <= Spread(j)
  {
    if j > 0 {
      var h, b := LastBit(j);
      SpreadPositive(h);
      SpreadCons(h, b);
    }
  }

  lemma {:induction false} FillOddBits(v: nat, n: nat)
    requires v < Pow4(n)
    ensures Or(v, 2 * EvenMask(n)) == 2 * EvenMask(n) + EvenBits(v, n)
    decreases n
  {
    if n > 0 {
      var h, p, q := LastDigit(v);
      FillOddBits(h, n - 1);
      OrFour(h, p, q, 2 * EvenMask(n - 1), 1, 0);
      EvenBitsCons(h, p, q, n - 1);
    }
  }

  lemma {:induction false} EvenBitsOfFilled(j: nat, n: nat, w: nat)
    requires j < Pow2(n) && w == 2 * EvenMask(n) + Spread(j)
    ensures w < Pow4(n) && EvenBits(w, n) == Spread(j)
    decreases n
  {
    if n > 0 {
      var h, b := LastBit(j);
      var top := 2 * EvenMask(n - 1) + Spread(h);
      EvenBitsOfFilled(h, n - 1, top);
      FilledCons(h, b, n - 1);
      AppendBit(h, b, n - 1, top, w, j);
    }
  }

  lemma AppendBit(h: nat, b: nat, n: nat, top: nat, w: nat, j: nat)
    requires b < 2 && EvenBits(top, n) == Spread(h) && w == 4 * top + 2 + b && j == 2 * h + b
    ensures EvenBits(w, n + 1) == Spread(j)
  {
    EvenBitsCons(top, 1, b, n);
    SpreadCons(h, b);
  }

  lemma AppendZero(h: nat, n: nat, top: nat, w: nat, j: nat)
    requires EvenBits(top, n) == Spread(h) && w == 4 * top && j == 2 * h
    ensures EvenBits(w, n + 1) == Spread(j)
  {
    EvenBitsCons(top, 0, 0, n);
    SpreadCons(h, 0);
  }

  lemma FilledCons(h: nat, b: nat, n: nat)
    requires b < 2
    ensures 2 * EvenMask(n + 1) + Spread(2 * h + b) == 4 * (2 * EvenMask(n) + Spread(h)) + 2 + b
  {
    SpreadCons(h, b);
  }

  /** The value after a step of the counter that returned `Spread(j)`. */
  function Stepped(j: nat, n: nat): nat {
    2 * EvenMask(n) + Spread(j) + 1
  }

  lemma SteppedCons(h: nat, b: nat, n: nat)
    requires b < 2
    ensures Stepped(2 * h + b, n + 1) == if b == 0 then 4 * (Stepped(h, n) - 1) + 3 else 4 * Stepped(h, n)
  {
    FilledCons(h, b, n);
  }

  lemma {:induction false} Overflow(j: nat, n: nat)
    requires j < Pow2(n)
    ensures j + 1 < Pow2(n) ==> Stepped(j, n) < Pow4(n)
    ensures j + 1 == Pow2(n) ==> Stepped(j, n) == Pow4(n)
    decreases n
  {
    if n > 0 {
      var h, b := LastBit(j);
      SteppedCons(h, b, n - 1);
      Overflow(h, n - 1);
    }
  }

  /** Adding one with all odd bits set carries through them to the next even bit. */
  lemma {:induction false} CarryThrough(j: nat, n: nat, w: nat)
    requires j + 1 < Pow2(n) && w == Stepped(j, n)
    ensures EvenBits(w, n) == Spread(j + 1)
    decreases n
  {
    var h, b := LastBit(j);
    SteppedCons(h, b, n - 1);
    var top := Stepped(h, n - 1);
    if b == 0 {
      EvenBitsOfFilled(h, n - 1, top - 1);
      AppendBit(h, 1, n - 1, top - 1, w, j + 1);
    } else {
      CarryThrough(h, n - 1, top);
      AppendZero(h + 1, n - 1, top, w, j + 1);
    }
  }
}
