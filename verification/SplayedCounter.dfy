/** `SplayedBitsCounter`: the iterator over the numbers whose odd bits are zero. */
module SplayedCounter {
  import opened Basics
  import opened BitOps
  import opened ZOrder

  const EVEN: nat := 0x5555_5555
  const ODD: nat := 0xaaaa_aaaa

  /** One call of `next`: the value the iterator moves to. */
  function Advance(v: nat): nat {
    Or(v, ODD) + 1
  }

  /** The iterator's value after `j` calls that returned something. */
  function After(j: nat): nat {
    if j == 0 then 0 else Advance(After(j - 1))
  }

  /** `v` shows the number `j`: its even bits are those of `j`, and it fits the 32-bit masks. */
  predicate Shows(v: nat, j: nat) {
    v < 0x1_0000_0000 && And(v, EVEN) == Spread(j)
  }

  /** Filling the gaps with ones and adding one carries through the gaps, at any width. */
  lemma FillAndAdd(v: nat, j: nat, n: nat, w: nat)
    requires v < Pow4(n) && And(v, EvenMask(n)) == Spread(j) && j + 1 < Pow2(n)
    requires w == Or(v, 2 * EvenMask(n)) + 1
    ensures w < Pow4(n) && And(w, EvenMask(n)) == Spread(j + 1)
  {
    EvenMaskTakes(v, n);
    FillOddBits(v, n);
    Overflow(j, n);
    CarryThrough(j, n, w);
    EvenMaskTakes(w, n);
  }

  lemma AdvanceShowsNext(v: nat, j: nat)
    requires Shows(v, j) && j + 1 < 0x1_0000
    ensures Shows(Advance(v), j + 1)
  {
    SourceMasks();
    FillAndAdd(v, j, 16, Advance(v));
  }

  lemma {:induction false} AfterShows(j: nat)
    requires j < 0x1_0000
    ensures Shows(After(j), j)
  {
    if j > 0 {
      AfterShows(j - 1);
      AdvanceShowsNext(After(j - 1), j - 1);
    } else {
      SourceMasks();
    }
  }

  lemma {:induction false} AndAtMost(x: nat, y: nat)
    ensures And(x, y) <= y
  {
    if x > 0 && y > 0 {
      AndAtMost(x / 2, y / 2);
    }
  }

  /** For a matrix of `4^m` entries the iterator comes to an end exactly when `m <= 15`: with more
      entries the 32-bit mask never lets it reach the length. */
  lemma StopsExactlyUpTo15(m: nat)
    ensures (exists j: nat :: And(After(j), EVEN) >= Pow4(m)) <==> m <= 15
  {
    if m <= 15 {
      Pow2Monotone(m, 15);
      SourceMasks();
      AfterShows(Pow2(m));
      SpreadBound(Pow2(m), m);
      assert And(After(Pow2(m)), EVEN) >= Pow4(m);
    } else {
      SourceMasks();
      Pow4Monotone(16, m);
      forall j: nat
        ensures And(After(j), EVEN) < Pow4(m)
      {
        AndAtMost(After(j), EVEN);
      }
    }
  }

  lemma {:induction false} Pow4Monotone(a: nat, b: nat)
    requires a <= b
    ensures Pow4(a) <= Pow4(b)
    decreases b
  {
    if a < b {
      Pow4Monotone(a, b - 1);
    }
  }

  lemma {:induction false} Pow2Monotone(a: nat, b: nat)
    requires a <= b
    ensures Pow2(a) <= Pow2(b)
    decreases b
  {
    if a < b {
      Pow2Monotone(a, b - 1);
    }
  }

  class SplayedBitsCounter {
    var value: nat
    const max: nat
    ghost var index: nat

    ghost predicate Valid()
      reads this
    {
      Shows(value, index) && index < 0x1_0000 && exists m :: m <= 15 && max == Pow4(m)
    }

    constructor (max: nat, ghost m: nat)
      requires m <= 15 && max == Pow4(m)
      ensures Valid() && index == 0 && this.max == max
    {
      SourceMasks();
      value := 0;
      this.max := max;
      index := 0;
      new;
      assert And(0, EVEN) == Spread(0);
    }

    /** `next`: the numbers come out spread, in order, none skipped, and after `2^m` of them the
        iterator is exhausted for good. */
    method Next() returns (r: Option<nat>)
      requires Valid()
      modifies this
      ensures Valid()
      ensures Spread(old(index)) < max ==> r == Some(Spread(old(index))) && index == old(index) + 1
      ensures Spread(old(index)) >= max ==> r == None && index == old(index) && value == old(value)
    {
      var prev := And(value, EVEN);
      if prev < max {
        IndexBelow(index, max);
        AdvanceShowsNext(value, index);
        value := Or(value, ODD);
        value := value + 1;
        index := index + 1;
        return Some(prev);
      } else {
        return None;
      }
    }
  }

  lemma IndexBelow(j: nat, max: nat)
    requires Spread(j) < max && exists m :: m <= 15 && max == Pow4(m)
    ensures j + 1 < 0x1_0000
  {
    var m: nat :| m <= 15 && max == Pow4(m);
    SpreadBound(j, m);
    Pow2Monotone(m, 15);
    SourceMasks();
  }
}
