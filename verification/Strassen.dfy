/** `matmul_strassen`: seven products of sums and differences of quarters give the matrix product. */
module Strassen {
  import opened BitOps
  import opened ZOrder
  import opened Matrices
  import opened Matmul

  // ---------- the algebra, entry by entry ----------

  /** `(x + y) * (u + v)` */
  lemma ExpandSum(s: seq<real>, x: seq<real>, y: seq<real>, t: seq<real>, u: seq<real>, v: seq<real>, m: nat, i: nat)
    requires IsSum(s, x, y) && IsSum(t, u, v) && i < Pow4(m)
    ensures Product(s, t, m)[i] ==
            Product(x, u, m)[i] + Product(x, v, m)[i] + Product(y, u, m)[i] + Product(y, v, m)[i]
  {
    ProductSumLeft(s, x, y, t, m);
    ProductSumRight(x, t, u, v, m);
    ProductSumRight(y, t, u, v, m);
  }

  /** `(x - y) * (u + v)`, where `x == s + y` */
  lemma ExpandDifference(s: seq<real>, x: seq<real>, y: seq<real>, t: seq<real>, u: seq<real>, v: seq<real>,
        m: nat, i: nat)
    requires IsSum(x, s, y) && IsSum(t, u, v) && i < Pow4(m)
    ensures Product(s, t, m)[i] ==
            Product(x, u, m)[i] + Product(x, v, m)[i] - Product(y, u, m)[i] - Product(y, v, m)[i]
  {
    ProductSumLeft(x, s, y, t, m);
    ProductSumRight(x, t, u, v, m);
    ProductSumRight(y, t, u, v, m);
  }

  /** `(x + y) * b` */
  lemma ExpandLeft(s: seq<real>, x: seq<real>, y: seq<real>, b: seq<real>, m: nat, i: nat)
    requires IsSum(s, x, y) && i < Pow4(m)
    ensures Product(s, b, m)[i] == Product(x, b, m)[i] + Product(y, b, m)[i]
  {
    ProductSumLeft(s, x, y, b, m);
  }

  /** `a * (u - v)`, where `u == t + v` */
  lemma ExpandRight(a: seq<real>, t: seq<real>, u: seq<real>, v: seq<real>, m: nat, i: nat)
    requires IsSum(u, t, v) && i < Pow4(m)
    ensures Product(a, t, m)[i] == Product(a, u, m)[i] - Product(a, v, m)[i]
  {
    ProductSumRight(a, u, t, v, m);
  }

  /** The quarters of two matrices. */
  datatype Blocks = Blocks(a11: seq<real>, a12: seq<real>, a21: seq<real>, a22: seq<real>,
                           b11: seq<real>, b12: seq<real>, b21: seq<real>, b22: seq<real>)

  predicate Sized(k: Blocks, n: nat) {
    |k.a11| == |k.a12| == |k.a21| == |k.a22| == n && |k.b11| == |k.b12| == |k.b21| == |k.b22| == n
  }

  /** The seven products. */
  datatype Seven = Seven(m1: seq<real>, m2: seq<real>, m3: seq<real>, m4: seq<real>,
                         m5: seq<real>, m6: seq<real>, m7: seq<real>)

  predicate AreSeven(k: Blocks, p: Seven, m: nat)
    requires Sized(k, Pow4(m))
  {
    && p.m1 == Product(Plus(k.a11, k.a22), Plus(k.b11, k.b22), m)
    && p.m2 == Product(Plus(k.a21, k.a22), k.b11, m)
    && p.m3 == Product(k.a11, Minus(k.b12, k.b22), m)
    && p.m4 == Product(k.a22, Minus(k.b21, k.b11), m)
    && p.m5 == Product(Plus(k.a11, k.a12), k.b22, m)
    && p.m6 == Product(Minus(k.a21, k.a11), Plus(k.b11, k.b12), m)
    && p.m7 == Product(Minus(k.a12, k.a22), Plus(k.b21, k.b22), m)
  }

  lemma M1(k: Blocks, m: nat, i: nat, x: real)
    requires Sized(k, Pow4(m)) && i < Pow4(m) && x == Product(Plus(k.a11, k.a22), Plus(k.b11, k.b22), m)[i]
    ensures x == Product(k.a11, k.b11, m)[i] + Product(k.a11, k.b22, m)[i] + Product(k.a22, k.b11,
            m)[i] + Product(k.a22, k.b22, m)[i]
  {
    PlusIsSum(k.a11, k.a22);
    PlusIsSum(k.b11, k.b22);
    ExpandSum(Plus(k.a11, k.a22), k.a11, k.a22, Plus(k.b11, k.b22), k.b11, k.b22, m, i);
  }

  lemma M2(k: Blocks, m: nat, i: nat, x: real)
    requires Sized(k, Pow4(m)) && i < Pow4(m) && x == Product(Plus(k.a21, k.a22), k.b11, m)[i]
    ensures x == Product(k.a21, k.b11, m)[i] + Product(k.a22, k.b11, m)[i]
  {
    PlusIsSum(k.a21, k.a22);
    ExpandLeft(Plus(k.a21, k.a22), k.a21, k.a22, k.b11, m, i);
  }

  lemma M3(k: Blocks, m: nat, i: nat, x: real)
    requires Sized(k, Pow4(m)) && i < Pow4(m) && x == Product(k.a11, Minus(k.b12, k.b22), m)[i]
    ensures x == Product(k.a11, k.b12, m)[i] - Product(k.a11, k.b22, m)[i]
  {
    MinusIsSum(k.b12, k.b22);
    ExpandRight(k.a11, Minus(k.b12, k.b22), k.b12, k.b22, m, i);
  }

  lemma M4(k: Blocks, m: nat, i: nat, x: real)
    requires Sized(k, Pow4(m)) && i < Pow4(m) && x == Product(k.a22, Minus(k.b21, k.b11), m)[i]
    ensures x == Product(k.a22, k.b21, m)[i] - Product(k.a22, k.b11, m)[i]
  {
    MinusIsSum(k.b21, k.b11);
    ExpandRight(k.a22, Minus(k.b21, k.b11), k.b21, k.b11, m, i);
  }

  lemma M5(k: Blocks, m: nat, i: nat, x: real)
    requires Sized(k, Pow4(m)) && i < Pow4(m) && x == Product(Plus(k.a11, k.a12), k.b22, m)[i]
    ensures x == Product(k.a11, k.b22, m)[i] + Product(k.a12, k.b22, m)[i]
  {
    PlusIsSum(k.a11, k.a12);
    ExpandLeft(Plus(k.a11, k.a12), k.a11, k.a12, k.b22, m, i);
  }

  lemma M6(k: Blocks, m: nat, i: nat, x: real)
    requires Sized(k, Pow4(m)) && i < Pow4(m) && x == Product(Minus(k.a21, k.a11), Plus(k.b11, k.b12), m)[i]
    ensures x == Product(k.a21, k.b11, m)[i] + Product(k.a21, k.b12, m)[i] - Product(k.a11, k.b11,
            m)[i] - Product(k.a11, k.b12, m)[i]
  {
    MinusIsSum(k.a21, k.a11);
    PlusIsSum(k.b11, k.b12);
    ExpandDifference(Minus(k.a21, k.a11), k.a21, k.a11, Plus(k.b11, k.b12), k.b11, k.b12, m, i);
  }

  lemma M7(k: Blocks, m: nat, i: nat, x: real)
    requires Sized(k, Pow4(m)) && i < Pow4(m) && x == Product(Minus(k.a12, k.a22), Plus(k.b21, k.b22), m)[i]
    ensures x == Product(k.a12, k.b21, m)[i] + Product(k.a12, k.b22, m)[i] - Product(k.a22, k.b21,
            m)[i] - Product(k.a22, k.b22, m)[i]
  {
    MinusIsSum(k.a12, k.a22);
    PlusIsSum(k.b21, k.b22);
    ExpandDifference(Minus(k.a12, k.a22), k.a12, k.a22, Plus(k.b21, k.b22), k.b21, k.b22, m, i);
  }

  function SumSub(a: seq<real>, b: seq<real>, c: seq<real>, s: seq<real>): (r: seq<real>)
    requires |a| == |b| == |c| == |s|
    ensures |r| == |a|
  {
    Minus(Plus(Plus(a, b), c), s)
  }

  lemma C11(k: Blocks, p: Seven, m: nat, x: seq<real>, y: seq<real>)
    requires Sized(k, Pow4(m)) && AreSeven(k, p, m) && x == Product(k.a11, k.b11, m) && y == Product(k.a12, k.b21, m)
    ensures SumSub(p.m1, p.m4, p.m7, p.m5) == Plus(x, y)
  {
    forall i: nat | i < Pow4(m)
      ensures p.m1[i] + p.m4[i] + p.m7[i] - p.m5[i] == x[i] + y[i]
    {
      M1(k, m, i, p.m1[i]);
      M4(k, m, i, p.m4[i]);
      M7(k, m, i, p.m7[i]);
      M5(k, m, i, p.m5[i]);
    }
    PointwiseSumSub(p.m1, p.m4, p.m7, p.m5, x, y);
  }

  lemma C22(k: Blocks, p: Seven, m: nat, x: seq<real>, y: seq<real>)
    requires Sized(k, Pow4(m)) && AreSeven(k, p, m) && x == Product(k.a21, k.b12, m) && y == Product(k.a22, k.b22, m)
    ensures SumSub(p.m1, p.m3, p.m6, p.m2) == Plus(x, y)
  {
    forall i: nat | i < Pow4(m)
      ensures p.m1[i] + p.m3[i] + p.m6[i] - p.m2[i] == x[i] + y[i]
    {
      M1(k, m, i, p.m1[i]);
      M3(k, m, i, p.m3[i]);
      M6(k, m, i, p.m6[i]);
      M2(k, m, i, p.m2[i]);
    }
    PointwiseSumSub(p.m1, p.m3, p.m6, p.m2, x, y);
  }

  lemma C12(k: Blocks, p: Seven, m: nat, x: seq<real>, y: seq<real>)
    requires Sized(k, Pow4(m)) && AreSeven(k, p, m) && x == Product(k.a11, k.b12, m) && y == Product(k.a12, k.b22, m)
    ensures Plus(p.m3, p.m5) == Plus(x, y)
  {
    forall i: nat | i < Pow4(m)
      ensures p.m3[i] + p.m5[i] == x[i] + y[i]
    {
      M3(k, m, i, p.m3[i]);
      M5(k, m, i, p.m5[i]);
    }
    PointwisePlus(p.m3, p.m5, x, y);
  }

  lemma C21(k: Blocks, p: Seven, m: nat, x: seq<real>, y: seq<real>)
    requires Sized(k, Pow4(m)) && AreSeven(k, p, m) && x == Product(k.a21, k.b11, m) && y == Product(k.a22, k.b21, m)
    ensures Plus(p.m2, p.m4) == Plus(x, y)
  {
    forall i: nat | i < Pow4(m)
      ensures p.m2[i] + p.m4[i] == x[i] + y[i]
    {
      M2(k, m, i, p.m2[i]);
      M4(k, m, i, p.m4[i]);
    }
    PointwisePlus(p.m2, p.m4, x, y);
  }

  lemma PointwisePlus(a: seq<real>, b: seq<real>, x: seq<real>, y: seq<real>)
    requires |a| == |b| == |x| == |y|
    requires forall i: nat :: i < |a| ==> a[i] + b[i] == x[i] + y[i]
    ensures Plus(a, b) == Plus(x, y)
  {
  }

  lemma PointwiseSumSub(a: seq<real>, b: seq<real>, c: seq<real>, s: seq<real>, x: seq<real>, y: seq<real>)
    requires |a| == |b| == |c| == |s| == |x| == |y|
    requires forall i: nat :: i < |a| ==> a[i] + b[i] + c[i] - s[i] == x[i] + y[i]
    ensures SumSub(a, b, c, s) == Plus(x, y)
  {
  }

  predicate AreBlocks(a: seq<real>, b: seq<real>, k: Blocks, n: nat)
    requires |a| == |b| == 4 * n
  {
    && k.a11 == Quarter(a, 0, 0, n) && k.a12 == Quarter(a, 0, 1, n)
    && k.a21 == Quarter(a, 1, 0, n) && k.a22 == Quarter(a, 1, 1, n)
    && k.b11 == Quarter(b, 0, 0, n) && k.b12 == Quarter(b, 0, 1, n)
    && k.b21 == Quarter(b, 1, 0, n) && k.b22 == Quarter(b, 1, 1, n)
  }

  /** Strassen's identity: the seven products, combined, are the matrix product. */
  lemma StrassenIdentity(a: seq<real>, b: seq<real>, k: Blocks, p: Seven, m: nat, whole: seq<real>)
    requires |a| == |b| == 4 * Pow4(m) && AreBlocks(a, b, k, Pow4(m)) && AreSeven(k, p, m)
    requires whole == Product(a, b, m + 1)
    ensures SumSub(p.m1, p.m4, p.m7, p.m5) + Plus(p.m3, p.m5) + Plus(p.m2, p.m4) + SumSub(p.m1, p.m3, p.m6,
            p.m2) == whole
  {
    MatmulzBlocks(a, b, m, whole, k.a11, k.a12, k.a21, k.a22, k.b11, k.b12, k.b21, k.b22);
    C11(k, p, m, Product(k.a11, k.b11, m), Product(k.a12, k.b21, m));
    C12(k, p, m, Product(k.a11, k.b12, m), Product(k.a12, k.b22, m));
    C21(k, p, m, Product(k.a21, k.b11, m), Product(k.a22, k.b21, m));
    C22(k, p, m, Product(k.a21, k.b12, m), Product(k.a22, k.b22, m));
    SumIsPlus(Quarter(whole, 0, 0, Pow4(m)), Product(k.a11, k.b11, m), Product(k.a12, k.b21, m));
    SumIsPlus(Quarter(whole, 0, 1, Pow4(m)), Product(k.a11, k.b12, m), Product(k.a12, k.b22, m));
    SumIsPlus(Quarter(whole, 1, 0, Pow4(m)), Product(k.a21, k.b11, m), Product(k.a22, k.b21, m));
    SumIsPlus(Quarter(whole, 1, 1, Pow4(m)), Product(k.a21, k.b12, m), Product(k.a22, k.b22, m));
    FourQuarters(whole, Pow4(m));
  }

  // ---------- the code ----------

  method StrassenSumSub(a: seq<real>, b: seq<real>, c: seq<real>, s: seq<real>, dest: array<real>, lo: nat)
    requires |a| == |b| == |c| == |s| && lo + |a| <= dest.Length
    modifies dest
    ensures dest[..] == Patch(old(dest[..]), lo, SumSub(a, b, c, s))
  {
    ghost var was := dest[..];
    RCopy(a, dest, lo);
    PatchSame(was, lo, a, Plus(a, b));
    RMatSum(b, dest, lo);
    PatchSame(was, lo, Plus(a, b), Plus(Plus(a, b), c));
    RMatSum(c, dest, lo);
    PatchSame(was, lo, Plus(Plus(a, b), c), SumSub(a, b, c, s));
    RMatSub(s, dest, lo);
  }

  method StrassenSum(a: seq<real>, b: seq<real>, dest: array<real>, lo: nat)
    requires |a| == |b| && lo + |a| <= dest.Length
    modifies dest
    ensures dest[..] == Patch(old(dest[..]), lo, Plus(a, b))
  {
    ghost var was := dest[..];
    RCopy(a, dest, lo);
    PatchSame(was, lo, a, Plus(a, b));
    RMatSum(b, dest, lo);
  }

  method StrassenAdd2Mul(a1: seq<real>, a2: seq<real>, b1: seq<real>, b2: seq<real>,
        ghost m: nat) returns (dest: array<real>)
    requires |a1| == |a2| == |b1| == |b2| == Pow4(m)
    ensures fresh(dest) && dest[..] == Product(Plus(a1, a2), Plus(b1, b2), m)
    decreases m, 1
  {
    dest := RawBuffer(|a1|);
    var a := RTmpSum(a1, a2);
    var b := RTmpSum(b1, b2);
    MatmulStrassen(a[..], b[..], dest, 0, m);
  }

  method StrassenSubAddMul(a1: seq<real>, a2: seq<real>, b1: seq<real>, b2: seq<real>,
        ghost m: nat) returns (dest: array<real>)
    requires |a1| == |a2| == |b1| == |b2| == Pow4(m)
    ensures fresh(dest) && dest[..] == Product(Minus(a1, a2), Plus(b1, b2), m)
    decreases m, 1
  {
    dest := RawBuffer(|a1|);
    var a := RTmpSub(a1, a2);
    var b := RTmpSum(b1, b2);
    MatmulStrassen(a[..], b[..], dest, 0, m);
  }

  method StrassenAddMul(a1: seq<real>, a2: seq<real>, b: seq<real>, ghost m: nat) returns (dest: array<real>)
    requires |a1| == |a2| == |b| == Pow4(m)
    ensures fresh(dest) && dest[..] == Product(Plus(a1, a2), b, m)
    decreases m, 1
  {
    dest := RawBuffer(|a1|);
    var a := RTmpSum(a1, a2);
    MatmulStrassen(a[..], b, dest, 0, m);
  }

  method StrassenSubMul(b1: seq<real>, b2: seq<real>, a: seq<real>, ghost m: nat) returns (dest: array<real>)
    requires |b1| == |b2| == |a| == Pow4(m)
    ensures fresh(dest) && dest[..] == Product(a, Minus(b1, b2), m)
    decreases m, 1
  {
    dest := RawBuffer(|a|);
    var b := RTmpSub(b1, b2);
    MatmulStrassen(a, b[..], dest, 0, m);
  }

  /** The seven products of one level. */
  method SevenProducts(k: Blocks, ghost m: nat) returns (p: Seven)
    requires Sized(k, Pow4(m))
    ensures AreSeven(k, p, m)
    decreases m, 2
  {
    var m1 := StrassenAdd2Mul(k.a11, k.a22, k.b11, k.b22, m);
    var m2 := StrassenAddMul(k.a21, k.a22, k.b11, m);
    var m3 := StrassenSubMul(k.b12, k.b22, k.a11, m);
    var m4 := StrassenSubMul(k.b21, k.b11, k.a22, m);
    var m5 := StrassenAddMul(k.a11, k.a12, k.b22, m);
    var m6 := StrassenSubAddMul(k.a21, k.a11, k.b11, k.b12, m);
    var m7 := StrassenSubAddMul(k.a12, k.a22, k.b21, k.b22, m);
    p := Seven(m1[..], m2[..], m3[..], m4[..], m5[..], m6[..], m7[..]);
  }

  /** The four sums of one level, into the four quarters of the destination. */
  method Combine(p: Seven, dest: array<real>, lo: nat, n: nat)
    requires |p.m1| == |p.m2| == |p.m3| == |p.m4| == |p.m5| == |p.m6| == |p.m7| == n && lo + 4 * n <= dest.Length
    modifies dest
    ensures dest[..] == Patch(old(dest[..]), lo, SumSub(p.m1, p.m4, p.m7, p.m5) + Plus(p.m3, p.m5) +
                                                 Plus(p.m2, p.m4) + SumSub(p.m1, p.m3, p.m6, p.m2))
  {
    ghost var was := dest[..];
    StrassenSumSub(p.m1, p.m4, p.m7, p.m5, dest, lo);
    StrassenSum(p.m3, p.m5, dest, lo + n);
    StrassenSum(p.m2, p.m4, dest, lo + 2 * n);
    StrassenSumSub(p.m1, p.m3, p.m6, p.m2, dest, lo + 3 * n);
    FourPatches(was, lo, SumSub(p.m1, p.m4, p.m7, p.m5), Plus(p.m3, p.m5), Plus(p.m2, p.m4),
                SumSub(p.m1, p.m3, p.m6, p.m2), n);
  }

  /** `matmul_strassen` */
  method MatmulStrassen(a: seq<real>, b: seq<real>, dest: array<real>, lo: nat, ghost m: nat)
    requires |a| == |b| == Pow4(m) && lo + |a| <= dest.Length
    modifies dest
    ensures dest[..] == Patch(old(dest[..]), lo, Product(a, b, m))
    decreases m, 0
  {
    if |a| <= MULT_CHUNK {
      ChunkIsSmall(|a|, m);
      SeqMatmulz(a, b, dest, lo, m);
      return;
    }
    HasQuarters(|a|, m);
    StrassenByQuarters(a, b, dest, lo, m - 1, Product(a, b, m));
  }

  method StrassenByQuarters(a: seq<real>, b: seq<real>, dest: array<real>, lo: nat, ghost m: nat,
        ghost whole: seq<real>)
    requires |a| == |b| == 4 * Pow4(m) && lo + |a| <= dest.Length && whole == Product(a, b, m + 1)
    modifies dest
    ensures dest[..] == Patch(old(dest[..]), lo, whole)
    decreases m, 3
  {
    var a11, a12, a21, a22 := QuarterChunks(a, Pow4(m));
    var b11, b12, b21, b22 := QuarterChunks(b, Pow4(m));
    var k := Blocks(a11, a12, a21, a22, b11, b12, b21, b22);
    var p := SevenProducts(k, m);
    Combine(p, dest, lo, |a11|);
    StrassenIdentity(a, b, k, p, m, whole);
  }
}
