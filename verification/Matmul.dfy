/** The three in-place multiplications of Z-ordered matrices, each against `Matrices.Product`.
    A mutable slice is an array and the offset where the slice starts. */
module Matmul {
  import opened Basics
  import opened BitOps
  import opened ZOrder
  import opened Matrices
  import opened SplayedCounter

  const MULT_CHUNK: nat := 1024
  const LINEAR_CHUNK: nat := 65536

  /** `was` with `p` written over it from `lo` on. */
  function Patch(was: seq<real>, lo: nat, p: seq<real>): (s: seq<real>)
    requires lo + |p| <= |was|
    ensures |s| == |was|
  {
    was[..lo] + p + was[lo + |p|..]
  }

  lemma PatchTwice(was: seq<real>, lo: nat, p: seq<real>, q: seq<real>)
    requires lo + |p| + |q| <= |was|
    ensures Patch(Patch(was, lo, p), lo + |p|, q) == Patch(was, lo, p + q)
  {
  }

  lemma PatchSame(was: seq<real>, lo: nat, p: seq<real>, q: seq<real>)
    requires lo + |p| <= |was| && |p| == |q|
    ensures Patch(Patch(was, lo, p), lo, q) == Patch(was, lo, q)
    ensures Patch(was, lo, p)[lo..lo + |p|] == p
  {
  }

  lemma PatchStep(was: seq<real>, lo: nat, p: seq<real>, x: real)
    requires lo + |p| < |was|
    ensures Patch(was, lo, p)[lo + |p| := x] == Patch(was, lo, p + [x])
  {
  }

  method RawBuffer(n: nat) returns (v: array<real>)
    ensures fresh(v) && v.Length == n && forall i :: 0 <= i < n ==> v[i] == 0.0
  {
    v := new real[n](_ => 0.0);
  }

  method CopyFromSlice(src: seq<real>, dest: array<real>, lo: nat)
    requires lo + |src| <= dest.Length
    modifies dest
    ensures dest[..] == Patch(old(dest[..]), lo, src)
  {
    ghost var was := dest[..];
    var i := 0;
    assert was == Patch(was, lo, src[..0]);
    while i < |src|
      invariant i <= |src|
      invariant dest[..] == Patch(was, lo, src[..i])
    {
      PatchStep(was, lo, src[..i], src[i]);
      assert src[..i] + [src[i]] == src[..i + 1];
      dest[lo + i] := src[i];
      i := i + 1;
    }
    assert src[..i] == src;
  }

  /** `rcopy`: halves down to chunks. */
  method RCopy(src: seq<real>, dest: array<real>, lo: nat)
    requires lo + |src| <= dest.Length
    modifies dest
    ensures dest[..] == Patch(old(dest[..]), lo, src)
    decreases |src|
  {
    if |src| <= LINEAR_CHUNK {
      CopyFromSlice(src, dest, lo);
      return;
    }
    var mid := |src| / 2;
    RCopy(src[..mid], dest, lo);
    RCopy(src[mid..], dest, lo + mid);
    PatchTwice(old(dest[..]), lo, src[..mid], src[mid..]);
    assert src[..mid] + src[mid..] == src;
  }

  /** `rmatsum` */
  method RMatSum(src: seq<real>, dest: array<real>, lo: nat)
    requires lo + |src| <= dest.Length
    modifies dest
    ensures dest[..] == Patch(old(dest[..]), lo, Plus(old(dest[lo..lo + |src|]), src))
  {
    ghost var was := dest[..];
    ghost var sum := Plus(was[lo..lo + |src|], src);
    var i := 0;
    assert was == Patch(was, lo, sum[..0]);
    while i < |src|
      invariant i <= |src|
      invariant dest[..] == Patch(was, lo, sum[..i])
    {
      PatchStep(was, lo, sum[..i], sum[i]);
      assert dest[..][lo + i] == was[lo + i];
      dest[lo + i] := dest[lo + i] + src[i];
      assert sum[..i] + [sum[i]] == sum[..i + 1];
      i := i + 1;
    }
    assert sum[..i] == sum;
  }

  /** `rmatsub` */
  method RMatSub(src: seq<real>, dest: array<real>, lo: nat)
    requires lo + |src| <= dest.Length
    modifies dest
    ensures dest[..] == Patch(old(dest[..]), lo, Minus(old(dest[lo..lo + |src|]), src))
  {
    ghost var was := dest[..];
    ghost var diff := Minus(was[lo..lo + |src|], src);
    var i := 0;
    assert was == Patch(was, lo, diff[..0]);
    while i < |src|
      invariant i <= |src|
      invariant dest[..] == Patch(was, lo, diff[..i])
    {
      PatchStep(was, lo, diff[..i], diff[i]);
      assert dest[..][lo + i] == was[lo + i];
      dest[lo + i] := dest[lo + i] - src[i];
      assert diff[..i] + [diff[i]] == diff[..i + 1];
      i := i + 1;
    }
    assert diff[..i] == diff;
  }

  method RTmpSum(a: seq<real>, b: seq<real>) returns (tmp: array<real>)
    requires |a| == |b|
    ensures fresh(tmp) && tmp[..] == Plus(a, b)
  {
    tmp := RawBuffer(|a|);
    RCopy(a, tmp, 0);
    assert tmp[..] == a;
    RMatSum(b, tmp, 0);
  }

  method RTmpSub(a: seq<real>, b: seq<real>) returns (tmp: array<real>)
    requires |a| == |b|
    ensures fresh(tmp) && tmp[..] == Minus(a, b)
  {
    tmp := RawBuffer(|a|);
    RCopy(a, tmp, 0);
    assert tmp[..] == a;
    RMatSub(b, tmp, 0);
  }

  // ---------- seq_matmulz ----------

  /** The bit tricks on indices: `ij & 0xaaaa_aaaa | k` and `k << 1 | ij & 0x5555_5555` are the
      places of `[row, k]` and `[k, column]`. */
  lemma IndexTricks(ij: nat, k: nat, m: nat)
    requires m <= 15 && ij < Pow4(m) && k < Pow2(m)
    ensures Or(And(ij, ODD), Spread(k)) == Z(Row(ij), k) < Pow4(m)
    ensures Or(Shl(Spread(k), 1), And(ij, EVEN)) == Z(k, Col(ij)) < Pow4(m)
  {
    SourceMasks();
    Pow4Monotone(m, 16);
    OddMaskTakes(ij, 16);
    EvenMaskTakesColumn(ij, 16);
    OrPutsTogether(Row(ij), k);
    OrPutsTogether(k, Col(ij));
    RowColBound(ij, m);
    ZBound(Row(ij), k, m);
    ZBound(k, Col(ij), m);
    assert Shl(Spread(k), 1) == 2 * Shl(Spread(k), 0);
  }

  lemma TermAt(a: seq<real>, b: seq<real>, r: nat, c: nat, n: nat, k: nat, x: nat, y: nat)
    requires k < n && x == Z(r, k) < |a| && y == Z(k, c) < |b|
    ensures Terms(a, b, r, c, 0, n)[k] == a[x] * b[y]
  {
    TermIs(a, b, r, c, 0, n, k, a[x], b[y]);
  }

  /** One step of the inner loop: the `k`-th term. */
  method Term(a: seq<real>, b: seq<real>, i: nat, j: nat, k: nat, ghost ij: nat, ghost n: nat, ghost m: nat,
        ghost terms: seq<real>)
    returns (t: real)
    requires |a| == |b| == Pow4(m) && m <= 15 && ij < Pow4(m) && n < Pow2(m)
    requires i == And(ij, ODD) && j == And(ij, EVEN) && k == Spread(n)
    requires terms == Terms(a, b, Row(ij), Col(ij), 0, Pow2(m))
    ensures t == terms[n]
  {
    IndexTricks(ij, n, m);
    var x, y := Or(i, k), Or(Shl(k, 1), j);
    TermAt(a, b, Row(ij), Col(ij), Pow2(m), n, x, y);
    t := a[x] * b[y];
  }

  lemma SumStep(s: seq<real>, n: nat)
    requires n < |s|
    ensures Sum(s[..n + 1]) == Sum(s[..n]) + s[n]
  {
    assert s[..n + 1][..n] == s[..n];
  }

  /** The inner loop: one entry. */
  method SumTerms(a: seq<real>, b: seq<real>, ij: nat, ghost m: nat, ghost terms: seq<real>) returns (sum: real)
    requires |a| == |b| == Pow4(m) && m <= 15 && ij < Pow4(m)
    requires terms == Terms(a, b, Row(ij), Col(ij), 0, Pow2(m))
    ensures sum == Sum(terms)
  {
    var i := And(ij, ODD);
    var j := And(ij, EVEN);
    sum := 0.0;
    var counter := new SplayedBitsCounter(|a|, m);
    ghost var n: nat := 0;
    SpreadBound(0, m);
    var k := counter.Next();
    while k.Some?
      invariant fresh(counter) && counter.Valid() && counter.max == |a| && n <= Pow2(m)
      invariant k.Some? ==> n < Pow2(m) && k.value == Spread(n) && counter.index == n + 1
      invariant k.None? ==> n == Pow2(m)
      invariant sum == Sum(terms[..n])
      decreases Pow2(m) - n
    {
      var t := Term(a, b, i, j, k.value, ij, n, m, terms);
      SumStep(terms, n);
      sum := sum + t;
      n := n + 1;
      SpreadBound(n, m);
      k := counter.Next();
    }
    assert terms[..n] == terms;
  }

  method Entry(a: seq<real>, b: seq<real>, ij: nat, ghost m: nat, ghost p: seq<real>) returns (sum: real)
    requires |a| == |b| == Pow4(m) && m <= 15 && ij < Pow4(m) && p == Product(a, b, m)
    ensures sum == p[ij]
  {
    sum := SumTerms(a, b, ij, m, Terms(a, b, Row(ij), Col(ij), 0, Pow2(m)));
    ProductAt(a, b, m, ij);
  }

  /** `seq_matmulz`: entry by entry over the destination slice. */
  method SeqMatmulz(a: seq<real>, b: seq<real>, dest: array<real>, lo: nat, ghost m: nat)
    requires |a| == |b| == Pow4(m) && m <= 15 && lo + |a| <= dest.Length
    modifies dest
    ensures dest[..] == Patch(old(dest[..]), lo, Product(a, b, m))
  {
    ghost var was := dest[..];
    ghost var p := Product(a, b, m);
    var ij := 0;
    assert was == Patch(was, lo, p[..0]);
    while ij < |a|
      invariant ij <= |a|
      invariant dest[..] == Patch(was, lo, p[..ij])
    {
      var sum := Entry(a, b, ij, m, p);
      PatchStep(was, lo, p[..ij], sum);
      dest[lo + ij] := sum;
      assert p[..ij] + [sum] == p[..ij + 1];
      ij := ij + 1;
    }
    assert p[..ij] == p;
  }

  // ---------- matmulz ----------

  lemma PlusConcat(d: seq<real>, e: seq<real>, t: seq<real>, u: seq<real>)
    requires |d| == |t| && |e| == |u|
    ensures Plus(d + e, t + u) == Plus(d, t) + Plus(e, u)
  {
  }

  /** The four quarters of the product, put together. */
  lemma PutTogether(whole: seq<real>, n: nat,
                    d1: seq<real>, d2: seq<real>, d3: seq<real>, d4: seq<real>,
                    t1: seq<real>, t2: seq<real>, t3: seq<real>, t4: seq<real>)
    requires |whole| == 4 * n && |d1| == |d2| == |d3| == |d4| == |t1| == |t2| == |t3| == |t4| == n
    requires Quarter(whole, 0, 0, n) == Plus(d1, t1) && Quarter(whole, 0, 1, n) == Plus(d2, t2)
    requires Quarter(whole, 1, 0, n) == Plus(d3, t3) && Quarter(whole, 1, 1, n) == Plus(d4, t4)
    ensures Plus(d1 + d2 + d3 + d4, t1 + t2 + t3 + t4) == whole
  {
    FourQuarters(whole, n);
    PlusConcat(d1, d2, t1, t2);
    PlusConcat(d1 + d2, d3, t1 + t2, t3);
    PlusConcat(d1 + d2 + d3, d4, t1 + t2 + t3, t4);
  }

  lemma FourPatches(was: seq<real>, lo: nat, p: seq<real>, q: seq<real>, r: seq<real>, s: seq<real>, n: nat)
    requires |p| == |q| == |r| == |s| == n && lo + 4 * n <= |was|
    ensures Patch(Patch(Patch(Patch(was, lo, p), lo + n, q), lo + 2 * n, r), lo + 3 * n, s) ==
            Patch(was, lo, p + q + r + s)
  {
    PatchTwice(was, lo, p, q);
    PatchTwice(was, lo, p + q, r);
    PatchTwice(was, lo, p + q + r, s);
  }

  lemma SumIsPlus(s: seq<real>, x: seq<real>, y: seq<real>)
    requires IsSum(s, x, y)
    ensures s == Plus(x, y)
  {
  }

  /** Any matrix of more than one entry, above the chunk size, has quarters. */
  lemma HasQuarters(n: nat, m: nat)
    requires n == Pow4(m) && n > 1
    ensures m > 0 && n == 4 * Pow4(m - 1) && n / 2 / 2 == Pow4(m - 1)
  {
  }

  lemma ChunkIsSmall(n: nat, m: nat)
    requires n == Pow4(m) && n <= MULT_CHUNK
    ensures m <= 15
  {
    if m > 15 {
      SourceMasks();
      Pow4Monotone(16, m);
    }
  }

  lemma MatmulzBlocks(a: seq<real>, b: seq<real>, m: nat, whole: seq<real>,
                      a1: seq<real>, a2: seq<real>, a3: seq<real>, a4: seq<real>,
                      b1: seq<real>, b2: seq<real>, b3: seq<real>, b4: seq<real>)
    requires |a| == |b| == 4 * Pow4(m) && whole == Product(a, b, m + 1)
    requires a1 == Quarter(a, 0, 0, Pow4(m)) && a2 == Quarter(a, 0, 1, Pow4(m))
    requires a3 == Quarter(a, 1, 0, Pow4(m)) && a4 == Quarter(a, 1, 1, Pow4(m))
    requires b1 == Quarter(b, 0, 0, Pow4(m)) && b2 == Quarter(b, 0, 1, Pow4(m))
    requires b3 == Quarter(b, 1, 0, Pow4(m)) && b4 == Quarter(b, 1, 1, Pow4(m))
    ensures IsSum(Quarter(whole, 0, 0, Pow4(m)), Product(a1, b1, m), Product(a2, b3, m))
    ensures IsSum(Quarter(whole, 0, 1, Pow4(m)), Product(a1, b2, m), Product(a2, b4, m))
    ensures IsSum(Quarter(whole, 1, 0, Pow4(m)), Product(a3, b1, m), Product(a4, b3, m))
    ensures IsSum(Quarter(whole, 1, 1, Pow4(m)), Product(a3, b2, m), Product(a4, b4, m))
  {
    BlockQuarter(a, b, 0, 0, m, whole, Product(a1, b1, m), Product(a2, b3, m));
    BlockQuarter(a, b, 0, 1, m, whole, Product(a1, b2, m), Product(a2, b4, m));
    BlockQuarter(a, b, 1, 0, m, whole, Product(a3, b1, m), Product(a4, b3, m));
    BlockQuarter(a, b, 1, 1, m, whole, Product(a3, b2, m), Product(a4, b4, m));
  }

  /** `quarter_chunks` */
  method QuarterChunks(v: seq<real>, ghost n: nat) returns (a: seq<real>, b: seq<real>, c: seq<real>, d: seq<real>)
    requires |v| == 4 * n
    ensures a == Quarter(v, 0, 0, n) && b == Quarter(v, 0, 1, n) && c == Quarter(v, 1, 0, n) && d == Quarter(v, 1, 1, n)
  {
    var mid := |v| / 2;
    var quarter := mid / 2;
    var left, right := v[..mid], v[mid..];
    a, b := left[..quarter], left[quarter..];
    c, d := right[..quarter], right[quarter..];
  }

  /** The four products of two matrices with two others. */
  function Products(x: seq<real>, y: seq<real>, u: seq<real>, v: seq<real>, m: nat): (p: seq<real>)
    ensures |p| == 4 * Pow4(m)
  {
    Product(x, u, m) + Product(x, v, m) + Product(y, u, m) + Product(y, v, m)
  }

  /** Four products into the four quarters of a slice. */
  method FourProducts(x: seq<real>, y: seq<real>, u: seq<real>, v: seq<real>, dest: array<real>, lo: nat,
        ghost m: nat, ghost all: seq<real>)
    requires |x| == |y| == |u| == |v| == Pow4(m) && lo + 4 * Pow4(m) <= dest.Length && all == Products(x, y, u, v, m)
    modifies dest
    ensures dest[..] == Patch(old(dest[..]), lo, all)
    decreases m, 2
  {
    ghost var upper, lower := Product(x, u, m) + Product(x, v, m), Product(y, u, m) + Product(y, v, m);
    TwoProducts(x, u, v, dest, lo, m, upper);
    TwoProducts(y, u, v, dest, lo + 2 * |x|, m, lower);
    PatchTwice(old(dest[..]), lo, upper, lower);
    assert all == upper + lower;
  }

  method TwoProducts(x: seq<real>, u: seq<real>, v: seq<real>, dest: array<real>, lo: nat, ghost m: nat,
        ghost all: seq<real>)
    requires |x| == |u| == |v| == Pow4(m) && lo + 2 * Pow4(m) <= dest.Length &&
            all == Product(x, u, m) + Product(x, v, m)
    modifies dest
    ensures dest[..] == Patch(old(dest[..]), lo, all)
    decreases m, 1
  {
    Matmulz(x, u, dest, lo, m);
    Matmulz(x, v, dest, lo + |x|, m);
    PatchTwice(old(dest[..]), lo, Product(x, u, m), Product(x, v, m));
  }

  /** `matmulz`: eight products of quarters, then the sum. */
  method Matmulz(a: seq<real>, b: seq<real>, dest: array<real>, lo: nat, ghost m: nat)
    requires |a| == |b| == Pow4(m) && lo + |a| <= dest.Length
    modifies dest
    ensures dest[..] == Patch(old(dest[..]), lo, Product(a, b, m))
    decreases m, 0
  {
    if |a| <= MULT_CHUNK {
      ChunkIsSmall(|a|, m);
      SeqMatmulz(a, b, dest, lo, m);
      return;
    }
    HasQuarters(|a|, m);
    MatmulzByQuarters(a, b, dest, lo, m - 1);
  }

  method MatmulzByQuarters(a: seq<real>, b: seq<real>, dest: array<real>, lo: nat, ghost m: nat)
    requires |a| == |b| == 4 * Pow4(m) && lo + |a| <= dest.Length
    modifies dest
    ensures dest[..] == Patch(old(dest[..]), lo, Product(a, b, m + 1))
    decreases m, 4
  {
    ghost var was, whole := dest[..], Product(a, b, m + 1);
    var tmp := RawBuffer(|a|);
    ghost var d, t := EightProducts(a, b, dest, lo, tmp, m, whole);
    PatchSame(was, lo, d, Plus(d, t));
    RMatSum(tmp[..], dest, lo);
  }

  /** Half of the products go to the destination and half to scratch space; their sum is the result. */
  method EightProducts(a: seq<real>, b: seq<real>, dest: array<real>, lo: nat, tmp: array<real>, ghost m: nat,
        ghost whole: seq<real>)
    returns (ghost d: seq<real>, ghost t: seq<real>)
    requires |a| == |b| == 4 * Pow4(m) && lo + |a| <= dest.Length && tmp.Length == |a| && tmp != dest &&
            whole == Product(a, b, m + 1)
    modifies dest, tmp
    ensures |d| == |t| == |a| && dest[..] == Patch(old(dest[..]), lo, d) && tmp[..] == t && Plus(d, t) == whole
    decreases m, 3
  {
    var a1, a2, a3, a4 := QuarterChunks(a, Pow4(m));
    var b1, b2, b3, b4 := QuarterChunks(b, Pow4(m));
    d := Products(a1, a3, b1, b2, m);
    t := Products(a2, a4, b3, b4, m);
    FourProducts(a1, a3, b1, b2, dest, lo, m, d);
    FourProducts(a2, a4, b3, b4, tmp, 0, m, t);
    PatchAll(old(tmp[..]), t);
    ProductByQuarters(a, b, m, whole, a1, a2, a3, a4, b1, b2, b3, b4, d, t);
  }

  lemma PatchAll(was: seq<real>, p: seq<real>)
    requires |p| == |was|
    ensures Patch(was, 0, p) == p
  {
  }

  lemma ProductByQuarters(a: seq<real>, b: seq<real>, m: nat, whole: seq<real>,
                          a1: seq<real>, a2: seq<real>, a3: seq<real>, a4: seq<real>,
                          b1: seq<real>, b2: seq<real>, b3: seq<real>, b4: seq<real>, d: seq<real>, t: seq<real>)
    requires |a| == |b| == 4 * Pow4(m) && whole == Product(a, b, m + 1)
    requires a1 == Quarter(a, 0, 0, Pow4(m)) && a2 == Quarter(a, 0, 1, Pow4(m))
    requires a3 == Quarter(a, 1, 0, Pow4(m)) && a4 == Quarter(a, 1, 1, Pow4(m))
    requires b1 == Quarter(b, 0, 0, Pow4(m)) && b2 == Quarter(b, 0, 1, Pow4(m))
    requires b3 == Quarter(b, 1, 0, Pow4(m)) && b4 == Quarter(b, 1, 1, Pow4(m))
    requires d == Products(a1, a3, b1, b2, m) && t == Products(a2, a4, b3, b4, m)
    ensures |d| == |t| && Plus(d, t) == whole
  {
    MatmulzBlocks(a, b, m, whole, a1, a2, a3, a4, b1, b2, b3, b4);
    SumIsPlus(Quarter(whole, 0, 0, Pow4(m)), Product(a1, b1, m), Product(a2, b3, m));
    SumIsPlus(Quarter(whole, 0, 1, Pow4(m)), Product(a1, b2, m), Product(a2, b4, m));
    SumIsPlus(Quarter(whole, 1, 0, Pow4(m)), Product(a3, b1, m), Product(a4, b3, m));
    SumIsPlus(Quarter(whole, 1, 1, Pow4(m)), Product(a3, b2, m), Product(a4, b4, m));
    PutTogether(whole, Pow4(m), Product(a1, b1, m), Product(a1, b2, m), Product(a3, b1, m), Product(a3, b2, m),
                Product(a2, b3, m), Product(a2, b4, m), Product(a4, b3, m), Product(a4, b4, m));
  }
}
