/** Square matrices with sides a power of two, stored in Z order, and their product. */
module Matrices {
  import opened BitOps
  import opened ZOrder

  function At(a: seq<real>, i: nat): real {
    if i < |a| then a[i] else 0.0
  }

  /** The products `a[r, k] * b[k, c]` for `n` values of `k` starting at `lo`. */
  function Terms(a: seq<real>, b: seq<real>, r: nat, c: nat, lo: nat, n: nat): (t: seq<real>)
    ensures |t| == n
  {
    seq(n, k requires 0 <= k => At(a, Z(r, lo + k)) * At(b, Z(lo + k, c)))
  }

  function Sum(s: seq<real>): real {
    if s == [] then 0.0 else Sum(s[..|s| - 1]) + s[|s| - 1]
  }

  /** The first `n` entries of the product of two matrices of side `2^m`: entry `[r, c]` is the sum
      of `a[r, k] * b[k, c]` over a whole side. */
  function Entries(a: seq<real>, b: seq<real>, m: nat, n: nat): (p: seq<real>)
    ensures |p| == n
  {
    if n == 0 then []
    else Entries(a, b, m, n - 1) + [Sum(Terms(a, b, Row(n - 1), Col(n - 1), 0, Pow2(m)))]
  }

  /** The matrix product. */
  function Product(a: seq<real>, b: seq<real>, m: nat): (p: seq<real>)
    ensures |p| == Pow4(m)
  {
    Entries(a, b, m, Pow4(m))
  }

  lemma {:induction false} EntriesAt(a: seq<real>, b: seq<real>, m: nat, n: nat, ij: nat)
    requires ij < n
    ensures Entries(a, b, m, n)[ij] == Sum(Terms(a, b, Row(ij), Col(ij), 0, Pow2(m)))
    decreases n
  {
    if ij < n - 1 {
      EntriesAt(a, b, m, n - 1, ij);
    }
  }

  lemma ProductAt(a: seq<real>, b: seq<real>, m: nat, ij: nat)
    requires ij < Pow4(m)
    ensures Product(a, b, m)[ij] == Sum(Terms(a, b, Row(ij), Col(ij), 0, Pow2(m)))
  {
    EntriesAt(a, b, m, Pow4(m), ij);
  }

  function Plus(x: seq<real>, y: seq<real>): (s: seq<real>)
    requires |x| == |y|
    ensures |s| == |x|
  {
    seq(|x|, i requires 0 <= i < |x| => x[i] + y[i])
  }

  function Minus(x: seq<real>, y: seq<real>): (s: seq<real>)
    requires |x| == |y|
    ensures |s| == |x|
  {
    seq(|x|, i requires 0 <= i < |x| => x[i] - y[i])
  }

  /** The start of half `p` of something whose halves have `n` entries. */
  function Half(p: nat, n: nat): nat {
    if p == 0 then 0 else n
  }

  /** Quarter `2 * p + q` of a sequence of `4 * n` entries: half `q` of half `p`. */
  function Quarter(a: seq<real>, p: nat, q: nat, n: nat): (s: seq<real>)
    requires |a| == 4 * n
    ensures |s| == n
  {
    a[Half(p, 2 * n) + Half(q, n)..][..n]
  }

  // ---------- where a quarter lies ----------

  lemma {:induction false} SpreadHigh(h: nat, r: nat, m: nat, k: nat)
    requires h < 2 && r < Pow2(m) && k == Half(h, Pow2(m)) + r
    ensures Spread(k) == Half(h, Pow4(m)) + Spread(r)
    decreases m
  {
    if m == 0 {
      assert Spread(0) == 0 && Spread(1) == 1;
    } else {
      var top, b := LastBit(r);
      var rest := Half(h, Pow2(m - 1)) + top;
      SpreadHigh(h, top, m - 1, rest);
      SpreadAt(r, top, b);
      SpreadAt(k, rest, b);
    }
  }

  /** Quarter `2 * p + q` holds the rows of half `p` and the columns of half `q`. */
  lemma ZHigh(p: nat, q: nat, r: nat, c: nat, m: nat)
    requires p < 2 && q < 2 && r < Pow2(m) && c < Pow2(m)
    ensures Z(Half(p, Pow2(m)) + r, Half(q, Pow2(m)) + c) == Half(p, 2 * Pow4(m)) + Half(q, Pow4(m)) + Z(r, c)
  {
    SpreadHigh(p, r, m, Half(p, Pow2(m)) + r);
    SpreadHigh(q, c, m, Half(q, Pow2(m)) + c);
  }

  lemma AtQuarter(a: seq<real>, p: nat, q: nat, r: nat, c: nat, m: nat)
    requires |a| == 4 * Pow4(m) && p < 2 && q < 2 && r < Pow2(m) && c < Pow2(m)
    ensures At(a, Z(Half(p, Pow2(m)) + r, Half(q, Pow2(m)) + c)) == At(Quarter(a, p, q, Pow4(m)), Z(r, c))
  {
    ZHigh(p, q, r, c, m);
    ZBound(r, c, m);
  }

  lemma RowColIs(z: nat, r: nat, c: nat)
    requires Z(r, c) == z
    ensures Row(z) == r && Col(z) == c
  {
    RowColOfZ(r, c);
  }

  lemma ZIsHigh(p: nat, q: nat, u: nat, v: nat, m: nat, ij: nat, r: nat, c: nat)
    requires p < 2 && q < 2 && u < Pow2(m) && v < Pow2(m) && r == Half(p, Pow2(m)) + u && c == Half(q, Pow2(m)) + v
    requires ij == Half(p, 2 * Pow4(m)) + Half(q, Pow4(m)) + Z(u, v)
    ensures Row(ij) == r && Col(ij) == c
  {
    ZHigh(p, q, u, v, m);
    RowColIs(ij, r, c);
  }

  lemma RowColHigh(p: nat, q: nat, i: nat, m: nat, ij: nat, u: nat, v: nat)
    requires p < 2 && q < 2 && i < Pow4(m) && ij == Half(p, 2 * Pow4(m)) + Half(q, Pow4(m)) + i
    requires u == Row(i) && v == Col(i)
    ensures u < Pow2(m) && v < Pow2(m) && Row(ij) == Half(p, Pow2(m)) + u && Col(ij) == Half(q, Pow2(m)) + v
  {
    RowColBound(i, m);
    ZOfRowCol(i);
    ZIsHigh(p, q, u, v, m, ij, Half(p, Pow2(m)) + u, Half(q, Pow2(m)) + v);
  }

  // ---------- splitting the sum over a side ----------

  lemma {:induction false} SumConcat(s: seq<real>, t: seq<real>)
    ensures Sum(s + t) == Sum(s) + Sum(t)
  {
    if t == [] {
      assert s + t == s;
    } else {
      SumConcat(s, t[..|t| - 1]);
      assert (s + t)[..|s + t| - 1] == s + t[..|t| - 1];
    }
  }

  /** Half `k` of the terms for an entry of quarter `2 * p + q` are the terms for an entry of the
      product of a quarter of `a` and a quarter of `b`. */
  lemma TermsOfQuarters(a: seq<real>, b: seq<real>, p: nat, q: nat, k: nat, u: nat, v: nat, m: nat, r: nat, c: nat,
        lo: nat,
                        x: seq<real>, y: seq<real>)
    requires |a| == |b| == 4 * Pow4(m) && p < 2 && q < 2 && k < 2 && u < Pow2(m) && v < Pow2(m)
    requires r == Half(p, Pow2(m)) + u && c == Half(q, Pow2(m)) + v && lo == Half(k, Pow2(m))
    requires x == Quarter(a, p, k, Pow4(m)) && y == Quarter(b, k, q, Pow4(m))
    ensures Terms(a, b, r, c, lo, Pow2(m)) == Terms(x, y, u, v, 0, Pow2(m))
  {
    forall j: nat | j < Pow2(m)
      ensures SameTerm(a, b, r, c, lo, x, y, u, v, j)
    {
      AtQuarter(a, p, k, u, j, m);
      AtQuarter(b, k, q, j, v, m);
    }
    TermsSame(a, b, r, c, lo, x, y, u, v, Pow2(m));
  }

  /** Term `lo + j` of one sum has the factors of term `j` of another. */
  predicate SameTerm(a: seq<real>, b: seq<real>, r: nat, c: nat, lo: nat, x: seq<real>, y: seq<real>, u: nat,
        v: nat, j: nat) {
    At(a, Z(r, lo + j)) == At(x, Z(u, j)) && At(b, Z(lo + j, c)) == At(y, Z(j, v))
  }

  lemma TermsSame(a: seq<real>, b: seq<real>, r: nat, c: nat, lo: nat, x: seq<real>, y: seq<real>, u: nat, v: nat,
        n: nat)
    requires forall j: nat :: j < n ==> SameTerm(a, b, r, c, lo, x, y, u, v, j)
    ensures Terms(a, b, r, c, lo, n) == Terms(x, y, u, v, 0, n)
  {
    var s, t := Terms(a, b, r, c, lo, n), Terms(x, y, u, v, 0, n);
    forall j: nat | j < n
      ensures s[j] == t[j]
    {
      assert SameTerm(a, b, r, c, lo, x, y, u, v, j);
      var first, second := At(x, Z(u, j)), At(y, Z(j, v));
      TermIs(a, b, r, c, lo, n, j, first, second);
      TermIs(x, y, u, v, 0, n, j, first, second);
    }
  }

  lemma TermIs(a: seq<real>, b: seq<real>, r: nat, c: nat, lo: nat, n: nat, j: nat, x: real, y: real)
    requires j < n && x == At(a, Z(r, lo + j)) && y == At(b, Z(lo + j, c))
    ensures Terms(a, b, r, c, lo, n)[j] == x * y
  {
  }

  lemma TermsHalves(a: seq<real>, b: seq<real>, r: nat, c: nat, n: nat)
    ensures Terms(a, b, r, c, 0, n + n) == Terms(a, b, r, c, 0, n) + Terms(a, b, r, c, n, n)
  {
    var whole, first, second := Terms(a, b, r, c, 0, n + n), Terms(a, b, r, c, 0, n), Terms(a, b, r, c, n, n);
    forall k: nat | k < n + n
      ensures whole[k] == (first + second)[k]
    {
      var x, y := At(a, Z(r, k)), At(b, Z(k, c));
      TermIs(a, b, r, c, 0, n + n, k, x, y);
      if k < n {
        TermIs(a, b, r, c, 0, n, k, x, y);
      } else {
        TermIs(a, b, r, c, n, n, k - n, x, y);
      }
    }
  }

  /** The sum over a whole side is the sum over its two halves. */
  lemma SumHalves(a: seq<real>, b: seq<real>, r: nat, c: nat, n: nat, first: seq<real>, second: seq<real>)
    requires first == Terms(a, b, r, c, 0, n) && second == Terms(a, b, r, c, n, n)
    ensures Sum(Terms(a, b, r, c, 0, n + n)) == Sum(first) + Sum(second)
  {
    TermsHalves(a, b, r, c, n);
    SumConcat(first, second);
  }

  /** One entry of the product, by quarters. */
  lemma BlockEntry(a: seq<real>, b: seq<real>, p: nat, q: nat, u: nat, v: nat, m: nat, r: nat, c: nat, n: nat,
                   a0: seq<real>, b0: seq<real>, a1: seq<real>, b1: seq<real>)
    requires |a| == |b| == 4 * Pow4(m) && p < 2 && q < 2 && u < n && v < n && n == Pow2(m)
    requires r == Half(p, n) + u && c == Half(q, n) + v
    requires a0 == Quarter(a, p, 0, Pow4(m)) && b0 == Quarter(b, 0, q, Pow4(m))
    requires a1 == Quarter(a, p, 1, Pow4(m)) && b1 == Quarter(b, 1, q, Pow4(m))
    ensures Terms(a, b, r, c, 0, n) == Terms(a0, b0, u, v, 0, n) && Terms(a, b, r, c, n, n) == Terms(a1, b1, u, v, 0, n)
  {
    TermsOfQuarters(a, b, p, q, 0, u, v, m, r, c, 0, a0, b0);
    TermsOfQuarters(a, b, p, q, 1, u, v, m, r, c, n, a1, b1);
  }

  lemma QuarterAt(a: seq<real>, p: nat, q: nat, n: nat, i: nat, ij: nat)
    requires |a| == 4 * n && i < n && ij == Half(p, 2 * n) + Half(q, n) + i
    ensures Quarter(a, p, q, n)[i] == a[ij]
  {
  }

  lemma BlockAt(a: seq<real>, b: seq<real>, p: nat, q: nat, m: nat, i: nat, ij: nat,
                a0: seq<real>, b0: seq<real>, a1: seq<real>, b1: seq<real>, first: seq<real>, second: seq<real>)
    requires |a| == |b| == 4 * Pow4(m) && p < 2 && q < 2 && i < Pow4(m)
    requires ij == Half(p, 2 * Pow4(m)) + Half(q, Pow4(m)) + i
    requires a0 == Quarter(a, p, 0, Pow4(m)) && b0 == Quarter(b, 0, q, Pow4(m))
    requires a1 == Quarter(a, p, 1, Pow4(m)) && b1 == Quarter(b, 1, q, Pow4(m))
    requires first == Terms(a0, b0, Row(i), Col(i), 0, Pow2(m)) && second == Terms(a1, b1, Row(i), Col(i), 0, Pow2(m))
    ensures Sum(Terms(a, b, Row(ij), Col(ij), 0, Pow2(m + 1))) == Sum(first) + Sum(second)
  {
    RowColHigh(p, q, i, m, ij, Row(i), Col(i));
    BlockSum(a, b, p, q, Row(i), Col(i), m, Row(ij), Col(ij), Pow2(m), a0, b0, a1, b1, first, second);
  }

  lemma BlockSum(a: seq<real>, b: seq<real>, p: nat, q: nat, u: nat, v: nat, m: nat, r: nat, c: nat, n: nat,
                 a0: seq<real>, b0: seq<real>, a1: seq<real>, b1: seq<real>, first: seq<real>, second: seq<real>)
    requires |a| == |b| == 4 * Pow4(m) && p < 2 && q < 2 && u < n && v < n && n == Pow2(m)
    requires r == Half(p, n) + u && c == Half(q, n) + v
    requires a0 == Quarter(a, p, 0, Pow4(m)) && b0 == Quarter(b, 0, q, Pow4(m))
    requires a1 == Quarter(a, p, 1, Pow4(m)) && b1 == Quarter(b, 1, q, Pow4(m))
    requires first == Terms(a0, b0, u, v, 0, n) && second == Terms(a1, b1, u, v, 0, n)
    ensures Sum(Terms(a, b, r, c, 0, Pow2(m + 1))) == Sum(first) + Sum(second)
  {
    BlockEntry(a, b, p, q, u, v, m, r, c, n, a0, b0, a1, b1);
    SumHalves(a, b, r, c, n, first, second);
  }

  /** Quarter `2 * p + q` of a product: the product of two quarters plus the product of two others. */
  lemma BlockQuarter(a: seq<real>, b: seq<real>, p: nat, q: nat, m: nat, whole: seq<real>, x: seq<real>, y: seq<real>)
    requires |a| == |b| == 4 * Pow4(m) && p < 2 && q < 2 && whole == Product(a, b, m + 1)
    requires x == Product(Quarter(a, p, 0, Pow4(m)), Quarter(b, 0, q, Pow4(m)), m)
    requires y == Product(Quarter(a, p, 1, Pow4(m)), Quarter(b, 1, q, Pow4(m)), m)
    ensures IsSum(Quarter(whole, p, q, Pow4(m)), x, y)
  {
    var part := Quarter(whole, p, q, Pow4(m));
    forall i: nat | i < Pow4(m)
      ensures part[i] == x[i] + y[i]
    {
      var ij := Half(p, 2 * Pow4(m)) + Half(q, Pow4(m)) + i;
      QuarterAt(whole, p, q, Pow4(m), i, ij);
      ProductAt(a, b, m + 1, ij);
      var a0, b0, a1, b1 := Quarter(a, p, 0, Pow4(m)), Quarter(b, 0, q, Pow4(m)), Quarter(a, p, 1, Pow4(m)),
          Quarter(b, 1, q, Pow4(m));
      var first, second := Terms(a0, b0, Row(i), Col(i), 0, Pow2(m)), Terms(a1, b1, Row(i), Col(i), 0, Pow2(m));
      BlockAt(a, b, p, q, m, i, ij, a0, b0, a1, b1, first, second);
      ProductAt(a0, b0, m, i);
      ProductAt(a1, b1, m, i);
    }
  }

  lemma FourQuarters(a: seq<real>, n: nat)
    requires |a| == 4 * n
    ensures a == Quarter(a, 0, 0, n) + Quarter(a, 0, 1, n) + Quarter(a, 1, 0, n) + Quarter(a, 1, 1, n)
  {
  }

  // ---------- the product is linear on both sides ----------

  predicate IsSum(s: seq<real>, x: seq<real>, y: seq<real>) {
    |s| == |x| == |y| && forall i :: 0 <= i < |s| ==> s[i] == x[i] + y[i]
  }

  lemma PlusIsSum(x: seq<real>, y: seq<real>)
    requires |x| == |y|
    ensures IsSum(Plus(x, y), x, y)
  {
  }

  lemma MinusIsSum(x: seq<real>, y: seq<real>)
    requires |x| == |y|
    ensures IsSum(x, Minus(x, y), y)
  {
  }

  lemma {:induction false} SumOfSums(s: seq<real>, x: seq<real>, y: seq<real>)
    requires IsSum(s, x, y)
    ensures Sum(s) == Sum(x) + Sum(y)
  {
    if s != [] {
      var n := |s| - 1;
      assert IsSum(s[..n], x[..n], y[..n]);
      SumOfSums(s[..n], x[..n], y[..n]);
    }
  }

  lemma Distribute(s: real, x: real, y: real, z: real)
    requires s == x + y
    ensures s * z == x * z + y * z && z * s == z * x + z * y
  {
  }

  lemma TermsSumLeft(s: seq<real>, x: seq<real>, y: seq<real>, b: seq<real>, r: nat, c: nat, n: nat)
    requires IsSum(s, x, y)
    ensures IsSum(Terms(s, b, r, c, 0, n), Terms(x, b, r, c, 0, n), Terms(y, b, r, c, 0, n))
  {
    forall k: nat | k < n
      ensures Terms(s, b, r, c, 0, n)[k] == Terms(x, b, r, c, 0, n)[k] + Terms(y, b, r, c, 0, n)[k]
    {
      var sk, xk, yk, bk := At(s, Z(r, k)), At(x, Z(r, k)), At(y, Z(r, k)), At(b, Z(k, c));
      TermIs(s, b, r, c, 0, n, k, sk, bk);
      TermIs(x, b, r, c, 0, n, k, xk, bk);
      TermIs(y, b, r, c, 0, n, k, yk, bk);
      Distribute(sk, xk, yk, bk);
    }
  }

  lemma TermsSumRight(a: seq<real>, s: seq<real>, x: seq<real>, y: seq<real>, r: nat, c: nat, n: nat)
    requires IsSum(s, x, y)
    ensures IsSum(Terms(a, s, r, c, 0, n), Terms(a, x, r, c, 0, n), Terms(a, y, r, c, 0, n))
  {
    forall k: nat | k < n
      ensures Terms(a, s, r, c, 0, n)[k] == Terms(a, x, r, c, 0, n)[k] + Terms(a, y, r, c, 0, n)[k]
    {
      var sk, xk, yk, ak := At(s, Z(k, c)), At(x, Z(k, c)), At(y, Z(k, c)), At(a, Z(r, k));
      TermIs(a, s, r, c, 0, n, k, ak, sk);
      TermIs(a, x, r, c, 0, n, k, ak, xk);
      TermIs(a, y, r, c, 0, n, k, ak, yk);
      Distribute(sk, xk, yk, ak);
    }
  }

  lemma ProductSumLeft(s: seq<real>, x: seq<real>, y: seq<real>, b: seq<real>, m: nat)
    requires IsSum(s, x, y)
    ensures IsSum(Product(s, b, m), Product(x, b, m), Product(y, b, m))
  {
    forall i: nat | i < Pow4(m)
      ensures Product(s, b, m)[i] == Product(x, b, m)[i] + Product(y, b, m)[i]
    {
      TermsSumLeft(s, x, y, b, Row(i), Col(i), Pow2(m));
      ProductAt(s, b, m, i);
      ProductAt(x, b, m, i);
      ProductAt(y, b, m, i);
      SumOfSums(Terms(s, b, Row(i), Col(i), 0, Pow2(m)), Terms(x, b, Row(i), Col(i), 0, Pow2(m)),
                Terms(y, b, Row(i), Col(i), 0, Pow2(m)));
    }
  }

  lemma ProductSumRight(a: seq<real>, s: seq<real>, x: seq<real>, y: seq<real>, m: nat)
    requires IsSum(s, x, y)
    ensures IsSum(Product(a, s, m), Product(a, x, m), Product(a, y, m))
  {
    forall i: nat | i < Pow4(m)
      ensures Product(a, s, m)[i] == Product(a, x, m)[i] + Product(a, y, m)[i]
    {
      TermsSumRight(a, s, x, y, Row(i), Col(i), Pow2(m));
      ProductAt(a, s, m, i);
      ProductAt(a, x, m, i);
      ProductAt(a, y, m, i);
      SumOfSums(Terms(a, s, Row(i), Col(i), 0, Pow2(m)), Terms(a, x, Row(i), Col(i), 0, Pow2(m)),
                Terms(a, y, Row(i), Col(i), 0, Pow2(m)));
    }
  }
}
