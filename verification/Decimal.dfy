/** The decimal lengths in a record header: `append_decimal` and `parse_decimal`. */
module Decimal {
  import opened Basics
  import opened Bytes

  /** The shortest decimal numeral of `n`, most significant digit first. */
  function Dec(n: nat): (r: bytes)
    ensures r != [] && AllDigits(r)
  {
    if n < 10 then [48 + n] else Dec(n / 10) + [48 + n % 10]
  }

  predicate IsDigit(b: byte) {
    48 <= b <= 57
  }

  predicate AllDigits(s: bytes) {
    forall i :: 0 <= i < |s| ==> IsDigit(s[i])
  }

  function Value(s: bytes): nat
    requires AllDigits(s)
  {
    if s == [] then 0 else Value(s[..|s| - 1]) * 10 + (s[|s| - 1] - 48)
  }

  /** What a numeral denotes as a `usize`: nothing if it is empty, has a non-digit or is too large. */
  function ParseDec(s: bytes): Option<nat> {
    if s != [] && AllDigits(s) && Value(s) <= USIZE_MAX then Some(Value(s)) else None
  }

  lemma {:induction false} ValueOfDec(n: nat)
    ensures Value(Dec(n)) == n
  {
    if n >= 10 {
      ValueOfDec(n / 10);
      assert Dec(n)[..|Dec(n)| - 1] == Dec(n / 10);
    } else {
      assert Dec(n)[..0] == [];
    }
  }

  /** `parse_decimal` inverts `append_decimal` on every `usize`. */
  lemma RoundTrip(n: nat)
    requires n <= USIZE_MAX
    ensures ParseDec(Dec(n)) == Some(n)
  {
    ValueOfDec(n);
  }

  function Pow10(k: nat): (r: nat)
    ensures r >= 1
  {
    if k == 0 then 1 else 10 * Pow10(k - 1)
  }

  /** A numeral has at most `k` digits exactly when its number is below `10^k`. */
  lemma {:induction false} DecLength(n: nat, k: nat)
    requires k >= 1
    ensures |Dec(n)| <= k <==> n < Pow10(k)
  {
    if k == 1 {
      assert Pow10(1) == 10 * Pow10(0);
    } else if n < 10 {
      assert Pow10(k) == 10 * Pow10(k - 1);
    } else {
      DecLength(n / 10, k - 1);
    }
  }

  lemma Pow10Twenty()
    ensures USIZE_MAX < Pow10(20)
  {
    assert Pow10(5) == 100000;
    assert Pow10(10) == 100000 * Pow10(5);
    assert Pow10(15) == 100000 * Pow10(10);
    assert Pow10(20) == 100000 * Pow10(15);
  }

  /** Twenty digits hold every `usize`. */
  lemma TwentyDigits(n: nat)
    requires n <= USIZE_MAX
    ensures 1 <= |Dec(n)| <= 20
  {
    Pow10Twenty();
    DecLength(n, 20);
  }

  function Reversed(s: bytes): (r: bytes)
    ensures |r| == |s|
  {
    if s == [] then [] else Reversed(s[1..]) + [s[0]]
  }

  lemma {:induction false} ReversedAppend(s: bytes, x: byte)
    ensures Reversed(s + [x]) == [x] + Reversed(s)
  {
    if s == [] {
      assert Reversed([x][1..]) == [];
    } else {
      ReversedAppend(s[1..], x);
      assert (s + [x])[1..] == s[1..] + [x];
    }
  }

  /** The digits that are still to come when `v` is left of the number. */
  function Rest(v: nat): (r: bytes)
    ensures v > 0 ==> r != []
  {
    if v > 0 then Dec(v) else []
  }

  lemma RestStep(v: nat)
    requires v > 0
    ensures Rest(v) == Rest(v / 10) + [48 + v % 10]
  {
  }

  lemma CollectStep(v: nat, done: bytes, all: bytes, digit: byte)
    requires v > 0 && Rest(v) + Reversed(done) == all && digit == 48 + v % 10
    ensures Rest(v / 10) + Reversed(done + [digit]) == all
  {
    ReversedAppend(done, digit);
    RestStep(v);
    Regroup(Rest(v / 10), digit, Reversed(done));
  }

  lemma Regroup(x: bytes, d: byte, y: bytes)
    ensures x + [d] + y == x + ([d] + y)
  {
  }

  /** The first loop of `append_decimal`: digits collected least significant first. That the
      array accesses are in range shows that 20 slots suffice for every `usize`. */
  method CollectDigits(value: nat, digits: array<byte>) returns (len: nat)
    requires value <= USIZE_MAX && digits.Length == 20
    modifies digits
    ensures len <= 20 && Reversed(digits[..len]) == Rest(value)
  {
    ghost var all := Rest(value);
    if value > 0 {
      TwentyDigits(value);
    }
    len := 0;
    var v: nat := value;
    ghost var done: bytes := [];
    assert all + [] == all;
    while v > 0
      invariant |done| == len <= 20 && |Rest(v)| + len == |all| <= 20
      invariant digits[..len] == done && Rest(v) + Reversed(done) == all
    {
      var digit: byte := 48 + v % 10;
      CollectStep(v, done, all, digit);
      digits[len] := digit;
      done := done + [digit];
      v := v / 10;
      len := len + 1;
      assert |Rest(v) + Reversed(done)| == |Rest(v)| + |done|;
    }
  }

  /** `append_decimal`: the collected digits are then copied out backwards. */
  method AppendDecimal(target: bytes, value: nat) returns (r: bytes)
    requires value <= USIZE_MAX
    ensures r == target + Dec(value)
  {
    var digits := new byte[20](_ => 0);
    if value == 0 {
      return target + [48];
    }
    var len: nat := CollectDigits(value, digits);
    r := target;
    while len > 0
      invariant len <= 20
      invariant r + Reversed(digits[..len]) == target + Dec(value)
    {
      len := len - 1;
      assert digits[..len + 1] == digits[..len] + [digits[len]];
      ReversedAppend(digits[..len], digits[len]);
      r := r + [digits[len]];
    }
  }

  lemma {:induction false} PrefixValue(s: bytes, i: nat)
    requires AllDigits(s) && i <= |s|
    ensures Value(s[..i]) <= Value(s)
  {
    if i == |s| {
      assert s[..i] == s;
    } else {
      PrefixValue(s[..|s| - 1], i);
      assert s[..|s| - 1][..i] == s[..i];
    }
  }

  /** `parse_decimal`: `checked_mul` and `checked_add` at every digit amount to one range check on
      the whole number. */
  method ParseDecimal(s: bytes) returns (r: Option<nat>)
    ensures r == ParseDec(s)
  {
    if s == [] {
      return None;
    }
    var value := 0;
    for i := 0 to |s|
      invariant AllDigits(s[..i]) && value == Value(s[..i]) && value <= USIZE_MAX
    {
      assert s[..i + 1] == s[..i] + [s[i]];
      if !IsDigit(s[i]) {
        assert !AllDigits(s);
        return None;
      }
      assert s[..i + 1][..i] == s[..i];
      assert Value(s[..i + 1]) == value * 10 + (s[i] - 48);
      if value * 10 > USIZE_MAX || value * 10 + (s[i] - 48) > USIZE_MAX {
        if AllDigits(s) {
          PrefixValue(s, i + 1);
        }
        return None;
      }
      value := value * 10 + (s[i] - 48);
    }
    assert s[..|s|] == s;
    r := Some(value);
  }
}
