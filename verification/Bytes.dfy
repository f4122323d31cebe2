/** Byte strings, the 64-bit `usize` arithmetic of the source, and the slice searches of the Rust
    standard library that the memory log relies on. */
module Bytes {
  import opened Basics

  type byte = b: int | 0 <= b < 256

  type bytes = seq<byte>

  const USIZE_MAX: nat := 0xFFFF_FFFF_FFFF_FFFF

  /** No Rust slice is longer than `isize::MAX`. */
  const ISIZE_MAX: nat := 0x7FFF_FFFF_FFFF_FFFF

  const NEWLINE: byte := 10

  /** `usize::saturating_add`. */
  function SatAdd(a: nat, b: nat): nat {
    if a + b > USIZE_MAX then USIZE_MAX else a + b
  }

  /** `iter().position(|b| b == x)`. */
  function FindByte(s: bytes, x: byte): (r: Option<nat>)
    ensures r.Some? ==> r.value < |s|
  {
    if s == [] then None
    else if s[0] == x then Some(0)
    else
      match FindByte(s[1..], x)
      case None => None
      case Some(i) => Some(i + 1)
  }

  /** It finds the first index holding `x`, if there is one. */
  lemma {:induction false} FindByteIsFirst(s: bytes, x: byte)
    ensures FindByte(s, x).None? <==> x !in s
    ensures FindByte(s, x).Some? ==> s[FindByte(s, x).value] == x && x !in s[..FindByte(s, x).value]
  {
    if s != [] && s[0] != x {
      FindByteIsFirst(s[1..], x);
      var r := FindByte(s[1..], x);
      if r.Some? {
        assert s[..r.value + 1] == [s[0]] + s[1..][..r.value];
      }
    }
  }

  predicate OccursAt(s: bytes, needle: bytes, i: nat) {
    i + |needle| <= |s| && s[i..i + |needle|] == needle
  }

  /** `find_subslice`: `windows(n).position(|w| w == needle)`. */
  function FindSub(s: bytes, needle: bytes): (r: Option<nat>)
    ensures r.Some? ==> r.value + |needle| <= |s|
  {
    if needle == [] || |needle| > |s| then None else FindSubFrom(s, needle, 0)
  }

  function FindSubFrom(s: bytes, needle: bytes, i: nat): (r: Option<nat>)
    ensures r.Some? ==> r.value + |needle| <= |s|
    decreases |s| - i
  {
    if i + |needle| > |s| || i >= |s| then None
    else if s[i..i + |needle|] == needle then Some(i)
    else FindSubFrom(s, needle, i + 1)
  }

  ghost predicate FirstOccurrence(s: bytes, needle: bytes, i: nat) {
    OccursAt(s, needle, i) && forall j: nat :: j < i ==> !OccursAt(s, needle, j)
  }

  lemma {:induction false} FindSubFromIsFirst(s: bytes, needle: bytes, i: nat)
    requires needle != [] && forall j: nat :: j < i ==> !OccursAt(s, needle, j)
    ensures FindSubFrom(s, needle, i).Some? ==> FirstOccurrence(s, needle, FindSubFrom(s, needle, i).value)
    ensures FindSubFrom(s, needle, i).None? ==> forall j: nat :: !OccursAt(s, needle, j)
    decreases |s| - i
  {
    if i + |needle| <= |s| && s[i..i + |needle|] != needle {
      FindSubFromIsFirst(s, needle, i + 1);
    }
  }

  /** It finds the first occurrence of a nonempty needle, if there is one. */
  lemma FindSubIsFirst(s: bytes, needle: bytes)
    requires needle != []
    ensures FindSub(s, needle).Some? ==> FirstOccurrence(s, needle, FindSub(s, needle).value)
    ensures FindSub(s, needle).None? ==> forall j: nat :: !OccursAt(s, needle, j)
  {
    FindSubFromIsFirst(s, needle, 0);
  }

  lemma FindSubIs(s: bytes, needle: bytes, i: nat)
    requires needle != [] && FirstOccurrence(s, needle, i)
    ensures FindSub(s, needle) == Some(i)
  {
    FindSubIsFirst(s, needle);
    var r := FindSub(s, needle);
    assert r.Some? && !(r.value < i) && !(i < r.value);
  }

  lemma FindByteIs(s: bytes, x: byte, i: nat)
    requires i < |s| && s[i] == x && x !in s[..i]
    ensures FindByte(s, x) == Some(i)
  {
    FindByteIsFirst(s, x);
    var r := FindByte(s, x);
    assert forall j :: 0 <= j < i ==> s[..i][j] == s[j];
    assert r.Some? ==> forall j :: 0 <= j < r.value ==> s[..r.value][j] == s[j];
  }

  predicate IsSpace(b: byte) {
    b == 32 || b == 9 || b == 13 || b == 10
  }

  function TrimLeft(s: bytes): (r: bytes)
    ensures r != [] ==> !IsSpace(r[0])
  {
    if s != [] && IsSpace(s[0]) then TrimLeft(s[1..]) else s
  }

  function TrimRight(s: bytes): (r: bytes)
    ensures r <= s
    ensures r != [] ==> !IsSpace(r[|r| - 1])
  {
    if s != [] && IsSpace(s[|s| - 1]) then TrimRight(s[..|s| - 1]) else s
  }

  /** The longest middle part of `s` that neither starts nor ends with white space. */
  function Trim(s: bytes): (r: bytes)
    ensures r != [] ==> !IsSpace(r[0]) && !IsSpace(r[|r| - 1])
  {
    TrimRight(TrimLeft(s))
  }

  predicate AllSpace(s: bytes) {
    forall i :: 0 <= i < |s| ==> IsSpace(s[i])
  }

  /** Trimming removes white space only: `s` is the trimmed part between two runs of it. */
  lemma TrimSplits(s: bytes) returns (left: bytes, right: bytes)
    ensures s == left + Trim(s) + right && AllSpace(left) && AllSpace(right)
  {
    left := TrimLeftSplits(s);
    right := TrimRightSplits(TrimLeft(s));
    assert s == left + (Trim(s) + right);
  }

  lemma {:induction false} TrimLeftSplits(s: bytes) returns (left: bytes)
    ensures s == left + TrimLeft(s) && AllSpace(left)
  {
    if s != [] && IsSpace(s[0]) {
      var rest := TrimLeftSplits(s[1..]);
      left := [s[0]] + rest;
      assert s == [s[0]] + s[1..];
    } else {
      left := [];
    }
  }

  lemma {:induction false} TrimRightSplits(s: bytes) returns (right: bytes)
    ensures s == TrimRight(s) + right && AllSpace(right)
  {
    if s != [] && IsSpace(s[|s| - 1]) {
      var rest := TrimRightSplits(s[..|s| - 1]);
      right := rest + [s[|s| - 1]];
      assert s == s[..|s| - 1] + [s[|s| - 1]];
    } else {
      right := [];
    }
  }

  lemma TrimFixed(s: bytes)
    requires s != [] ==> !IsSpace(s[0]) && !IsSpace(s[|s| - 1])
    ensures Trim(s) == s
  {
  }

  /** `trim_ascii`: two loops that shorten the slice from either end. */
  method TrimAscii(s: bytes) returns (r: bytes)
    ensures r == Trim(s)
  {
    r := s;
    while r != [] && IsSpace(r[0])
      invariant TrimLeft(r) == TrimLeft(s)
      decreases |r|
    {
      r := r[1..];
    }
    while r != [] && IsSpace(r[|r| - 1])
      invariant TrimRight(r) == Trim(s)
      decreases |r|
    {
      r := r[..|r| - 1];
    }
  }
}
