/** `getdents`: directory entries packed one behind the other into the caller's buffer, page by page. */
module Getdents {
  import opened Basics
  import opened Bytes

  const D_RECLEN: nat := 16
  const D_NAME: nat := 19
  const U16_MAX: nat := 65535

  /** The next multiple of 8. */
  function AlignUp(n: nat): (r: nat)
    ensures n <= r < n + 8
  {
    if n == 0 then 0 else if n <= 8 then 8 else 8 + AlignUp(n - 8)
  }

  lemma {:induction false} AlignUpIs(n: nat)
    ensures AlignUp(n) % 8 == 0 && AlignUp(n) == (n + 7) / 8 * 8
  {
    if n > 8 {
      AlignUpIs(n - 8);
    }
  }

  /** The length of an entry: the header, the name, its zero, and padding. */
  function RecLen(name: bytes): nat {
    AlignUp(D_NAME + |name| + 1)
  }

  function Low8(n: nat): byte {
    (n % 256) as byte
  }

  /** `d_ino` 1, `d_off` 0, `d_reclen`, and an unknown `d_type`. */
  function Header(reclen: nat): (h: bytes)
    ensures |h| == D_NAME
  {
    [1, 0, 0, 0, 0, 0, 0, 0] + [0, 0, 0, 0, 0, 0, 0, 0] + [Low8(reclen), Low8(reclen / 256), 0]
  }

  predicate RecordAt(b: bytes, off: nat, name: bytes) {
    && off + RecLen(name) <= |b|
    && b[off..off + D_NAME] == Header(RecLen(name))
    && b[off + D_NAME..off + D_NAME + |name|] == name
    && b[off + D_NAME + |name|] == 0
  }

  function Total(names: seq<bytes>): nat {
    if names == [] then 0 else RecLen(names[0]) + Total(names[1..])
  }

  /** The entries for `names`, from `off` on. */
  predicate Packed(b: bytes, off: nat, names: seq<bytes>)
    decreases |names|
  {
    names == [] || (RecordAt(b, off, names[0]) && Packed(b, off + RecLen(names[0]), names[1..]))
  }

  // ---------- what the caller reads ----------

  function ReadU16(b: bytes, at: nat): nat
    requires at + 2 <= |b|
  {
    b[at] as nat + 256 * b[at + 1] as nat
  }

  /** The bytes up to the first zero. */
  function CString(b: bytes): bytes {
    if b == [] || b[0] == 0 then [] else [b[0]] + CString(b[1..])
  }

  /** Walking the returned bytes by `d_reclen`. */
  function Walk(b: bytes, off: nat, end: nat): seq<bytes>
    requires end <= |b|
    decreases end - off
  {
    if off + D_NAME >= end || ReadU16(b, off + D_RECLEN) == 0 then []
    else [CString(b[off + D_NAME..])] + Walk(b, off + ReadU16(b, off + D_RECLEN), end)
  }

  predicate Name(n: bytes) {
    0 !in n && RecLen(n) <= U16_MAX
  }

  /** Every entry's length fits its 16-bit field; the code stops on one that does not. */
  predicate Listable(names: seq<bytes>) {
    forall i :: 0 <= i < |names| ==> RecLen(names[i]) <= U16_MAX
  }

  predicate Names(names: seq<bytes>) {
    forall i :: 0 <= i < |names| ==> Name(names[i])
  }

  lemma {:induction false} CStringIs(b: bytes, n: nat)
    requires n < |b| && b[n] == 0 && 0 !in b[..n]
    ensures CString(b) == b[..n]
  {
    if n > 0 {
      assert b[0] in b[..n];
      assert b[1..][..n - 1] == b[..n][1..];
      CStringIs(b[1..], n - 1);
      assert b[..n] == [b[0]] + b[1..][..n - 1];
    }
  }

  lemma RecordReads(b: bytes, off: nat, name: bytes)
    requires RecordAt(b, off, name) && Name(name)
    ensures ReadU16(b, off + D_RECLEN) == RecLen(name) && CString(b[off + D_NAME..]) == name
  {
    var h := Header(RecLen(name));
    assert b[off + D_RECLEN] == b[off..off + D_NAME][D_RECLEN] == h[D_RECLEN];
    assert b[off + D_RECLEN + 1] == b[off..off + D_NAME][D_RECLEN + 1] == h[D_RECLEN + 1];
    var rest := b[off + D_NAME..];
    assert rest[..|name|] == name;
    CStringIs(rest, |name|);
  }

  lemma WalkCons(b: bytes, off: nat, name: bytes, end: nat)
    requires RecordAt(b, off, name) && Name(name) && off + RecLen(name) <= end <= |b|
    ensures Walk(b, off, end) == [name] + Walk(b, off + RecLen(name), end)
  {
    RecordReads(b, off, name);
  }

  /** What was packed is what is read. */
  lemma {:induction false} WalkPacked(b: bytes, off: nat, names: seq<bytes>, end: nat)
    requires Packed(b, off, names) && Names(names) && end == off + Total(names) <= |b|
    ensures Walk(b, off, end) == names
    decreases |names|
  {
    if names != [] {
      var name, rest := names[0], names[1..];
      assert Name(name) && Names(rest);
      WalkPacked(b, off + RecLen(name), rest, end);
      WalkCons(b, off, name, end);
    }
  }

  lemma {:induction false} TotalAligned(names: seq<bytes>)
    ensures Total(names) % 8 == 0
  {
    if names != [] {
      TotalAligned(names[1..]);
      AlignUpIs(D_NAME + |names[0]| + 1);
    }
  }

  /** Every entry starts behind the one before it and ends within the bytes returned. */
  lemma {:induction false} PackedInOrder(b: bytes, off: nat, names: seq<bytes>, i: nat)
    requires Packed(b, off, names) && i < |names|
    ensures RecordAt(b, off + Total(names[..i]), names[i])
    ensures Total(names[..i]) + RecLen(names[i]) <= Total(names)
    decreases |names|
  {
    if i > 0 {
      var rest := names[1..];
      PackedInOrder(b, off + RecLen(names[0]), rest, i - 1);
      assert names[..i] == [names[0]] + rest[..i - 1];
      assert names[..i][1..] == rest[..i - 1];
    }
  }

  lemma {:induction false} TotalAppend(names: seq<bytes>, n: bytes)
    ensures Total(names + [n]) == Total(names) + RecLen(n)
  {
    if names != [] {
      assert (names + [n])[1..] == names[1..] + [n];
      TotalAppend(names[1..], n);
    }
  }

  lemma {:induction false} PackedAppend(b: bytes, off: nat, names: seq<bytes>, n: bytes)
    requires Packed(b, off, names) && RecordAt(b, off + Total(names), n)
    ensures Packed(b, off, names + [n])
    decreases |names|
  {
    if names == [] {
      assert names + [n] == [n];
    } else {
      assert (names + [n])[1..] == names[1..] + [n];
      PackedAppend(b, off + RecLen(names[0]), names[1..], n);
    }
  }

  /** Entries do not change when bytes behind them do. */
  lemma {:induction false} PackedSame(b: bytes, c: bytes, off: nat, names: seq<bytes>, end: nat)
    requires Packed(b, off, names) && |b| == |c| && off + Total(names) <= end <= |b| && b[..end] == c[..end]
    ensures Packed(c, off, names)
    decreases |names|
  {
    if names != [] {
      RecordSame(b, c, off, names[0], end);
      PackedSame(b, c, off + RecLen(names[0]), names[1..], end);
    }
  }

  lemma RecordSame(b: bytes, c: bytes, off: nat, n: bytes, end: nat)
    requires RecordAt(b, off, n) && |b| == |c| && off + RecLen(n) <= end <= |b| && b[..end] == c[..end]
    ensures RecordAt(c, off, n)
  {
    assert forall i :: 0 <= i < end ==> b[i] == b[..end][i] && c[i] == c[..end][i];
  }

  // ---------- one page ----------

  /** How many entries fit behind `off` into a buffer of `cap` bytes. */
  function Fitting(names: seq<bytes>, idx: nat, off: nat, cap: nat): (k: nat)
    ensures idx <= |names| ==> idx + k <= |names|
    ensures idx >= |names| ==> k == 0
    decreases |names| - idx
  {
    if idx >= |names| || off + RecLen(names[idx]) > cap then 0
    else 1 + Fitting(names, idx + 1, off + RecLen(names[idx]), cap)
  }

  function Page(names: seq<bytes>, idx: nat, cap: nat): seq<bytes> {
    if idx >= |names| then [] else names[idx..idx + Fitting(names, idx, 0, cap)]
  }

  lemma FittingStep(names: seq<bytes>, idx: nat, off: nat, cap: nat, name: bytes)
    requires idx < |names| && name == names[idx]
    ensures Fitting(names, idx, off, cap) ==
            if off + RecLen(name) > cap then 0 else 1 + Fitting(names, idx + 1, off + RecLen(name), cap)
  {
  }

  /** One name more. */
  lemma PackedGrows(names: seq<bytes>, first: nat, idx: nat, packed: seq<bytes>, name: bytes)
    requires first <= idx < |names| && packed == names[first..idx] && name == names[idx]
    ensures packed + [name] == names[first..idx + 1]
    ensures Listable(packed) && RecLen(name) <= U16_MAX ==> Listable(packed + [name])
  {
  }

  lemma {:induction false} AlignShift(units: nat, n: nat, sum: nat)
    requires n > 0 && sum == 8 * units + n
    ensures AlignUp(sum) == 8 * units + AlignUp(n)
    decreases units
  {
    if units > 0 {
      AlignShift(units - 1, n, sum - 8);
    }
  }

  method WriteRecord(buf: array<byte>, off: nat, name: bytes)
    requires off + RecLen(name) <= buf.Length
    modifies buf
    ensures RecordAt(buf[..], off, name)
    ensures buf[..off] == old(buf[..off]) && buf[off + RecLen(name)..] == old(buf[off + RecLen(name)..])
  {
    var header := Header(RecLen(name));
    forall i | 0 <= i < D_NAME {
      buf[off + i] := header[i];
    }
    forall i | 0 <= i < |name| {
      buf[off + D_NAME + i] := name[i];
    }
    buf[off + D_NAME + |name|] := 0;
    assert buf[off..off + D_NAME] == header;
    assert buf[off + D_NAME..off + D_NAME + |name|] == name;
  }

  /** An open directory: its names in key order, and how many were listed. */
  class MemDirectoryInterface {
    var names: seq<bytes>
    var readIdx: nat

    constructor (names: seq<bytes>)
      ensures this.names == names && readIdx == 0
    {
      this.names, readIdx := names, 0;
    }

    /** `getdents`: as many of the next entries as fit, packed from the start of the buffer. The code
        stops on an entry whose length does not fit its 16-bit field, and that happens exactly when one of
        the entries that fit the buffer is such. */
    method Getdents(buf: array<byte>) returns (ret: Option<nat>)
      modifies this`readIdx, buf
      ensures names == old(names)
      ensures ret.Some? <==> Listable(Page(names, old(readIdx), buf.Length))
      ensures ret.Some? ==>
                && ret.value == Total(Page(names, old(readIdx), buf.Length)) <= buf.Length
                && readIdx == old(readIdx) + |Page(names, old(readIdx), buf.Length)|
                && Packed(buf[..], 0, Page(names, old(readIdx), buf.Length))
                && buf[ret.value..] == old(buf[ret.value..])
    {
      if readIdx >= |names| {
        return Some(0);
      }
      ghost var last := readIdx + Fitting(names, readIdx, 0, buf.Length);
      ret := Fill(buf, names[readIdx..last], last);
    }

    /** Between two turns of the loop: the entries for `packed` are in the buffer, and the names up to
        `last` are those that fit. */
    ghost predicate Between(b: bytes, off: nat, first: nat, packed: seq<bytes>, last: nat)
      reads this
    {
      && first <= readIdx <= last <= |names| && packed == names[first..readIdx]
      && off == Total(packed) <= |b| && Packed(b, 0, packed)
      && Fitting(names, readIdx, off, |b|) == last - readIdx
    }

    /** The loop; `page` is what it is to pack. */
    method Fill(buf: array<byte>, ghost page: seq<bytes>, ghost last: nat) returns (ret: Option<nat>)
      requires readIdx <= last <= |names| && page == names[readIdx..last]
      requires Fitting(names, readIdx, 0, buf.Length) == last - readIdx
      modifies this`readIdx, buf
      ensures names == old(names) && (ret.Some? <==> Listable(page))
      ensures ret.Some? ==> ret.value == Total(page) <= buf.Length && readIdx == last
      ensures ret.Some? ==> Packed(buf[..], 0, page) && buf[ret.value..] == old(buf[ret.value..])
    {
      ghost var packed: seq<bytes>, first := [], readIdx;
      var bufOffset: nat, fits := 0, true;
      while fits && readIdx < |names|
        invariant names == old(names) && Listable(packed)
        invariant Between(buf[..], bufOffset, first, packed, last) && (!fits ==> readIdx == last)
        invariant buf[bufOffset..] == old(buf[bufOffset..])
      {
        var stopped;
        ghost var at := readIdx;
        stopped, fits, bufOffset, packed := Turn(buf, bufOffset, first, packed, last);
        if stopped {
          assert page[at - first] == names[at];
          return None;
        }
      }
      return Some(bufOffset);
    }

    method Turn(buf: array<byte>, bufOffset: nat, ghost first: nat, ghost packed: seq<bytes>, ghost last: nat)
      returns (stopped: bool, fits: bool, next: nat, ghost more: seq<bytes>)
      requires Between(buf[..], bufOffset, first, packed, last) && readIdx < |names| && Listable(packed)
      modifies this`readIdx, buf
      ensures names == old(names)
      ensures stopped <==> old(readIdx) < last && RecLen(names[old(readIdx)]) > U16_MAX
      ensures !stopped ==>
                && Between(buf[..], next, first, more, last) && buf[next..] == old(buf[next..]) && bufOffset <= next
                && Listable(more) && if fits then readIdx == old(readIdx) + 1 else readIdx == old(readIdx) == last
    {
      var name := names[readIdx];
      FittingStep(names, readIdx, bufOffset, buf.Length, name);
      fits, next := WriteIfFits(buf, bufOffset, name, packed);
      if !fits {
        return false, false, bufOffset, packed;
      }
      PackedGrows(names, first, readIdx, packed, name);
      readIdx := readIdx + 1;
      more := packed + [name];
      stopped := AlignUp(D_NAME + |name| + 1) > U16_MAX;
    }

    /** The turn of the loop for one name. */
    method WriteIfFits(buf: array<byte>, bufOffset: nat, name: bytes,
          ghost packed: seq<bytes>) returns (fits: bool, nextDirent: nat)
      requires Packed(buf[..], 0, packed) && bufOffset == Total(packed)
      modifies buf
      ensures nextDirent == bufOffset + RecLen(name) && (fits <==> nextDirent <= buf.Length)
      ensures fits ==> Packed(buf[..], 0, packed + [name]) && Total(packed + [name]) == nextDirent &&
                       buf[nextDirent..] == old(buf[nextDirent..])
      ensures !fits ==> buf[..] == old(buf[..])
    {
      var direntLen := D_NAME + |name| + 1;
      TotalAligned(packed);
      AlignShift(bufOffset / 8, direntLen, bufOffset + direntLen);
      nextDirent := AlignUp(bufOffset + direntLen);
      fits := nextDirent <= buf.Length;
      if fits {
        WriteNext(buf, bufOffset, name, packed);
      }
    }

    /** One more entry behind those already packed. */
    method WriteNext(buf: array<byte>, off: nat, name: bytes, ghost packed: seq<bytes>)
      requires Packed(buf[..], 0, packed) && off == Total(packed) && off + RecLen(name) <= buf.Length
      modifies buf
      ensures Packed(buf[..], 0, packed + [name]) && Total(packed + [name]) == off + RecLen(name)
      ensures buf[off + RecLen(name)..] == old(buf[off + RecLen(name)..])
    {
      WriteRecord(buf, off, name);
      PackedSame(old(buf[..]), buf[..], 0, packed, off);
      PackedAppend(buf[..], 0, packed, name);
      TotalAppend(packed, name);
    }
  }

  // ---------- all pages ----------

  /** A call returns 0 exactly at the end of the directory, or when not even the next entry fits. */
  lemma ZeroExactly(names: seq<bytes>, idx: nat, cap: nat)
    ensures Total(Page(names, idx, cap)) == 0 <==> idx >= |names| || RecLen(names[idx]) > cap
  {
    if idx < |names| && RecLen(names[idx]) <= cap {
      assert Page(names, idx, cap)[0] == names[idx];
    }
  }

  /** What the caller has read after calls with buffers of these sizes. */
  function Listed(names: seq<bytes>, idx: nat, caps: seq<nat>): seq<bytes>
    decreases |caps|
  {
    if caps == [] then []
    else Page(names, idx, caps[0]) + Listed(names, idx + |Page(names, idx, caps[0])|, caps[1..])
  }

  predicate LargeEnough(names: seq<bytes>, caps: seq<nat>) {
    forall i, j :: 0 <= i < |names| && 0 <= j < |caps| ==> RecLen(names[i]) <= caps[j]
  }

  /** Listing goes through the names in key order, each once: with buffers for the largest entry, after
      any number of calls the next names of the directory have been read, at least one per call until
      all have. */
  lemma {:induction false} ListsInOrder(names: seq<bytes>, idx: nat, caps: seq<nat>)
    requires idx <= |names| && LargeEnough(names, caps)
    ensures idx + |Listed(names, idx, caps)| <= |names|
    ensures Listed(names, idx, caps) == names[idx..idx + |Listed(names, idx, caps)|]
    ensures |Listed(names, idx, caps)| >= |caps| || idx + |Listed(names, idx, caps)| == |names|
    decreases |caps|
  {
    if caps != [] {
      var next, rest := ListedStep(names, idx, caps);
      ListsInOrder(names, next, caps[1..]);
      ListedCons(names, idx, next, rest, Listed(names, idx, caps));
    }
  }

  /** The first call, and the others. */
  lemma ListedStep(names: seq<bytes>, idx: nat, caps: seq<nat>) returns (next: nat, rest: seq<bytes>)
    requires idx <= |names| && caps != []
    ensures idx <= next <= |names| && rest == Listed(names, next, caps[1..]) &&
            Listed(names, idx, caps) == names[idx..next] + rest
    ensures idx < |names| && RecLen(names[idx]) <= caps[0] ==> next > idx
  {
    var page := Page(names, idx, caps[0]);
    next := idx + |page|;
    rest := Listed(names, next, caps[1..]);
    assert Listed(names, idx, caps) == page + rest;
    PageIs(names, idx, caps[0], next);
  }

  lemma ListedCons(names: seq<bytes>, idx: nat, next: nat, rest: seq<bytes>, all: seq<bytes>)
    requires idx <= next <= |names| && next + |rest| <= |names| && rest == names[next..next + |rest|]
    requires all == names[idx..next] + rest
    ensures |all| == next - idx + |rest| && all == names[idx..idx + |all|]
  {
    Joined(names, idx, next, next + |rest|);
  }

  lemma PageIs(names: seq<bytes>, idx: nat, cap: nat, next: nat)
    requires idx <= |names| && next == idx + |Page(names, idx, cap)|
    ensures next <= |names| && Page(names, idx, cap) == names[idx..next]
    ensures idx < |names| && RecLen(names[idx]) <= cap ==> next > idx
  {
  }

  lemma Joined(names: seq<bytes>, a: nat, b: nat, c: nat)
    requires a <= b <= c <= |names|
    ensures names[a..b] + names[b..c] == names[a..c]
  {
  }

  /** A reader with one buffer: it calls until 0 comes back, and walks the bytes of every call. It reads
      the names that are left, in order, each once, up to the end of the directory or the first name
      whose entry does not fit the buffer. */
  method ReadAll(dir: MemDirectoryInterface, buf: array<byte>) returns (all: seq<bytes>)
    requires Names(dir.names) && dir.readIdx <= |dir.names|
    modifies dir`readIdx, buf
    ensures old(dir.readIdx) <= dir.readIdx <= |dir.names| && all == dir.names[old(dir.readIdx)..dir.readIdx]
    ensures dir.readIdx == |dir.names| || RecLen(dir.names[dir.readIdx]) > buf.Length
    ensures (forall i :: 0 <= i < |dir.names| ==> RecLen(dir.names[i]) <= buf.Length) && old(dir.readIdx) == 0 ==>
              all == dir.names
  {
    all := [];
    var more := true;
    while more
      invariant old(dir.readIdx) <= dir.readIdx <= |dir.names| && all == dir.names[old(dir.readIdx)..dir.readIdx]
      invariant !more ==> dir.readIdx == |dir.names| || RecLen(dir.names[dir.readIdx]) > buf.Length
      decreases |dir.names| - dir.readIdx, more
    {
      more, all := ReadPage(dir, buf, all, old(dir.readIdx));
    }
  }

  /** One call and the walk over what it returned. */
  method ReadPage(dir: MemDirectoryInterface, buf: array<byte>, read: seq<bytes>, ghost first: nat)
    returns (more: bool, all: seq<bytes>)
    requires Names(dir.names) && first <= dir.readIdx <= |dir.names| && read == dir.names[first..dir.readIdx]
    modifies dir`readIdx, buf
    ensures old(dir.readIdx) <= dir.readIdx <= |dir.names| && all == dir.names[first..dir.readIdx]
    ensures more <==> dir.readIdx > old(dir.readIdx)
    ensures !more ==> dir.readIdx == |dir.names| || RecLen(dir.names[dir.readIdx]) > buf.Length
  {
    ghost var idx, page := dir.readIdx, Page(dir.names, dir.readIdx, buf.Length);
    PageIs(dir.names, idx, buf.Length, idx + |page|);
    ZeroExactly(dir.names, idx, buf.Length);
    assert forall i :: 0 <= i < |page| ==> page[i] == dir.names[idx + i];
    var ret := dir.Getdents(buf);
    WalkPacked(buf[..], 0, page, Total(page));
    more := ret.value != 0;
    all := read + Walk(buf[..], 0, ret.value);
    Joined(dir.names, first, idx, dir.readIdx);
  }
}
