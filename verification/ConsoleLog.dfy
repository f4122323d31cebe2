/** The circular log of what went to the console. */
module ConsoleLog {
  import opened Basics
  import opened Bytes
  import BitOps

  /** The longest suffix of `s` of at most `n` bytes. */
  function Suffix(s: bytes, n: nat): (r: bytes)
    ensures |r| == if |s| <= n then |s| else n
  {
    if |s| <= n then s else s[|s| - n..]
  }

  /** A place of the ring, for places up to one lap too far. */
  function Wrap(x: nat, cap: nat): nat {
    if x < cap then x else x - cap
  }

  lemma WrapIsRemainder(x: nat, cap: nat)
    requires 0 < cap && x < 2 * cap
    ensures x % cap == Wrap(x, cap) < cap
  {
    BitOps.Remainder(x, cap, if x < cap then 0 else 1, Wrap(x, cap));
  }

  /** The ring holds `content` from `start` on. */
  predicate Holds(buffer: bytes, start: nat, content: bytes) {
    && start < |buffer| && |content| <= |buffer|
    && forall i :: 0 <= i < |content| ==> content[i] == buffer[Wrap(start + i, |buffer|)]
  }

  /** Dropping the oldest bytes moves the start. */
  lemma DropOldest(buffer: bytes, start: nat, content: bytes, n: nat, s: nat, c: bytes)
    requires Holds(buffer, start, content) && n <= |content| && n < |buffer| && s == Wrap(start + n, |buffer|) &&
            c == content[n..]
    ensures Holds(buffer, s, c)
  {
    forall i | 0 <= i < |c|
      ensures c[i] == buffer[Wrap(s + i, |buffer|)]
    {
      assert c[i] == content[n + i];
    }
  }

  /** What the two copies write: `first` from `at` on, `second` from the beginning on. */
  function Written(buffer: bytes, at: nat, first: bytes, second: bytes): (r: bytes)
    requires at + |first| <= |buffer| && |second| <= at
    ensures |r| == |buffer|
  {
    second + buffer[|second|..at] + first + buffer[at + |first|..]
  }

  /** Writing behind the newest byte, around the end of the ring where needed, appends. */
  lemma WrittenHolds(buffer: bytes, start: nat, content: bytes, at: nat, first: bytes, second: bytes)
    requires Holds(buffer, start, content) && |content| + |first| + |second| <= |buffer| &&
            at == Wrap(start + |content|, |buffer|)
    requires at + |first| <= |buffer| && (second != [] ==> at + |first| == |buffer|)
    ensures |second| <= at && Holds(Written(buffer, at, first, second), start, content + first + second)
  {
    assert |second| <= at;
    var after, all := Written(buffer, at, first, second), content + first + second;
    forall i | 0 <= i < |all|
      ensures all[i] == after[Wrap(start + i, |buffer|)]
    {
      if i < |content| {
        assert content[i] == buffer[Wrap(start + i, |buffer|)];
      }
    }
  }

  lemma SuffixOfLonger(front: bytes, back: bytes, n: nat)
    requires |back| >= n
    ensures Suffix(front + back, n) == Suffix(back, n)
  {
    var all := front + back;
    assert |all| > n ==> all[|all| - n..] == back[|back| - n..];
  }

  /** Appending in two steps keeps the same suffix as appending in one. */
  lemma SuffixAppend(all: bytes, more: bytes, n: nat)
    ensures Suffix(all + more, n) == Suffix(Suffix(all, n) + more, n)
  {
    if |all| > n {
      var front, back := all[..|all| - n], all[|all| - n..];
      assert all == front + back;
      assert front + back + more == front + (back + more);
      SuffixOfLonger(front, back + more, n);
    }
  }

  /** Dropping from the front just enough to make room gives the suffix. */
  lemma SuffixByDropping(all: bytes, kept: bytes, more: bytes, n: nat)
    requires |kept| <= |all| && kept == all[|all| - |kept|..] && |kept| + |more| <= n
    requires |kept| == |all| || |kept| + |more| == n
    ensures Suffix(all + more, n) == kept + more
  {
    var front := all[..|all| - |kept|];
    assert all == front + kept;
    assert front + kept + more == front + (kept + more);
    if |kept| == |all| {
      assert kept == all;
    } else {
      SuffixOfLonger(front, kept + more, n);
    }
  }

  method CopyInto(dest: array<byte>, at: nat, src: bytes)
    requires at + |src| <= dest.Length
    modifies dest
    ensures dest[..] == old(dest[..at]) + src + old(dest[at + |src|..])
  {
    forall i | 0 <= i < |src| {
      dest[at + i] := src[i];
    }
  }

  class Log {
    const buffer: array<byte>
    var start: nat
    var len: nat
    var captureEnabled: bool
    /** What the log holds, oldest byte first, and all bytes appended while capture was on. */
    ghost var content: bytes
    ghost var captured: bytes

    ghost predicate Valid()
      reads this, buffer
    {
      buffer.Length > 0 && len == |content| && Holds(buffer[..], start, content) &&
      content == Suffix(captured, buffer.Length)
    }

    constructor (capacity: nat)
      requires capacity > 0
      ensures Valid() && fresh(buffer) && buffer.Length == capacity && captured == [] && captureEnabled
    {
      buffer := new byte[capacity](_ => 0);
      start, len, captureEnabled := 0, 0, true;
      content, captured := [], [];
    }

    method SetCaptureEnabled(enabled: bool)
      requires Valid()
      modifies this
      ensures Valid() && captureEnabled == enabled && captured == old(captured) && content == old(content)
    {
      captureEnabled := enabled;
    }

    /** `append`: the log holds the longest suffix of everything captured that fits. */
    method Append(bytes: bytes)
      requires Valid()
      modifies this, buffer
      ensures Valid() && captureEnabled == old(captureEnabled)
      ensures captured == if old(captureEnabled) then old(captured) + bytes else old(captured)
    {
      if !captureEnabled || bytes == [] {
        assert captured + [] == captured;
        return;
      }
      SuffixAppend(captured, bytes, buffer.Length);
      captured := captured + bytes;
      if |bytes| >= buffer.Length {
        SuffixOfLonger(content, bytes, buffer.Length);
        ReplaceAll(bytes[|bytes| - buffer.Length..]);
      } else {
        AppendShort(bytes);
      }
    }

    /** The part for what fills the ring by itself. */
    method ReplaceAll(bytes: bytes)
      requires buffer.Length > 0 && |bytes| == buffer.Length && Suffix(captured, buffer.Length) == bytes
      modifies this, buffer
      ensures Valid() && captureEnabled == old(captureEnabled) && captured == old(captured)
    {
      CopyInto(buffer, 0, bytes);
      start, len := 0, buffer.Length;
      content := bytes;
      assert buffer[..] == bytes;
    }

    /** The part for what is shorter than the ring. */
    method AppendShort(bytes: bytes)
      requires buffer.Length > 0 && len == |content| && Holds(buffer[..], start, content) && |bytes| < buffer.Length
      requires Suffix(captured, buffer.Length) == Suffix(content + bytes, buffer.Length)
      modifies this, buffer
      ensures Valid() && captureEnabled == old(captureEnabled) && captured == old(captured)
    {
      MakeRoom(|bytes|);
      ghost var kept := content;
      WriteBehind(bytes);
      SuffixByDropping(old(content), kept, bytes, buffer.Length);
    }

    /** The new bytes go behind the newest one. */
    method WriteBehind(bytes: bytes)
      requires len == |content| && Holds(buffer[..], start, content) && len + |bytes| <= buffer.Length &&
              |bytes| < buffer.Length
      modifies this, buffer
      ensures content == old(content) + bytes && len == |content| && Holds(buffer[..], start, content)
      ensures captureEnabled == old(captureEnabled) && captured == old(captured)
    {
      ghost var kept := content;
      WrapIsRemainder(start + len, buffer.Length);
      var writeStart := (start + len) % buffer.Length;
      var firstLen := if buffer.Length - writeStart <= |bytes| then buffer.Length - writeStart else |bytes|;
      WrittenHolds(buffer[..], start, content, writeStart, bytes[..firstLen], bytes[firstLen..]);
      WriteBoth(writeStart, bytes, firstLen);
      len := len + |bytes|;
      content := content + bytes;
      assert kept + bytes[..firstLen] + bytes[firstLen..] == content;
    }

    method WriteBoth(writeStart: nat, bytes: bytes, firstLen: nat)
      requires firstLen <= |bytes| && writeStart + firstLen <= buffer.Length && |bytes| - firstLen <= writeStart
      modifies buffer
      ensures buffer[..] == Written(old(buffer[..]), writeStart, bytes[..firstLen], bytes[firstLen..])
    {
      CopyInto(buffer, writeStart, bytes[..firstLen]);
      if |bytes| - firstLen > 0 {
        CopyInto(buffer, 0, bytes[firstLen..]);
      }
    }

    /** Drop as much of the oldest as the new bytes need. */
    method MakeRoom(n: nat)
      requires buffer.Length > 0 && len == |content| && Holds(buffer[..], start, content) && n < buffer.Length
      modifies this
      ensures len == |content| && Holds(buffer[..], start, content) && len + n <= buffer.Length
      ensures len <= |old(content)| && content == old(content)[|old(content)| - len..] &&
              (len == |old(content)| || len + n == buffer.Length)
      ensures captureEnabled == old(captureEnabled) && captured == old(captured)
    {
      var free := buffer.Length - len;
      if n > free {
        var dropLen := n - free;
        DropFront(dropLen);
      }
    }

    method DropFront(dropLen: nat)
      requires len == |content| && Holds(buffer[..], start, content) && dropLen <= len && dropLen < buffer.Length
      modifies this
      ensures content == old(content)[dropLen..] && len == |content| && Holds(buffer[..], start, content)
      ensures captureEnabled == old(captureEnabled) && captured == old(captured)
    {
      WrapIsRemainder(start + dropLen, buffer.Length);
      var next := (start + dropLen) % buffer.Length;
      DropOldest(buffer[..], start, content, dropLen, next, content[dropLen..]);
      start := next;
      len := len - dropLen;
      content := content[dropLen..];
    }

    /** `read`: the requested window of the log, as far as there is one. */
    method Read(offset: nat, output: array<byte>) returns (n: nat)
      requires Valid() && output != buffer
      modifies output
      ensures n == if offset >= |content| then 0 else Min(|content| - offset, output.Length)
      ensures n > 0 ==> output[..n] == content[offset..offset + n]
      ensures output[n..] == old(output[n..])
    {
      if offset >= len || output.Length == 0 {
        return 0;
      }
      n := Min(len - offset, output.Length);
      WrapIsRemainder(start + offset, buffer.Length);
      var readStart := (start + offset) % buffer.Length;
      var firstLen := Min(buffer.Length - readStart, n);
      ReadWindow(buffer[..], start, content, offset, n, readStart, firstLen);
      CopyOut(output, buffer[readStart..readStart + firstLen], buffer[..n - firstLen]);
    }
  }

  method CopyOut(output: array<byte>, first: bytes, second: bytes)
    requires |first| + |second| <= output.Length
    modifies output
    ensures output[..|first| + |second|] == first + second
    ensures output[|first| + |second|..] == old(output[|first| + |second|..])
  {
    CopyInto(output, 0, first);
    if second != [] {
      CopyInto(output, |first|, second);
    }
  }

  lemma ReadWindow(buffer: bytes, start: nat, content: bytes, offset: nat, n: nat, at: nat, firstLen: nat)
    requires Holds(buffer, start, content) && offset + n <= |content| && n > 0 && at == Wrap(start + offset, |buffer|)
    requires firstLen == Min(|buffer| - at, n)
    ensures n - firstLen <= |buffer| &&
            content[offset..offset + n] == buffer[at..at + firstLen] + buffer[..n - firstLen]
  {
    var window, read := content[offset..offset + n], buffer[at..at + firstLen] + buffer[..n - firstLen];
    forall i | 0 <= i < n
      ensures window[i] == read[i]
    {
      assert window[i] == content[offset + i];
    }
  }
}
