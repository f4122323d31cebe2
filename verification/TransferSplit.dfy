/** `queue_transfer`: a buffer is cut into TRBs that do not cross a 64 KiB boundary (sections 6.4.1.1 and
    4.11.2.4 of the xHCI specification). */
module TransferSplit {
  import opened Basics
  import opened BitOps
  import opened Bitmap
  import opened ProducerRing

  const BOUNDARY: nat := 65536
  const U64: nat := 0x1_0000_0000_0000_0000
  const SIZE_UNIT: nat := 131072
  const NORMAL: nat := 1
  const IOC: nat := 5
  const CHAIN: nat := 4

  /** As much as is left and fits before the next 64 KiB boundary. */
  function Chunk(addr: nat, remaining: nat): nat {
    Min(remaining, BOUNDARY - addr % BOUNDARY)
  }

  /** The number of 512-byte packets still to come, capped at 31. */
  function TdSize(remaining: nat): nat {
    Min((remaining + 511) / 512, 31)
  }

  const LAST: nat := 0x420
  const NOT_LAST: nat := 0x414

  /** The TRB for `chunk` bytes at `addr` when `rest` bytes follow. */
  function Piece(addr: nat, chunk: nat, rest: nat): Trb {
    Trb(addr, chunk + TdSize(rest) * SIZE_UNIT, if rest == 0 then LAST else NOT_LAST)
  }

  // ---------- arithmetic ----------

  lemma {:induction false} LowIsRemainder(x: nat, k: nat)
    ensures Low(x, k) == x % Pow2(k)
  {
    if k > 0 {
      LowIsRemainder(x / 2, k - 1);
      HalfRemainder(x, Pow2(k - 1));
    }
  }

  lemma HalfRemainder(x: nat, m: nat)
    requires m > 0
    ensures x % (2 * m) == 2 * ((x / 2) % m) + x % 2
  {
    var q, r := (x / 2) / m, (x / 2) % m;
    assert x == (2 * m) * q + (2 * r + x % 2);
    Remainder(x, 2 * m, q, 2 * r + x % 2);
  }

  lemma Powers()
    ensures Pow2(16) == BOUNDARY && Pow2(17) == 131072 && Pow2(64) == U64
  {
    assert Pow2(8) == 0x100;
    assert Pow2(16) == 0x1_0000;
    assert Pow2(24) == 0x100_0000;
    assert Pow2(32) == 0x1_0000_0000;
    assert Pow2(40) == 0x100_0000_0000;
    assert Pow2(48) == 0x1_0000_0000_0000;
    assert Pow2(56) == 0x100_0000_0000_0000;
  }

  /** `(phys_addr + 65536) & !65535`, on 64 bits. */
  function NextBoundary(addr: nat): nat {
    And((addr + BOUNDARY) % U64, U64 - BOUNDARY)
  }

  /** The mask finds the first multiple of 64 KiB above an address; above the last one that is 2^64, and
      the sum has wrapped to 0. */
  lemma NextBoundaryIs(addr: nat)
    requires addr < U64
    ensures NextBoundary(addr) == (addr + BOUNDARY - addr % BOUNDARY) % U64
    ensures (NextBoundary(addr) - addr) % U64 == BOUNDARY - addr % BOUNDARY
  {
    if addr + BOUNDARY < U64 {
      BoundaryBelow(addr, addr % BOUNDARY, addr + BOUNDARY);
    } else {
      LastBoundary(addr);
      BoundaryAbove(addr, addr % BOUNDARY);
    }
  }

  lemma BoundaryMask(addr: nat, r: nat, sum: nat)
    requires r == addr % BOUNDARY && sum == addr + BOUNDARY < U64
    ensures And(sum, U64 - BOUNDARY) == sum - r
  {
    Powers();
    Remainder(sum, BOUNDARY, addr / BOUNDARY + 1, r);
    MaskIs(sum, 16, 64, U64 - BOUNDARY);
  }

  lemma BoundaryBelow(addr: nat, r: nat, sum: nat)
    requires r == addr % BOUNDARY && sum == addr + BOUNDARY < U64
    ensures NextBoundary(addr) == (sum - r) % U64 && (NextBoundary(addr) - addr) % U64 == BOUNDARY - r
  {
    BoundaryMask(addr, r, sum);
    assert sum % U64 == sum;
  }

  lemma BoundaryAbove(addr: nat, r: nat)
    requires addr < U64 && r == addr + BOUNDARY - U64 && r < BOUNDARY
    requires (addr + BOUNDARY) % U64 == r && r % BOUNDARY == r
    ensures NextBoundary(addr) == (addr + BOUNDARY - r) % U64 && (NextBoundary(addr) - addr) % U64 == BOUNDARY - r
  {
    Powers();
    MaskIs(r, 16, 64, U64 - BOUNDARY);
    Remainder(U64, U64, 1, 0);
  }

  lemma LastBoundary(addr: nat)
    requires addr < U64 <= addr + BOUNDARY
    ensures addr % BOUNDARY == addr + BOUNDARY - U64 < BOUNDARY && (addr + BOUNDARY) % U64 == addr + BOUNDARY - U64
    ensures (addr + BOUNDARY - U64) % BOUNDARY == addr + BOUNDARY - U64
  {
    var r := addr + BOUNDARY - U64;
    Remainder(addr, BOUNDARY, U64 / BOUNDARY - 1, r);
    Remainder(addr + BOUNDARY, U64, 1, r);
    Remainder(r, BOUNDARY, 0, r);
  }

  /** A mask of ones from bit `k` on clears the bits below. */
  lemma MaskIs(x: nat, k: nat, w: nat, mask: nat)
    requires k <= w && x < Pow2(w) && mask == Pow2(w) - Pow2(k)
    ensures And(x, mask) == x - x % Pow2(k)
  {
    AndHighMask(x, k, w);
    LowIsRemainder(x, k);
  }

  lemma {:induction false} ShlIsTimes(y: nat, k: nat)
    ensures Shl(y, k) == y * Pow2(k)
  {
    if k > 0 {
      ShlIsTimes(y, k - 1);
    }
  }

  /** The two fields of the status word do not overlap. */
  lemma StatusIs(chunk: nat, size: nat)
    requires chunk <= BOUNDARY
    ensures Or(chunk, Shl(size, 17)) == chunk + size * SIZE_UNIT
  {
    Powers();
    OrShifted(chunk, size, 17);
    ShlIsTimes(size, 17);
  }

  lemma ControlIs()
    ensures Or(Shl(NORMAL, 10), Shl(1, 5)) == LAST
    ensures Or(Or(Shl(NORMAL, 10), Shl(1, 4)), Shl(1, 2)) == NOT_LAST
  {
    assert Shl(NORMAL, 10) == 0x400 && Shl(1, 5) == 0x20 && Shl(1, 4) == 0x10 && Shl(1, 2) == 4;
    assert Or(0x400, 0x10) == 0x410 && Or(0x410, 4) == 0x414;
  }

  // ---------- the split ----------

  function Split(addr: nat, remaining: nat): seq<Trb>
    decreases remaining
  {
    if remaining == 0 then []
    else
      var chunk := Chunk(addr, remaining);
      [Piece(addr, chunk, remaining - chunk)] + Split(addr + chunk, remaining - chunk)
  }

  /** The length a TRB gives in the low 17 bits of its status word, and its TD Size in the next 5. */
  function Length(t: Trb): nat {
    t.status % SIZE_UNIT
  }

  function Size(t: Trb): nat {
    t.status / SIZE_UNIT % 32
  }

  /** Interrupt on Completion is set only on the last piece and Chain on all others. */
  lemma ControlBits()
    ensures Bit(LAST, IOC) && !Bit(LAST, CHAIN) && Bit(NOT_LAST, CHAIN) && !Bit(NOT_LAST, IOC)
    ensures And(Shr(LAST, 10), 0x3f) == NORMAL && And(Shr(NOT_LAST, 10), 0x3f) == NORMAL
  {
    assert Shr(0x420, 10) == 1 && Shr(0x414, 10) == 1 && And(1, 0x3f) == 1;
    assert Bit(0x420, 5) && !Bit(0x420, 4) && Bit(0x414, 4) && !Bit(0x414, 5);
  }

  function Total(trbs: seq<Trb>): nat {
    if trbs == [] then 0 else Length(trbs[0]) + Total(trbs[1..])
  }

  /** The pieces cover `[addr, addr + n)` in order and without gaps, none of them empty or across a
      64 KiB boundary. */
  predicate Covers(trbs: seq<Trb>, addr: nat, n: nat)
    decreases |trbs|
  {
    if trbs == [] then n == 0
    else
      var l := Length(trbs[0]);
      trbs[0].param == addr && 0 < l <= n && addr % BOUNDARY + l <= BOUNDARY && Covers(trbs[1..], addr + l, n - l)
  }

  /** Only the last piece says that nothing follows it, and it is the one that interrupts. */
  predicate Flagged(trbs: seq<Trb>) {
    forall i :: 0 <= i < |trbs| ==> LastFlags(trbs[i], i == |trbs| - 1)
  }

  predicate LastFlags(t: Trb, isLast: bool) {
    && (Size(t) == 0 <==> isLast) && (Bit(t.control, IOC) <==> isLast) && (Bit(t.control, CHAIN) <==> !isLast)
    && Type(t) == NORMAL && t.control < U32
  }

  lemma PieceIs(addr: nat, chunk: nat, rest: nat, t: Trb)
    requires chunk <= BOUNDARY && t == Piece(addr, chunk, rest)
    ensures t.param == addr && Length(t) == chunk && LastFlags(t, rest == 0)
  {
    ControlBits();
  }

  /** The first piece, and what remains. */
  lemma FirstPiece(addr: nat, remaining: nat) returns (chunk: nat, t: Trb)
    requires remaining > 0
    ensures 0 < chunk <= remaining && addr % BOUNDARY + chunk <= BOUNDARY
    ensures t.param == addr && Length(t) == chunk && LastFlags(t, chunk == remaining)
    ensures Split(addr, remaining) == [t] + Split(addr + chunk, remaining - chunk)
  {
    chunk := Chunk(addr, remaining);
    t := Piece(addr, chunk, remaining - chunk);
    PieceIs(addr, chunk, remaining - chunk, t);
  }

  lemma {:induction false} SplitCovers(addr: nat, remaining: nat)
    ensures Covers(Split(addr, remaining), addr, remaining) && (Split(addr, remaining) == [] <==> remaining == 0)
    decreases remaining
  {
    if remaining > 0 {
      var chunk, t := FirstPiece(addr, remaining);
      SplitCovers(addr + chunk, remaining - chunk);
      CoversCons(t, Split(addr + chunk, remaining - chunk), addr, remaining);
    }
  }

  lemma CoversCons(t: Trb, rest: seq<Trb>, addr: nat, n: nat)
    requires t.param == addr && 0 < Length(t) <= n && addr % BOUNDARY + Length(t) <= BOUNDARY
    requires Covers(rest, addr + Length(t), n - Length(t))
    ensures Covers([t] + rest, addr, n)
  {
    assert ([t] + rest)[1..] == rest;
  }

  lemma {:induction false} SplitFlags(addr: nat, remaining: nat)
    ensures Flagged(Split(addr, remaining))
    decreases remaining
  {
    if remaining > 0 {
      var chunk, t := FirstPiece(addr, remaining);
      SplitFlags(addr + chunk, remaining - chunk);
      SplitCovers(addr + chunk, remaining - chunk);
      FlagsCons(t, Split(addr + chunk, remaining - chunk));
    }
  }

  lemma FlagsCons(t: Trb, rest: seq<Trb>)
    requires LastFlags(t, rest == []) && Flagged(rest)
    ensures Flagged([t] + rest)
  {
    forall i | 0 <= i < |[t] + rest|
      ensures LastFlags(([t] + rest)[i], i == |[t] + rest| - 1)
    {
      if i > 0 {
        assert ([t] + rest)[i] == rest[i - 1];
      }
    }
  }

  lemma {:induction false} CoversTotal(trbs: seq<Trb>, addr: nat, n: nat)
    requires Covers(trbs, addr, n)
    ensures Total(trbs) == n
    decreases |trbs|
  {
    if trbs != [] {
      CoversTotal(trbs[1..], addr + Length(trbs[0]), n - Length(trbs[0]));
    }
  }

  // ---------- the code ----------

  /** The TRBs queued for a buffer: for an empty one a single TRB without data. */
  function Transfer(phys: nat, len: nat): seq<Trb> {
    if len == 0 then [Trb(phys, 0, LAST)] else Split(phys, len)
  }

  /** `(phys_addr + 65536) & !65535` less the address itself, in wrapping arithmetic. */
  method ToBoundary(physAddr: nat) returns (r: nat)
    requires physAddr < U64
    ensures r == BOUNDARY - physAddr % BOUNDARY
  {
    NextBoundaryIs(physAddr);
    r := (And((physAddr + 65536) % U64, U64 - BOUNDARY) - physAddr) % U64;
  }

  method ControlWord(isLast: bool) returns (control: nat)
    ensures control == if isLast then LAST else NOT_LAST
  {
    ControlIs();
    if isLast {
      control := Or(Shl(NORMAL, 10), Shl(1, 5));
    } else {
      control := Or(Or(Shl(NORMAL, 10), Shl(1, 4)), Shl(1, 2));
    }
  }

  method StatusWord(chunk: nat, tdSize: nat) returns (status: nat)
    requires chunk <= BOUNDARY
    ensures status == chunk + tdSize * SIZE_UNIT
  {
    StatusIs(chunk, tdSize);
    status := Or(chunk, Shl(tdSize, 17));
  }

  /** One turn of the loop: what it computes, and what is left to queue. */
  method NextPiece(physAddr: nat, remaining: nat) returns (chunk: nat, t: Trb)
    requires remaining > 0 && physAddr + remaining <= U64
    ensures 0 < chunk <= remaining
    ensures Split(physAddr, remaining) == [t] + Split(physAddr + chunk, remaining - chunk)
  {
    var maxChunkToBoundary := ToBoundary(physAddr);
    chunk := Min(Min(remaining, 65536), maxChunkToBoundary);
    var left := remaining - chunk;
    var tdSize := Min((left + 511) / 512, 31);
    var control := ControlWord(left == 0);
    var status := StatusWord(chunk, tdSize);
    t := Trb(physAddr, status, control);
  }

  /** `queue_transfer` on one endpoint's ring; the buffer lies within the 64-bit address space. */
  method QueueTransfer(ring: Ring, phys: nat, len: nat)
    requires ring.Valid() && phys + len <= U64
    modifies ring, ring.mem
    ensures ring.Valid() && ring.sent == old(ring.sent) + Transfer(phys, len)
  {
    if len == 0 {
      ControlIs();
      var addr := ring.Enqueue(Trb(phys, 0, Or(Shl(NORMAL, 10), Shl(1, 5))));
      return;
    }
    QueuePieces(ring, phys, len, Split(phys, len));
  }

  /** The loop; `todo` is what it is to queue. */
  method QueuePieces(ring: Ring, phys: nat, len: nat, ghost todo: seq<Trb>)
    requires ring.Valid() && phys + len <= U64 && todo == Split(phys, len)
    modifies ring, ring.mem
    ensures ring.Valid() && ring.sent == old(ring.sent) + todo
  {
    var remaining, offset := len, 0;
    ghost var rest := todo;
    while remaining > 0
      invariant ring.Valid() && offset + remaining == len && rest == Split(phys + offset, remaining)
      invariant ring.sent + rest == old(ring.sent) + todo
    {
      var chunk;
      chunk, rest := QueuePiece(ring, phys + offset, remaining, rest);
      remaining := remaining - chunk;
      offset := offset + chunk;
    }
  }

  method QueuePiece(ring: Ring, physAddr: nat, remaining: nat, ghost todo: seq<Trb>) returns (chunk: nat,
        ghost rest: seq<Trb>)
    requires ring.Valid() && remaining > 0 && physAddr + remaining <= U64 &&
            todo == Split(physAddr, remaining)
    modifies ring, ring.mem
    ensures ring.Valid() && 0 < chunk <= remaining && rest == Split(physAddr + chunk, remaining - chunk)
    ensures ring.sent + rest == old(ring.sent) + todo
  {
    var t;
    chunk, t := NextPiece(physAddr, remaining);
    rest := Split(physAddr + chunk, remaining - chunk);
    var addr := ring.Enqueue(t);
    assert old(ring.sent) + [t] + rest == old(ring.sent) + ([t] + rest);
  }

  /** What is queued for a buffer that is not empty, for every start address and length. */
  lemma TransferIsRight(phys: nat, len: nat)
    requires len > 0
    ensures Covers(Transfer(phys, len), phys, len) && Total(Transfer(phys, len)) == len && Flagged(Transfer(phys, len))
    ensures Transfer(phys, len) != []
  {
    SplitCovers(phys, len);
    SplitFlags(phys, len);
    CoversTotal(Transfer(phys, len), phys, len);
  }
}
