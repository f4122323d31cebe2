/** Writing the memory log, and the theorem that reading it back replays exactly what was written,
    whatever bytes the questions, answers and keys contain. */
module LogReplay {
  import opened Basics
  import opened Bytes
  import opened Decimal
  import opened LogParser

  function QaHeader(q: nat, a: nat): bytes {
    Dec(q) + A_MARK + Dec(a) + [CLOSE]
  }

  function DelHeader(k: nat): bytes {
    Dec(k) + [CLOSE]
  }

  /** The bytes of one record, after the separating newline. */
  function Encode(e: Entry): bytes {
    match e
    case AddQa(q, a) => QA_MARK + QaHeader(|q|, |a|) + [NEWLINE] + q + [NEWLINE] + a + [NEWLINE]
    case AddForget(k) => DEL_MARK + DelHeader(|k|) + [NEWLINE] + k + [NEWLINE]
  }

  /** A writer puts a newline between records but not before the first. */
  function AppendEntry(target: bytes, e: Entry): bytes {
    target + (if target == [] then [] else [NEWLINE]) + Encode(e)
  }

  lemma Assoc(x: bytes, y: bytes, z: bytes)
    ensures x + y + z == x + (y + z)
  {
  }

  lemma QaAppendAssoc(t: bytes, m: bytes, q: bytes, am: bytes, a: bytes, c: bytes, n: bytes)
    ensures t + m + q + am + a + (c + n) == t + (m + (q + am + a + c) + n)
  {
    Assoc(t + m + q + am + a, c, n);
    Assoc(t + m + q + am, a, c);
    Assoc(t + m + q, am, a + c);
    Assoc(t + m, q, am + (a + c));
    Assoc(q, am, a + c);
    Assoc(q + am, a, c);
    Assoc(t, m, q + am + a + c);
    Assoc(t, m + (q + am + a + c), n);
  }

  lemma BodyAppendAssoc(t: bytes, h: bytes, q: bytes, n: bytes, a: bytes)
    ensures t + h + q + n + a + n == t + (h + q + n + a + n)
  {
    Assoc(t, h, q);
    Assoc(t, h + q, n);
    Assoc(t, h + q + n, a);
    Assoc(t, h + q + n + a, n);
  }

  /** `append_serialized_qa`. */
  method AppendSerializedQa(target: bytes, prompt: bytes, answer: bytes) returns (t: bytes)
    requires |prompt| <= ISIZE_MAX && |answer| <= ISIZE_MAX
    ensures t == AppendEntry(target, AddQa(prompt, answer))
  {
    t := target + (if target == [] then [] else [NEWLINE]);
    ghost var start := t;
    t := t + QA_MARK;
    t := AppendDecimal(t, |prompt|);
    t := t + A_MARK;
    t := AppendDecimal(t, |answer|);
    t := t + [CLOSE, NEWLINE];
    assert [CLOSE, NEWLINE] == [CLOSE] + [NEWLINE];
    QaAppendAssoc(start, QA_MARK, Dec(|prompt|), A_MARK, Dec(|answer|), [CLOSE], [NEWLINE]);
    t := t + prompt + [NEWLINE] + answer + [NEWLINE];
    BodyAppendAssoc(start, QA_MARK + QaHeader(|prompt|, |answer|) + [NEWLINE], prompt, [NEWLINE], answer);
  }

  /** `append_serialized_forget`. */
  method AppendSerializedForget(target: bytes, key: bytes) returns (t: bytes)
    requires |key| <= ISIZE_MAX
    ensures t == AppendEntry(target, AddForget(key))
  {
    t := target + (if target == [] then [] else [NEWLINE]);
    ghost var start := t;
    t := t + DEL_MARK;
    t := AppendDecimal(t, |key|);
    t := t + [CLOSE, NEWLINE];
    assert [CLOSE, NEWLINE] == [CLOSE] + [NEWLINE];
    DelAppendAssoc(start, DEL_MARK, Dec(|key|), [CLOSE], [NEWLINE], key);
    t := t + key + [NEWLINE];
  }

  lemma DelAppendAssoc(t: bytes, m: bytes, k: bytes, c: bytes, n: bytes, key: bytes)
    ensures t + m + k + (c + n) + key + n == t + (m + (k + c) + n + key + n)
  {
    Assoc(t + m + k, c, n);
    Assoc(t + m, k, c);
    Assoc(t, m, k + c);
    Assoc(t, m + (k + c), n);
    Assoc(t, m + (k + c) + n, key);
    Assoc(t, m + (k + c) + n + key, n);
  }

  // ---------- one record ----------

  lemma FindAfter(front: bytes, rest: bytes, x: byte)
    requires x !in front
    ensures FindByte(front + [x] + rest, x) == Some(|front|)
  {
    var s := front + [x] + rest;
    assert s[..|front|] == front;
    FindByteIs(s, x, |front|);
  }

  lemma QaHeaderReads(q: nat, a: nat)
    requires q <= USIZE_MAX && a <= USIZE_MAX
    ensures QaLengths(QaHeader(q, a)) == Some((q, a))
  {
    var header := QaHeader(q, a);
    var m := |Dec(q)|;
    assert header[m..m + 3] == A_MARK;
    forall j: nat | j < m
      ensures !OccursAt(header, A_MARK, j)
    {
      assert header[j] == Dec(q)[j];
      assert IsDigit(Dec(q)[j]);
      assert j + 3 <= |header| ==> header[j..j + 3][0] == header[j];
    }
    FindSubIs(header, A_MARK, m);
    assert header[..m] == Dec(q) && header[m + 3..|header| - 1] == Dec(a);
    RoundTrip(q);
    RoundTrip(a);
  }

  lemma DelHeaderReads(k: nat)
    requires k <= USIZE_MAX
    ensures DelLength(DelHeader(k)) == Some(k)
  {
    var header := DelHeader(k);
    assert header[..|header| - 1] == Dec(k);
    RoundTrip(k);
  }

  /** Where the parts of a record lie in the bytes that start with it. */
  lemma QaSlices(mark: bytes, header: bytes, n: byte, q: bytes, a: bytes, tail: bytes)
    ensures var s := mark + header + [n] + q + [n] + a + [n] + tail;
            var qStart := |mark| + |header| + 1;
            var aStart := qStart + |q| + 1;
            && s[|mark|..] == header + [n] + (q + [n] + a + [n] + tail)
            && s[|mark|..|mark| + |header|] == header
            && s[qStart..qStart + |q|] == q
            && s[aStart..aStart + |a|] == a
  {
    var s := mark + header + [n] + q + [n] + a + [n] + tail;
    assert s == mark + (header + [n] + (q + [n] + a + [n] + tail));
  }

  lemma DelSlices(mark: bytes, header: bytes, n: byte, k: bytes, tail: bytes)
    ensures var s := mark + header + [n] + k + [n] + tail;
            var kStart := |mark| + |header| + 1;
            && s[|mark|..] == header + [n] + (k + [n] + tail)
            && s[|mark|..|mark| + |header|] == header
            && s[kStart..kStart + |k|] == k
  {
    var s := mark + header + [n] + k + [n] + tail;
    assert s == mark + (header + [n] + (k + [n] + tail));
  }

  lemma NoNewlineInDec(n: nat)
    ensures NEWLINE !in Dec(n)
  {
    assert AllDigits(Dec(n));
  }

  lemma NoNewlineInQaHeader(q: nat, a: nat)
    ensures NEWLINE !in QaHeader(q, a)
  {
    NoNewlineInDec(q);
    NoNewlineInDec(a);
  }

  lemma ReadQaIs(s: bytes, header: bytes, q: nat, a: nat)
    requires |QA_MARK| <= |s| && FindByte(s[|QA_MARK|..], NEWLINE) == Some(|header|)
    requires s[|QA_MARK|..|QA_MARK| + |header|] == header && QaLengths(header) == Some((q, a))
    requires |QA_MARK| + |header| + 1 + q + 1 + a + 1 <= |s|
    ensures var qStart := |QA_MARK| + |header| + 1;
            var aStart := qStart + q + 1;
            ReadQa(s) == Record(AddQa(s[qStart..qStart + q], s[aStart..aStart + a]), aStart + a + 1)
  {
  }

  /** A question/answer record reads back whatever follows it. */
  lemma ReadsQa(q: bytes, a: bytes, tail: bytes)
    requires |q| <= USIZE_MAX && |a| <= USIZE_MAX
    ensures ReadQa(Encode(AddQa(q, a)) + tail) == Record(AddQa(q, a), |Encode(AddQa(q, a))|)
  {
    QaHeaderReads(|q|, |a|);
    NoNewlineInQaHeader(|q|, |a|);
    ReadsQaWith(QaHeader(|q|, |a|), q, a, tail);
  }

  lemma ReadsQaWith(header: bytes, q: bytes, a: bytes, tail: bytes)
    requires QaLengths(header) == Some((|q|, |a|)) && NEWLINE !in header
    ensures var f := QA_MARK + header + [NEWLINE] + q + [NEWLINE] + a + [NEWLINE];
            ReadQa(f + tail) == Record(AddQa(q, a), |f|)
  {
    var s := QA_MARK + header + [NEWLINE] + q + [NEWLINE] + a + [NEWLINE] + tail;
    QaSlices(QA_MARK, header, NEWLINE, q, a, tail);
    FindAfter(header, q + [NEWLINE] + a + [NEWLINE] + tail, NEWLINE);
    ReadQaIs(s, header, |q|, |a|);
  }

  lemma ReadsDel(k: bytes, tail: bytes)
    requires |k| <= USIZE_MAX
    ensures ReadDel(Encode(AddForget(k)) + tail) == Record(AddForget(Trim(k)), |Encode(AddForget(k))|)
  {
    var header := DelHeader(|k|);
    NoNewlineInDec(|k|);
    assert NEWLINE !in header;
    DelSlices(DEL_MARK, header, NEWLINE, k, tail);
    FindAfter(header, k + [NEWLINE] + tail, NEWLINE);
    DelHeaderReads(|k|);
  }

  // ---------- finding the next record ----------

  predicate NoMarker(s: bytes) {
    FindSub(s, QA_MARK).None? && FindSub(s, DEL_MARK).None?
  }

  predicate IsMarker(mark: bytes) {
    mark == QA_MARK || mark == DEL_MARK
  }

  /** A marker does not occur in, or straddle the end of, a text without markers that is followed by
      a record: the byte `[` appears only at the front of a marker. */
  lemma NoEarlierMarker(front: bytes, rest: bytes, mark: bytes, j: nat)
    requires IsMarker(mark) && NoMarker(front) && rest != [] && rest[0] == 91 && j < |front|
    ensures !OccursAt(front + rest, mark, j)
  {
    FindSubIsFirst(front, mark);
    var s := front + rest;
    if j + |mark| <= |front| {
      assert s[j..j + |mark|] == front[j..j + |mark|];
      assert !OccursAt(front, mark, j);
    } else if j + |mark| <= |s| {
      assert s[j..j + |mark|][|front| - j] == s[|front|] == 91;
      assert mark[|front| - j] != 91;
    }
  }

  lemma FindMarkAfter(front: bytes, mark: bytes, tail: bytes)
    requires IsMarker(mark) && NoMarker(front)
    ensures FindSub(front + (mark + tail), mark) == Some(|front|)
  {
    var s := front + (mark + tail);
    assert s[|front|..|front| + |mark|] == mark;
    forall j: nat | j < |front|
      ensures !OccursAt(s, mark, j)
    {
      NoEarlierMarker(front, mark + tail, mark, j);
    }
    FindSubIs(s, mark, |front|);
  }

  lemma NotTheOtherMark(front: bytes, mark: bytes, other: bytes, tail: bytes)
    requires IsMarker(mark) && IsMarker(other) && mark != other
    ensures !OccursAt(front + (mark + tail), other, |front|)
  {
    var s, i := front + (mark + tail), |front|;
    assert s[i + 4] == mark[4] != other[4];
    assert i + |other| <= |s| ==> s[i..i + |other|][4] == s[i + 4];
  }

  lemma OtherMarkLater(front: bytes, mark: bytes, other: bytes, tail: bytes)
    requires IsMarker(mark) && IsMarker(other) && mark != other && NoMarker(front)
    ensures var r := FindSub(front + (mark + tail), other); r.Some? ==> r.value > |front|
  {
    var s := front + (mark + tail);
    FindSubIsFirst(s, other);
    NotTheOtherMark(front, mark, other, tail);
    forall j: nat | j < |front|
      ensures !OccursAt(s, other, j)
    {
      NoEarlierMarker(front, mark + tail, other, j);
    }
  }

  function MarkOf(e: Entry): Mark {
    if e.AddQa? then QaMark else DelMark
  }

  function AfterMark(e: Entry): bytes {
    Encode(e)[|Marker(MarkOf(e))|..]
  }

  lemma EncodeStarts(e: Entry, tail: bytes)
    ensures Encode(e) + tail == Marker(MarkOf(e)) + (AfterMark(e) + tail)
  {
    match e {
      case AddQa(q, a) =>
        QaSlices(QA_MARK, QaHeader(|q|, |a|), NEWLINE, q, a, []);
        FrontOf(QA_MARK, QaHeader(|q|, |a|) + [NEWLINE] + q + [NEWLINE] + a + [NEWLINE]);
        QaFrontAssoc(QA_MARK, QaHeader(|q|, |a|), [NEWLINE], q, a);
      case AddForget(k) =>
        FrontOf(DEL_MARK, DelHeader(|k|) + [NEWLINE] + k + [NEWLINE]);
        DelFrontAssoc(DEL_MARK, DelHeader(|k|), [NEWLINE], k);
    }
    Assoc(Marker(MarkOf(e)), AfterMark(e), tail);
  }

  lemma FrontOf(x: bytes, y: bytes)
    ensures (x + y)[|x|..] == y
  {
  }

  lemma QaFrontAssoc(m: bytes, h: bytes, n: bytes, q: bytes, a: bytes)
    ensures m + h + n + q + n + a + n == m + (h + n + q + n + a + n)
  {
    Assoc(m, h, n);
    Assoc(m, h + n, q);
    Assoc(m, h + n + q, n);
    Assoc(m, h + n + q + n, a);
    Assoc(m, h + n + q + n + a, n);
  }

  lemma DelFrontAssoc(m: bytes, h: bytes, n: bytes, k: bytes)
    ensures m + h + n + k + n == m + (h + n + k + n)
  {
    Assoc(m, h, n);
    Assoc(m, h + n, k);
    Assoc(m, h + n + k, n);
  }

  lemma FindsRecord(front: bytes, e: Entry, tail: bytes)
    requires NoMarker(front)
    ensures NextMark(front + (Encode(e) + tail)) == Some((|front|, MarkOf(e)))
  {
    EncodeStarts(e, tail);
    var rest := AfterMark(e) + tail;
    FindMarkAfter(front, Marker(MarkOf(e)), rest);
    OtherMarkLater(front, Marker(MarkOf(e)), if e.AddQa? then DEL_MARK else QA_MARK, rest);
  }

  // ---------- replay ----------

  /** An entry as it is read back: the key of a forget is trimmed. */
  function Normal(e: Entry): Entry {
    match e
    case AddQa(_, _) => e
    case AddForget(k) => AddForget(Trim(k))
  }

  /** Lengths are `usize`. */
  predicate Fits(e: Entry) {
    match e
    case AddQa(q, a) => |q| <= USIZE_MAX && |a| <= USIZE_MAX
    case AddForget(k) => |k| <= USIZE_MAX
  }

  lemma EncodeReads(e: Entry, tail: bytes)
    requires Fits(e)
    ensures 0 < |Marker(MarkOf(e))| <= |Encode(e)|
    ensures ReadFrame(Encode(e) + tail, MarkOf(e)) == Record(Normal(e), |Encode(e)|)
  {
    match e {
      case AddQa(q, a) => ReadsQa(q, a, tail);
      case AddForget(k) => ReadsDel(k, tail);
    }
  }

  lemma ThreeParts(x: bytes, y: bytes, z: bytes)
    ensures var s := x + (y + z); s[..|x|] == x && s[|x|..] == y + z && s[|x| + |y|..] == z
  {
  }

  lemma TurnTakes(s: bytes, front: bytes, rest: bytes, m: Mark, e: Entry, n: nat)
    requires NextMark(s) == Some((|front|, m)) && s[..|front|] == front && s[|front|..] == rest
    requires |Marker(m)| <= |rest| && ReadFrame(rest, m) == Record(e, n)
    ensures DecodeTurn(s) == Go(Legacy(front) + [e], |front| + n)
  {
  }

  lemma DecodeGoes(s: bytes, es: seq<Entry>, n: nat)
    requires s != [] && DecodeTurn(s) == Go(es, n)
    ensures Decode(s) == es + Decode(s[n..])
  {
  }

  lemma DecodesRest(s: bytes, es: seq<Entry>, n: nat, tail: bytes)
    requires s != [] && DecodeTurn(s) == Go(es, n) && s[n..] == tail
    ensures Decode(s) == es + Decode(tail)
  {
    DecodeGoes(s, es, n);
  }

  /** A text without markers, then a record, then anything. */
  lemma DecodesRecord(front: bytes, e: Entry, tail: bytes)
    requires NoMarker(front) && Fits(e)
    ensures Decode(front + (Encode(e) + tail)) == Legacy(front) + [Normal(e)] + Decode(tail)
  {
    FindsRecord(front, e, tail);
    EncodeReads(e, tail);
    DecodesFramed(front, Encode(e), tail, MarkOf(e), Normal(e), front + (Encode(e) + tail));
  }

  /** The same for the bytes of a record, whatever they are. */
  lemma DecodesFramed(front: bytes, framed: bytes, tail: bytes, m: Mark, e: Entry, s: bytes)
    requires s == front + (framed + tail) && NextMark(s) == Some((|front|, m))
    requires 0 < |Marker(m)| <= |framed| && ReadFrame(framed + tail, m) == Record(e, |framed|)
    ensures Decode(s) == Legacy(front) + [e] + Decode(tail)
  {
    ThreeParts(front, framed, tail);
    TurnTakes(s, front, framed + tail, m, e, |framed|);
    DecodesRest(s, Legacy(front) + [e], |front| + |framed|, tail);
  }

  /** A record as it stands in the log: with or without the newline before it. */
  datatype Piece = Piece(separated: bool, entry: Entry)

  function PieceBytes(p: Piece): bytes {
    (if p.separated then [NEWLINE] else []) + Encode(p.entry)
  }

  function LogBytes(ps: seq<Piece>): bytes {
    if ps == [] then [] else LogBytes(ps[..|ps| - 1]) + PieceBytes(ps[|ps| - 1])
  }

  /** The entries of a log, in order. */
  function Entries(ps: seq<Piece>): seq<Entry> {
    if ps == [] then [] else Entries(ps[..|ps| - 1]) + [Normal(ps[|ps| - 1].entry)]
  }

  predicate AllFit(ps: seq<Piece>) {
    forall i :: 0 <= i < |ps| ==> Fits(ps[i].entry)
  }

  lemma DecodesPiece(p: Piece, tail: bytes)
    requires Fits(p.entry)
    ensures Decode(PieceBytes(p) + tail) == [Normal(p.entry)] + Decode(tail)
  {
    var sep: bytes := if p.separated then [NEWLINE] else [];
    assert NoMarker(sep) && Legacy(sep) == [];
    Assoc(sep, Encode(p.entry), tail);
    DecodesRecord(sep, p.entry, tail);
    assert [] + [Normal(p.entry)] == [Normal(p.entry)];
  }

  /** Reading a log gives back exactly the entries written to it, whatever bytes they contain,
      wherever it was cut into deltas, and whatever comes after it. */
  lemma {:induction false} DecodesLog(ps: seq<Piece>, tail: bytes)
    requires AllFit(ps)
    ensures Decode(LogBytes(ps) + tail) == Entries(ps) + Decode(tail)
  {
    if ps == [] {
      assert [] + tail == tail;
    } else {
      var init, last := ps[..|ps| - 1], ps[|ps| - 1];
      Assoc(LogBytes(init), PieceBytes(last), tail);
      DecodesLog(init, PieceBytes(last) + tail);
      DecodesPiece(last, tail);
    }
  }

  lemma DecodesPlainText(text: bytes)
    requires NoMarker(text)
    ensures Decode(text) == Legacy(text)
  {
    if text == [] {
      assert FindSub(text, Q_PREFIX).None?;
    }
  }

  lemma OnePiece(ps: seq<Piece>)
    requires |ps| == 1
    ensures LogBytes(ps) == PieceBytes(ps[0]) && Entries(ps) == [Normal(ps[0].entry)]
  {
    assert ps[..0] == [];
    assert LogBytes(ps) == [] + PieceBytes(ps[0]);
  }

  lemma ListAssoc(x: seq<Entry>, y: seq<Entry>, z: seq<Entry>, w: seq<Entry>)
    ensures x + y + (z + w) == x + (y + z) + w
  {
  }

  /** A log written after an older text without record markers: the text is read as plain pairs,
      the log as its entries. */
  lemma {:induction false} DecodesAfterText(text: bytes, ps: seq<Piece>, tail: bytes)
    requires NoMarker(text) && ps != [] && AllFit(ps) && !ps[0].separated
    ensures Decode(text + (LogBytes(ps) + tail)) == Legacy(text) + Entries(ps) + Decode(tail)
  {
    if |ps| == 1 {
      OnePiece(ps);
      assert [] + Encode(ps[0].entry) == Encode(ps[0].entry);
      DecodesRecord(text, ps[0].entry, tail);
    } else {
      var init, last := ps[..|ps| - 1], ps[|ps| - 1];
      Assoc(LogBytes(init), PieceBytes(last), tail);
      DecodesAfterText(text, init, PieceBytes(last) + tail);
      DecodesPiece(last, tail);
      ListAssoc(Legacy(text), Entries(init), [Normal(last.entry)], Decode(tail));
    }
  }
}
