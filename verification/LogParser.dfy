/** Reading the memory log back: the structured records, resynchronisation after a bad header, and
    the plain-text records of older logs. Decoding yields a list of entries; the parser is parametric
    in what an entry does to the history, which is in `History`. */
module LogParser {
  import opened Basics
  import opened Bytes
  import opened Decimal

  const QA_MARK: bytes := [91, 82, 65, 77, 81, 65, 32, 118, 49, 32, 113, 61]  // [RAMQA v1 q=
  const DEL_MARK: bytes := [91, 82, 65, 77, 68, 69, 76, 32, 118, 49, 32, 107, 61]  // [RAMDEL v1 k=
  const A_MARK: bytes := [32, 97, 61]  // " a="
  const Q_PREFIX: bytes := [81, 58, 32]  // "Q: "
  const A_PREFIX: bytes := [65, 58, 32]  // "A: "
  const CLOSE: byte := 93  // ]

  /** A change to the history, as the log records it. */
  datatype Entry = AddQa(question: bytes, answer: bytes) | AddForget(key: bytes)

  /** The history `h` after a list of entries. */
  function Fold<H>(play: (H, Entry) -> H, h: H, es: seq<Entry>): H
    decreases es
  {
    if es == [] then h else Fold(play, play(h, es[0]), es[1..])
  }

  lemma {:induction false} FoldConcat<H>(play: (H, Entry) -> H, h: H, es: seq<Entry>, fs: seq<Entry>)
    ensures Fold(play, h, es + fs) == Fold(play, Fold(play, h, es), fs)
    decreases es
  {
    if es == [] {
      assert es + fs == fs;
    } else {
      assert (es + fs)[1..] == es[1..] + fs;
      FoldConcat(play, play(h, es[0]), es[1..], fs);
    }
  }

  /** What a marker leads to. `next` counts from the start of the marker. */
  datatype Frame =
    | Stop                                   // truncated: parsing ends
    | Resync                                 // not a record: go on one byte after the marker
    | Record(entry: Entry, next: nat)

  /** The two lengths of a question/answer header without its newline. */
  function QaLengths(header: bytes): Option<(nat, nat)> {
    match FindSub(header, A_MARK)
    case None => None
    case Some(m) =>
      if header[|header| - 1] != CLOSE then None
      else
        MarkerIsNotLast(header);
        match (ParseDec(header[..m]), ParseDec(header[m + 3..|header| - 1]))
        case (Some(q), Some(a)) => Some((q, a))
        case _ => None
  }

  /** A header that ends in `]` has at least that byte after the marker. */
  lemma MarkerIsNotLast(header: bytes)
    requires FindSub(header, A_MARK).Some? && header[|header| - 1] == CLOSE
    ensures FindSub(header, A_MARK).value + 3 < |header|
  {
    FindSubIsFirst(header, A_MARK);
    var m := FindSub(header, A_MARK).value;
    assert header[m..m + 3][2] == A_MARK[2] != CLOSE;
  }

  function DelLength(header: bytes): Option<nat> {
    if header == [] || header[|header| - 1] != CLOSE then None
    else ParseDec(header[..|header| - 1])
  }

  /** The two parts of a question/answer record, of these lengths, from `qStart` on. */
  function QaBody(s: bytes, qStart: nat, q: nat, a: nat): (f: Frame)
    ensures f.Record? ==> qStart < f.next <= |s|
  {
    var aStart := qStart + q + 1;
    if aStart + a > |s| then Stop
    else Record(AddQa(s[qStart..qStart + q], s[aStart..aStart + a]), Min(aStart + a + 1, |s|))
  }

  /** A record that starts with `QA_MARK`, over unbounded numbers. */
  function ReadQa(s: bytes): (f: Frame)
    requires |QA_MARK| <= |s|
    ensures f.Record? ==> 0 < f.next <= |s|
  {
    match FindByte(s[|QA_MARK|..], NEWLINE)
    case None => Stop
    case Some(e) =>
      match QaLengths(s[|QA_MARK|..|QA_MARK| + e])
      case None => Resync
      case Some((q, a)) => QaBody(s, |QA_MARK| + e + 1, q, a)
  }

  function ReadDel(s: bytes): (f: Frame)
    requires |DEL_MARK| <= |s|
    ensures f.Record? ==> 0 < f.next <= |s|
  {
    match FindByte(s[|DEL_MARK|..], NEWLINE)
    case None => Stop
    case Some(e) =>
      match DelLength(s[|DEL_MARK|..|DEL_MARK| + e])
      case None => Resync
      case Some(k) =>
        var kStart := |DEL_MARK| + e + 1;
        if kStart + k > |s| then Stop
        else Record(AddForget(Trim(s[kStart..kStart + k])), Min(kStart + k + 1, |s|))
  }

  datatype Mark = QaMark | DelMark

  function Marker(m: Mark): bytes {
    if m == QaMark then QA_MARK else DEL_MARK
  }

  /** The earliest marker of either kind. */
  function NextMark(s: bytes): (r: Option<(nat, Mark)>)
    ensures r.Some? ==> r.value.0 + |Marker(r.value.1)| <= |s|
  {
    match (FindSub(s, QA_MARK), FindSub(s, DEL_MARK))
    case (None, None) => None
    case (Some(q), None) => Some((q, QaMark))
    case (None, Some(d)) => Some((d, DelMark))
    case (Some(q), Some(d)) => if d < q then Some((d, DelMark)) else Some((q, QaMark))
  }

  function ReadFrame(s: bytes, m: Mark): (f: Frame)
    requires |Marker(m)| <= |s|
    ensures f.Record? ==> 0 < f.next <= |s|
  {
    if m == QaMark then ReadQa(s) else ReadDel(s)
  }

  /** One turn of a parser: the entries it finds, and whether it goes on `skip` bytes further. */
  datatype Turn = Halt(entries: seq<Entry>) | Go(entries: seq<Entry>, skip: nat)

  function DecodeTurn(s: bytes): (t: Turn)
    ensures t.Go? ==> 0 < t.skip <= |s|
  {
    match NextMark(s)
    case None => Halt(Legacy(s))
    case Some((i, m)) =>
      match ReadFrame(s[i..], m)
      case Stop => Halt(Legacy(s[..i]))
      case Resync => Go(Legacy(s[..i]), i + 1)
      case Record(e, n) => Go(Legacy(s[..i]) + [e], i + n)
  }

  /** The entries in `s`, as a function of the bytes still to be read. */
  function Decode(s: bytes): seq<Entry>
    decreases |s|
  {
    if s == [] then []
    else
      match DecodeTurn(s)
      case Halt(es) => es
      case Go(es, n) => es + Decode(s[n..])
  }

  /** What the next `Q: ` leads to; `next` is past the end of the text if nothing follows. */
  datatype Line = NoLine | NoAnswer(next: nat) | Pair(question: bytes, answer: bytes, next: nat)

  /** The line after a question, from `line` on. */
  function AnswerLine(s: bytes, line: nat, question: bytes): (l: Line)
    requires 0 < line <= |s|
    ensures l.NoAnswer? ==> 0 < l.next <= |s|
    ensures l.Pair? ==> 0 < l.next <= |s| + 1
  {
    if !(A_PREFIX <= s[line..]) then NoAnswer(line)
    else
      var end := match FindByte(s[line + 3..], NEWLINE) case Some(x) => x case None => |s| - (line + 3);
      Pair(question, Trim(s[line + 3..line + 3 + end]), line + 3 + end + 1)
  }

  function NextPair(s: bytes): (l: Line)
    ensures l.NoAnswer? ==> 0 < l.next <= |s|
    ensures l.Pair? ==> 0 < l.next <= |s| + 1
  {
    match FindSub(s, Q_PREFIX)
    case None => NoLine
    case Some(i) =>
      match FindByte(s[i + 3..], NEWLINE)
      case None => NoLine
      case Some(e) => AnswerLine(s, i + 3 + e + 1, Trim(s[i + 3..i + 3 + e]))
  }

  /** A plain pair counts if neither part is blank. */
  function PairEntry(q: bytes, a: bytes): seq<Entry> {
    if q != [] && a != [] then [AddQa(q, a)] else []
  }

  function LegacyTurn(s: bytes): (t: Turn)
    ensures t.Go? ==> 0 < t.skip <= |s|
  {
    match NextPair(s)
    case NoLine => Halt([])
    case NoAnswer(n) => Go([], n)
    case Pair(q, a, n) => if n > |s| then Halt(PairEntry(q, a)) else Go(PairEntry(q, a), n)
  }

  /** Plain `Q: ...` / `A: ...` lines. */
  function Legacy(s: bytes): seq<Entry>
    decreases |s|
  {
    match LegacyTurn(s)
    case Halt(es) => es
    case Go(es, n) => es + Legacy(s[n..])
  }

  // ---------- the loops of the source ----------

  /** The slicing in one turn of `parse_legacy_qa_records`. */
  method ReadPair(input: bytes) returns (l: Line)
    ensures l == NextPair(input)
  {
    var q := FindSub(input, Q_PREFIX);
    if q.None? {
      return NoLine;
    }
    var s := input[q.value + 3..];
    var e := FindByte(s, NEWLINE);
    if e.None? {
      return NoLine;
    }
    ghost var line := q.value + 3 + e.value + 1;
    assert s[..e.value] == input[q.value + 3..q.value + 3 + e.value];
    var question := TrimAscii(s[..e.value]);
    s := s[e.value + 1..];
    assert s == input[line..];
    l := ReadAnswer(input, s, question, line);
  }

  method ReadAnswer(input: bytes, slice: bytes, question: bytes, ghost line: nat) returns (l: Line)
    requires 0 < line <= |input| && slice == input[line..]
    ensures l == AnswerLine(input, line, question)
  {
    if !(A_PREFIX <= slice) {
      return NoAnswer(|input| - |slice|);
    }
    var s := slice[3..];
    assert s == input[line + 3..];
    var a := FindByte(s, NEWLINE);
    var end := if a.Some? then a.value else |s|;
    assert s[..end] == input[line + 3..line + 3 + end];
    var answer := TrimAscii(s[..end]);
    l := Pair(question, answer, |input| - |s| + end + 1);
  }

  /** `parse_legacy_qa_records`: the slice gets shorter every turn. */
  method ParseLegacyRecords<H>(input: bytes, history: H, play: (H, Entry) -> H) returns (h: H)
    ensures h == Fold(play, history, Legacy(input))
  {
    var s := input;
    h := history;
    while true
      invariant Fold(play, h, Legacy(s)) == Fold(play, history, Legacy(input))
      decreases |s|
    {
      var l := ReadPair(s);
      match l {
        case NoLine =>
          return;
        case NoAnswer(n) =>
          assert [] + Legacy(s[n..]) == Legacy(s[n..]);
          s := s[n..];
        case Pair(q, a, n) =>
          if n > |s| {
            return Fold(play, h, PairEntry(q, a));
          }
          FoldConcat(play, h, PairEntry(q, a), Legacy(s[n..]));
          h := Fold(play, h, PairEntry(q, a));
          s := s[n..];
      }
    }
  }

  /** A frame read at absolute position `start`. */
  function Shift(f: Frame, start: nat): Frame {
    match f
    case Record(e, n) => Record(e, start + n)
    case _ => f
  }

  /** The question/answer branch of the parser, with absolute offsets and saturating sums. */
  method ReadQaAt(b: bytes, start: nat) returns (f: Frame)
    requires |b| <= ISIZE_MAX && start + |QA_MARK| <= |b|
    ensures f == Shift(ReadQa(b[start..]), start)
  {
    ghost var s := b[start..];
    var headerStart := start + |QA_MARK|;
    assert s[|QA_MARK|..] == b[headerStart..];
    var rel := FindByte(b[headerStart..], NEWLINE);
    if rel.None? {
      return Stop;
    }
    var headerEnd := headerStart + rel.value;
    assert s[|QA_MARK|..|QA_MARK| + rel.value] == b[headerStart..headerEnd];
    var lengths := QaLengths(b[headerStart..headerEnd]);
    if lengths.None? {
      return Resync;
    }
    f := ReadQaBody(b, start, headerEnd + 1, lengths.value.0, lengths.value.1);
  }

  method ReadQaBody(b: bytes, ghost start: nat, qStart: nat, q: nat, a: nat) returns (f: Frame)
    requires |b| <= ISIZE_MAX && start <= qStart <= |b|
    ensures f == Shift(QaBody(b[start..], qStart - start, q, a), start)
  {
    var qEnd := SatAdd(qStart, q);
    var aStart := SatAdd(qEnd, 1);
    var aEnd := SatAdd(aStart, a);
    if aEnd > |b| {
      return Stop;
    }
    assert b[qStart..qEnd] == b[start..][qStart - start..qEnd - start];
    assert b[aStart..aEnd] == b[start..][aStart - start..aEnd - start];
    f := Record(AddQa(b[qStart..qEnd], b[aStart..aEnd]), Min(SatAdd(aEnd, 1), |b|));
  }

  /** The forget branch of the parser. */
  method ReadDelAt(b: bytes, start: nat) returns (f: Frame)
    requires |b| <= ISIZE_MAX && start + |DEL_MARK| <= |b|
    ensures f == Shift(ReadDel(b[start..]), start)
  {
    ghost var s := b[start..];
    var headerStart := start + |DEL_MARK|;
    assert s[|DEL_MARK|..] == b[headerStart..];
    var rel := FindByte(b[headerStart..], NEWLINE);
    if rel.None? {
      return Stop;
    }
    var headerEnd := headerStart + rel.value;
    assert s[|DEL_MARK|..|DEL_MARK| + rel.value] == b[headerStart..headerEnd];
    var length := DelLength(b[headerStart..headerEnd]);
    if length.None? {
      return Resync;
    }
    var kStart := headerEnd + 1;
    var kEnd := SatAdd(kStart, length.value);
    if kEnd > |b| {
      return Stop;
    }
    assert b[kStart..kEnd] == s[kStart - start..kEnd - start];
    var key := TrimAscii(b[kStart..kEnd]);
    f := Record(AddForget(key), Min(SatAdd(kEnd, 1), |b|));
  }

  /** The entries of one turn that found frame `f` (with absolute `next`) at `start`. */
  function TurnAt(b: bytes, offset: nat, start: nat, f: Frame): Turn
    requires offset <= start <= |b| && (f.Record? ==> offset <= f.next)
  {
    match f
    case Stop => Halt(Legacy(b[offset..start]))
    case Resync => Go(Legacy(b[offset..start]), start + 1 - offset)
    case Record(e, n) => Go(Legacy(b[offset..start]) + [e], n - offset)
  }

  lemma NoMarkTurn(b: bytes, offset: nat)
    requires offset < |b| && NextMark(b[offset..]).None?
    ensures DecodeTurn(b[offset..]) == TurnAt(b, offset, |b|, Stop)
  {
    assert b[offset..|b|] == b[offset..];
  }

  lemma MarkTurn(b: bytes, offset: nat, i: nat, m: Mark)
    requires offset < |b| && NextMark(b[offset..]) == Some((i, m))
    ensures offset + i < |b| && |Marker(m)| <= |b[offset + i..]|
    ensures var f := Shift(ReadFrame(b[offset + i..], m), offset + i);
            && (f.Record? ==> offset < f.next <= |b|)
            && DecodeTurn(b[offset..]) == TurnAt(b, offset, offset + i, f)
  {
    assert b[offset..][..i] == b[offset..offset + i];
    assert b[offset..][i..] == b[offset + i..];
  }

  /** The scan for a record in one turn of `parse_structured_qa_records`. */
  method NextRecord(b: bytes, offset: nat) returns (start: nat, f: Frame)
    requires |b| <= ISIZE_MAX && offset < |b|
    ensures offset <= start <= |b| && (f.Record? ==> offset < f.next <= |b|) && (f.Resync? ==> start < |b|)
    ensures DecodeTurn(b[offset..]) == TurnAt(b, offset, start, f)
  {
    var mark := NextMark(b[offset..]);
    if mark.None? {
      NoMarkTurn(b, offset);
      return |b|, Stop;
    }
    MarkTurn(b, offset, mark.value.0, mark.value.1);
    start := offset + mark.value.0;
    if mark.value.1 == QaMark {
      f := ReadQaAt(b, start);
    } else {
      f := ReadDelAt(b, start);
    }
  }

  lemma DecodeByTurn(b: bytes, offset: nat, t: Turn, next: nat, s: bytes)
    requires offset < |b| && s == b[offset..] && DecodeTurn(s) == t && (t.Go? ==> next == offset + t.skip)
    ensures t.Halt? ==> Decode(s) == t.entries
    ensures t.Go? ==> offset < next <= |b| && Decode(s) == t.entries + Decode(b[next..])
  {
    if t.Go? {
      assert s[t.skip..] == b[next..];
    }
  }

  /** The history after one turn. */
  method PlayTurn<H>(b: bytes, offset: nat, start: nat, f: Frame, history: H, play: (H, Entry) -> H, ghost turn: Turn)
      returns (h: H)
    requires offset <= start <= |b| && (f.Record? ==> offset <= f.next) && turn == TurnAt(b, offset, start, f)
    ensures h == Fold(play, history, turn.entries) && turn.Halt? == f.Stop?
    ensures turn.Go? ==> offset + turn.skip == if f.Record? then f.next else start + 1
  {
    h := ParseLegacyRecords(b[offset..start], history, play);
    if f.Record? {
      FoldConcat(play, history, Legacy(b[offset..start]), [f.entry]);
      h := play(h, f.entry);
    }
  }

  /** One turn of the loop in `parse_structured_qa_records`. */
  method ParseTurn<H>(b: bytes, offset: nat, history: H, play: (H, Entry) -> H) returns (halt: bool, next: nat, h: H)
    requires |b| <= ISIZE_MAX && offset < |b|
    ensures halt ==> h == Fold(play, history, Decode(b[offset..]))
    ensures !halt ==> offset < next <= |b|
    ensures !halt ==> Fold(play, h, Decode(b[next..])) == Fold(play, history, Decode(b[offset..]))
  {
    var start, f := NextRecord(b, offset);
    halt, next := f.Stop?, if f.Record? then f.next else start + 1;
    ghost var turn := TurnAt(b, offset, start, f);
    DecodeByTurn(b, offset, turn, next, b[offset..]);
    h := PlayTurn(b, offset, start, f, history, play, turn);
    if !halt {
      FoldConcat(play, history, turn.entries, Decode(b[next..]));
    }
  }

  /** `parse_structured_qa_records`: total on every byte string, with an offset that only advances;
      saturating 64-bit sums and absolute offsets give what `Decode` says of the remaining bytes. */
  method ParseStructuredRecords<H>(b: bytes, history: H, play: (H, Entry) -> H) returns (h: H)
    requires |b| <= ISIZE_MAX
    ensures h == Fold(play, history, Decode(b))
  {
    var offset: nat := 0;
    h := history;
    assert b[0..] == b;
    while offset < |b|
      invariant offset <= |b| && Fold(play, h, Decode(b[offset..])) == Fold(play, history, Decode(b))
      decreases |b| - offset
    {
      var halt, next, h1 := ParseTurn(b, offset, h, play);
      if halt {
        return h1;
      }
      offset, h := next, h1;
    }
    assert b[offset..] == [];
  }
}
