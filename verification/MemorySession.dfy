/** A RAM-shell session: the live history, the unsaved part of the log and the saved log, with the
    64 KiB caps. */
module MemorySession {
  import opened Basics
  import opened Bytes
  import opened Decimal
  import opened LogParser
  import opened LogReplay
  import opened History

  const CAP: nat := 65536          // RAM_SHELL_HISTORY_CAP_BYTES
  const LINE_LEN: nat := 256       // RAM_SHELL_LINE_LEN
  const OUTPUT_LEN: nat := 16384   // BITNET_OUTPUT_BUF_LEN

  datatype Session = Session(history: seq<QaRecord>, delta: bytes, db: bytes)

  datatype Op =
    | Ask(prompt: bytes, answer: bytes)
    | ForgetPhrase(phrase: bytes)
    | Flush(saved: bool)                      // whether the device accepted the delta
    | Reset
    | EraseAll(done: bool)                    // whether the device erased its log

  /** `qa_record_payload_len` and `history_payload_len`. */
  function PayloadLen(r: QaRecord): nat {
    SatAdd(SatAdd(|r.question|, |r.answer|), 8)
  }

  function HistoryLen(h: seq<QaRecord>): nat {
    if h == [] then 0 else PayloadLen(h[0]) + HistoryLen(h[1..])
  }

  /** `shrink_records`: the oldest records go until `needed` more bytes fit. */
  function ShrinkRecords(h: seq<QaRecord>, needed: nat): (r: seq<QaRecord>)
    ensures r == [] || SatAdd(HistoryLen(r), needed) <= CAP
  {
    if h != [] && SatAdd(HistoryLen(h), needed) > CAP then ShrinkRecords(h[1..], needed) else h
  }

  /** `shrink_bytes`: the log loses its front. */
  function ShrinkBytes(b: bytes, needed: nat): (r: bytes)
    ensures |b| <= ISIZE_MAX && needed <= CAP ==> |r| + needed <= CAP
  {
    if SatAdd(|b|, needed) <= CAP then b
    else if needed >= CAP then []
    else b[Min(SatAdd(|b|, needed) - CAP, |b|)..]
  }

  function AskNeeds(prompt: bytes, answer: bytes): nat {
    SatAdd(SatAdd(|prompt|, |answer|), 64)
  }

  function ForgetNeeds(phrase: bytes): nat {
    SatAdd(|ForgetKey(phrase)|, 64)
  }

  /** One command, as the shell carries it out. */
  function Step(s: Session, op: Op): Session {
    match op
    case Ask(p, a) =>
      Session(Upsert(ShrinkRecords(s.history, AskNeeds(p, a)), QaRecord(p, a)),
              AppendEntry(ShrinkBytes(s.delta, AskNeeds(p, a)), AddQa(p, a)),
              s.db)
    case ForgetPhrase(phrase) =>
      if Trim(phrase) == [] then s
      else Session(Forget(s.history, ForgetKey(phrase)),
                   AppendEntry(ShrinkBytes(s.delta, ForgetNeeds(phrase)), AddForget(ForgetKey(phrase))),
                   s.db)
    case Flush(saved) => if saved then Session(s.history, [], s.db + s.delta) else s
    case Reset => Session([], [], s.db)
    case EraseAll(done) => Session([], [], if done then [] else s.db)
  }

  /** `bitapp_load_memory_db_history`: at most `CAP` bytes are read. */
  function Load(db: bytes): seq<QaRecord> {
    LoadAll(db[..Min(|db|, CAP)])
  }

  function LoadAll(read: bytes): seq<QaRecord> {
    ShrinkRecords(PlayAll([], Decode(read)), 0)
  }

  function Boot(db: bytes): Session {
    Session(Load(db), [], db)
  }

  function Live(s: Session, ops: seq<Op>): Session {
    if ops == [] then s else Step(Live(s, ops[..|ops| - 1]), ops[|ops| - 1])
  }

  // ---------- the fixed 64-byte reserve ----------

  /** Framing costs at most 60 bytes for a record and 37 for a forget, separator included. */
  lemma FramingOverhead(e: Entry)
    requires Fits(e)
    ensures e.AddQa? ==> 1 + |Encode(e)| <= |e.question| + |e.answer| + 60
    ensures e.AddForget? ==> 1 + |Encode(e)| <= |e.key| + 37
  {
    match e {
      case AddQa(q, a) =>
        TwentyDigits(|q|);
        TwentyDigits(|a|);
      case AddForget(k) =>
        TwentyDigits(|k|);
    }
  }

  /** The commands for which the reserve is meant. */
  predicate Modest(op: Op) {
    match op
    case Ask(p, a) => |p| + |a| + 64 <= CAP
    case ForgetPhrase(phrase) => |ForgetKey(phrase)| + 64 <= CAP
    case _ => true
  }

  predicate WithinCaps(s: Session) {
    |s.delta| <= CAP && HistoryLen(s.history) <= CAP
  }

  lemma {:induction false} ForgetShortens(h: seq<QaRecord>, phrase: bytes)
    ensures HistoryLen(Forget(h, phrase)) <= HistoryLen(h)
  {
    if h != [] {
      ForgetShortens(h[1..], phrase);
      if !Matches(h[0], phrase) {
        assert Forget(h, phrase)[1..] == Forget(h[1..], phrase);
      }
    }
  }

  lemma {:induction false} DropKeyShortens(h: seq<QaRecord>, key: Option<bytes>)
    ensures HistoryLen(DropKey(h, key)) <= HistoryLen(h)
  {
    if h != [] {
      DropKeyShortens(h[1..], key);
      if RecordKey(h[0]) != key {
        assert DropKey(h, key)[1..] == DropKey(h[1..], key);
      }
    }
  }

  lemma {:induction false} LenAppend(h: seq<QaRecord>, r: QaRecord)
    ensures HistoryLen(h + [r]) == HistoryLen(h) + PayloadLen(r)
  {
    if h == [] {
      assert [r][1..] == [];
    } else {
      LenAppend(h[1..], r);
      assert (h + [r])[1..] == h[1..] + [r];
    }
  }

  lemma UpsertLen(h: seq<QaRecord>, r: QaRecord)
    ensures HistoryLen(Upsert(h, r)) <= HistoryLen(h) + PayloadLen(r)
  {
    DropKeyShortens(h, RecordKey(r));
    LenAppend(if RecordKey(r).Some? then DropKey(h, RecordKey(r)) else h, r);
  }

  lemma AppendLen(delta: bytes, e: Entry)
    ensures |AppendEntry(delta, e)| <= |delta| + 1 + |Encode(e)|
  {
  }

  lemma AskKeepsCaps(s: Session, p: bytes, a: bytes)
    requires WithinCaps(s) && |p| + |a| + 64 <= CAP
    ensures WithinCaps(Step(s, Ask(p, a)))
  {
    var n := AskNeeds(p, a);
    var kept := ShrinkRecords(s.history, n);
    var delta := ShrinkBytes(s.delta, n);
    UpsertLen(kept, QaRecord(p, a));
    FramingOverhead(AddQa(p, a));
    AppendLen(delta, AddQa(p, a));
  }

  lemma ForgetKeepsCaps(s: Session, phrase: bytes)
    requires WithinCaps(s) && |ForgetKey(phrase)| + 64 <= CAP
    ensures WithinCaps(Step(s, ForgetPhrase(phrase)))
  {
    var k := ForgetKey(phrase);
    ForgetShortens(s.history, k);
    FramingOverhead(AddForget(k));
    AppendLen(ShrinkBytes(s.delta, ForgetNeeds(phrase)), AddForget(k));
  }

  /** The reserve is enough: over every session of modest commands, with any evictions, neither the
      history nor the unsaved log ever exceeds 64 KiB. */
  lemma {:induction false} ReserveIsEnough(s: Session, ops: seq<Op>)
    requires WithinCaps(s) && forall i :: 0 <= i < |ops| ==> Modest(ops[i])
    ensures WithinCaps(Live(s, ops))
  {
    if ops != [] {
      var init, op := ops[..|ops| - 1], ops[|ops| - 1];
      ReserveIsEnough(s, init);
      match op {
        case Ask(p, a) => AskKeepsCaps(Live(s, init), p, a);
        case ForgetPhrase(phrase) => ForgetKeepsCaps(Live(s, init), phrase);
        case _ =>
      }
    }
  }

  /** A freshly loaded session is within the caps. */
  lemma BootIsWithinCaps(db: bytes)
    ensures WithinCaps(Boot(db))
  {
  }

  /** What the shell can produce is modest: a prompt fits the line buffer, an answer the output
      buffer, and a forget phrase is part of a line. */
  lemma ShellCommandsAreModest(prompt: bytes, answer: bytes, phrase: bytes)
    requires |prompt| < LINE_LEN && |answer| < OUTPUT_LEN && |phrase| < LINE_LEN
    ensures Modest(Ask(prompt, answer)) && Modest(ForgetPhrase(phrase))
  {
    var left, right := TrimSplits(phrase);
    if MemoryKey(Trim(phrase)).Some? {
      KeyIsListed(Trim(phrase), 0);
    }
  }

  // ---------- replay equals live ----------

  /** The command finds room for its entry without cutting the front off the unsaved log. */
  predicate HasRoom(s: Session, op: Op) {
    match op
    case Ask(p, a) => SatAdd(|s.delta|, AskNeeds(p, a)) <= CAP
    case ForgetPhrase(phrase) => SatAdd(|s.delta|, ForgetNeeds(phrase)) <= CAP
    case _ => true
  }

  predicate Clean(s: Session, ops: seq<Op>) {
    ops == [] || (Clean(s, ops[..|ops| - 1]) && HasRoom(Live(s, ops[..|ops| - 1]), ops[|ops| - 1]))
  }

  /** The records that `shrink_records` drops. */
  function Evicted(h: seq<QaRecord>, needed: nat): seq<QaRecord> {
    if h != [] && SatAdd(HistoryLen(h), needed) > CAP then [h[0]] + Evicted(h[1..], needed) else []
  }

  lemma {:induction false} ShrinkSplits(h: seq<QaRecord>, needed: nat)
    ensures Evicted(h, needed) + ShrinkRecords(h, needed) == h
  {
    if h != [] && SatAdd(HistoryLen(h), needed) > CAP {
      ShrinkSplits(h[1..], needed);
      assert h == [h[0]] + h[1..];
    }
  }

  /** The records that the log holds and the live history has given up. An eviction leaves the oldest
      ones behind; a reset, or an erase that the device fails to carry out, leaves all of the stored
      ones; later entries replace or forget some. */
  function StepStale(s: Session, stale: seq<QaRecord>, op: Op): seq<QaRecord> {
    match op
    case Ask(p, a) => Left(stale + Evicted(s.history, AskNeeds(p, a)), AddQa(p, a))
    case ForgetPhrase(phrase) => if Trim(phrase) == [] then stale else Left(stale, AddForget(ForgetKey(phrase)))
    case Flush(_) => stale
    case Reset => PlayAll([], Decode(s.db))
    case EraseAll(done) => if done then [] else PlayAll([], Decode(s.db))
  }

  /** At boot those that do not fit. */
  function NotLoaded(read: bytes): seq<QaRecord> {
    Evicted(PlayAll([], Decode(read)), 0)
  }

  function Stale(db: bytes, ops: seq<Op>): seq<QaRecord> {
    if ops == [] then NotLoaded(db[..Min(|db|, CAP)])
    else StepStale(Live(Boot(db), ops[..|ops| - 1]), Stale(db, ops[..|ops| - 1]), ops[|ops| - 1])
  }

  /** The saved log is an old plain text followed by records, the unsaved one is records; and they say
      the stale records followed by the live history. */
  ghost predicate Tracks(s: Session, stale: seq<QaRecord>, text: bytes, ps: seq<Piece>, ds: seq<Piece>) {
    && NoMarker(text) && Begun(ps) && Begun(ds)
    && s.db == text + LogBytes(ps) && s.delta == LogBytes(ds) && (ds == [] <==> s.delta == [])
    && stale + s.history == PlayAll([], Legacy(text) + Entries(ps + ds))
  }

  /** A stretch of records whose first has no newline before it. */
  predicate Begun(ps: seq<Piece>) {
    AllFit(ps) && (ps != [] ==> !ps[0].separated)
  }

  /** What sessions leave on the device: an old plain text, then records. */
  ghost predicate Saved(db: bytes) {
    exists text, ps :: SavedAs(db, text, ps)
  }

  predicate SavedAs(db: bytes, text: bytes, ps: seq<Piece>) {
    NoMarker(text) && Begun(ps) && db == text + LogBytes(ps)
  }

  lemma BegunConcat(ps: seq<Piece>, ds: seq<Piece>)
    requires Begun(ps) && Begun(ds)
    ensures Begun(ps + ds)
  {
  }

  lemma PlayOneMore(h: seq<QaRecord>, es: seq<Entry>, e: Entry)
    ensures PlayAll(h, es + [e]) == Play(PlayAll(h, es), e)
  {
    FoldConcat(Play, h, es, [e]);
  }

  lemma WriteOneMore(delta: bytes, ds: seq<Piece>, e: Entry)
    requires delta == LogBytes(ds) && (ds == [] <==> delta == []) && Begun(ds) && Fits(e)
    ensures var more := ds + [Piece(delta != [], e)];
            AppendEntry(delta, e) == LogBytes(more) != [] && Begun(more)
  {
    var p := Piece(delta != [], e);
    assert (ds + [p])[..|ds|] == ds;
    Assoc(delta, if delta == [] then [] else [NEWLINE], Encode(e));
    assert |Encode(e)| > 0;
  }

  lemma EntriesOneMore(l: seq<Entry>, ps: seq<Piece>, ds: seq<Piece>, p: Piece)
    ensures l + Entries(ps + (ds + [p])) == l + Entries(ps + ds) + [Normal(p.entry)]
  {
    assert ps + (ds + [p]) == ps + ds + [p];
    assert (ps + ds + [p])[..|ps + ds|] == ps + ds;
  }

  /** A command that appends one entry. */
  lemma TracksOneMore(s: Session, stale: seq<QaRecord>, text: bytes, ps: seq<Piece>, ds: seq<Piece>, e: Entry,
        s1: Session)
    requires Tracks(s, stale, text, ps, ds) && Fits(e) && Normal(e) == e
    requires s1.delta == AppendEntry(s.delta, e) && s1.db == s.db && s1.history == Play(s.history, e)
    ensures Tracks(s1, Left(stale, e), text, ps, ds + [Piece(s.delta != [], e)])
  {
    var p := Piece(s.delta != [], e);
    WriteOneMore(s.delta, ds, e);
    EntriesOneMore(Legacy(text), ps, ds, p);
    PlayOneMore([], Legacy(text) + Entries(ps + ds), e);
    PlaySplits(stale, s.history, e);
  }

  lemma ForgetKeyIsNormal(phrase: bytes)
    requires Trim(phrase) != []
    ensures ForgetKey(phrase) != [] && Normal(AddForget(ForgetKey(phrase))) == AddForget(ForgetKey(phrase))
  {
    if MemoryKey(Trim(phrase)).Some? {
      KeyIdempotent(Trim(phrase));
    } else {
      TrimFixed(Trim(phrase));
    }
  }

  lemma {:induction false} SessionTracks(db: bytes, ops: seq<Op>) returns (text: bytes, ps: seq<Piece>, ds: seq<Piece>)
    requires Saved(db) && |db| <= CAP && Clean(Boot(db), ops)
    ensures Tracks(Live(Boot(db), ops), Stale(db, ops), text, ps, ds)
  {
    if ops == [] {
      text, ps := BootTracks(db);
      ds := [];
    } else {
      var init, op := ops[..|ops| - 1], ops[|ops| - 1];
      text, ps, ds := SessionTracks(db, init);
      text, ps, ds := StepTracks(Live(Boot(db), init), Stale(db, init), op, text, ps, ds);
    }
  }

  lemma EvictionTracks(s: Session, stale: seq<QaRecord>, text: bytes, ps: seq<Piece>, ds: seq<Piece>,
        evicted: seq<QaRecord>, kept: seq<QaRecord>)
    requires Tracks(s, stale, text, ps, ds) && evicted + kept == s.history
    ensures Tracks(s.(history := kept), stale + evicted, text, ps, ds)
  {
    assert stale + evicted + kept == stale + s.history;
  }

  lemma StepTracks(s: Session, stale: seq<QaRecord>, op: Op, text0: bytes, ps0: seq<Piece>, ds0: seq<Piece>)
      returns (text: bytes, ps: seq<Piece>, ds: seq<Piece>)
    requires Tracks(s, stale, text0, ps0, ds0) && HasRoom(s, op)
    ensures Tracks(Step(s, op), StepStale(s, stale, op), text, ps, ds)
  {
    text, ps, ds := text0, ps0, ds0;
    match op {
      case Ask(p, a) =>
        var kept, evicted := ShrinkRecords(s.history, AskNeeds(p, a)), Evicted(s.history, AskNeeds(p, a));
        ShrinkSplits(s.history, AskNeeds(p, a));
        EvictionTracks(s, stale, text, ps, ds, evicted, kept);
        TracksOneMore(s.(history := kept), stale + evicted, text, ps, ds, AddQa(p, a), Step(s, op));
        ds := ds + [Piece(s.delta != [], AddQa(p, a))];
      case ForgetPhrase(phrase) =>
        if Trim(phrase) != [] {
          var e := AddForget(ForgetKey(phrase));
          ForgetKeyIsNormal(phrase);
          TracksOneMore(s, stale, text, ps, ds, e, Step(s, op));
          ds := ds + [Piece(s.delta != [], e)];
        }
      case Flush(saved) =>
        if saved {
          FlushTracks(s, stale, text, ps, ds);
          ps, ds := ps + ds, [];
        }
      case Reset =>
        ResetTracks(s, stale, text, ps, ds);
        ds := [];
      case EraseAll(done) =>
        if done {
          text, ps, ds := [], [], [];
          assert NoMarker([]) && Legacy([]) == [];
        } else {
          ResetTracks(s, stale, text, ps, ds);
          ds := [];
        }
    }
  }

  lemma FlushTracks(s: Session, stale: seq<QaRecord>, text: bytes, ps: seq<Piece>, ds: seq<Piece>)
    requires Tracks(s, stale, text, ps, ds)
    ensures Tracks(Session(s.history, [], s.db + s.delta), stale, text, ps + ds, [])
  {
    LogBytesConcat(ps, ds);
    Assoc(text, LogBytes(ps), LogBytes(ds));
    BegunConcat(ps, ds);
    assert ps + ds + [] == ps + ds;
  }

  /** What is stored is all that is left. */
  lemma ResetTracks(s: Session, stale: seq<QaRecord>, text: bytes, ps: seq<Piece>, ds: seq<Piece>)
    requires Tracks(s, stale, text, ps, ds)
    ensures Tracks(Session([], [], s.db), PlayAll([], Decode(s.db)), text, ps, [])
  {
    DecodesWhole(text, ps, s.db);
    assert ps + [] == ps;
    var h := PlayAll([], Decode(s.db));
    assert h + [] == h;
  }

  lemma TrackedLogReads(s: Session, stale: seq<QaRecord>, text: bytes, ps: seq<Piece>, ds: seq<Piece>)
    requires Tracks(s, stale, text, ps, ds)
    ensures PlayAll([], Decode(s.db + s.delta)) == stale + s.history
  {
    FlushTracks(s, stale, text, ps, ds);
    DecodesWhole(text, ps + ds, s.db + s.delta);
  }

  lemma LoadIs(read: bytes, said: seq<QaRecord>)
    requires said == PlayAll([], Decode(read))
    ensures LoadAll(read) == ShrinkRecords(said, 0) && NotLoaded(read) + LoadAll(read) == said
  {
    ShrinkSplits(said, 0);
  }

  lemma BootIs(db: bytes, said: seq<QaRecord>)
    requires |db| <= CAP && said == PlayAll([], Decode(db))
    ensures Boot(db) == Session(ShrinkRecords(said, 0), [], db) && Stale(db, []) + Boot(db).history == said
  {
    assert db[..|db|] == db;
    LoadIs(db, said);
  }

  lemma BootTracks(db: bytes) returns (text: bytes, ps: seq<Piece>)
    requires Saved(db) && |db| <= CAP
    ensures Tracks(Boot(db), Stale(db, []), text, ps, [])
  {
    text, ps :| SavedAs(db, text, ps);
    BootIs(db, PlayAll([], Decode(db)));
    DecodesWhole(text, ps, db);
    assert ps + [] == ps;
  }

  /** Start from anything that sessions can have left on the device and run any commands that do not cut
      the unsaved log, saving, resetting and erasing at any point, with a device that may fail and with
      evictions from the history: the bytes saved so far followed by the unsaved ones decode to the
      stale records followed by the live history. So replay equals live if and only if nothing is stale. */
  lemma ReplayEqualsLive(db: bytes, ops: seq<Op>)
    requires Saved(db) && |db| <= CAP && Clean(Boot(db), ops)
    ensures var s := Live(Boot(db), ops);
            && PlayAll([], Decode(s.db + s.delta)) == Stale(db, ops) + s.history
            && (PlayAll([], Decode(s.db + s.delta)) == s.history <==> Stale(db, ops) == [])
            && Saved(s.db) && Saved(s.db + s.delta)
  {
    var t, ps, ds := SessionTracks(db, ops);
    var s, stale := Live(Boot(db), ops), Stale(db, ops);
    TrackedLogReads(s, stale, t, ps, ds);
    assert |stale + s.history| == |stale| + |s.history|;
    assert [] + s.history == s.history;
    FlushTracks(s, stale, t, ps, ds);
    assert SavedAs(s.db, t, ps) && SavedAs(s.db + s.delta, t, ps + ds);
  }

  /** The command drops a stale record. */
  predicate OpDrops(op: Op, r: QaRecord) {
    match op
    case Ask(p, a) => Drops(AddQa(p, a), r)
    case ForgetPhrase(phrase) => Trim(phrase) != [] && Drops(AddForget(ForgetKey(phrase)), r)
    case Flush(_) => false
    case Reset => false
    case EraseAll(done) => done
  }

  /** A command that leaves records behind: a reset, an erase that fails, or an eviction. */
  predicate LeavesStale(s: Session, op: Op) {
    op == Reset || op == EraseAll(false) || (op.Ask? && Evicted(s.history, AskNeeds(op.prompt, op.answer)) != [])
  }

  /** None of the further commands does. */
  predicate NoneLeavesStale(s: Session, ops: seq<Op>, more: seq<Op>)
    decreases |more|
  {
    more == [] ||
    (NoneLeavesStale(s, ops, more[..|more| - 1]) && !LeavesStale(Live(s, ops + more[..|more| - 1]), more[|more| - 1]))
  }

  lemma StepStaleAre(s: Session, stale: seq<QaRecord>, op: Op, r: QaRecord)
    requires !LeavesStale(s, op)
    ensures r in StepStale(s, stale, op) <==> r in stale && !OpDrops(op, r)
  {
    match op {
      case Ask(p, a) =>
        LeftContents(stale, AddQa(p, a), r);
        assert stale + [] == stale;
      case ForgetPhrase(phrase) =>
        LeftContents(stale, AddForget(ForgetKey(phrase)), r);
      case _ =>
    }
  }

  predicate NoneDrops(more: seq<Op>, r: QaRecord) {
    more == [] || (NoneDrops(more[..|more| - 1], r) && !OpDrops(more[|more| - 1], r))
  }

  /** Which records are stale: those left behind by the last command that does so, or before it, and not
      replaced, forgotten or erased by a command since. */
  lemma {:induction false} StaleAre(db: bytes, ops: seq<Op>, more: seq<Op>, all: seq<Op>, r: QaRecord)
    requires NoneLeavesStale(Boot(db), ops, more) && all == ops + more
    ensures r in Stale(db, all) <==> r in Stale(db, ops) && NoneDrops(more, r)
    decreases |more|
  {
    if more == [] {
      assert all == ops;
    } else {
      var init, op := more[..|more| - 1], more[|more| - 1];
      LastLeavesNone(Boot(db), ops, init, op, more);
      SplitLast(ops, init, op, more);
      StaleAre(db, ops, init, ops + init, r);
      StaleStep(db, ops + init, op, all, r);
      StaleAreOneMore(Stale(db, ops), Stale(db, ops + init), Stale(db, all), init, op, more, r);
    }
  }

  lemma LastLeavesNone(s: Session, ops: seq<Op>, init: seq<Op>, op: Op, more: seq<Op>)
    requires more != [] && init == more[..|more| - 1] && op == more[|more| - 1] && NoneLeavesStale(s, ops, more)
    ensures NoneLeavesStale(s, ops, init) && !LeavesStale(Live(s, ops + init), op)
  {
  }

  lemma SplitLast(ops: seq<Op>, init: seq<Op>, op: Op, more: seq<Op>)
    requires more != [] && init == more[..|more| - 1] && op == more[|more| - 1]
    ensures ops + more == ops + init + [op]
  {
  }

  lemma StaleAreOneMore(first: seq<QaRecord>, before: seq<QaRecord>, last: seq<QaRecord>, init: seq<Op>, op: Op,
        more: seq<Op>, r: QaRecord)
    requires more != [] && init == more[..|more| - 1] && op == more[|more| - 1]
    requires r in before <==> r in first && NoneDrops(init, r)
    requires r in last <==> r in before && !OpDrops(op, r)
    ensures r in last <==> r in first && NoneDrops(more, r)
  {
  }

  lemma StaleStep(db: bytes, before: seq<Op>, op: Op, all: seq<Op>, r: QaRecord)
    requires !LeavesStale(Live(Boot(db), before), op) && all == before + [op]
    ensures r in Stale(db, all) <==> r in Stale(db, before) && !OpDrops(op, r)
  {
    OneMore(db, before, op);
    StepStaleAre(Live(Boot(db), before), Stale(db, before), op, r);
  }

  lemma OneMore(db: bytes, ops: seq<Op>, op: Op)
    ensures Live(Boot(db), ops + [op]) == Step(Live(Boot(db), ops), op)
    ensures Stale(db, ops + [op]) == StepStale(Live(Boot(db), ops), Stale(db, ops), op)
    ensures Clean(Boot(db), ops + [op]) <==> Clean(Boot(db), ops) && HasRoom(Live(Boot(db), ops), op)
  {
    assert (ops + [op])[..|ops|] == ops;
  }

  /** Where all of the stored log fits at boot and no command leaves records behind, nothing is stale. */
  lemma {:induction false} NothingStale(db: bytes, ops: seq<Op>)
    requires Stale(db, []) == [] && NoneLeavesStale(Boot(db), [], ops)
    ensures Stale(db, ops) == []
    decreases |ops|
  {
    if ops != [] {
      var init, op := ops[..|ops| - 1], ops[|ops| - 1];
      NothingStale(db, init);
      assert [] + init == init;
      NothingLeft(Live(Boot(db), init), op);
    }
  }

  lemma NothingLeft(s: Session, op: Op)
    requires !LeavesStale(s, op)
    ensures StepStale(s, [], op) == []
  {
  }

  /** After a save, an erase that fails leaves all that the log says in it, and nothing live. */
  lemma FailedEraseLeaves(db: bytes, ops: seq<Op>)
    requires Saved(db) && |db| <= CAP && Clean(Boot(db), ops)
    ensures var all := ops + [Flush(true)] + [EraseAll(false)];
            var s := Live(Boot(db), all);
            && Clean(Boot(db), all) && s.history == []
            && PlayAll([], Decode(s.db + s.delta)) == Stale(db, ops) + Live(Boot(db), ops).history
  {
    var saved := ops + [Flush(true)];
    OneMore(db, ops, Flush(true));
    OneMore(db, saved, EraseAll(false));
    ReplayEqualsLive(db, saved);
    assert Live(Boot(db), saved).db + [] == Live(Boot(db), saved).db;
  }

  lemma FirstAsk(prompt: bytes, answer: bytes)
    requires |prompt| + |answer| + 64 <= CAP
    ensures Clean(Boot([]), [Ask(prompt, answer)]) && Stale([], [Ask(prompt, answer)]) == []
    ensures Live(Boot([]), [Ask(prompt, answer)]).history == [QaRecord(prompt, answer)]
  {
    EmptyBoot();
    OneMore([], [], Ask(prompt, answer));
    assert [] + [Ask(prompt, answer)] == [Ask(prompt, answer)];
    assert Evicted([], AskNeeds(prompt, answer)) == [] && Stale([], []) == [];
    assert ShrinkRecords([], AskNeeds(prompt, answer)) == [];
    assert Left([] + [], AddQa(prompt, answer)) == [];
  }

  /** The failing run: an answer is saved, the erase fails, and the stored log still has the answer that
      the live history has given up. */
  lemma ErasedComesBack(prompt: bytes, answer: bytes)
    requires |prompt| + |answer| + 64 <= CAP
    ensures var ops := [Ask(prompt, answer)] + [Flush(true)] + [EraseAll(false)];
            var s := Live(Boot([]), ops);
            && Clean(Boot([]), ops) && s.history == []
            && PlayAll([], Decode(s.db + s.delta)) == [QaRecord(prompt, answer)]
  {
    EmptyBoot();
    FirstAsk(prompt, answer);
    FailedEraseLeaves([], [Ask(prompt, answer)]);
  }

  lemma EmptyBoot()
    ensures Saved([]) && PlayAll([], Decode([])) == [] && Boot([]) == Session([], [], [])
  {
    assert SavedAs([], [], []);
  }

  /** A reboot after a save gives the newest of what the log says, stale records included, as far as they
      fit the cap; and so, where all of it fits, the session itself if and only if nothing is stale. */
  lemma RebootRestores(db: bytes, ops: seq<Op>)
    requires Saved(db) && |db| <= CAP && Clean(Boot(db), ops + [Flush(true)])
    requires |Live(Boot(db), ops + [Flush(true)]).db| <= CAP
    ensures var all := ops + [Flush(true)];
            var s := Live(Boot(db), all);
            var said := Stale(db, all) + s.history;
            && Boot(s.db) == Session(ShrinkRecords(said, 0), [], s.db)
            && (HistoryLen(said) <= CAP ==> (Boot(s.db) == s <==> Stale(db, all) == []))
  {
    var all := ops + [Flush(true)];
    var s := Live(Boot(db), all);
    ReplayEqualsLive(db, all);
    assert s.delta == [] && s.db + [] == s.db;
    BootIs(s.db, Stale(db, all) + s.history);
    assert |Stale(db, all) + s.history| == |Stale(db, all)| + |s.history|;
    assert [] + s.history == s.history;
  }

  lemma {:induction false} LogBytesConcat(ps: seq<Piece>, qs: seq<Piece>)
    ensures LogBytes(ps + qs) == LogBytes(ps) + LogBytes(qs)
  {
    if qs == [] {
      assert ps + [] == ps && LogBytes(ps) + [] == LogBytes(ps);
    } else {
      var init, last := qs[..|qs| - 1], qs[|qs| - 1];
      LogBytesConcat(ps, init);
      assert (ps + qs)[..|ps + qs| - 1] == ps + init && (ps + qs)[|ps + qs| - 1] == last;
      Assoc(LogBytes(ps), LogBytes(init), PieceBytes(last));
    }
  }

  lemma {:induction false} EntriesConcat(ps: seq<Piece>, qs: seq<Piece>)
    ensures Entries(ps + qs) == Entries(ps) + Entries(qs)
  {
    if qs == [] {
      assert ps + [] == ps;
    } else {
      var init, last := qs[..|qs| - 1], qs[|qs| - 1];
      EntriesConcat(ps, init);
      assert (ps + qs)[..|ps + qs| - 1] == ps + init && (ps + qs)[|ps + qs| - 1] == last;
    }
  }

  lemma DecodesWhole(text: bytes, ps: seq<Piece>, b: bytes)
    requires NoMarker(text) && AllFit(ps) && (ps != [] ==> !ps[0].separated) && b == text + LogBytes(ps)
    ensures Decode(b) == Legacy(text) + Entries(ps)
  {
    if ps == [] {
      assert b == text;
      DecodesPlainText(text);
    } else {
      DecodesAfterText(text, ps, []);
      assert LogBytes(ps) + [] == LogBytes(ps) && Decode([]) == [];
    }
  }

  lemma PlaySplit(x: seq<Entry>, y: seq<Entry>, z: seq<Entry>)
    ensures PlayAll([], x + (y + z)) == PlayAll(PlayAll([], x + y), z)
  {
    assert x + (y + z) == x + y + z;
    FoldConcat(Play, [], x + y, z);
  }

  /** Reading a saved log with more records after it continues from the history of the saved log. */
  lemma DeltaContinues(text: bytes, ps: seq<Piece>, ds: seq<Piece>, db: bytes, delta: bytes)
    requires NoMarker(text) && AllFit(ps) && AllFit(ds) && (ps + ds != [] ==> !(ps + ds)[0].separated)
    requires db == text + LogBytes(ps) && delta == LogBytes(ds)
    ensures PlayAll([], Decode(db + delta)) == PlayAll(PlayAll([], Decode(db)), Entries(ds))
  {
    LogBytesConcat(ps, ds);
    EntriesConcat(ps, ds);
    Assoc(text, LogBytes(ps), LogBytes(ds));
    assert ps != [] ==> ps[0] == (ps + ds)[0];
    DecodesWhole(text, ps, db);
    DecodesWhole(text, ps + ds, db + delta);
    PlaySplit(Legacy(text), Entries(ps), Entries(ds));
  }

  // ---------- unique keys over whole sessions ----------

  lemma {:induction false} ShrinkKeepsUnique(h: seq<QaRecord>, needed: nat)
    requires UniqueKeys(h)
    ensures UniqueKeys(ShrinkRecords(h, needed))
  {
    if h != [] && SatAdd(HistoryLen(h), needed) > CAP {
      UniqueKeysTail(h);
      ShrinkKeepsUnique(h[1..], needed);
    }
  }

  lemma PlayKeepsUnique(h: seq<QaRecord>, e: Entry)
    requires UniqueKeys(h)
    ensures UniqueKeys(Play(h, e))
  {
    match e {
      case AddQa(q, a) => UpsertKeepsUnique(h, QaRecord(q, a));
      case AddForget(k) => ForgetKeepsUnique(h, k);
    }
  }

  lemma {:induction false} PlayAllKeepsUnique(h: seq<QaRecord>, es: seq<Entry>)
    requires UniqueKeys(h)
    ensures UniqueKeys(PlayAll(h, es))
    decreases es
  {
    if es != [] {
      PlayKeepsUnique(h, es[0]);
      PlayAllKeepsUnique(Play(h, es[0]), es[1..]);
    }
  }

  lemma LoadIsUnique(read: bytes)
    ensures UniqueKeys(LoadAll(read))
  {
    PlayAllKeepsUnique([], Decode(read));
    ShrinkKeepsUnique(PlayAll([], Decode(read)), 0);
  }

  /** Whatever bytes the stored log holds and whatever commands follow, no two records of the live
      history share a memory key. */
  lemma {:induction false} KeysStayUnique(db: bytes, ops: seq<Op>)
    ensures UniqueKeys(Live(Boot(db), ops).history)
  {
    if ops == [] {
      LoadIsUnique(db[..Min(|db|, CAP)]);
    } else {
      var init, op := ops[..|ops| - 1], ops[|ops| - 1];
      KeysStayUnique(db, init);
      var h := Live(Boot(db), init).history;
      match op {
        case Ask(p, a) =>
          ShrinkKeepsUnique(h, AskNeeds(p, a));
          UpsertKeepsUnique(ShrinkRecords(h, AskNeeds(p, a)), QaRecord(p, a));
        case ForgetPhrase(phrase) =>
          ForgetKeepsUnique(h, ForgetKey(phrase));
        case _ =>
      }
    }
  }
}
