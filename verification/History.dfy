/** Question/answer records, their memory keys, and the keyed upsert and forget of the RAM shell. */
module History {
  import opened Basics
  import opened Bytes
  import opened WordMatch
  import opened LogParser

  datatype QaRecord = QaRecord(question: bytes, answer: bytes)

  const SECURE: bytes := [115, 101, 99, 117, 114, 101]  // secure
  const PHRASE: bytes := [112, 104, 114, 97, 115, 101]  // phrase
  const STORED: bytes := [115, 116, 111, 114, 101, 100]  // stored
  const SECURED: bytes := [115, 101, 99, 117, 114, 101, 100]  // secured
  const SECRET: bytes := [115, 101, 99, 114, 101, 116]  // secret
  const KEY: bytes := [107, 101, 121]  // key
  const MEMORY: bytes := [109, 101, 109, 111, 114, 121]  // memory
  const TEST: bytes := [116, 101, 115, 116]  // test
  const PROJECT: bytes := [112, 114, 111, 106, 101, 99, 116]  // project
  const CODENAME: bytes := [99, 111, 100, 101, 110, 97, 109, 101]  // codename
  const CODE: bytes := [99, 111, 100, 101]  // code
  const NAME: bytes := [110, 97, 109, 101]  // name
  const SECURE_PHRASE: bytes := [115, 101, 99, 117, 114, 101, 32, 112, 104, 114, 97, 115, 101]  // secure phrase
  const SECRET_PHRASE: bytes := [115, 101, 99, 114, 101, 116, 32, 112, 104, 114, 97, 115, 101]  // secret phrase
  const MEMORY_TEST_PHRASE: bytes := [109, 101, 109, 111, 114, 121, 32, 116, 101, 115, 116, 32, 112, 104, 114, 97,
      115, 101]  // memory test phrase

  /** Every pattern used, with the key it stands for; the first pattern found decides. */
  const PATTERNS: seq<(seq<bytes>, bytes)> := [
    ([SECURE, PHRASE], SECURE_PHRASE),
    ([STORED, SECURE, PHRASE], SECURE_PHRASE),
    ([SECURED, STORED, PHRASE], SECURE_PHRASE),
    ([SECRET, PHRASE], SECRET_PHRASE),
    ([SECRET, KEY], SECRET_PHRASE),
    ([MEMORY, TEST, PHRASE], MEMORY_TEST_PHRASE),
    ([PROJECT, CODENAME], CODENAME),
    ([CODE, NAME], CODENAME),
    ([CODENAME], CODENAME)
  ]

  function FirstKey(text: bytes, i: nat): Option<bytes>
    decreases |PATTERNS| - i
  {
    if i >= |PATTERNS| then None
    else if Contains(text, PATTERNS[i].0) then Some(PATTERNS[i].1)
    else FirstKey(text, i + 1)
  }

  /** `memory_key_from_text`. */
  function MemoryKey(text: bytes): Option<bytes> {
    FirstKey(text, 0)
  }

  const QUESTION_WORDS: seq<bytes> := [
    [119, 104, 97, 116],
    [119, 104, 105, 99, 104],
    [119, 104, 111],
    [119, 104, 101, 110],
    [119, 104, 101, 114, 101],
    [119, 104, 121],
    [104, 111, 119],
    [100, 111],
    [100, 111, 101, 115],
    [100, 105, 100],
    [105, 115],
    [97, 114, 101],
    [99, 97, 110],
    [119, 105, 108, 108]
  ]  // what which who when where why how do does did is are can will

  /** `starts_with_question_word` and `looks_like_question`. */
  predicate StartsWithQuestionWord(text: bytes) {
    var t := Trim(text);
    var first := t[..RunLength(t)];
    first != [] && exists i :: 0 <= i < |QUESTION_WORDS| && EqIgnoreCase(first, QUESTION_WORDS[i])
  }

  predicate LooksLikeQuestion(text: bytes) {
    63 in text || StartsWithQuestionWord(text)
  }

  /** `qa_record_key`: a question that is a statement names the key first, else the answer does. */
  function RecordKey(r: QaRecord): Option<bytes> {
    if !LooksLikeQuestion(r.question) && MemoryKey(r.question).Some? then MemoryKey(r.question)
    else MemoryKey(r.answer)
  }

  /** `history.retain(|r| qa_record_key(r) != key)`. */
  function DropKey(h: seq<QaRecord>, key: Option<bytes>): seq<QaRecord> {
    if h == [] then []
    else if RecordKey(h[0]) == key then DropKey(h[1..], key)
    else [h[0]] + DropKey(h[1..], key)
  }

  /** `upsert_history_record`. */
  function Upsert(h: seq<QaRecord>, r: QaRecord): seq<QaRecord> {
    (if RecordKey(r).Some? then DropKey(h, RecordKey(r)) else h) + [r]
  }

  predicate FoundAt(hay: bytes, needle: bytes, i: nat) {
    i + |needle| <= |hay| && EqIgnoreCase(hay[i..i + |needle|], needle)
  }

  /** `contains_case_insensitive`. */
  predicate Mentions(hay: bytes, needle: bytes) {
    needle != [] && exists i: nat :: i <= |hay| && FoundAt(hay, needle, i)
  }

  /** `record_mentions_key`. */
  predicate MentionsKey(r: QaRecord, key: bytes) {
    MemoryKey(r.question) == Some(key) || MemoryKey(r.answer) == Some(key)
  }

  /** `record_matches_forget_phrase`. */
  predicate Matches(r: QaRecord, phrase: bytes) {
    var p := Trim(phrase);
    && p != []
    && (|| (MemoryKey(p).Some? && (RecordKey(r) == MemoryKey(p) || MentionsKey(r, MemoryKey(p).value)))
        || Mentions(r.question, p)
        || Mentions(r.answer, p))
  }

  /** `forget_history_records`: the records that stay. */
  function Forget(h: seq<QaRecord>, phrase: bytes): (r: seq<QaRecord>)
    ensures |r| <= |h|
  {
    if h == [] then []
    else if Matches(h[0], phrase) then Forget(h[1..], phrase)
    else [h[0]] + Forget(h[1..], phrase)
  }

  /** The key a forget command writes to the log: a memory key, or else the trimmed phrase. */
  function ForgetKey(phrase: bytes): bytes {
    if MemoryKey(Trim(phrase)).Some? then MemoryKey(Trim(phrase)).value else Trim(phrase)
  }

  /** What an entry of the memory log does; a blank key forgets nothing. */
  function Play(h: seq<QaRecord>, e: Entry): seq<QaRecord> {
    match e
    case AddQa(q, a) => Upsert(h, QaRecord(q, a))
    case AddForget(k) => if k == [] then h else Forget(h, k)
  }

  function PlayAll(h: seq<QaRecord>, es: seq<Entry>): seq<QaRecord> {
    Fold(Play, h, es)
  }

  // ---------- keys ----------

  predicate IsLower(s: bytes) {
    forall i :: 0 <= i < |s| ==> 97 <= s[i] <= 122
  }

  lemma LowFixed(s: bytes)
    requires IsLower(s)
    ensures Low(s) == s && AllWordBytes(s)
  {
  }

  lemma PatternIsLower(i: nat)
    requires i < |PATTERNS|
    ensures PATTERNS[i].0 != [] && LowAll(PATTERNS[i].0) == PATTERNS[i].0
  {
    var p := PATTERNS[i].0;
    forall j | 0 <= j < |p|
      ensures LowAll(p)[j] == p[j]
    {
      LowFixed(p[j]);
    }
  }

  /** The patterns are lists of distinct lower-case words, so the matcher is exact on each. */
  lemma PatternsAreExact(i: nat, text: bytes)
    requires i < |PATTERNS|
    ensures Contains(text, PATTERNS[i].0) <==> Occurs(LowAll(WordsOf(text)), LowAll(PATTERNS[i].0))
  {
    PatternIsLower(i);
    assert Distinct(PATTERNS[i].0);
    DistinctHasNoStaleBorder(PATTERNS[i].0);
    RunFindsEveryOccurrence(LowAll(WordsOf(text)), PATTERNS[i].0);
  }

  lemma {:induction false} KeyIsListed(text: bytes, i: nat)
    ensures FirstKey(text, i).Some? ==> exists j :: 0 <= j < |PATTERNS| && FirstKey(text, i).value == PATTERNS[j].1
    decreases |PATTERNS| - i
  {
    if i < |PATTERNS| {
      KeyIsListed(text, i + 1);
    }
  }

  lemma OneWord(a: bytes)
    requires a != [] && AllWordBytes(a)
    ensures WordsOf(a) == [a]
  {
    assert a + [] == a;
    TakeWord(a, []);
  }

  lemma JoinWord(a: bytes, rest: bytes)
    requires a != [] && AllWordBytes(a)
    ensures WordsOf(a + [32] + rest) == [a] + WordsOf(rest)
  {
    assert a + [32] + rest == a + ([32] + rest);
    TakeWord(a, [32] + rest);
    SkipGap([32], rest);
  }

  lemma TwoWords(a: bytes, b: bytes)
    requires a != [] && b != [] && IsLower(a) && IsLower(b)
    ensures LowAll(WordsOf(a + [32] + b)) == [a, b]
  {
    LowFixed(a);
    LowFixed(b);
    JoinWord(a, b);
    OneWord(b);
  }

  lemma ThreeWords(a: bytes, b: bytes, c: bytes)
    requires a != [] && b != [] && c != [] && IsLower(a) && IsLower(b) && IsLower(c)
    ensures LowAll(WordsOf(a + [32] + (b + [32] + c))) == [a, b, c]
  {
    LowFixed(a);
    LowFixed(b);
    LowFixed(c);
    JoinWord(a, b + [32] + c);
    JoinWord(b, c);
    OneWord(c);
  }

  /** A pattern is not found in a text that lacks its first word. */
  lemma FirstWordMissing(text: bytes, i: nat)
    requires i < |PATTERNS| && PATTERNS[i].0[0] !in LowAll(WordsOf(text))
    ensures !Contains(text, PATTERNS[i].0)
  {
    PatternIsLower(i);
    RunNeedsFirstWord(LowAll(WordsOf(text)), PATTERNS[i].0, 0);
  }

  /** A text that consists of the words of a pattern contains it. */
  lemma WholePattern(text: bytes, p: seq<bytes>)
    requires p != [] && LowAll(p) == p && LowAll(WordsOf(text)) == p
    ensures Contains(text, p)
  {
    RunAlongPattern(p, p, |p| - 1, 0);
  }

  lemma {:induction false} FirstKeySkips(text: bytes, i: nat, j: nat)
    requires i <= j <= |PATTERNS|
    requires forall k :: i <= k < j ==> PATTERNS[k].0[0] !in LowAll(WordsOf(text))
    ensures FirstKey(text, i) == FirstKey(text, j)
    decreases j - i
  {
    if i < j {
      FirstWordMissing(text, i);
      FirstKeySkips(text, i + 1, j);
    }
  }

  lemma FirstKeyHere(text: bytes, i: nat, p: seq<bytes>, key: bytes)
    requires i < |PATTERNS| && PATTERNS[i] == (p, key) && Contains(text, p)
    ensures FirstKey(text, i) == Some(key)
  {
  }

  /** A text made of exactly the words of pattern `i`, none of which starts an earlier pattern. */
  lemma KeyOfPattern(text: bytes, i: nat, p: seq<bytes>, key: bytes)
    requires i < |PATTERNS| && PATTERNS[i] == (p, key) && p != [] && LowAll(p) == p && LowAll(WordsOf(text)) == p
    requires forall k :: 0 <= k < i ==> PATTERNS[k].0[0] !in p
    ensures MemoryKey(text) == Some(key)
  {
    WholePattern(text, p);
    FirstKeyHere(text, i, p, key);
    FirstKeySkips(text, 0, i);
  }

  lemma LowerWords()
    ensures SECURE != [] && IsLower(SECURE) && SECRET != [] && IsLower(SECRET) && PHRASE != [] && IsLower(PHRASE)
    ensures MEMORY != [] && IsLower(MEMORY) && TEST != [] && IsLower(TEST)
  {
  }

  /** A key of two words that are pattern `i`. */
  lemma TwoWordKey(key: bytes, a: bytes, b: bytes, i: nat)
    requires key == a + [32] + b && a != [] && b != [] && IsLower(a) && IsLower(b)
    requires i < |PATTERNS| && PATTERNS[i] == ([a, b], key)
    requires forall k :: 0 <= k < i ==> PATTERNS[k].0[0] !in [a, b]
    ensures MemoryKey(key) == Some(key)
  {
    TwoWords(a, b);
    PatternIsLower(i);
    KeyOfPattern(key, i, [a, b], key);
  }

  lemma SecurePhraseIsFixed(key: bytes)
    requires key == SECURE_PHRASE
    ensures MemoryKey(key) == Some(key)
  {
    LowerWords();
    SecureJoins(key, SECURE, PHRASE);
    TwoWordKey(key, SECURE, PHRASE, 0);
  }

  lemma SecureJoins(key: bytes, a: bytes, b: bytes)
    requires key == SECURE_PHRASE && a == SECURE && b == PHRASE
    ensures key == a + [32] + b
  {
  }

  lemma NoEarlierStart(i: nat)
    requires i == 3 || i == 5
    ensures forall k :: 0 <= k < i ==> PATTERNS[k].0[0] !in PATTERNS[i].0
  {
    assert SECURE[3] != SECRET[3] && STORED[0] == SECURE[0] == SECRET[0] != MEMORY[0] && STORED[1] != SECRET[1];
    assert PHRASE[0] != SECURE[0] && TEST[0] != SECURE[0] && |SECURED| == 7;
  }

  lemma SecretPhraseIsFixed(key: bytes)
    requires key == SECRET_PHRASE
    ensures MemoryKey(key) == Some(key)
  {
    LowerWords();
    NoEarlierStart(3);
    SecretJoins(key, SECRET, PHRASE);
    TwoWordKey(key, SECRET, PHRASE, 3);
  }

  lemma SecretJoins(key: bytes, a: bytes, b: bytes)
    requires key == SECRET_PHRASE && a == SECRET && b == PHRASE
    ensures key == a + [32] + b
  {
  }

  lemma ThreeWordKey(key: bytes, a: bytes, b: bytes, c: bytes, i: nat)
    requires key == a + [32] + (b + [32] + c) && a != [] && b != [] && c != [] && IsLower(a) && IsLower(b) && IsLower(c)
    requires i < |PATTERNS| && PATTERNS[i] == ([a, b, c], key)
    requires forall k :: 0 <= k < i ==> PATTERNS[k].0[0] !in [a, b, c]
    ensures MemoryKey(key) == Some(key)
  {
    ThreeWords(a, b, c);
    PatternIsLower(i);
    KeyOfPattern(key, i, [a, b, c], key);
  }

  lemma MemoryTestPhraseIsFixed(key: bytes)
    requires key == MEMORY_TEST_PHRASE
    ensures MemoryKey(key) == Some(key)
  {
    LowerWords();
    NoEarlierStart(5);
    MemoryTestJoins(key, MEMORY, TEST, PHRASE);
    ThreeWordKey(key, MEMORY, TEST, PHRASE, 5);
  }

  lemma MemoryTestJoins(key: bytes, a: bytes, b: bytes, c: bytes)
    requires key == MEMORY_TEST_PHRASE && a == MEMORY && b == TEST && c == PHRASE
    ensures key == a + [32] + (b + [32] + c)
  {
  }

  lemma CodenameIsFixed(key: bytes, p: seq<bytes>)
    requires key == CODENAME && p == PATTERNS[8].0
    ensures MemoryKey(key) == Some(key)
  {
    NoEarlierCodename(8);
    LowFixed(key);
    OneWord(key);
    PatternIsLower(8);
    KeyOfPattern(key, 8, p, key);
  }

  lemma NoEarlierCodename(i: nat)
    requires i == 8
    ensures forall k :: 0 <= k < i ==> PATTERNS[k].0[0] !in PATTERNS[i].0
  {
    assert SECURE[0] != CODENAME[0] && SECRET[0] != CODENAME[0] && MEMORY[0] != CODENAME[0] &&
        PROJECT[0] != CODENAME[0];
    assert STORED[0] != CODENAME[0] && |CODE| != |CODENAME|;
  }

  lemma ListedKeyIsFixed(key: bytes, i: nat)
    requires i < |PATTERNS| && key == PATTERNS[i].1
    ensures MemoryKey(key) == Some(key)
    ensures Trim(key) == key != []
  {
    TrimFixed(key);
    if i < 3 {
      SecurePhraseIsFixed(key);
    } else if i < 5 {
      SecretPhraseIsFixed(key);
    } else if i == 5 {
      MemoryTestPhraseIsFixed(key);
    } else {
      CodenameIsFixed(key, PATTERNS[8].0);
    }
  }

  /** Every memory key is its own memory key, and trimming leaves it alone. */
  lemma KeyIdempotent(text: bytes)
    requires MemoryKey(text).Some?
    ensures MemoryKey(MemoryKey(text).value) == MemoryKey(text)
    ensures Trim(MemoryKey(text).value) == MemoryKey(text).value != []
  {
    KeyIsListed(text, 0);
    var j: nat :| j < |PATTERNS| && MemoryKey(text).value == PATTERNS[j].1;
    ListedKeyIsFixed(MemoryKey(text).value, j);
  }

  // ---------- records ----------

  lemma {:induction false} ForgetContents(h: seq<QaRecord>, phrase: bytes, r: QaRecord)
    ensures r in Forget(h, phrase) <==> r in h && !Matches(r, phrase)
  {
    if h != [] {
      ForgetContents(h[1..], phrase, r);
    }
  }

  lemma {:induction false} DropKeyContents(h: seq<QaRecord>, key: Option<bytes>, r: QaRecord)
    ensures r in DropKey(h, key) <==> r in h && RecordKey(r) != key
  {
    if h != [] {
      DropKeyContents(h[1..], key, r);
    }
  }

  /** After a forget command no record with its key is left, none whose question or answer names
      the key, and for a phrase without memory key none that mentions the phrase. */
  lemma ForgetIsThorough(h: seq<QaRecord>, phrase: bytes, r: QaRecord)
    requires Trim(phrase) != [] && r in Forget(h, ForgetKey(phrase))
    ensures MemoryKey(Trim(phrase)).Some? ==>
              RecordKey(r) != MemoryKey(Trim(phrase)) && !MentionsKey(r, MemoryKey(Trim(phrase)).value)
    ensures MemoryKey(Trim(phrase)).None? ==> !Mentions(r.question, Trim(phrase)) && !Mentions(r.answer, Trim(phrase))
  {
    ForgetContents(h, ForgetKey(phrase), r);
    if MemoryKey(Trim(phrase)).Some? {
      KeyIdempotent(Trim(phrase));
    } else {
      TrimFixed(Trim(phrase));
    }
  }

  /** No two records carry the same memory key. */
  ghost predicate UniqueKeys(h: seq<QaRecord>) {
    forall i, j :: 0 <= i < j < |h| && RecordKey(h[i]).Some? ==> RecordKey(h[i]) != RecordKey(h[j])
  }

  lemma UniqueKeysTail(h: seq<QaRecord>)
    requires h != []
    ensures UniqueKeys(h) <==>
              && UniqueKeys(h[1..])
              && (RecordKey(h[0]).Some? ==> forall r :: r in h[1..] ==> RecordKey(r) != RecordKey(h[0]))
  {
    var t := h[1..];
    if UniqueKeys(h) {
      forall i, j | 0 <= i < j < |t| && RecordKey(t[i]).Some?
        ensures RecordKey(t[i]) != RecordKey(t[j])
      {
        assert t[i] == h[i + 1] && t[j] == h[j + 1];
      }
    }
    if UniqueKeys(t) && (RecordKey(h[0]).Some? ==> forall r :: r in t ==> RecordKey(r) != RecordKey(h[0])) {
      forall i, j | 0 <= i < j < |h| && RecordKey(h[i]).Some?
        ensures RecordKey(h[i]) != RecordKey(h[j])
      {
        assert h[j] == t[j - 1] && (i > 0 ==> h[i] == t[i - 1]);
      }
    }
  }

  lemma {:induction false} ForgetKeepsUnique(h: seq<QaRecord>, phrase: bytes)
    requires UniqueKeys(h)
    ensures UniqueKeys(Forget(h, phrase))
  {
    if h != [] {
      UniqueKeysTail(h);
      ForgetKeepsUnique(h[1..], phrase);
      forall r | r in Forget(h[1..], phrase)
        ensures r in h[1..]
      {
        ForgetContents(h[1..], phrase, r);
      }
      if !Matches(h[0], phrase) {
        assert Forget(h, phrase)[1..] == Forget(h[1..], phrase);
        UniqueKeysTail(Forget(h, phrase));
      }
    }
  }

  lemma {:induction false} UpsertKeepsUnique(h: seq<QaRecord>, r: QaRecord)
    requires UniqueKeys(h)
    ensures UniqueKeys(Upsert(h, r))
  {
    if RecordKey(r).Some? {
      DropThenAdd(h, r);
    }
  }

  lemma {:induction false} DropThenAdd(h: seq<QaRecord>, r: QaRecord)
    requires UniqueKeys(h) && RecordKey(r).Some?
    ensures UniqueKeys(DropKey(h, RecordKey(r)) + [r])
  {
    if h != [] {
      UniqueKeysTail(h);
      DropThenAdd(h[1..], r);
      var d := DropKey(h[1..], RecordKey(r));
      forall x | x in d
        ensures x in h[1..]
      {
        DropKeyContents(h[1..], RecordKey(r), x);
      }
      if RecordKey(h[0]) == RecordKey(r) {
        assert DropKey(h, RecordKey(r)) + [r] == d + [r];
      } else {
        assert DropKey(h, RecordKey(r)) + [r] == [h[0]] + (d + [r]);
        assert ([h[0]] + (d + [r]))[1..] == d + [r];
        UniqueKeysTail([h[0]] + (d + [r]));
      }
    }
  }

  lemma {:induction false} DropKeyConcat(x: seq<QaRecord>, y: seq<QaRecord>, key: Option<bytes>)
    ensures DropKey(x + y, key) == DropKey(x, key) + DropKey(y, key)
  {
    if x == [] {
      assert x + y == y;
    } else {
      assert (x + y)[1..] == x[1..] + y;
      DropKeyConcat(x[1..], y, key);
    }
  }

  lemma {:induction false} ForgetConcat(x: seq<QaRecord>, y: seq<QaRecord>, phrase: bytes)
    ensures Forget(x + y, phrase) == Forget(x, phrase) + Forget(y, phrase)
  {
    if x == [] {
      assert x + y == y;
    } else {
      assert (x + y)[1..] == x[1..] + y;
      ForgetConcat(x[1..], y, phrase);
    }
  }

  /** A record that stays comes right behind those before it that stay: the order is kept. */
  lemma DropKeyInOrder(h: seq<QaRecord>, key: Option<bytes>, i: nat)
    requires i < |h| && RecordKey(h[i]) != key
    ensures var kept := |DropKey(h[..i], key)|;
            kept < |DropKey(h, key)| && DropKey(h, key)[kept] == h[i]
  {
    assert h == h[..i] + ([h[i]] + h[i + 1..]) && ([h[i]] + h[i + 1..])[1..] == h[i + 1..];
    DropKeyConcat(h[..i], [h[i]] + h[i + 1..], key);
  }

  /** A keyed upsert replaces: the new record is last and the only one with its key, and every record
      with another key stays, in order. */
  lemma UpsertReplaces(h: seq<QaRecord>, r: QaRecord, x: QaRecord)
    ensures x in Upsert(h, r) <==> x == r || (x in h && !(RecordKey(r).Some? && RecordKey(x) == RecordKey(r)))
    ensures RecordKey(r).None? ==> Upsert(h, r) == h + [r]
    ensures RecordKey(r).Some? ==> Upsert(h, r) == DropKey(h, RecordKey(r)) + [r]
    ensures forall i :: 0 <= i < |h| && RecordKey(r).Some? && RecordKey(h[i]) != RecordKey(r) ==>
              |DropKey(h[..i], RecordKey(r))| < |Upsert(h, r)| - 1 &&
              Upsert(h, r)[|DropKey(h[..i], RecordKey(r))|] == h[i]
  {
    DropKeyContents(h, RecordKey(r), x);
    forall i | 0 <= i < |h| && RecordKey(r).Some? && RecordKey(h[i]) != RecordKey(r)
      ensures |DropKey(h[..i], RecordKey(r))| < |Upsert(h, r)| - 1 &&
              Upsert(h, r)[|DropKey(h[..i], RecordKey(r))|] == h[i]
    {
      DropKeyInOrder(h, RecordKey(r), i);
    }
  }

  // ---------- what an entry leaves of older records ----------

  /** The older records that an entry neither replaces nor forgets. */
  function Left(h: seq<QaRecord>, e: Entry): seq<QaRecord> {
    match e
    case AddQa(q, a) => if RecordKey(QaRecord(q, a)).Some? then DropKey(h, RecordKey(QaRecord(q, a))) else h
    case AddForget(k) => if k == [] then h else Forget(h, k)
  }

  predicate Drops(e: Entry, r: QaRecord) {
    match e
    case AddQa(q, a) => RecordKey(QaRecord(q, a)).Some? && RecordKey(r) == RecordKey(QaRecord(q, a))
    case AddForget(k) => k != [] && Matches(r, k)
  }

  lemma LeftContents(h: seq<QaRecord>, e: Entry, r: QaRecord)
    ensures r in Left(h, e) <==> r in h && !Drops(e, r)
  {
    match e {
      case AddQa(q, a) => DropKeyContents(h, RecordKey(QaRecord(q, a)), r);
      case AddForget(k) => ForgetContents(h, k, r);
    }
  }

  lemma UpsertSplits(x: seq<QaRecord>, h: seq<QaRecord>, r: QaRecord, key: Option<bytes>)
    requires key == RecordKey(r)
    ensures Upsert(x + h, r) == (if key.Some? then DropKey(x, key) else x) + Upsert(h, r)
  {
    DropKeyConcat(x, h, key);
    if key.Some? {
      ThreeParts(DropKey(x, key), DropKey(h, key), [r]);
    } else {
      ThreeParts(x, h, [r]);
    }
  }

  lemma ThreeParts(x: seq<QaRecord>, y: seq<QaRecord>, z: seq<QaRecord>)
    ensures x + y + z == x + (y + z)
  {
  }

  /** An entry acts on older and newer records separately. */
  lemma PlaySplits(x: seq<QaRecord>, h: seq<QaRecord>, e: Entry)
    ensures Play(x + h, e) == Left(x, e) + Play(h, e)
  {
    match e {
      case AddQa(q, a) => UpsertSplits(x, h, QaRecord(q, a), RecordKey(QaRecord(q, a)));
      case AddForget(k) => ForgetConcat(x, h, k);
    }
  }
}
