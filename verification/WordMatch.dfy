/** The word-sequence matcher of the RAM shell (`contains_word_sequence`) and the exact condition
    under which its one-step fallback finds every occurrence. */
module WordMatch {
  import opened Bytes

  // ---------- the matcher over a list of words ----------

  /** The matcher in state `k` (so many pattern words matched) before word `i`. On a mismatch it
      falls back to state 1 or 0 only, by looking at the first pattern word. */
  predicate Run<T(==)>(t: seq<T>, p: seq<T>, i: nat, k: nat)
    requires k < |p|
    decreases |t| - i
  {
    if i >= |t| then false
    else if t[i] == p[k] then k + 1 == |p| || Run(t, p, i + 1, k + 1)
    else Run(t, p, i + 1, if t[i] == p[0] then 1 else 0)
  }

  /** The first `k` pattern words end just before position `e`. */
  ghost predicate PrefixEnds<T>(t: seq<T>, p: seq<T>, k: nat, e: nat)
    requires k <= |p|
  {
    k <= e <= |t| && t[e - k..e] == p[..k]
  }

  /** The pattern occurs as consecutive elements of `t`. */
  ghost predicate Occurs<T>(t: seq<T>, p: seq<T>) {
    exists e: nat :: PrefixEnds(t, p, |p|, e)
  }

  /** The first `b` pattern words are also the last `b` of its first `i` words. */
  predicate Border<T(==)>(p: seq<T>, b: nat, i: nat) {
    1 <= b < i < |p| && p[..b] == p[i - b..i]
  }

  /** No border of a proper prefix is followed in the pattern by a different word than the prefix
      itself is. It can be checked on the pattern alone. */
  ghost predicate NoStaleBorder<T>(p: seq<T>) {
    forall b: nat, i: nat :: Border(p, b, i) ==> p[b] == p[i]
  }

  ghost predicate Distinct<T>(p: seq<T>) {
    forall i, j :: 0 <= i < j < |p| ==> p[i] != p[j]
  }

  lemma DistinctHasNoStaleBorder<T>(p: seq<T>)
    requires Distinct(p)
    ensures NoStaleBorder(p)
  {
    forall b: nat, i: nat
      ensures !Border(p, b, i)
    {
      assert 1 <= b < i < |p| ==> p[..b][0] == p[0] && p[i - b..i][0] == p[i - b];
    }
  }

  /** `k` is the largest number of pattern words that end before `i`. */
  ghost predicate Longest<T>(t: seq<T>, p: seq<T>, i: nat, k: nat) {
    k < |p| && PrefixEnds(t, p, k, i) && forall k' :: k < k' <= |p| ==> !PrefixEnds(t, p, k', i)
  }

  lemma ShorterPrefixEnds<T>(t: seq<T>, p: seq<T>, k: nat, e: nat)
    requires 1 <= k <= |p| && 1 <= e <= |t|
    ensures PrefixEnds(t, p, k, e) ==> PrefixEnds(t, p, k - 1, e - 1) && t[e - 1] == p[k - 1]
  {
    if PrefixEnds(t, p, k, e) {
      assert t[e - k..e][..k - 1] == t[e - k..e - 1];
      assert p[..k][..k - 1] == p[..k - 1];
      assert t[e - k..e][k - 1] == t[e - 1];
      assert p[..k][k - 1] == p[k - 1];
    }
  }

  lemma LongerPrefixEnds<T>(t: seq<T>, p: seq<T>, k: nat, e: nat)
    requires k < |p| && e < |t| && PrefixEnds(t, p, k, e) && t[e] == p[k]
    ensures PrefixEnds(t, p, k + 1, e + 1)
  {
    assert t[e - k..e + 1] == t[e - k..e] + [t[e]];
    assert p[..k + 1] == p[..k] + [p[k]];
  }

  /** Two prefixes ending at the same place: the shorter is a border of the longer. */
  lemma NestedPrefixes<T>(t: seq<T>, p: seq<T>, b: nat, k: nat, e: nat)
    requires b <= k <= |p| && PrefixEnds(t, p, k, e)
    ensures PrefixEnds(t, p, b, e) && 1 <= b < k < |p| ==> Border(p, b, k)
  {
    assert t[e - k..e][k - b..] == t[e - b..e];
    assert p[..k][k - b..] == p[k - b..k];
  }

  lemma NextState<T>(t: seq<T>, p: seq<T>, i: nat, k: nat)
    requires NoStaleBorder(p) && Longest(t, p, i, k) && i < |t|
    ensures t[i] == p[k] && k + 1 < |p| ==> Longest(t, p, i + 1, k + 1)
    ensures t[i] != p[k] ==> Longest(t, p, i + 1, if t[i] == p[0] then 1 else 0)
  {
    var next := if t[i] == p[k] then k + 1 else if t[i] == p[0] then 1 else 0;
    if t[i] == p[k] {
      LongerPrefixEnds(t, p, k, i);
    } else if t[i] == p[0] {
      LongerPrefixEnds(t, p, 0, i);
    }
    var e := i + 1;
    forall k': nat | next < k' <= |p|
      ensures !PrefixEnds(t, p, k', e)
    {
      ShorterPrefixEnds(t, p, k', e);
      if k' - 1 < k {
        NestedPrefixes(t, p, k' - 1, k, i);
      }
    }
  }

  lemma {:induction false} RunIsExact<T>(t: seq<T>, p: seq<T>, i: nat, k: nat)
    requires NoStaleBorder(p) && Longest(t, p, i, k)
    ensures Run(t, p, i, k) <==> EndsAfter(t, p, i)
    decreases |t| - i
  {
    if i < |t| {
      NextState(t, p, i, k);
      if t[i] == p[k] && k + 1 == |p| {
        LongerPrefixEnds(t, p, k, i);
        assert EndsAfter(t, p, i);
      } else {
        var next := if t[i] == p[k] then k + 1 else if t[i] == p[0] then 1 else 0;
        RunIsExact(t, p, i + 1, next);
        EndsLater(t, p, i);
      }
    }
  }

  /** The whole pattern ends somewhere after `i`. */
  ghost predicate EndsAfter<T>(t: seq<T>, p: seq<T>, i: nat) {
    exists e :: i < e <= |t| && PrefixEnds(t, p, |p|, e)
  }

  lemma EndsLater<T>(t: seq<T>, p: seq<T>, i: nat)
    requires !PrefixEnds(t, p, |p|, i + 1)
    ensures EndsAfter(t, p, i) <==> EndsAfter(t, p, i + 1)
  {
  }

  lemma {:induction false} RunFindsEveryOccurrence<T>(t: seq<T>, p: seq<T>)
    requires p != [] && NoStaleBorder(p)
    ensures Run(t, p, 0, 0) <==> Occurs(t, p)
  {
    assert Longest(t, p, 0, 0);
    RunIsExact(t, p, 0, 0);
  }

  lemma {:induction false} RunNeedsWords<T>(t: seq<T>, p: seq<T>, i: nat, k: nat)
    requires k < |p| && i <= |t|
    ensures Run(t, p, i, k) ==> |t| - i >= |p| - k
    decreases |t| - i
  {
    if i == |t| {
    } else if t[i] == p[k] {
      if k + 1 < |p| {
        RunNeedsWords(t, p, i + 1, k + 1);
      }
    } else {
      RunNeedsWords(t, p, i + 1, if t[i] == p[0] then 1 else 0);
    }
  }

  lemma {:induction false} RunAlongPattern<T>(t: seq<T>, p: seq<T>, i: nat, k: nat)
    requires k <= i < |p| && i <= |t| && t[..i] == p[..i]
    ensures Run(t, p, k, k) == Run(t, p, i, i)
    decreases i - k
  {
    if k < i {
      assert t[..i][k] == t[k] && p[..i][k] == p[k];
      RunAlongPattern(t, p, i, k + 1);
    }
  }

  /** With a stale border there is a word list that holds the pattern and is rejected. */
  lemma StaleBorderMisses<T>(p: seq<T>, b: nat, i: nat) returns (t: seq<T>)
    requires Border(p, b, i) && p[b] != p[i]
    ensures t == p[..i] + p[b..] && Occurs(t, p) && !Run(t, p, 0, 0)
  {
    t := p[..i] + p[b..];
    assert t[i - b..i - b + |p|] == p[..b] + p[b..];
    assert p[..b] + p[b..] == p == p[..|p|];
    assert PrefixEnds(t, p, |p|, i - b + |p|);
    assert t[..i] == p[..i];
    RunAlongPattern(t, p, i, 0);
    assert t[i] == p[b] != p[i];
    RunNeedsWords(t, p, i + 1, if t[i] == p[0] then 1 else 0);
  }

  /** The matcher is right on every word list exactly when the pattern has no stale border. */
  lemma MatcherExactCondition<T(!new)>(p: seq<T>)
    requires p != []
    ensures (forall t: seq<T> :: Run(t, p, 0, 0) <==> Occurs(t, p)) <==> NoStaleBorder(p)
  {
    if NoStaleBorder(p) {
      forall t: seq<T>
        ensures Run(t, p, 0, 0) <==> Occurs(t, p)
      {
        RunFindsEveryOccurrence(t, p);
      }
    } else {
      var b: nat, i: nat :| Border(p, b, i) && p[b] != p[i];
      var t := StaleBorderMisses(p, b, i);
      assert !(Run(t, p, 0, 0) <==> Occurs(t, p));
    }
  }

  lemma {:induction false} RunNeedsFirstWord<T>(t: seq<T>, p: seq<T>, i: nat)
    requires p != [] && p[0] !in t
    ensures !Run(t, p, i, 0)
    decreases |t| - i
  {
    if i < |t| {
      RunNeedsFirstWord(t, p, i + 1);
    }
  }

  // ---------- words of a text ----------

  predicate IsWordByte(b: byte) {
    48 <= b <= 57 || 65 <= b <= 90 || 97 <= b <= 122
  }

  function Lower(b: byte): byte {
    if 65 <= b <= 90 then b + 32 else b
  }

  function Low(s: bytes): (r: bytes)
    ensures |r| == |s| && forall i :: 0 <= i < |s| ==> r[i] == Lower(s[i])
  {
    seq(|s|, i requires 0 <= i < |s| => Lower(s[i]))
  }

  function LowAll(ws: seq<bytes>): (r: seq<bytes>)
    ensures |r| == |ws| && forall i :: 0 <= i < |ws| ==> r[i] == Low(ws[i])
  {
    seq(|ws|, i requires 0 <= i < |ws| => Low(ws[i]))
  }

  predicate AllWordBytes(s: bytes) {
    forall i :: 0 <= i < |s| ==> IsWordByte(s[i])
  }

  predicate NoWordBytes(s: bytes) {
    forall i :: 0 <= i < |s| ==> !IsWordByte(s[i])
  }

  /** Length of the run of word bytes at the front. */
  function RunLength(s: bytes): (n: nat)
    ensures n <= |s| && AllWordBytes(s[..n]) && (n < |s| ==> !IsWordByte(s[n]))
  {
    if s != [] && IsWordByte(s[0]) then
      assert forall i :: 0 < i < 1 + RunLength(s[1..]) ==> s[i] == s[1..][..RunLength(s[1..])][i - 1];
      1 + RunLength(s[1..])
    else 0
  }

  lemma {:induction false} RunLengthIs(s: bytes, n: nat)
    requires n <= |s| && AllWordBytes(s[..n]) && (n < |s| ==> !IsWordByte(s[n]))
    ensures RunLength(s) == n
  {
    if n > 0 {
      assert IsWordByte(s[..n][0]);
      assert s[1..][..n - 1] == s[..n][1..];
      RunLengthIs(s[1..], n - 1);
    }
  }

  /** The maximal alphanumeric words of a text, in order. */
  function WordsOf(s: bytes): seq<bytes>
    decreases |s|
  {
    if s == [] then []
    else if !IsWordByte(s[0]) then WordsOf(s[1..])
    else [s[..RunLength(s)]] + WordsOf(s[RunLength(s)..])
  }

  /** Words separated, preceded and followed by gaps without word bytes. */
  ghost predicate Layout(gaps: seq<bytes>, ws: seq<bytes>) {
    && |gaps| == |ws| + 1
    && (forall i :: 0 <= i < |gaps| ==> NoWordBytes(gaps[i]))
    && (forall i :: 0 < i < |ws| ==> gaps[i] != [])
    && (forall i :: 0 <= i < |ws| ==> ws[i] != [] && AllWordBytes(ws[i]))
  }

  ghost function Lay(gaps: seq<bytes>, ws: seq<bytes>): bytes
    requires |gaps| == |ws| + 1
  {
    if ws == [] then gaps[0] else gaps[0] + ws[0] + Lay(gaps[1..], ws[1..])
  }

  lemma {:induction false} SkipGap(gap: bytes, rest: bytes)
    requires NoWordBytes(gap)
    ensures WordsOf(gap + rest) == WordsOf(rest)
  {
    if gap == [] {
      assert gap + rest == rest;
    } else {
      assert (gap + rest)[1..] == gap[1..] + rest;
      SkipGap(gap[1..], rest);
    }
  }

  lemma TakeWord(w: bytes, rest: bytes)
    requires w != [] && AllWordBytes(w) && (rest != [] ==> !IsWordByte(rest[0]))
    ensures WordsOf(w + rest) == [w] + WordsOf(rest)
  {
    var s := w + rest;
    assert s[0] == w[0] && s[..|w|] == w && s[|w|..] == rest;
    RunLengthIs(s, |w|);
  }

  /** Whatever the layout, its words are read back: the words are the maximal runs. */
  lemma {:induction false} WordsOfLayout(gaps: seq<bytes>, ws: seq<bytes>)
    requires Layout(gaps, ws)
    ensures WordsOf(Lay(gaps, ws)) == ws
  {
    if ws == [] {
      SkipGap(gaps[0], []);
      assert gaps[0] + [] == gaps[0];
    } else {
      var rest := Lay(gaps[1..], ws[1..]);
      assert Layout(gaps[1..], ws[1..]);
      assert rest != [] ==> !IsWordByte(rest[0]) by {
        if ws[1..] == [] {
          assert rest == gaps[1];
        } else {
          assert rest[0] == gaps[1][0];
        }
      }
      assert Lay(gaps, ws) == gaps[0] + (ws[0] + rest);
      SkipGap(gaps[0], ws[0] + rest);
      TakeWord(ws[0], rest);
      WordsOfLayout(gaps[1..], ws[1..]);
    }
  }

  lemma WidenGap(gaps: seq<bytes>, ws: seq<bytes>, x: byte)
    requires Layout(gaps, ws) && !IsWordByte(x)
    ensures Layout([[x] + gaps[0]] + gaps[1..], ws)
    ensures Lay([[x] + gaps[0]] + gaps[1..], ws) == [x] + Lay(gaps, ws)
  {
    var wide := [[x] + gaps[0]] + gaps[1..];
    assert wide[1..] == gaps[1..];
    if ws != [] {
      assert Lay(wide, ws) == [x] + gaps[0] + ws[0] + Lay(gaps[1..], ws[1..]);
    }
  }

  lemma PrependWord(gaps: seq<bytes>, ws: seq<bytes>, w: bytes)
    requires Layout(gaps, ws) && (ws != [] ==> gaps[0] != []) && w != [] && AllWordBytes(w)
    ensures Layout([[]] + gaps, [w] + ws)
    ensures Lay([[]] + gaps, [w] + ws) == w + Lay(gaps, ws)
  {
    assert ([[]] + gaps)[1..] == gaps && ([w] + ws)[1..] == ws;
    assert [] + w + Lay(gaps, ws) == w + Lay(gaps, ws);
  }

  /** Every text is a layout of its words. */
  lemma {:induction false} TextIsLayout(s: bytes) returns (gaps: seq<bytes>)
    ensures Layout(gaps, WordsOf(s)) && Lay(gaps, WordsOf(s)) == s
    ensures s != [] && !IsWordByte(s[0]) ==> gaps[0] != []
    decreases |s|
  {
    if s == [] {
      gaps := [[]];
    } else if !IsWordByte(s[0]) {
      var rest := TextIsLayout(s[1..]);
      WidenGap(rest, WordsOf(s[1..]), s[0]);
      gaps := [[s[0]] + rest[0]] + rest[1..];
    } else {
      var n := RunLength(s);
      var rest := TextIsLayout(s[n..]);
      PrependWord(rest, WordsOf(s[n..]), s[..n]);
      gaps := [[]] + rest;
    }
  }

  /** What `contains_word_sequence` computes. */
  predicate Contains(text: bytes, words: seq<bytes>) {
    words != [] && Run(LowAll(WordsOf(text)), LowAll(words), 0, 0)
  }

  lemma LowEqual(s: bytes, t: bytes)
    ensures EqIgnoreCase(s, t) <==> Low(s) == Low(t)
  {
    if Low(s) == Low(t) {
      assert forall i :: 0 <= i < |s| ==> Low(s)[i] == Low(t)[i];
    }
  }

  /** `eq_ignore_ascii_case_slice`. */
  predicate EqIgnoreCase(s: bytes, t: bytes) {
    |s| == |t| && forall i :: 0 <= i < |s| ==> Lower(s[i]) == Lower(t[i])
  }

  /** The matcher on the words still to come. */
  predicate RunRest(rest: seq<bytes>, words: seq<bytes>, k: nat)
    requires k < |words|
  {
    if rest == [] then false
    else if EqIgnoreCase(rest[0], words[k]) then k + 1 == |words| || RunRest(rest[1..], words, k + 1)
    else RunRest(rest[1..], words, if EqIgnoreCase(rest[0], words[0]) then 1 else 0)
  }

  lemma {:induction false} RunRestIsRun(ws: seq<bytes>, words: seq<bytes>, i: nat, k: nat)
    requires k < |words| && i <= |ws|
    ensures RunRest(ws[i..], words, k) == Run(LowAll(ws), LowAll(words), i, k)
    decreases |ws| - i
  {
    if i < |ws| {
      assert ws[i..][1..] == ws[i + 1..];
      LowEqual(ws[i], words[k]);
      LowEqual(ws[i], words[0]);
      if EqIgnoreCase(ws[i], words[k]) {
        if k + 1 < |words| {
          RunRestIsRun(ws, words, i + 1, k + 1);
        }
      } else {
        RunRestIsRun(ws, words, i + 1, if EqIgnoreCase(ws[i], words[0]) then 1 else 0);
      }
    }
  }

  lemma ContainsIsRunRest(text: bytes, words: seq<bytes>)
    requires words != []
    ensures Contains(text, words) == RunRest(WordsOf(text), words, 0)
  {
    assert WordsOf(text)[0..] == WordsOf(text);
    RunRestIsRun(WordsOf(text), words, 0, 0);
  }

  /** The inner loop that skips to the next word. */
  method SkipGapFrom(text: bytes, from: nat) returns (start: nat)
    requires from <= |text|
    ensures from <= start <= |text| && (start < |text| ==> IsWordByte(text[start]))
    ensures WordsOf(text[start..]) == WordsOf(text[from..])
  {
    start := from;
    while start < |text| && !IsWordByte(text[start])
      invariant from <= start <= |text| && WordsOf(text[start..]) == WordsOf(text[from..])
    {
      assert text[start..][1..] == text[start + 1..];
      start := start + 1;
    }
  }

  /** The inner loop that finds the end of the word. */
  method WordEnd(text: bytes, start: nat) returns (end: nat)
    requires start <= |text|
    ensures start <= end <= |text| && AllWordBytes(text[start..end]) && (end < |text| ==> !IsWordByte(text[end]))
    ensures start < end ==> WordsOf(text[start..]) == [text[start..end]] + WordsOf(text[end..])
  {
    end := start;
    while end < |text| && IsWordByte(text[end])
      invariant start <= end <= |text| && AllWordBytes(text[start..end])
    {
      assert text[start..end + 1] == text[start..end] + [text[end]];
      end := end + 1;
    }
    if start < end {
      assert text[start..] == text[start..end] + text[end..];
      TakeWord(text[start..end], text[end..]);
    }
  }

  /** The words that remain when the scan stands at `start`, possibly one past the end. */
  function WordsFrom(text: bytes, start: nat): seq<bytes> {
    if start <= |text| then WordsOf(text[start..]) else []
  }

  lemma SkipSeparator(text: bytes, end: nat)
    requires end <= |text| && (end < |text| ==> !IsWordByte(text[end]))
    ensures WordsFrom(text, end + 1) == WordsOf(text[end..])
  {
    if end < |text| {
      assert text[end..][1..] == text[end + 1..];
    }
  }

  /** `contains_word_sequence`, byte index by byte index. For a pattern without stale border its
      answer is the declarative one. */
  method ContainsWordSequence(text: bytes, words: seq<bytes>) returns (r: bool)
    ensures r == Contains(text, words)
    ensures words != [] && NoStaleBorder(LowAll(words)) ==> (r <==> Occurs(LowAll(WordsOf(text)), LowAll(words)))
  {
    if words == [] {
      return false;
    }
    if NoStaleBorder(LowAll(words)) {
      RunFindsEveryOccurrence(LowAll(WordsOf(text)), LowAll(words));
    }
    ContainsIsRunRest(text, words);
    assert text[0..] == text;
    r := Scan(text, words);
  }

  /** One turn of the outer loop: the word found, empty at the end of the text, and where the
      next turn starts. */
  method NextWord(text: bytes, from: nat) returns (w: bytes, next: nat)
    requires from < |text|
    ensures from < next
    ensures w == [] ==> WordsFrom(text, from) == WordsFrom(text, next)
    ensures w != [] ==> WordsFrom(text, from) == [w] + WordsFrom(text, next)
  {
    var start := SkipGapFrom(text, from);
    var end := WordEnd(text, start);
    w, next := text[start..end], end + 1;
    SkipSeparator(text, end);
    OneWord(text, from, start, end);
  }

  /** What the two inner loops found, as words. */
  lemma OneWord(text: bytes, from: nat, start: nat, end: nat)
    requires from <= start <= end <= |text| && WordsOf(text[start..]) == WordsOf(text[from..])
    requires start < end ==> WordsOf(text[start..]) == [text[start..end]] + WordsOf(text[end..])
    ensures start == end ==> WordsFrom(text, from) == WordsOf(text[end..])
    ensures start < end ==> WordsFrom(text, from) == [text[start..end]] + WordsOf(text[end..])
  {
  }

  /** The state after a word that does not complete the pattern. */
  function Step(w: bytes, words: seq<bytes>, k: nat): nat
    requires k < |words|
  {
    if EqIgnoreCase(w, words[k]) then k + 1 else if EqIgnoreCase(w, words[0]) then 1 else 0
  }

  /** The outer loop of `contains_word_sequence`. */
  method Scan(text: bytes, words: seq<bytes>) returns (r: bool)
    requires words != []
    ensures r == RunRest(WordsFrom(text, 0), words, 0)
  {
    var wordIndex: nat := 0;
    var start: nat := 0;
    while start < |text|
      invariant wordIndex < |words|
      invariant RunRest(WordsFrom(text, start), words, wordIndex) == RunRest(WordsFrom(text, 0), words, 0)
    {
      var w, next := NextWord(text, start);
      if w != [] {
        assert WordsFrom(text, start)[0] == w && WordsFrom(text, start)[1..] == WordsFrom(text, next);
        wordIndex := Step(w, words, wordIndex);
        if wordIndex == |words| {
          return true;
        }
      }
      start := next;
    }
    r := false;
  }

  /** Even on real texts the condition is exact: a pattern of proper words with a stale border has
      a text, its words separated by spaces, that contains it and is rejected. */
  lemma StaleBorderText(words: seq<bytes>) returns (text: bytes)
    requires forall i :: 0 <= i < |words| ==> words[i] != [] && AllWordBytes(words[i])
    requires !NoStaleBorder(LowAll(words))
    ensures Occurs(LowAll(WordsOf(text)), LowAll(words)) && !Contains(text, words)
  {
    var p := LowAll(words);
    var b: nat, i: nat :| Border(p, b, i) && p[b] != p[i];
    var t := StaleBorderMisses(p, b, i);
    var ws := words[..i] + words[b..];
    LowAllConcat(words, i, b);
    text := SpacedWords(ws);
  }

  lemma LowAllConcat(words: seq<bytes>, i: nat, b: nat)
    requires i <= |words| && b <= |words|
    ensures LowAll(words[..i] + words[b..]) == LowAll(words)[..i] + LowAll(words)[b..]
  {
  }

  /** Words with single spaces around them. */
  lemma SpacedWords(ws: seq<bytes>) returns (text: bytes)
    requires forall i :: 0 <= i < |ws| ==> ws[i] != [] && AllWordBytes(ws[i])
    ensures WordsOf(text) == ws
  {
    var gaps := seq(|ws| + 1, _ => [32 as byte]);
    assert Layout(gaps, ws);
    WordsOfLayout(gaps, ws);
    text := Lay(gaps, ws);
  }
}
