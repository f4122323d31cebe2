/** The in-place form of a session: the methods of the shell that update `history` and
    `session_delta`, each proved to carry out one `MemorySession.Step`. */
module RamShell {
  import opened Basics
  import opened Bytes
  import opened LogParser
  import opened LogReplay
  import opened History
  import opened MemorySession

  /** `history.retain(|r| ...)` in `forget_history_records`, with the count it returns. */
  method ForgetHistoryRecords(history: seq<QaRecord>, phrase: bytes) returns (kept: seq<QaRecord>, removed: nat)
    ensures kept == Forget(history, phrase) && removed == |history| - |kept|
  {
    kept := [];
    var i := 0;
    while i < |history|
      invariant i <= |history| && kept + Forget(history[i..], phrase) == Forget(history, phrase)
    {
      ForgetSplit(history, phrase, i, kept);
      if !Matches(history[i], phrase) {
        kept := kept + [history[i]];
      }
      i := i + 1;
    }
    assert history[i..] == [];
    removed := |history| - |kept|;
  }

  lemma ForgetSplit(history: seq<QaRecord>, phrase: bytes, i: nat, kept: seq<QaRecord>)
    requires i < |history|
    ensures kept + Forget(history[i..], phrase) ==
            (if Matches(history[i], phrase) then kept else kept + [history[i]]) + Forget(history[i + 1..], phrase)
  {
    assert history[i..][1..] == history[i + 1..];
  }

  class Shell {
    var history: seq<QaRecord>
    var delta: bytes
    var db: bytes

    ghost function State(): Session
      reads this
    {
      Session(history, delta, db)
    }

    /** `bitapp_load_memory_db_history` into an empty history. */
    constructor (stored: bytes)
      ensures State() == Boot(stored)
    {
      delta, db := [], stored;
      history := [];
      new;
      var read := stored[..Min(|stored|, CAP)];
      history := ParseStructuredRecords(read, [], Play);
      ShrinkHistory(0);
    }

    /** `shrink_records`. */
    method ShrinkHistory(needed: nat)
      modifies this`history
      ensures history == ShrinkRecords(old(history), needed)
    {
      while history != [] && SatAdd(HistoryLen(history), needed) > CAP
        invariant ShrinkRecords(history, needed) == ShrinkRecords(old(history), needed)
        decreases |history|
      {
        history := history[1..];
      }
    }

    /** `shrink_bytes`. */
    method ShrinkDelta(needed: nat)
      modifies this`delta
      ensures delta == ShrinkBytes(old(delta), needed)
    {
      var required := SatAdd(|delta|, needed);
      if required <= CAP {
        return;
      }
      if needed >= CAP {
        delta := [];
        return;
      }
      delta := delta[Min(required - CAP, |delta|)..];
    }

    /** `append_to_history`. */
    method AppendToHistory(prompt: bytes, answer: bytes)
      requires |prompt| <= ISIZE_MAX && |answer| <= ISIZE_MAX
      modifies this
      ensures State() == Step(old(State()), Ask(prompt, answer))
    {
      var needed := SatAdd(SatAdd(|prompt|, |answer|), 64);
      ShrinkHistory(needed);
      ShrinkDelta(needed);
      history := Upsert(history, QaRecord(prompt, answer));
      delta := AppendSerializedQa(delta, prompt, answer);
    }

    /** `append_forget_to_history`. */
    method AppendForgetToHistory(phrase: bytes) returns (removed: nat)
      requires |phrase| <= ISIZE_MAX
      modifies this
      ensures State() == Step(old(State()), ForgetPhrase(phrase))
      ensures removed == |old(history)| - |history|
    {
      var trimmed := TrimAscii(phrase);
      if trimmed == [] {
        return 0;
      }
      var found := MemoryKey(trimmed);
      var key := if found.Some? then found.value else trimmed;
      KeyLength(phrase);
      ShrinkDelta(SatAdd(|key|, 64));
      history, removed := ForgetHistoryRecords(history, key);
      delta := AppendSerializedForget(delta, key);
    }

    /** `bitapp_flush_memory_db`: the device either takes the whole delta or reports an error. */
    method FlushMemoryDb(accepted: bool)
      modifies this
      ensures State() == Step(old(State()), Flush(accepted))
    {
      if delta == [] {
        assert db + delta == db;
        return;
      }
      if !accepted {
        return;
      }
      db := db + delta;
      delta := [];
    }

    /** The command `reset`. */
    method ResetSession()
      modifies this
      ensures State() == Step(old(State()), Reset)
    {
      history, delta := [], [];
    }

    /** `bitapp_erase_memory_db`: the device either erases its log or reports an error, which is only
        printed. */
    method EraseMemoryDb(erased: bool)
      modifies this
      ensures State() == Step(old(State()), EraseAll(erased))
    {
      history, delta := [], [];
      if erased {
        db := [];
      }
    }
  }

  lemma KeyLength(phrase: bytes)
    requires |phrase| <= ISIZE_MAX
    ensures |ForgetKey(phrase)| <= ISIZE_MAX
  {
    var left, right := TrimSplits(phrase);
    if MemoryKey(Trim(phrase)).Some? {
      KeyIsListed(Trim(phrase), 0);
    }
  }
}
