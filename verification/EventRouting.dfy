/** Routing of events, by one poller: unrelated events are set aside in a pending queue and found again
    later. */
module EventRouting {
  import opened Basics
  import opened ProducerRing
  import EventRing

  /** The place of the first match, or the length if there is none. */
  function FirstMatch<T>(s: seq<T>, matches: T -> bool): (i: nat)
    ensures i <= |s|
  {
    if s == [] || matches(s[0]) then 0 else 1 + FirstMatch(s[1..], matches)
  }

  /** It matches, and nothing before it does; and that says which place it is. */
  lemma {:induction false} FirstMatchIs<T>(s: seq<T>, matches: T -> bool, i: nat)
    requires i <= |s|
    ensures i == FirstMatch(s, matches) <==> (i < |s| ==> matches(s[i])) && forall j :: 0 <= j < i ==> !matches(s[j])
  {
    if s != [] && !matches(s[0]) {
      if i > 0 {
        FirstMatchIs(s[1..], matches, i - 1);
        assert forall j :: 0 <= j < i - 1 ==> s[1..][j] == s[j + 1];
        if forall j :: 0 <= j < i - 1 ==> !matches(s[1..][j]) {
          forall j | 0 <= j < i
            ensures !matches(s[j])
          {
            assert j > 0 ==> s[j] == s[1..][j - 1];
          }
        }
      }
    } else if i > 0 {
      assert s != [] && matches(s[0]);
    }
  }

  lemma {:induction false} FirstMatchConcat(s: seq<Trb>, t: seq<Trb>, matches: Trb -> bool)
    ensures FirstMatch(s + t, matches) ==
            if FirstMatch(s, matches) < |s| then FirstMatch(s, matches) else |s| + FirstMatch(t, matches)
  {
    if s == [] {
      assert s + t == t;
    } else {
      assert (s + t)[1..] == s[1..] + t;
      FirstMatchConcat(s[1..], t, matches);
    }
  }

  function RemoveAt<T>(s: seq<T>, i: nat): seq<T>
    requires i < |s|
  {
    s[..i] + s[i + 1..]
  }

  // ---------- the code ----------

  class Controller {
    const ring: EventRing.Ring
    var pending: seq<Trb>

    ghost predicate Valid()
      reads this, ring, ring.mem
    {
      ring.Valid()
    }

    /** All events that were posted and not delivered, oldest first. */
    ghost function Stream(): seq<Trb>
      reads this, ring
    {
      pending + ring.queue
    }

    constructor (ring: EventRing.Ring)
      requires ring.Valid()
      ensures Valid() && this.ring == ring && Stream() == ring.queue
    {
      this.ring := ring;
      pending := [];
    }

    /** `poll_event` delivers the oldest event, and nothing only when there is none. */
    method PollEvent() returns (r: Option<Trb>)
      requires Valid()
      modifies this, ring
      ensures Valid()
      ensures old(Stream()) == [] ==> r == None && Stream() == []
      ensures old(Stream()) != [] ==> r == Some(old(Stream())[0]) && Stream() == old(Stream())[1..]
    {
      if pending != [] {
        r := Some(pending[0]);
        pending := pending[1..];
        return;
      }
      r := ring.TryDequeue();
    }

    /** `poll_event_matching` delivers the oldest event that matches and keeps all others in order. */
    method PollEventMatching(matches: Trb -> bool) returns (r: Option<Trb>)
      requires Valid()
      modifies this, ring
      ensures Valid()
      ensures var i := FirstMatch(old(Stream()), matches);
              if i < |old(Stream())| then r == Some(old(Stream())[i]) && Stream() == RemoveAt(old(Stream()), i)
              else r == None && Stream() == old(Stream())
    {
      ghost var all := Stream();
      FirstMatchConcat(pending, ring.queue, matches);
      var pos := 0;
      while pos < |pending| && !matches(pending[pos])
        invariant pos <= |pending| && forall j :: 0 <= j < pos ==> !matches(pending[j])
      {
        pos := pos + 1;
      }
      FirstMatchIs(pending, matches, pos);
      if pos < |pending| {
        r := Some(pending[pos]);
        assert RemoveAt(all, pos) == RemoveAt(pending, pos) + ring.queue;
        pending := pending[..pos] + pending[pos + 1..];
        return;
      }
      r := Rest(matches);
    }

    /** The loop over the ring, once nothing pending matches. */
    method Rest(matches: Trb -> bool) returns (r: Option<Trb>)
      requires Valid() && FirstMatch(pending, matches) == |pending|
      modifies this, ring
      ensures Valid()
      ensures var i := FirstMatch(old(Stream()), matches);
              if i < |old(Stream())| then r == Some(old(Stream())[i]) && Stream() == RemoveAt(old(Stream()), i)
              else r == None && Stream() == old(Stream())
    {
      ghost var all := Stream();
      while true
        invariant Valid() && Stream() == all && FirstMatch(pending, matches) == |pending|
        decreases |ring.queue|
      {
        ghost var queue := ring.queue;
        assert queue != [] ==> queue == [queue[0]] + queue[1..];
        RestStep(all, pending, queue, matches);
        var trb := ring.TryDequeue();
        if trb.None? {
          return None;
        }
        if matches(trb.value) {
          return trb;
        }
        pending := pending + [trb.value];
      }
    }
  }

  /** What one turn of that loop amounts to. */
  lemma RestStep(all: seq<Trb>, pending: seq<Trb>, queue: seq<Trb>, matches: Trb -> bool)
    requires all == pending + queue && FirstMatch(pending, matches) == |pending|
    requires queue != [] ==> queue == [queue[0]] + queue[1..]
    ensures queue == [] ==> FirstMatch(all, matches) == |all| && pending == all
    ensures queue != [] && matches(queue[0]) ==>
              FirstMatch(all, matches) == |pending| && all[|pending|] == queue[0] && RemoveAt(all,
                  |pending|) == pending + queue[1..]
    ensures queue != [] && !matches(queue[0]) ==>
              FirstMatch(pending + [queue[0]], matches) == |pending| + 1 && pending + [queue[0]] + queue[1..] == all
  {
    FirstMatchConcat(pending, queue, matches);
    if queue != [] {
      FirstMatchConcat(pending, [queue[0]], matches);
      TakeOne(all, pending, queue[0], queue[1..]);
    } else {
      assert pending + [] == pending;
    }
  }

  lemma TakeOne(all: seq<Trb>, pending: seq<Trb>, t: Trb, rest: seq<Trb>)
    requires all == pending + ([t] + rest)
    ensures all[|pending|] == t && RemoveAt(all, |pending|) == pending + rest && pending + [t] + rest == all
  {
  }
}
