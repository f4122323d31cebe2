/** Several pollers of one controller. The pending queue and the event ring have a lock each, and a
    matching poll holds an event between the two: what is kept then, and exactly when the order is. */
module EventPollers {
  import opened EventRouting

  /** A poller between two critical sections: `poll_event` found nothing pending; a matching poll found
      nothing pending; it has taken an event from the ring that does not match. */
  datatype Poller = BeforeRing | Draining(filter: nat) | Holding(filter: nat, event: nat)

  /** An event is named by its number: `posted` of them were put into the ring, `taken` were taken out.
      `out` are those handed to a caller, in order. A poller that is not listed is in no poll. */
  datatype Router = Router(posted: nat, taken: nat, pending: seq<nat>, out: seq<nat>, pollers: map<int, Poller>)

  /** `TakesRaw` is `wait_command`, which looks at the ring only. */
  datatype Step =
    | Arrives
    | TakesRaw
    | StartsPoll(p: int)
    | PollsRing(p: int)
    | StartsMatching(p: int, filter: nat)
    | Drains(p: int)
    | Pushes(p: int)

  predicate Enabled(s: Router, e: Step) {
    match e
    case Arrives => true
    case TakesRaw => true
    case StartsPoll(p) => p !in s.pollers
    case PollsRing(p) => p in s.pollers && s.pollers[p].BeforeRing?
    case StartsMatching(p, _) => p !in s.pollers
    case Drains(p) => p in s.pollers && s.pollers[p].Draining?
    case Pushes(p) => p in s.pollers && s.pollers[p].Holding?
  }

  function HandOut(s: Router, k: nat): Router {
    s.(out := s.out + [k])
  }

  /** The oldest event of the ring goes to the caller, if there is one. */
  function FromRing(s: Router): Router {
    if s.taken < s.posted then HandOut(s.(taken := s.taken + 1), s.taken) else s
  }

  /** The event at a place of the pending queue goes to the caller. */
  function FromPending(s: Router, i: nat): Router
    requires i < |s.pending|
  {
    HandOut(s.(pending := RemoveAt(s.pending, i)), s.pending[i])
  }

  /** One turn of the loop over the ring, up to the push. */
  function Drain(matches: nat -> nat -> bool, s: Router, p: int, f: nat): Router {
    if s.taken >= s.posted || matches(f)(s.taken) then FromRing(s.(pollers := s.pollers - {p}))
    else s.(taken := s.taken + 1, pollers := s.pollers[p := Holding(f, s.taken)])
  }

  /** One critical section. `matches(f)(k)` is what filter `f` says of event `k`. */
  function Next(matches: nat -> nat -> bool, s: Router, e: Step): Router
    requires Enabled(s, e)
  {
    match e
    case Arrives => s.(posted := s.posted + 1)
    case TakesRaw => FromRing(s)
    case StartsPoll(p) => if s.pending != [] then FromPending(s, 0) else s.(pollers := s.pollers[p := BeforeRing])
    case PollsRing(p) => FromRing(s.(pollers := s.pollers - {p}))
    case StartsMatching(p, f) =>
      var i := FirstMatch(s.pending, matches(f));
      if i < |s.pending| then FromPending(s, i) else s.(pollers := s.pollers[p := Draining(f)])
    case Drains(p) => Drain(matches, s, p, s.pollers[p].filter)
    case Pushes(p) =>
      s.(pending := s.pending + [s.pollers[p].event], pollers := s.pollers[p := Draining(s.pollers[p].filter)])
  }

  predicate CanRun(matches: nat -> nat -> bool, s: Router, es: seq<Step>)
    decreases es
  {
    es == [] || (Enabled(s, es[0]) && CanRun(matches, Next(matches, s, es[0]), es[1..]))
  }

  function After(matches: nat -> nat -> bool, s: Router, es: seq<Step>): Router
    requires CanRun(matches, s, es)
    decreases es
  {
    if es == [] then s else After(matches, Next(matches, s, es[0]), es[1..])
  }

  const START: Router := Router(0, 0, [], [], map[])

  // ---------- nothing is lost or doubled ----------

  /** The pollers that hold an event. */
  function Holders(pollers: map<int, Poller>, k: nat): set<int> {
    set p | p in pollers && pollers[p].Holding? && pollers[p].event == k
  }

  /** In how many places an event is that was taken from the ring. */
  function Places(s: Router, k: nat): nat {
    multiset(s.pending)[k] + multiset(s.out)[k] + |Holders(s.pollers, k)|
  }

  /** Every event that was taken from the ring is in one place; the others are still there. */
  ghost predicate Inv(s: Router) {
    s.taken <= s.posted && forall k: nat :: Places(s, k) == if k < s.taken then 1 else 0
  }

  /** Only what a poller holds matters. */
  lemma SameHolders(pollers: map<int, Poller>, after: map<int, Poller>, p: int, k: nat)
    requires after - {p} == pollers - {p} && p !in Holders(pollers, k) && p !in Holders(after, k)
    ensures Holders(after, k) == Holders(pollers, k)
  {
    forall q
      ensures q in Holders(after, k) <==> q in Holders(pollers, k)
    {
      if q != p {
        SameElsewhere(pollers, after, p, q);
      }
    }
  }

  lemma SameElsewhere(pollers: map<int, Poller>, after: map<int, Poller>, p: int, q: int)
    requires after - {p} == pollers - {p} && q != p
    ensures q in after <==> q in pollers
    ensures q in pollers ==> after[q] == pollers[q]
  {
    assert q in after <==> q in after - {p};
    assert q in pollers <==> q in pollers - {p};
    assert q in pollers ==> (after - {p})[q] == (pollers - {p})[q];
  }

  lemma RemoveAtCounts(s: seq<nat>, i: nat)
    requires i < |s|
    ensures multiset(s) == multiset(RemoveAt(s, i)) + multiset{s[i]}
  {
    assert s == s[..i] + [s[i]] + s[i + 1..];
  }

  lemma FromRingKeeps(s: Router)
    requires Inv(s)
    ensures Inv(FromRing(s))
  {
    var n := FromRing(s);
    if s.taken < s.posted {
      assert multiset(n.out) == multiset(s.out) + multiset{s.taken};
      forall k: nat
        ensures Places(n, k) == if k < n.taken then 1 else 0
      {
        assert Places(s, k) == if k < s.taken then 1 else 0;
      }
    }
  }

  lemma FromPendingKeeps(s: Router, i: nat)
    requires Inv(s) && i < |s.pending|
    ensures Inv(FromPending(s, i))
  {
    var n := FromPending(s, i);
    RemoveAtCounts(s.pending, i);
    assert multiset(n.out) == multiset(s.out) + multiset{s.pending[i]};
    forall k: nat
      ensures Places(n, k) == if k < n.taken then 1 else 0
    {
      assert Places(s, k) == if k < s.taken then 1 else 0;
    }
  }

  /** A poller goes on without holding an event before or after. */
  lemma MoveKeeps(s: Router, p: int, after: map<int, Poller>)
    requires Inv(s) && after - {p} == s.pollers - {p}
    requires (p in s.pollers ==> !s.pollers[p].Holding?) && (p in after ==> !after[p].Holding?)
    ensures Inv(s.(pollers := after))
  {
    var n := s.(pollers := after);
    forall k: nat
      ensures Places(n, k) == if k < n.taken then 1 else 0
    {
      assert Places(s, k) == if k < s.taken then 1 else 0;
      SameHolders(s.pollers, after, p, k);
    }
  }

  /** A poller takes an event to hold, or gives up the one it holds. */
  lemma OneHolderMore(pollers: map<int, Poller>, after: map<int, Poller>, p: int, k: nat)
    requires after - {p} == pollers - {p} && p in after && after[p].Holding? && after[p].event == k
    requires p in pollers ==> !pollers[p].Holding?
    ensures Holders(after, k) == Holders(pollers, k) + {p} && |Holders(after, k)| == |Holders(pollers, k)| + 1
    ensures forall j: nat :: j != k ==> Holders(after, j) == Holders(pollers, j)
  {
    forall q
      ensures q in Holders(after, k) <==> q in Holders(pollers, k) || q == p
    {
      if q != p {
        SameElsewhere(pollers, after, p, q);
      }
    }
    forall j: nat | j != k
      ensures Holders(after, j) == Holders(pollers, j)
    {
      SameHolders(pollers, after, p, j);
    }
  }

  lemma HoldKeeps(s: Router, p: int, f: nat, n: Router)
    requires Inv(s) && p in s.pollers && s.pollers[p] == Draining(f) && s.taken < s.posted
    requires n == s.(taken := s.taken + 1, pollers := s.pollers[p := Holding(f, s.taken)])
    ensures Inv(n)
  {
    OneHolderMore(s.pollers, n.pollers, p, s.taken);
    forall k: nat
      ensures Places(n, k) == if k < n.taken then 1 else 0
    {
      assert Places(s, k) == if k < s.taken then 1 else 0;
    }
  }

  lemma PushKeeps(s: Router, p: int, h: Poller, n: Router)
    requires Inv(s) && p in s.pollers && s.pollers[p] == h && h.Holding?
    requires n == s.(pending := s.pending + [h.event], pollers := s.pollers[p := Draining(h.filter)])
    ensures Inv(n)
  {
    OneHolderMore(n.pollers, s.pollers, p, h.event);
    assert multiset(n.pending) == multiset(s.pending) + multiset{h.event};
    forall k: nat
      ensures Places(n, k) == if k < n.taken then 1 else 0
    {
      assert Places(s, k) == if k < s.taken then 1 else 0;
    }
  }

  lemma NextKeeps(matches: nat -> nat -> bool, s: Router, e: Step)
    requires Inv(s) && Enabled(s, e)
    ensures Inv(Next(matches, s, e))
  {
    match e
    case Arrives =>
      assert forall k: nat :: Places(Next(matches, s, e), k) == Places(s, k);
    case TakesRaw => FromRingKeeps(s);
    case StartsPoll(p) =>
      if s.pending != [] {
        FromPendingKeeps(s, 0);
      } else {
        MoveKeeps(s, p, s.pollers[p := BeforeRing]);
      }
    case PollsRing(p) =>
      MoveKeeps(s, p, s.pollers - {p});
      FromRingKeeps(s.(pollers := s.pollers - {p}));
    case StartsMatching(p, f) =>
      var i := FirstMatch(s.pending, matches(f));
      if i < |s.pending| {
        FromPendingKeeps(s, i);
      } else {
        MoveKeeps(s, p, s.pollers[p := Draining(f)]);
      }
    case Drains(p) =>
      var f := s.pollers[p].filter;
      if s.taken >= s.posted || matches(f)(s.taken) {
        MoveKeeps(s, p, s.pollers - {p});
        FromRingKeeps(s.(pollers := s.pollers - {p}));
      } else {
        HoldKeeps(s, p, f, Next(matches, s, e));
      }
    case Pushes(p) => PushKeeps(s, p, s.pollers[p], Next(matches, s, e));
  }

  lemma {:induction false} RunKeeps(matches: nat -> nat -> bool, s: Router, es: seq<Step>)
    requires Inv(s) && CanRun(matches, s, es)
    ensures Inv(After(matches, s, es))
    decreases es
  {
    if es != [] {
      NextKeeps(matches, s, es[0]);
      RunKeeps(matches, Next(matches, s, es[0]), es[1..]);
    }
  }

  lemma StartOk()
    ensures Inv(START)
  {
    forall k: nat
      ensures Places(START, k) == 0
    {
      assert Holders(START.pollers, k) == {};
    }
  }

  /** In every run of any number of pollers, nothing is lost or doubled: an event that was posted is in
      the ring, or in exactly one of these places, once: pending, held by one poller, handed out. */
  lemma NothingIsLost(matches: nat -> nat -> bool, es: seq<Step>, k: nat)
    requires CanRun(matches, START, es)
    ensures var s := After(matches, START, es);
            Places(s, k) == if k < s.taken then 1 else 0
    ensures After(matches, START, es).taken <= After(matches, START, es).posted
  {
    StartOk();
    RunKeeps(matches, START, es);
  }

  // ---------- order ----------

  predicate Ordered(l: seq<nat>) {
    forall i, j :: 0 <= i < j < |l| ==> l[i] < l[j]
  }

  /** A newer event than `k` is pending. */
  predicate NewerPending(s: Router, k: nat) {
    exists x :: x in s.pending && x > k
  }

  /** A push keeps the pending queue in order if and only if nothing newer is in it. */
  lemma PushKeepsOrder(matches: nat -> nat -> bool, s: Router, p: int)
    requires Inv(s) && Ordered(s.pending) && Enabled(s, Pushes(p))
    ensures Ordered(Next(matches, s, Pushes(p)).pending) <==> !NewerPending(s, s.pollers[p].event)
  {
    var k, l := s.pollers[p].event, s.pending;
    var more: seq<nat> := l + [k];
    HeldIsNotPending(s, p);
    if Ordered(more) {
      forall x | x in l
        ensures x <= k
      {
        var i :| 0 <= i < |l| && l[i] == x;
        assert more[i] < more[|l|];
      }
    } else {
      var i, j :| 0 <= i < j < |more| && more[i] >= more[j];
      assert l[i] in l;
    }
  }

  lemma HeldIsNotPending(s: Router, p: int)
    requires Inv(s) && p in s.pollers && s.pollers[p].Holding?
    ensures s.pollers[p].event !in s.pending && s.pollers[p].event < s.taken
  {
    var k := s.pollers[p].event;
    assert p in Holders(s.pollers, k);
    assert Places(s, k) == if k < s.taken then 1 else 0;
    assert k in s.pending ==> multiset(s.pending)[k] > 0;
  }

  lemma RemoveKeepsOrder(l: seq<nat>, i: nat)
    requires Ordered(l) && i < |l|
    ensures Ordered(RemoveAt(l, i))
  {
    var r := RemoveAt(l, i);
    assert forall j :: 0 <= j < |r| ==> r[j] == l[if j < i then j else j + 1];
  }

  /** No other step can break the order. */
  lemma OthersKeepOrder(matches: nat -> nat -> bool, s: Router, e: Step)
    requires Ordered(s.pending) && Enabled(s, e) && !e.Pushes?
    ensures Ordered(Next(matches, s, e).pending)
  {
    if e.StartsPoll? && s.pending != [] {
      RemoveKeepsOrder(s.pending, 0);
    } else if e.StartsMatching? && FirstMatch(s.pending, matches(e.filter)) < |s.pending| {
      RemoveKeepsOrder(s.pending, FirstMatch(s.pending, matches(e.filter)));
    }
  }

  /** The pending queue is in order all along a run. */
  predicate OrderedThroughout(matches: nat -> nat -> bool, s: Router, es: seq<Step>)
    requires CanRun(matches, s, es)
    decreases es
  {
    Ordered(s.pending) && (es == [] || OrderedThroughout(matches, Next(matches, s, es[0]), es[1..]))
  }

  /** Every push of a run finds only older events pending. */
  predicate PushesInTurn(matches: nat -> nat -> bool, s: Router, es: seq<Step>)
    requires CanRun(matches, s, es)
    decreases es
  {
    es == [] || (&& (es[0].Pushes? ==> !NewerPending(s, s.pollers[es[0].p].event))
                 && PushesInTurn(matches, Next(matches, s, es[0]), es[1..]))
  }

  lemma {:induction false} OrderExactlyWhen(matches: nat -> nat -> bool, s: Router, es: seq<Step>)
    requires Inv(s) && Ordered(s.pending) && CanRun(matches, s, es)
    ensures OrderedThroughout(matches, s, es) <==> PushesInTurn(matches, s, es)
    decreases es
  {
    if es != [] {
      var n := Next(matches, s, es[0]);
      NextKeeps(matches, s, es[0]);
      if es[0].Pushes? {
        PushKeepsOrder(matches, s, es[0].p);
      } else {
        OthersKeepOrder(matches, s, es[0]);
      }
      if Ordered(n.pending) {
        OrderExactlyWhen(matches, n, es[1..]);
      } else {
        assert !OrderedThroughout(matches, n, es[1..]);
      }
    }
  }

  /** No two pollers hold an event at the same time. */
  predicate OneHolds(pollers: map<int, Poller>) {
    forall p, q :: p in pollers && q in pollers && pollers[p].Holding? && pollers[q].Holding? ==> p == q
  }

  predicate OneHoldsThroughout(matches: nat -> nat -> bool, s: Router, es: seq<Step>)
    requires CanRun(matches, s, es)
    decreases es
  {
    OneHolds(s.pollers) && (es == [] || OneHoldsThroughout(matches, Next(matches, s, es[0]), es[1..]))
  }

  /** What is held is newer than all that is pending. */
  predicate HeldIsNewest(s: Router) {
    forall p :: p in s.pollers && s.pollers[p].Holding? ==> !NewerPending(s, s.pollers[p].event)
  }

  lemma PendingWasTaken(s: Router, x: nat)
    requires Inv(s) && x in s.pending
    ensures x < s.taken
  {
    assert x in multiset(s.pending);
    assert Places(s, x) == if x < s.taken then 1 else 0;
  }

  lemma StaysNewest(matches: nat -> nat -> bool, s: Router, e: Step)
    requires Inv(s) && Enabled(s, e) && OneHolds(s.pollers) && HeldIsNewest(s)
    ensures HeldIsNewest(Next(matches, s, e))
  {
    var n := Next(matches, s, e);
    if e.Pushes? {
      assert forall p :: p in n.pollers ==> !n.pollers[p].Holding?;
    }
    forall p, x | !e.Pushes? && p in n.pollers && n.pollers[p].Holding? && x in n.pending
      ensures x <= n.pollers[p].event
    {
      assert x in s.pending;
      if p in s.pollers && s.pollers[p] == n.pollers[p] {
        assert !NewerPending(s, s.pollers[p].event);
      } else {
        PendingWasTaken(s, x);
      }
    }
  }

  /** In every run in which no two pollers hold an event at the same time, the order is kept. */
  lemma {:induction false} OneHolderKeepsOrder(matches: nat -> nat -> bool, s: Router, es: seq<Step>)
    requires Inv(s) && HeldIsNewest(s) && CanRun(matches, s, es) && OneHoldsThroughout(matches, s, es)
    ensures PushesInTurn(matches, s, es)
    decreases es
  {
    if es != [] {
      NextKeeps(matches, s, es[0]);
      StaysNewest(matches, s, es[0]);
      OneHolderKeepsOrder(matches, Next(matches, s, es[0]), es[1..]);
    }
  }

  /** From the start: the pending queue is in the order of posting all along a run if and only if every
      push finds only older events pending, and so whenever no two pollers hold an event at once. */
  lemma OrderOfRuns(matches: nat -> nat -> bool, es: seq<Step>)
    requires CanRun(matches, START, es)
    ensures OrderedThroughout(matches, START, es) <==> PushesInTurn(matches, START, es)
    ensures OneHoldsThroughout(matches, START, es) ==> OrderedThroughout(matches, START, es)
  {
    StartOk();
    OrderExactlyWhen(matches, START, es);
    if OneHoldsThroughout(matches, START, es) {
      OneHolderKeepsOrder(matches, START, es);
    }
  }

  /** Two pollers can reverse the order: each takes an event, and the one with the newer pushes first. */
  function Overtaking(f: nat): seq<Step> {
    [Arrives, Arrives, StartsMatching(1, f), StartsMatching(2, f), Drains(1), Drains(2), Pushes(2), Pushes(1)]
  }

  /** Each has an event in hand. */
  lemma BothHold(matches: nat -> nat -> bool, f: nat, es: seq<Step>, n: Router)
    requires !matches(f)(0) && !matches(f)(1) && n == Router(2, 2, [], [], map[1 := Holding(f, 0), 2 := Holding(f, 1)])
    requires CanRun(matches, n, es)
    ensures var s := Router(2, 0, [], [], map[1 := Draining(f), 2 := Draining(f)]);
            CanRun(matches, s, [Drains(1), Drains(2)] + es) &&
            After(matches, s, [Drains(1), Drains(2)] + es) == After(matches, n, es)
  {
    TwoSteps(matches, Router(2, 0, [], [], map[1 := Draining(f), 2 := Draining(f)]), Drains(1), Drains(2), es, n);
  }

  lemma OrderCanBreak(matches: nat -> nat -> bool, f: nat)
    requires !matches(f)(0) && !matches(f)(1)
    ensures CanRun(matches, START, Overtaking(f)) && After(matches, START, Overtaking(f)).pending == [1, 0]
  {
    var s1 := Router(2, 0, [], [], map[]);
    var s2 := Router(2, 0, [], [], map[1 := Draining(f), 2 := Draining(f)]);
    var s3 := Router(2, 2, [], [], map[1 := Holding(f, 0), 2 := Holding(f, 1)]);
    var end := [Pushes(2), Pushes(1)];
    TwoSteps(matches, s3, Pushes(2), Pushes(1), [], Router(2, 2, [1, 0], [], s2.pollers));
    BothHold(matches, f, end, s3);
    var rest := [Drains(1), Drains(2)] + end;
    TwoSteps(matches, s1, StartsMatching(1, f), StartsMatching(2, f), rest, s2);
    TwoSteps(matches, START, Arrives, Arrives, [StartsMatching(1, f), StartsMatching(2, f)] + rest, s1);
    assert [Arrives, Arrives] + ([StartsMatching(1, f), StartsMatching(2, f)] + rest) == Overtaking(f);
  }

  lemma TwoSteps(matches: nat -> nat -> bool, s: Router, d: Step, e: Step, es: seq<Step>, n: Router)
    requires Enabled(s, d) && Enabled(Next(matches, s, d), e) && Next(matches, Next(matches, s, d), e) == n
    requires CanRun(matches, n, es)
    ensures CanRun(matches, s, [d, e] + es) && After(matches, s, [d, e] + es) == After(matches, n, es)
  {
    var m, all := Next(matches, s, d), [d, e] + es;
    assert all[0] == d && all[1..] == [e] + es && ([e] + es)[1..] == es;
    assert CanRun(matches, m, all[1..]) && After(matches, m, all[1..]) == After(matches, n, es);
  }

  // ---------- the oldest match ----------

  predicate Undelivered(s: Router, k: nat) {
    k < s.posted && k !in s.out
  }

  /** `k` is the oldest undelivered event that the filter accepts. */
  predicate OldestMatch(accepts: nat -> bool, s: Router, k: nat) {
    Undelivered(s, k) && accepts(k) && forall j: nat :: j < k && Undelivered(s, j) ==> !accepts(j)
  }

  /** An event that is out of the ring and waits: it is pending or held. */
  predicate SetAside(s: Router, k: nat) {
    k in s.pending || Holders(s.pollers, k) != {}
  }

  predicate NoneSetAside(accepts: nat -> bool, s: Router, bound: nat) {
    forall j: nat :: j < bound && SetAside(s, j) ==> !accepts(j)
  }

  lemma SetAsideAre(s: Router, k: nat)
    requires Inv(s)
    ensures SetAside(s, k) <==> Undelivered(s, k) && k < s.taken
  {
    assert Places(s, k) == if k < s.taken then 1 else 0;
    assert k in s.pending <==> multiset(s.pending)[k] > 0;
    assert k in s.out <==> multiset(s.out)[k] > 0;
  }

  lemma UndeliveredBefore(accepts: nat -> bool, s: Router, bound: nat)
    requires Inv(s) && bound <= s.taken
    ensures NoneSetAside(accepts, s, bound) <==> forall j: nat :: j < bound && Undelivered(s, j) ==> !accepts(j)
  {
    forall j: nat | j < bound
      ensures SetAside(s, j) <==> Undelivered(s, j)
    {
      SetAsideAre(s, j);
    }
  }

  lemma TakenIsUndelivered(s: Router)
    requires Inv(s) && s.taken < s.posted
    ensures Undelivered(s, s.taken)
  {
    assert Places(s, s.taken) == 0;
  }

  /** The end of a matching poll at the ring. What it takes is the oldest match if and only if no event
      that is pending or held matches; and it returns nothing although a match is undelivered if and
      only if one of those does. */
  lemma RingGivesOldestExactlyWhen(matches: nat -> nat -> bool, s: Router, p: int)
    requires Inv(s) && Enabled(s, Drains(p))
    ensures var f, n := s.pollers[p].filter, Next(matches, s, Drains(p));
            && (|n.out| > |s.out| ==>
                  && n.out == s.out + [s.taken]
                  && (OldestMatch(matches(f), s, s.taken) <==> NoneSetAside(matches(f), s, s.taken)))
            && (p !in n.pollers && n.out == s.out ==>
                  (NoneSetAside(matches(f), s, s.taken) <==>
                   forall k: nat :: k < s.posted && Undelivered(s, k) ==> !matches(f)(k)))
  {
    UndeliveredBefore(matches(s.pollers[p].filter), s, s.taken);
    if s.taken < s.posted {
      TakenIsUndelivered(s);
    }
  }

  /** Its start at the pending queue: what it takes is the oldest match if and only if no older event
      matches that is pending further back or held. */
  lemma PendingGivesOldestExactlyWhen(matches: nat -> nat -> bool, s: Router, p: int, f: nat)
    requires Inv(s) && Enabled(s, StartsMatching(p, f))
    ensures var n := Next(matches, s, StartsMatching(p, f));
            |n.out| > |s.out| ==>
              && n.out == s.out + [n.out[|s.out|]] && matches(f)(n.out[|s.out|]) && n.out[|s.out|] in s.pending
              && (OldestMatch(matches(f), s, n.out[|s.out|]) <==> NoneSetAside(matches(f), s, n.out[|s.out|]))
  {
    var i := FirstMatch(s.pending, matches(f));
    FirstMatchIs(s.pending, matches(f), i);
    if i < |s.pending| {
      PendingWasTaken(s, s.pending[i]);
      SetAsideAre(s, s.pending[i]);
      UndeliveredBefore(matches(f), s, s.pending[i]);
    }
  }

  // ---------- one poller at a time ----------

  /** A poll starts only when no other is under way. */
  predicate Alone(s: Router, e: Step) {
    e.StartsPoll? || e.StartsMatching? ==> s.pollers == map[]
  }

  predicate AloneThroughout(matches: nat -> nat -> bool, s: Router, es: seq<Step>)
    requires CanRun(matches, s, es)
    decreases es
  {
    es == [] || (Alone(s, es[0]) && AloneThroughout(matches, Next(matches, s, es[0]), es[1..]))
  }

  /** Only one poller is at work, and its filter accepts nothing that is set aside. */
  predicate AloneInv(matches: nat -> nat -> bool, s: Router) {
    && (forall p, q :: p in s.pollers && q in s.pollers ==> p == q)
    && Ordered(s.pending) && HeldIsNewest(s)
    && (forall p :: p in s.pollers ==> Passed(matches, s.pending, s.pollers[p]))
  }

  predicate Passed(matches: nat -> nat -> bool, pending: seq<nat>, p: Poller) {
    match p
    case BeforeRing => true
    case Draining(f) => forall j :: j in pending ==> !matches(f)(j)
    case Holding(f, k) => !matches(f)(k) && forall j :: j in pending ==> !matches(f)(j)
  }

  lemma AloneKeeps(matches: nat -> nat -> bool, s: Router, e: Step)
    requires Inv(s) && AloneInv(matches, s) && Enabled(s, e) && Alone(s, e)
    ensures AloneInv(matches, Next(matches, s, e))
  {
    StaysNewest(matches, s, e);
    if e.Pushes? {
      PushKeepsOrder(matches, s, e.p);
    } else {
      OthersKeepOrder(matches, s, e);
    }
    if e.StartsMatching? {
      FirstMatchIs(s.pending, matches(e.filter), FirstMatch(s.pending, matches(e.filter)));
    }
  }

  lemma {:induction false} AloneRunKeeps(matches: nat -> nat -> bool, s: Router, es: seq<Step>)
    requires Inv(s) && AloneInv(matches, s) && CanRun(matches, s, es) && AloneThroughout(matches, s, es)
    ensures Inv(After(matches, s, es)) && AloneInv(matches, After(matches, s, es))
    decreases es
  {
    if es != [] {
      NextKeeps(matches, s, es[0]);
      AloneKeeps(matches, s, es[0]);
      AloneRunKeeps(matches, Next(matches, s, es[0]), es[1..]);
    }
  }

  lemma NobodyHolds(pollers: map<int, Poller>, p: int, k: nat)
    requires p in pollers && pollers[p].Draining? && forall q :: q in pollers ==> q == p
    ensures Holders(pollers, k) == {}
  {
    forall q
      ensures q !in Holders(pollers, k)
    {
    }
  }

  /** With one poller at a time, in every run: each delivery of a matching poll is of the oldest match,
      and nothing is returned only when no undelivered event matches. */
  lemma AloneGetsOldest(matches: nat -> nat -> bool, es: seq<Step>, e: Step, f: nat)
    requires CanRun(matches, START, es) && AloneThroughout(matches, START, es)
    requires var s := After(matches, START, es);
             Enabled(s, e) && Alone(s, e) && (e.StartsMatching? || e.Drains?) &&
             f == if e.StartsMatching? then e.filter else s.pollers[e.p].filter
    ensures var s := After(matches, START, es);
            var n := Next(matches, s, e);
            && (|n.out| > |s.out| ==> OldestMatch(matches(f), s, n.out[|s.out|]))
            && (e.Drains? && e.p !in n.pollers && n.out == s.out ==>
                  forall k: nat :: k < s.posted && Undelivered(s, k) ==> !matches(f)(k))
  {
    StartOk();
    AloneRunKeeps(matches, START, es);
    var s := After(matches, START, es);
    if e.Drains? {
      assert Passed(matches, s.pending, s.pollers[e.p]);
      RingGivesOldestExactlyWhen(matches, s, e.p);
      forall j: nat | SetAside(s, j)
        ensures j in s.pending
      {
        NobodyHolds(s.pollers, e.p, j);
      }
    } else {
      PendingGivesOldestExactlyWhen(matches, s, e.p, f);
      FirstIsOldest(s, matches(f));
    }
  }

  /** In an ordered queue the first match is the oldest. */
  lemma FirstIsOldest(s: Router, accepts: nat -> bool)
    requires Ordered(s.pending) && s.pollers == map[]
    ensures var i := FirstMatch(s.pending, accepts);
            i < |s.pending| ==> NoneSetAside(accepts, s, s.pending[i])
  {
    var i := FirstMatch(s.pending, accepts);
    FirstMatchIs(s.pending, accepts, i);
    if i < |s.pending| {
      forall j: nat | j < s.pending[i] && SetAside(s, j)
        ensures !accepts(j)
      {
        assert j in s.pending;
        var k :| 0 <= k < |s.pending| && s.pending[k] == j;
      }
    }
  }

  /** With two it is otherwise: the second looks while the first holds the event it wants. */
  function Missing(f: nat, g: nat): seq<Step> {
    [Arrives, StartsMatching(1, f), Drains(1), StartsMatching(2, g)]
  }

  /** Its poll ends with nothing. */
  lemma MatchCanBeMissed(matches: nat -> nat -> bool, f: nat, g: nat)
    requires !matches(f)(0) && matches(g)(0)
    ensures CanRun(matches, START, Missing(f, g))
    ensures var s := After(matches, START, Missing(f, g));
            && Enabled(s, Drains(2)) && OldestMatch(matches(g), s, 0)
            && Next(matches, s, Drains(2)).out == [] && 2 !in Next(matches, s, Drains(2)).pollers
  {
    var s1 := Router(1, 0, [], [], map[1 := Draining(f)]);
    var s2 := Router(1, 1, [], [], map[1 := Holding(f, 0), 2 := Draining(g)]);
    TwoSteps(matches, s1, Drains(1), StartsMatching(2, g), [], s2);
    TwoSteps(matches, START, Arrives, StartsMatching(1, f), [Drains(1), StartsMatching(2, g)], s1);
  }
}
