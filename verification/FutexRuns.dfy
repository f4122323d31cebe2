/** What holds of the futex calls over every run: any number of tasks, each step one critical section. */
module FutexRuns {
  import opened Basics
  import opened PrioQueue
  import opened Futex
  import opened HandleLists

  /** A task inside a wait: where, with which handle, until when. */
  datatype Sleep = Sleep(addr: nat, handle: Handle, deadline: Option<nat>)

  /** The lot and the words; the tasks inside a wait; those whose handle a wake took and that have
      not returned yet; the number of handles taken, of waits that returned 0 and of waits that
      timed out; the sum of what wakes returned; whether one of them saturated. */
  datatype System = System(f: Futexes, asleep: map<int, Sleep>, popped: set<int>,
                           pops: nat, zeros: nat, timeouts: nat, returned: int, saturated: bool)

  datatype Step =
    | Wait(task: int, prio: nat, addr: nat, expected: nat, replace: Option<nat>, deadline: Option<nat>)
    | Recheck(task: int, now: nat)
    | Wake(addr: nat, count: int)
    | WakeOrSet(addr: nat, count: int, newValue: nat)
    | Store(addr: nat, value: nat)

  predicate Enabled(s: System, e: Step) {
    match e
    case Wait(task, prio, _, _, _, _) => task !in s.asleep && prio < NO_PRIORITIES
    case Recheck(task, _) => task in s.asleep
    case Wake(_, count) => count <= I32_MAX
    case WakeOrSet(_, count, _) => count <= I32_MAX
    case Store(_, _) => true
  }

  /** After a wake with a count of at least 0 that took the handles `calls`. */
  function AfterWake(s: System, a: nat, count: int): System {
    var calls := Woken(s.f.lot, a, count);
    s.(f := s.f.(lot := WakeLot(s.f.lot, a, count)),
       popped := s.popped + Ids(calls),
       pops := s.pops + |calls|,
       returned := s.returned + Saturated(|calls|),
       saturated := s.saturated || |calls| > I32_MAX)
  }

  function AfterWait(s: System, task: int, h: Handle, a: nat, expected: nat, replace: Option<nat>,
        deadline: Option<nat>): System {
    var words := if replace.Some? then s.f.words[a := replace.value] else s.f.words;
    if Word(s.f.words, a) != expected then s.(f := s.f.(words := words))
    else s.(f := Futexes(Park(s.f.lot, a, h), words), asleep := s.asleep[task := Sleep(a, h, deadline)])
  }

  function AfterRecheck(s: System, task: int, now: nat): System
    requires task in s.asleep
  {
    var p := s.asleep[task];
    var t := s.(f := s.f.(lot := RecheckLot(s.f.lot, p.addr, p.handle, p.deadline, now)));
    match RecheckOutcome(s.f.lot, p.addr, p.handle, p.deadline, now)
    case SleepAgain => t
    case ReturnZero => t.(asleep := s.asleep - {task}, popped := s.popped - {task}, zeros := s.zeros + 1)
    case ReturnTimedOut => t.(asleep := s.asleep - {task}, timeouts := s.timeouts + 1)
  }

  function Next(s: System, e: Step): System
    requires Enabled(s, e)
  {
    match e
    case Wait(task, prio, a, expected, replace, deadline) =>
      AfterWait(s, task, Handle(task, prio), a, expected, replace, deadline)
    case Recheck(task, now) => AfterRecheck(s, task, now)
    case Wake(a, count) => if count < 0 then s else AfterWake(s, a, count)
    case WakeOrSet(a, count, newValue) =>
      if count < 0 then s
      else if Woken(s.f.lot, a, count) == [] then
        AfterWake(s, a, count).(f := Futexes(WakeLot(s.f.lot, a, count), s.f.words[a := newValue]))
      else AfterWake(s, a, count)
    case Store(a, value) => s.(f := s.f.(words := s.f.words[a := value]))
  }

  const INITIAL: System := System(Futexes(map[], map[]), map[], {}, 0, 0, 0, 0, false)

  // ---------- the invariant ----------

  predicate NoEmptyList(lot: Lot) {
    forall a :: a in lot ==> lot[a] != []
  }

  /** Whoever is in a list is asleep at that address with that handle, and is not marked popped. */
  predicate ListedAreAsleep(lot: Lot, asleep: map<int, Sleep>, popped: set<int>) {
    forall a, h :: a in lot && h in lot[a] ==> Owns(asleep, popped, a, h)
  }

  predicate Owns(asleep: map<int, Sleep>, popped: set<int>, a: nat, h: Handle) {
    h.id in asleep && asleep[h.id].addr == a && asleep[h.id].handle == h && h.id !in popped
  }

  /** Whoever is asleep is in the list or was popped from it. */
  predicate AsleepAreListed(lot: Lot, asleep: map<int, Sleep>, popped: set<int>) {
    forall t :: t in asleep ==> Accounted(lot, asleep, popped, t)
  }

  predicate Accounted(lot: Lot, asleep: map<int, Sleep>, popped: set<int>, t: int)
    requires t in asleep
  {
    && asleep[t].handle.id == t && asleep[t].handle.prio < NO_PRIORITIES
    && (t in popped || asleep[t].handle in Waiters(lot, asleep[t].addr))
  }

  predicate ParkedOnce(lot: Lot) {
    forall a :: a in lot ==> OnceEach(lot[a])
  }

  predicate Inv(s: System) {
    && NoEmptyList(s.f.lot) && ParkedOnce(s.f.lot)
    && ListedAreAsleep(s.f.lot, s.asleep, s.popped) && AsleepAreListed(s.f.lot, s.asleep, s.popped)
    && s.popped <= s.asleep.Keys
    && s.pops == s.zeros + |s.popped|
    && (!s.saturated ==> s.returned == s.pops)
  }

  // ---------- every step keeps the invariant ----------

  /** The part of the invariant about the lists. */
  predicate Lists(lot: Lot, asleep: map<int, Sleep>, popped: set<int>) {
    NoEmptyList(lot) && ParkedOnce(lot) && ListedAreAsleep(lot, asleep, popped) && AsleepAreListed(lot, asleep, popped)
  }

  lemma WaitKeepsLists(lot: Lot, asleep: map<int, Sleep>, popped: set<int>, p: Sleep, task: int, after: Lot,
        now: map<int, Sleep>)
    requires Lists(lot, asleep, popped) && task !in asleep && task !in popped && p.handle.id == task &&
            p.handle.prio < NO_PRIORITIES
    requires after == Park(lot, p.addr, p.handle) && now == asleep[task := p]
    ensures Lists(after, now, popped)
  {
    var l := Waiters(lot, p.addr);
    assert p.handle in l ==> Owns(asleep, popped, p.addr, p.handle);
    forall x
      ensures x in Insert(l, p.handle) <==> x in l || x == p.handle
    {
      InsertMembers(l, p.handle, x);
    }
    OnceEachInsert(l, p.handle);
    assert after == lot[p.addr := Insert(l, p.handle)];
    forall t | t in now
      ensures Accounted(after, now, popped, t)
    {
      assert t != task ==> Accounted(lot, asleep, popped, t);
    }
  }

  lemma WaitKeeps(s: System, task: int, h: Handle, a: nat, expected: nat, replace: Option<nat>, deadline: Option<nat>)
    requires Inv(s) && task !in s.asleep && h.id == task && h.prio < NO_PRIORITIES
    ensures Inv(AfterWait(s, task, h, a, expected, replace, deadline))
  {
    var t := AfterWait(s, task, h, a, expected, replace, deadline);
    if Word(s.f.words, a) == expected {
      WaitKeepsLists(s.f.lot, s.asleep, s.popped, Sleep(a, h, deadline), task, t.f.lot, t.asleep);
    }
  }

  /** What a wait returns: 0 exactly when a wake took the task's handle; a timeout exactly when the
      time had come first, and then the task took its own handle out; otherwise it sleeps on and
      nothing changes. */
  lemma Outcomes(s: System, task: int, now: nat)
    requires Inv(s) && task in s.asleep
    ensures var p := s.asleep[task];
            var r := RecheckOutcome(s.f.lot, p.addr, p.handle, p.deadline, now);
            && (r == ReturnZero <==> task in s.popped)
            && (r == ReturnTimedOut <==> task !in s.popped && Passed(p.deadline, now))
            && (r == ReturnTimedOut ==> p.handle in Waiters(s.f.lot, p.addr) &&
                                        p.handle !in Waiters(AfterRecheck(s, task, now).f.lot, p.addr))
            && (r == SleepAgain ==> AfterRecheck(s, task, now) == s)
  {
    var p := s.asleep[task];
    assert Accounted(s.f.lot, s.asleep, s.popped, task);
    assert p.handle in Waiters(s.f.lot, p.addr) ==> Owns(s.asleep, s.popped, p.addr, p.handle);
    DropContents(Waiters(s.f.lot, p.addr), p.handle, p.handle);
  }

  lemma LeaveKeepsLists(lot: Lot, asleep: map<int, Sleep>, popped: set<int>, p: Sleep, l: seq<Handle>, task: int,
        after: Lot, now: map<int, Sleep>)
    requires Lists(lot, asleep, popped) && task in asleep && p == asleep[task] && OnceEach(l)
    requires forall x :: x in l <==> x in Waiters(lot, p.addr) && x != p.handle
    requires after == SetWaiters(lot, p.addr, l) && now == asleep - {task}
    ensures Lists(after, now, popped)
  {
    assert Accounted(lot, asleep, popped, task);
    forall a, h | a in after && h in after[a]
      ensures Owns(now, popped, a, h)
    {
      assert a in lot && h in lot[a];
      assert Owns(asleep, popped, a, h);
    }
    forall t | t in now
      ensures Accounted(after, now, popped, t)
    {
      assert Accounted(lot, asleep, popped, t);
    }
  }

  lemma DropKeepsLists(lot: Lot, asleep: map<int, Sleep>, popped: set<int>, p: Sleep, task: int, after: Lot,
        now: map<int, Sleep>)
    requires Lists(lot, asleep, popped) && task in asleep && p == asleep[task]
    requires after == SetWaiters(lot, p.addr, Drop(Waiters(lot, p.addr), p.handle)) && now == asleep - {task}
    ensures Lists(after, now, popped)
  {
    var l := Drop(Waiters(lot, p.addr), p.handle);
    OnceEachDrop(Waiters(lot, p.addr), p.handle);
    forall x
      ensures x in l <==> x in Waiters(lot, p.addr) && x != p.handle
    {
      DropContents(Waiters(lot, p.addr), p.handle, x);
    }
    LeaveKeepsLists(lot, asleep, popped, p, l, task, after, now);
  }

  lemma ReturnKeepsLists(lot: Lot, asleep: map<int, Sleep>, popped: set<int>, task: int)
    requires Lists(lot, asleep, popped) && task in asleep && task in popped
    ensures Lists(lot, asleep - {task}, popped - {task})
  {
    forall a, h | a in lot && h in lot[a]
      ensures Owns(asleep - {task}, popped - {task}, a, h)
    {
      assert Owns(asleep, popped, a, h);
    }
    forall t | t in asleep - {task}
      ensures Accounted(lot, asleep - {task}, popped - {task}, t)
    {
      assert Accounted(lot, asleep, popped, t);
    }
  }

  lemma RecheckKeeps(s: System, task: int, now: nat)
    requires Inv(s) && task in s.asleep
    ensures Inv(AfterRecheck(s, task, now))
  {
    Outcomes(s, task, now);
    var p := s.asleep[task];
    var t := AfterRecheck(s, task, now);
    match RecheckOutcome(s.f.lot, p.addr, p.handle, p.deadline, now)
    case SleepAgain =>
    case ReturnZero =>
      NothingDropped(s.f.lot, p.addr, p.handle);
      ReturnKeepsLists(s.f.lot, s.asleep, s.popped, task);
    case ReturnTimedOut =>
      DropKeepsLists(s.f.lot, s.asleep, s.popped, p, task, t.f.lot, t.asleep);
  }

  lemma NothingDropped(lot: Lot, a: nat, h: Handle)
    requires NoEmptyList(lot) && h !in Waiters(lot, a)
    ensures SetWaiters(lot, a, Drop(Waiters(lot, a), h)) == lot
  {
    DropOthers(Waiters(lot, a), h);
  }

  lemma WakeKeepsLists(lot: Lot, asleep: map<int, Sleep>, popped: set<int>, a: nat, front: seq<Handle>,
        back: seq<Handle>, after: Lot, now: set<int>)
    requires Lists(lot, asleep, popped) && Waiters(lot, a) == front + back
    requires after == SetWaiters(lot, a, back) && now == popped + Ids(front)
    ensures Lists(after, asleep, now)
  {
    OnceEachSplit(Waiters(lot, a), front, back);
    forall b, h | b in after && h in after[b]
      ensures Owns(asleep, now, b, h)
    {
      assert b in lot && h in lot[b];
      assert Owns(asleep, popped, b, h);
      forall x | x in front
        ensures x.id != h.id
      {
        assert a in lot && x in lot[a];
        assert Owns(asleep, popped, a, x);
      }
    }
    forall t | t in asleep
      ensures Accounted(after, asleep, now, t)
    {
      assert Accounted(lot, asleep, popped, t);
      var h := asleep[t].handle;
      assert h in front ==> h.id in Ids(front);
    }
  }

  lemma WakeCounts(s: System, a: nat, l: seq<Handle>, front: seq<Handle>, back: seq<Handle>)
    requires Inv(s) && l == Waiters(s.f.lot, a) && l == front + back
    ensures s.popped + Ids(front) <= s.asleep.Keys && |s.popped + Ids(front)| == |s.popped| + |front|
  {
    OnceEachSplit(l, front, back);
    forall x | x in front
      ensures Owns(s.asleep, s.popped, a, x)
    {
      assert x in l && a in s.f.lot && x in s.f.lot[a];
    }
    CountIds(front);
    assert s.popped !! Ids(front);
  }

  lemma WakeKeeps(s: System, a: nat, count: int)
    requires Inv(s)
    ensures Inv(AfterWake(s, a, count))
  {
    var l := Waiters(s.f.lot, a);
    var front := Woken(s.f.lot, a, count);
    var back := l[|front|..];
    assert l == front + back;
    var t := AfterWake(s, a, count);
    assert t.f.lot == SetWaiters(s.f.lot, a, back);
    WakeKeepsLists(s.f.lot, s.asleep, s.popped, a, front, back, t.f.lot, t.popped);
    WakeCounts(s, a, l, front, back);
  }

  /** Changing a word changes nothing the invariant speaks of. */
  lemma WordsDoNotMatter(s: System, words: map<nat, nat>)
    requires Inv(s)
    ensures Inv(s.(f := s.f.(words := words)))
  {
  }

  lemma NextKeeps(s: System, e: Step)
    requires Inv(s) && Enabled(s, e)
    ensures Inv(Next(s, e))
  {
    match e
    case Wait(task, prio, a, expected, replace, deadline) =>
      WaitKeeps(s, task, Handle(task, prio), a, expected, replace, deadline);
    case Recheck(task, now) => RecheckKeeps(s, task, now);
    case Wake(a, count) => WakeKeeps(s, a, count);
    case WakeOrSet(a, count, newValue) =>
      WakeKeeps(s, a, count);
      WordsDoNotMatter(AfterWake(s, a, count), s.f.words[a := newValue]);
    case Store(a, value) => WordsDoNotMatter(s, s.f.words[a := value]);
  }

  // ---------- whole runs ----------

  predicate CanRun(s: System, es: seq<Step>)
    decreases es
  {
    es == [] || (Enabled(s, es[0]) && CanRun(Next(s, es[0]), es[1..]))
  }

  function After(s: System, es: seq<Step>): System
    requires CanRun(s, es)
    decreases es
  {
    if es == [] then s else After(Next(s, es[0]), es[1..])
  }

  lemma {:induction false} RunKeeps(s: System, es: seq<Step>)
    requires Inv(s) && CanRun(s, es)
    ensures Inv(After(s, es))
    decreases es
  {
    if es != [] {
      NextKeeps(s, es[0]);
      RunKeeps(Next(s, es[0]), es[1..]);
    }
  }

  /** Over every run from the start: no empty list is stored, no handle is parked twice (in one list
      or in two), and what wakes returned is the number of waits that returned 0 and of those about
      to, unless some wake took more than `i32::MAX` handles. */
  lemma FutexAccounting(es: seq<Step>)
    requires CanRun(INITIAL, es)
    ensures var s := After(INITIAL, es);
            && NoEmptyList(s.f.lot) && ParkedOnce(s.f.lot)
            && (forall a, b, h :: a in s.f.lot && b in s.f.lot && h in s.f.lot[a] && h in s.f.lot[b] ==> a == b)
            && s.popped <= s.asleep.Keys
            && (!s.saturated ==> s.returned == s.zeros + |s.popped|)
  {
    assert Inv(INITIAL);
    RunKeeps(INITIAL, es);
    var s := After(INITIAL, es);
    forall a, b, h | a in s.f.lot && b in s.f.lot && h in s.f.lot[a] && h in s.f.lot[b]
      ensures a == b
    {
      assert Owns(s.asleep, s.popped, a, h) && Owns(s.asleep, s.popped, b, h);
    }
  }

  /** `futex_wake_or_set` stores the new value when it wakes nobody: when nobody waits, but also,
      with a count of 0, while tasks stay parked. */
  lemma SetsExactlyWhen(lot: Lot, a: nat, count: int)
    requires 0 <= count <= I32_MAX
    ensures Woken(lot, a, count) == [] <==> Waiters(lot, a) == [] || count == 0
  {
  }
}
