/** The futex calls over the parking lot: one step per critical section, and what holds over every run. */
module Futex {
  import opened Basics
  import opened PrioQueue

  const I32_MAX: int := 0x7fff_ffff
  const EINVAL: int := 22

  // ---------- the parking lot as a value ----------

  /** The waiting list at each address. */
  type Lot = map<nat, seq<Handle>>

  function Waiters(lot: Lot, a: nat): seq<Handle> {
    if a in lot then lot[a] else []
  }

  /** A list is stored only while it has someone in it. */
  function SetWaiters(lot: Lot, a: nat, l: seq<Handle>): Lot {
    if l == [] then lot - {a} else lot[a := l]
  }

  function Word(words: map<nat, nat>, a: nat): nat {
    if a in words then words[a] else 0
  }

  datatype Futexes = Futexes(lot: Lot, words: map<nat, nat>)

  datatype Outcome = ReturnZero | ReturnTimedOut | SleepAgain

  function Park(lot: Lot, a: nat, h: Handle): Lot {
    SetWaiters(lot, a, Insert(Waiters(lot, a), h))
  }

  /** How many handles a wake takes from a list of `n`. */
  function WakeCount(n: nat, count: int): nat {
    if count == I32_MAX || n <= count then n else if count < 0 then 0 else count
  }

  /** What a wake returns after taking `n` handles. */
  function Saturated(n: nat): int {
    if n <= I32_MAX then n else I32_MAX
  }

  predicate Passed(deadline: Option<nat>, now: nat) {
    deadline.Some? && deadline.value <= now
  }

  // ---------- one core's view: the code ----------

  class ParkingLot {
    var queues: map<nat, TaskHandlePriorityQueue>
    var words: map<nat, nat>
    /** The same as a value. */
    ghost var lot: Lot

    ghost predicate Valid()
      reads this, queues.Values
    {
      && lot.Keys == queues.Keys
      && (forall a :: a in queues ==> queues[a].Valid() && queues[a].handles == lot[a] && lot[a] != [])
      && (forall a, b :: a in queues && b in queues && a != b ==> queues[a] != queues[b])
    }

    constructor ()
      ensures Valid() && lot == map[] && words == map[]
    {
      queues := map[];
      words := map[];
      lot := map[];
    }

    /** The entry for `a` is taken out for change; all others are as `Valid` says. */
    ghost predicate OpenAt(a: nat)
      reads this, queues.Values
    {
      && a in queues && queues[a].Valid() && (forall b :: b != a ==> (b in lot <==> b in queues))
      && (forall b :: b in queues && b != a ==> queues[b].Valid() && queues[b].handles == lot[b] && lot[b] != [])
      && (forall b, c :: b in queues && c in queues && b != c ==> queues[b] != queues[c])
    }

    /** `entry(addr).or_default()` */
    method EntryOrDefault(a: nat)
      requires Valid()
      modifies this
      ensures OpenAt(a) && queues[a].handles == Waiters(lot, a)
      ensures lot == old(lot) && words == old(words)
      ensures fresh(queues.Values - old(queues.Values))
    {
      if a !in queues {
        var empty := new TaskHandlePriorityQueue();
        queues := queues[a := empty];
      }
    }

    /** Put the entry back, or drop it when it became empty. */
    method Settle(a: nat)
      requires OpenAt(a)
      modifies this
      ensures Valid() && lot == SetWaiters(old(lot), a, old(queues[a].handles)) && words == old(words)
      ensures queues.Values <= old(queues.Values)
    {
      var empty := queues[a].IsEmpty();
      lot := SetWaiters(lot, a, queues[a].handles);
      if empty {
        queues := queues - {a};
      }
      assert forall b :: b in lot <==> b in queues;
    }

    /** `entry(addr).or_default().push(handle)` */
    method ParkHandle(a: nat, h: Handle)
      requires Valid() && h.prio < NO_PRIORITIES
      modifies this, queues.Values
      ensures Valid() && lot == Park(old(lot), a, h) && words == old(words)
      ensures fresh(queues.Values - old(queues.Values))
    {
      EntryOrDefault(a);
      queues[a].Push(h);
      Settle(a);
    }

    /** `futex_wait` and `futex_wait_and_set` up to the release of the lock: the value is compared
        (and replaced, for the second) under the lock, so no wake can come between. */
    method Enter(a: nat, expected: nat, replace: Option<nat>, h: Handle) returns (parked: bool)
      requires Valid() && h.prio < NO_PRIORITIES
      modifies this, queues.Values
      ensures Valid()
      ensures parked <==> Word(old(words), a) == expected
      ensures lot == if parked then Park(old(lot), a, h) else old(lot)
      ensures words == if replace.Some? then old(words)[a := replace.value] else old(words)
      ensures fresh(queues.Values - old(queues.Values))
    {
      var value := Word(words, a);
      if replace.Some? {
        words := words[a := replace.value];
      }
      if value != expected {
        return false;
      }
      ParkHandle(a, h);
      return true;
    }

    /** The body of the wait loop after the task runs again. */
    method Recheck(a: nat, h: Handle, deadline: Option<nat>, now: nat) returns (r: Outcome)
      requires Valid() && h.prio < NO_PRIORITIES
      modifies this, queues.Values
      ensures Valid() && words == old(words)
      ensures fresh(queues.Values - old(queues.Values))
      ensures r == RecheckOutcome(old(lot), a, h, deadline, now)
      ensures lot == RecheckLot(old(lot), a, h, deadline, now)
    {
      if Passed(deadline, now) {
        var wakeup := true;
        if a in queues {
          var queue := queues[a];
          var removed := queue.Remove(h);
          wakeup := !removed;
          Settle(a);
        }
        return if wakeup then ReturnZero else ReturnTimedOut;
      }
      var found := false;
      if a in queues {
        found := queues[a].Contains(h);
      }
      return if found then SleepAgain else ReturnZero;
    }

    /** The pop loop of both wakes, on a queue that is in the lot. */
    method PopLoop(a: nat, count: int) returns (woken: int, calls: seq<Handle>)
      requires Valid() && a in queues && 0 <= count <= I32_MAX
      modifies queues[a]
      ensures queues[a].Valid()
      ensures calls == old(queues[a].handles)[..WakeCount(|old(queues[a].handles)|, count)]
      ensures queues[a].handles == old(queues[a].handles)[|calls|..]
      ensures woken == Saturated(|calls|)
    {
      var queue := queues[a];
      ghost var all := queue.handles;
      woken, calls := 0, [];
      while woken != count || count == I32_MAX
        invariant queue.Valid() && |calls| <= WakeCount(|all|, count)
        invariant calls == all[..|calls|] && queue.handles == all[|calls|..]
        invariant woken == Saturated(|calls|)
        decreases |all| - |calls|
      {
        var next := queue.Pop();
        if next.None? {
          break;
        }
        calls := calls + [next.value];
        woken := if woken == I32_MAX then I32_MAX else woken + 1;
      }
    }

    /** `futex_wake`; `calls` are the handles passed to `custom_wakeup`, in order. */
    method Wake(a: nat, count: int) returns (woken: int, calls: seq<Handle>)
      requires Valid() && count <= I32_MAX
      modifies this, queues.Values
      ensures Valid() && words == old(words)
      ensures fresh(queues.Values - old(queues.Values))
      ensures calls == Woken(old(lot), a, count) && lot == WakeLot(old(lot), a, count)
      ensures woken == if count < 0 then -EINVAL else Saturated(|calls|)
    {
      if count < 0 {
        return -EINVAL, [];
      }
      if a !in queues {
        return 0, [];
      }
      woken, calls := PopLoop(a, count);
      Settle(a);
    }

    /** `futex_wake_or_set` */
    method WakeOrSet(a: nat, count: int, newValue: nat) returns (woken: int, calls: seq<Handle>)
      requires Valid() && count <= I32_MAX
      modifies this, queues.Values
      ensures Valid()
      ensures fresh(queues.Values - old(queues.Values))
      ensures calls == Woken(old(lot), a, count) && lot == WakeLot(old(lot), a, count)
      ensures woken == if count < 0 then -EINVAL else Saturated(|calls|)
      ensures words == if count >= 0 && calls == [] then old(words)[a := newValue] else old(words)
    {
      if count < 0 {
        return -EINVAL, [];
      }
      if a !in queues {
        words := words[a := newValue];
        return 0, [];
      }
      woken, calls := Wake(a, count);
      if woken == 0 {
        words := words[a := newValue];
      }
    }
  }

  /** The handles a wake takes: the first ones of the list. */
  function Woken(lot: Lot, a: nat, count: int): seq<Handle> {
    Waiters(lot, a)[..WakeCount(|Waiters(lot, a)|, count)]
  }

  function WakeLot(lot: Lot, a: nat, count: int): Lot {
    if a in lot then SetWaiters(lot, a, Waiters(lot, a)[|Woken(lot, a, count)|..]) else lot
  }

  function RecheckOutcome(lot: Lot, a: nat, h: Handle, deadline: Option<nat>, now: nat): Outcome {
    if h !in Waiters(lot, a) then ReturnZero
    else if Passed(deadline, now) then ReturnTimedOut
    else SleepAgain
  }

  function RecheckLot(lot: Lot, a: nat, h: Handle, deadline: Option<nat>, now: nat): Lot {
    if Passed(deadline, now) then SetWaiters(lot, a, Drop(Waiters(lot, a), h)) else lot
  }
}
