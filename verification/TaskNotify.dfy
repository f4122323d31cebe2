/** The executor's notifier: one task waits, any number of wakers, on one futex word. */
module TaskNotify {
  import opened Basics
  import opened PrioQueue
  import opened Futex
  import opened HandleLists
  import opened FutexRuns

  const U32_MAX: nat := 0xffff_ffff

  /** The two calls of `TaskNotify`, up to the point where the waiter sleeps. */
  class Notify {
    const futex: nat

    constructor (a: nat)
      ensures futex == a
    {
      futex := a;
    }

    method Wait(lot: ParkingLot, h: Handle) returns (parked: bool)
      requires lot.Valid() && h.prio < NO_PRIORITIES
      modifies lot, lot.queues.Values
      ensures lot.Valid() && lot.words == old(lot.words)[futex := 0]
      ensures parked <==> Word(old(lot.words), futex) == 0
      ensures lot.lot == if parked then Park(old(lot.lot), futex, h) else old(lot.lot)
    {
      parked := lot.Enter(futex, 0, Some(0), h);
    }

    method WakeByRef(lot: ParkingLot) returns (calls: seq<Handle>)
      requires lot.Valid()
      modifies lot, lot.queues.Values
      ensures lot.Valid() && calls == Woken(old(lot.lot), futex, 1) && lot.lot == WakeLot(old(lot.lot), futex, 1)
      ensures lot.words == if calls == [] then old(lot.words)[futex := U32_MAX] else old(lot.words)
    {
      var woken;
      woken, calls := lot.WakeOrSet(futex, 1, U32_MAX);
    }
  }

  // ---------- every run ----------

  /** The steps of a system in which the word at `a` is used by one notifier whose waiter is `w`;
      what happens at other addresses is free. */
  predicate NotifyStep(e: Step, a: nat, w: int) {
    match e
    case Wait(task, _, b, expected, replace, _) => b == a ==> task == w && expected == 0 && replace == Some(0)
    case Recheck(_, _) => true
    case Wake(b, _) => b != a
    case WakeOrSet(b, count, newValue) => b == a ==> count == 1 && newValue == U32_MAX
    case Store(b, _) => b != a
  }

  /** Only the waiter is ever parked, and never while a wake is on record. */
  predicate NotifyInv(lot: Lot, words: map<nat, nat>, a: nat, w: int) {
    && (forall h :: h in Waiters(lot, a) ==> h.id == w)
    && (Waiters(lot, a) != [] ==> Word(words, a) == 0)
    && (Word(words, a) == 0 || Word(words, a) == U32_MAX)
  }

  lemma WaitKeepsNotify(s: System, e: Step, a: nat, w: int)
    requires e.Wait? && Enabled(s, e) && NotifyStep(e, a, w) && NotifyInv(s.f.lot, s.f.words, a, w)
    ensures NotifyInv(Next(s, e).f.lot, Next(s, e).f.words, a, w)
  {
    if e.addr == a {
      forall h
        ensures h in Insert(Waiters(s.f.lot, a), Handle(w, e.prio)) ==> h.id == w
      {
        InsertMembers(Waiters(s.f.lot, a), Handle(w, e.prio), h);
      }
    }
  }

  lemma RecheckKeepsNotify(s: System, e: Step, a: nat, w: int)
    requires e.Recheck? && Enabled(s, e) && NotifyInv(s.f.lot, s.f.words, a, w)
    ensures NotifyInv(Next(s, e).f.lot, Next(s, e).f.words, a, w)
  {
    var p := s.asleep[e.task];
    forall h
      ensures h in Drop(Waiters(s.f.lot, p.addr), p.handle) ==> h in Waiters(s.f.lot, p.addr)
    {
      DropContents(Waiters(s.f.lot, p.addr), p.handle, h);
    }
  }

  lemma WakeKeepsNotify(s: System, e: Step, a: nat, w: int)
    requires (e.Wake? || e.WakeOrSet?) && Enabled(s, e) && NotifyStep(e, a, w) && NotifyInv(s.f.lot, s.f.words, a, w)
    ensures NotifyInv(Next(s, e).f.lot, Next(s, e).f.words, a, w)
  {
  }

  lemma NextKeepsNotify(s: System, e: Step, a: nat, w: int)
    requires Enabled(s, e) && NotifyStep(e, a, w) && NotifyInv(s.f.lot, s.f.words, a, w)
    ensures NotifyInv(Next(s, e).f.lot, Next(s, e).f.words, a, w)
  {
    match e
    case Wait(_, _, _, _, _, _) => WaitKeepsNotify(s, e, a, w);
    case Recheck(_, _) => RecheckKeepsNotify(s, e, a, w);
    case Wake(_, _) => WakeKeepsNotify(s, e, a, w);
    case WakeOrSet(_, _, _) => WakeKeepsNotify(s, e, a, w);
    case Store(_, _) =>
  }

  predicate NotifySteps(es: seq<Step>, a: nat, w: int) {
    forall e :: e in es ==> NotifyStep(e, a, w)
  }

  lemma {:induction false} RunKeepsNotify(s: System, es: seq<Step>, a: nat, w: int)
    requires CanRun(s, es) && NotifySteps(es, a, w) && Inv(s) && NotifyInv(s.f.lot, s.f.words, a, w)
    ensures Inv(After(s, es)) && NotifyInv(After(s, es).f.lot, After(s, es).f.words, a, w)
    decreases es
  {
    if es != [] {
      NextKeeps(s, es[0]);
      NextKeepsNotify(s, es[0], a, w);
      RunKeepsNotify(Next(s, es[0]), es[1..], a, w);
    }
  }

  /** A wake on record never coexists with a parked waiter, in any run. */
  lemma NeverParkedWithWakePending(es: seq<Step>, a: nat, w: int)
    requires CanRun(INITIAL, es) && NotifySteps(es, a, w)
    ensures var s := After(INITIAL, es);
            Word(s.f.words, a) != 0 ==> Waiters(s.f.lot, a) == []
  {
    RunKeepsNotify(INITIAL, es, a, w);
  }

  /** No wake is lost: a wake releases the waiter when it is parked, and is put on record otherwise. */
  lemma WakeTakesEffect(s: System, a: nat, w: int)
    requires Inv(s) && NotifyInv(s.f.lot, s.f.words, a, w)
    ensures var t := Next(s, WakeOrSet(a, 1, U32_MAX));
            if Waiters(s.f.lot, a) != [] then w in t.popped && w in t.asleep && t.asleep[w].addr == a
            else Word(t.f.words, a) == U32_MAX
  {
    var l := Waiters(s.f.lot, a);
    if l != [] {
      assert Woken(s.f.lot, a, 1) == [l[0]];
      assert l[0] in s.f.lot[a];
      assert Owns(s.asleep, s.popped, a, l[0]);
      assert l[0].id in Ids([l[0]]);
    }
  }

  predicate IsNextWait(e: Step, a: nat) {
    e.Wait? && e.addr == a
  }

  /** A wake on record stays until the waiter comes. */
  lemma {:induction false} RecordStays(s: System, es: seq<Step>, a: nat, w: int)
    requires CanRun(s, es) && NotifySteps(es, a, w) && Inv(s) && NotifyInv(s.f.lot, s.f.words, a, w)
    requires Word(s.f.words, a) == U32_MAX && forall e :: e in es ==> !IsNextWait(e, a)
    ensures Word(After(s, es).f.words, a) == U32_MAX
    decreases es
  {
    if es != [] {
      NextKeeps(s, es[0]);
      NextKeepsNotify(s, es[0], a, w);
      assert !IsNextWait(es[0], a);
      RecordStays(Next(s, es[0]), es[1..], a, w);
    }
  }

  /** A wake while nobody is parked makes the next wait return without parking, whatever happens
      in between; and that wait takes the record away. */
  lemma NextWaitDoesNotPark(s: System, es: seq<Step>, a: nat, w: int, prio: nat, deadline: Option<nat>)
    requires Inv(s) && NotifyInv(s.f.lot, s.f.words, a, w) && Waiters(s.f.lot, a) == []
    requires var t := Next(s, WakeOrSet(a, 1, U32_MAX));
             CanRun(t, es) && NotifySteps(es, a, w) && (forall e :: e in es ==> !IsNextWait(e, a)) &&
             Enabled(After(t, es), Wait(w, prio, a, 0, Some(0), deadline))
    ensures var u := After(Next(s, WakeOrSet(a, 1, U32_MAX)), es);
            var v := Next(u, Wait(w, prio, a, 0, Some(0), deadline));
            v.asleep == u.asleep && v.f.lot == u.f.lot && Word(v.f.words, a) == 0
  {
    var e := WakeOrSet(a, 1, U32_MAX);
    WakeTakesEffect(s, a, w);
    NextKeeps(s, e);
    NextKeepsNotify(s, e, a, w);
    RecordStays(Next(s, e), es, a, w);
  }
}
