/** The pthread condition variable: a 32-bit sequence number and the futex calls on it. One step is
    one atomic access or one futex call, and any interleaving is allowed. */
module CondVar {
  import opened Basics
  import opened PrioQueue
  import opened Futex
  import opened HandleLists
  import BitOps

  const WRAP: nat := 0x1_0000_0000

  /** A waiter remembers how many notifications there had been when it read the number and, once
      asleep, how many when it parked; a notifier which notification is its own. */
  datatype Pc =
    | Outside
    | HasRead(seen: nat)
    | Asleep(seen: nat, parkedAt: nat, prio: nat, deadline: Option<nat>)
    | Notifying(number: nat, all: bool)

  /** `count` is the number of notifications so far; the word is its remainder. `done` is the number
      of the latest broadcast known to have returned. */
  datatype State = State(count: nat, waiting: seq<Handle>, pc: map<int, Pc>, done: nat)

  function Seq(s: State): nat {
    s.count % WRAP
  }

  datatype Step =
    | Read
    | Wait(prio: nat, deadline: Option<nat>)
    | Recheck(now: nat)
    | Bump(all: bool)
    | Wake

  function PcOf(s: State, t: int): Pc {
    if t in s.pc then s.pc[t] else Outside
  }

  predicate Enabled(s: State, t: int, e: Step) {
    match e
    case Read => PcOf(s, t).Outside?
    case Wait(prio, _) => PcOf(s, t).HasRead? && prio < NO_PRIORITIES
    case Recheck(_) => PcOf(s, t).Asleep?
    case Bump(_) => PcOf(s, t).Outside?
    case Wake => PcOf(s, t).Notifying?
  }

  function Goto(s: State, t: int, pc: Pc): State {
    s.(pc := s.pc[t := pc])
  }

  /** `sys_futex_wait(&seq, value)` compares the word with the value read before. */
  function AfterWait(s: State, t: int, seen: nat, prio: nat, deadline: Option<nat>): State {
    if Seq(s) != seen % WRAP then Goto(s, t, Outside)
    else Goto(s.(waiting := Insert(s.waiting, Handle(t, prio))), t, Asleep(seen, s.count, prio, deadline))
  }

  function AfterRecheck(s: State, t: int, pc: Pc, now: nat): State
    requires pc.Asleep?
  {
    var h := Handle(t, pc.prio);
    if h !in s.waiting then Goto(s, t, Outside)
    else if Passed(pc.deadline, now) then Goto(s.(waiting := Drop(s.waiting, h)), t, Outside)
    else s
  }

  /** The handles a signal or a broadcast takes. */
  function Taken(waiting: seq<Handle>, all: bool): seq<Handle> {
    waiting[..WakeCount(|waiting|, if all then I32_MAX else 1)]
  }

  function AfterWake(s: State, t: int, pc: Pc): State
    requires pc.Notifying?
  {
    Goto(s.(waiting := s.waiting[|Taken(s.waiting, pc.all)|..],
            done := if pc.all && pc.number > s.done then pc.number else s.done), t, Outside)
  }

  function Next(s: State, t: int, e: Step): State
    requires Enabled(s, t, e)
  {
    var pc := PcOf(s, t);
    match e
    case Read => Goto(s, t, HasRead(s.count))
    case Wait(prio, deadline) => AfterWait(s, t, pc.seen, prio, deadline)
    case Recheck(now) => AfterRecheck(s, t, pc, now)
    case Bump(all) => Goto(s.(count := s.count + 1), t, Notifying(s.count + 1, all))
    case Wake => AfterWake(s, t, pc)
  }

  const INITIAL: State := State(0, [], map[], 0)

  // ---------- the invariant ----------

  predicate PlaceOk(count: nat, pc: Pc) {
    match pc
    case Outside => true
    case HasRead(seen) => seen <= count
    case Asleep(seen, parkedAt, _, _) => seen <= parkedAt <= count && parkedAt % WRAP == seen % WRAP
    case Notifying(number, _) => number <= count
  }

  /** Whoever is in the list sleeps with that handle, and parked after the last returned broadcast. */
  predicate Sleeps(pc: map<int, Pc>, done: nat, h: Handle) {
    h.id in pc && pc[h.id].Asleep? && pc[h.id].prio == h.prio && pc[h.id].parkedAt >= done
  }

  predicate ListOk(s: State) {
    OnceEach(s.waiting) && forall h :: h in s.waiting ==> Sleeps(s.pc, s.done, h)
  }

  predicate Inv(s: State) {
    ListOk(s) && s.done <= s.count && forall t :: t in s.pc ==> PlaceOk(s.count, s.pc[t])
  }

  lemma WaitKeeps(s: State, t: int, seen: nat, prio: nat, deadline: Option<nat>)
    requires Inv(s) && PcOf(s, t) == HasRead(seen)
    ensures Inv(AfterWait(s, t, seen, prio, deadline))
  {
    var n := AfterWait(s, t, seen, prio, deadline);
    assert PlaceOk(s.count, s.pc[t]);
    var h := Handle(t, prio);
    assert h in s.waiting ==> Sleeps(s.pc, s.done, h);
    OnceEachInsert(s.waiting, h);
    forall x | x in n.waiting
      ensures Sleeps(n.pc, n.done, x)
    {
      InsertMembers(s.waiting, h, x);
      assert x in s.waiting ==> Sleeps(s.pc, s.done, x);
    }
  }

  lemma RecheckKeeps(s: State, t: int, pc: Pc, now: nat)
    requires Inv(s) && pc == PcOf(s, t) && pc.Asleep?
    ensures Inv(AfterRecheck(s, t, pc, now))
  {
    var n := AfterRecheck(s, t, pc, now);
    var h := Handle(t, pc.prio);
    OnceEachDrop(s.waiting, h);
    forall x | x in n.waiting
      ensures Sleeps(n.pc, n.done, x)
    {
      DropContents(s.waiting, h, x);
      assert Sleeps(s.pc, s.done, x);
    }
  }

  lemma WakeKeeps(s: State, t: int, pc: Pc)
    requires Inv(s) && pc == PcOf(s, t) && pc.Notifying?
    ensures Inv(AfterWake(s, t, pc))
  {
    var n := AfterWake(s, t, pc);
    assert PlaceOk(s.count, pc);
    OnceEachSplit(s.waiting, Taken(s.waiting, pc.all), n.waiting);
    forall x | x in n.waiting
      ensures Sleeps(n.pc, n.done, x)
    {
      assert x in s.waiting;
      assert Sleeps(s.pc, s.done, x);
    }
  }

  lemma MoveKeeps(s: State, t: int, pc: Pc, count: nat)
    requires Inv(s) && s.count <= count && PcOf(s, t).Outside? && PlaceOk(count, pc)
    ensures Inv(Goto(s.(count := count), t, pc))
  {
    var n := Goto(s.(count := count), t, pc);
    forall x | x in n.waiting
      ensures Sleeps(n.pc, n.done, x)
    {
      assert Sleeps(s.pc, s.done, x);
    }
  }

  lemma NextKeeps(s: State, t: int, e: Step)
    requires Inv(s) && Enabled(s, t, e)
    ensures Inv(Next(s, t, e))
  {
    var pc := PcOf(s, t);
    match e
    case Read => MoveKeeps(s, t, HasRead(s.count), s.count);
    case Wait(prio, deadline) => WaitKeeps(s, t, pc.seen, prio, deadline);
    case Recheck(now) => RecheckKeeps(s, t, pc, now);
    case Bump(all) => MoveKeeps(s, t, Notifying(s.count + 1, all), s.count + 1);
    case Wake => WakeKeeps(s, t, pc);
  }

  // ---------- whole runs ----------

  type Run = seq<(int, Step)>

  predicate CanRun(s: State, es: Run)
    decreases es
  {
    es == [] || (Enabled(s, es[0].0, es[0].1) && CanRun(Next(s, es[0].0, es[0].1), es[1..]))
  }

  function After(s: State, es: Run): State
    requires CanRun(s, es)
    decreases es
  {
    if es == [] then s else After(Next(s, es[0].0, es[0].1), es[1..])
  }

  lemma {:induction false} RunKeeps(s: State, es: Run)
    requires Inv(s) && CanRun(s, es)
    ensures Inv(After(s, es)) && s.done <= After(s, es).done
    decreases es
  {
    if es != [] {
      NextKeeps(s, es[0].0, es[0].1);
      RunKeeps(Next(s, es[0].0, es[0].1), es[1..]);
    }
  }

  /** Every state of every run keeps the invariant. */
  lemma Reached(es: Run)
    requires CanRun(INITIAL, es)
    ensures Inv(After(INITIAL, es))
  {
    RunKeeps(INITIAL, es);
  }

  lemma Multiple(a: nat, b: nat)
    requires a < b && a % WRAP == b % WRAP
    ensures b - a >= WRAP
  {
    assert a == WRAP * (a / WRAP) + a % WRAP && b == WRAP * (b / WRAP) + b % WRAP;
  }

  /** Once a broadcast has returned, and from then on in every run, a thread that read the number
      before that broadcast's increment is not parked, unless at least 2^32 notifications came
      between its read and its parking. */
  lemma BroadcastReleases(before: Run, s: State, b: int, es: Run, t: int, h: Handle)
    requires CanRun(INITIAL, before) && s == After(INITIAL, before)
    requires PcOf(s, b).Notifying? && PcOf(s, b).all && CanRun(Next(s, b, Wake), es)
    requires var u := After(Next(s, b, Wake), es);
             h in u.waiting && h.id == t && t in u.pc && u.pc[t].Asleep? && u.pc[t].seen < PcOf(s, b).number
    ensures var u := After(Next(s, b, Wake), es);
            u.pc[t].parkedAt - u.pc[t].seen >= WRAP
  {
    var m := Next(s, b, Wake);
    Reached(before);
    NextKeeps(s, b, Wake);
    RunKeeps(m, es);
    var u := After(m, es);
    assert Sleeps(u.pc, u.done, h);
    assert PlaceOk(u.count, u.pc[t]);
    Multiple(u.pc[t].seen, u.pc[t].parkedAt);
  }

  /** A broadcast leaves nobody parked at the moment it wakes. */
  lemma BroadcastEmpties(s: State, b: int)
    requires Inv(s) && PcOf(s, b).Notifying? && PcOf(s, b).all
    ensures Next(s, b, Wake).waiting == []
  {
  }

  /** A thread that has read the number parks exactly when the number of notifications since is a
      multiple of 2^32; so a notification after the read is never slept through, short of that. */
  lemma ParksExactlyWhen(s: State, t: int, prio: nat, deadline: Option<nat>)
    requires Inv(s) && PcOf(s, t).HasRead? && prio < NO_PRIORITIES
    ensures Next(s, t, Wait(prio, deadline)).pc[t].Asleep? <==> (s.count - PcOf(s, t).seen) % WRAP == 0
    ensures s.count > PcOf(s, t).seen && s.count - PcOf(s, t).seen < WRAP ==>
              !Next(s, t, Wait(prio, deadline)).pc[t].Asleep?
  {
    assert PlaceOk(s.count, PcOf(s, t));
    SameRemainder(PcOf(s, t).seen, s.count);
  }

  lemma SameRemainder(a: nat, b: nat)
    requires a <= b
    ensures (b - a) % WRAP == 0 <==> a % WRAP == b % WRAP
  {
    var q, r, d := a / WRAP, a % WRAP, b - a;
    assert a == WRAP * q + r && b == WRAP * (b / WRAP) + b % WRAP && d == WRAP * (d / WRAP) + d % WRAP;
    if d % WRAP == 0 {
      BitOps.Remainder(b, WRAP, q + d / WRAP, r);
    }
    if r == b % WRAP {
      BitOps.Remainder(d, WRAP, b / WRAP - q, 0);
    }
  }

  /** Thread `b` broadcasts `n` times. */
  function Broadcasts(b: int, n: nat): Run {
    if n == 0 then [] else [(b, Bump(true)), (b, Wake)] + Broadcasts(b, n - 1)
  }

  lemma {:induction false} BroadcastsRun(s: State, b: int, n: nat)
    requires s.waiting == [] && PcOf(s, b).Outside? && s.done <= s.count
    ensures CanRun(s, Broadcasts(b, n))
    ensures var u := After(s, Broadcasts(b, n));
            u.count == s.count + n && u.waiting == [] && forall t :: t != b ==> PcOf(u, t) == PcOf(s, t)
    decreases n
  {
    if n > 0 {
      var es := Broadcasts(b, n);
      var s1 := Next(s, b, Bump(true));
      var s2 := Next(s1, b, Wake);
      assert es[0] == (b, Bump(true)) && es[1..][0] == (b, Wake) && es[1..][1..] == Broadcasts(b, n - 1);
      BroadcastsRun(s2, b, n - 1);
      assert CanRun(s1, es[1..]) && After(s1, es[1..]) == After(s2, Broadcasts(b, n - 1));
    }
  }

  lemma {:induction false} RunExtends(s: State, es: Run, t: int, e: Step)
    requires CanRun(s, es) && Enabled(After(s, es), t, e)
    ensures CanRun(s, es + [(t, e)]) && After(s, es + [(t, e)]) == Next(After(s, es), t, e)
    decreases es
  {
    var more := es + [(t, e)];
    if es == [] {
      assert more[1..] == [];
    } else {
      assert more[0] == es[0] && more[1..] == es[1..] + [(t, e)];
      RunExtends(Next(s, es[0].0, es[0].1), es[1..], t, e);
    }
  }

  /** `t` reads the number, `b` broadcasts `n` times, and `t` waits. */
  function SleepThrough(t: int, b: int, prio: nat, n: nat): Run {
    [(t, Read)] + Broadcasts(b, n) + [(t, Wait(prio, None))]
  }

  /** That run is possible for every `n`, and `t` sleeps through all of the broadcasts exactly when
      their number is a multiple of 2^32: the wrap is real. */
  lemma WrapIsSleptThrough(t: int, b: int, prio: nat, n: nat)
    requires t != b && prio < NO_PRIORITIES
    ensures CanRun(INITIAL, SleepThrough(t, b, prio, n))
    ensures var s := After(INITIAL, SleepThrough(t, b, prio, n));
            s.count == n && s.waiting == if n % WRAP == 0 then [Handle(t, prio)] else []
  {
    var s, es := Next(INITIAL, t, Read), Broadcasts(b, n);
    BroadcastsRun(s, b, n);
    assert ([(t, Read)] + es)[1..] == es;
    assert CanRun(INITIAL, [(t, Read)] + es) && After(INITIAL, [(t, Read)] + es) == After(s, es);
    assert PcOf(After(s, es), t) == HasRead(0);
    RunExtends(INITIAL, [(t, Read)] + es, t, Wait(prio, None));
  }

  /** A signal takes one parked thread, which will return, or there is none parked. */
  lemma SignalReleasesOne(s: State, b: int)
    requires Inv(s) && PcOf(s, b).Notifying? && !PcOf(s, b).all
    ensures var n := Next(s, b, Wake);
            if s.waiting == [] then n.waiting == []
            else n.waiting == s.waiting[1..] && s.waiting[0] !in n.waiting &&
                 s.waiting[0].id in n.pc && n.pc[s.waiting[0].id].Asleep?
  {
    if s.waiting != [] {
      var h := s.waiting[0];
      assert Sleeps(s.pc, s.done, h);
      assert [h] + s.waiting[1..] == s.waiting && h in [h];
      OnceEachSplit(s.waiting, [h], s.waiting[1..]);
    }
  }
}
