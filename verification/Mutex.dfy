/** The pthread mutex over the futex calls: its lock object is created by whichever thread comes
    first, one step is one atomic access or one futex call, and any interleaving is allowed in
    which only holders unlock. */
module Mutex {
  import opened PrioQueue
  import opened Futex
  import opened HandleLists

  /** The content of the `pthread_mutex_t`: one of the static initialisers or a lock object. */
  datatype Slot = Init(kind: nat) | Obj(id: nat)

  datatype Op = Lock | TryLock | Unlock

  datatype Pc =
    | Idle
    | GetLoad(op: Op)
    | GetAlloc(op: Op, current: Slot)
    | GetCas(op: Op, current: Slot, made: nat)
    | GetReload(op: Op)
    | LockCas(obj: nat)
    | LockWait(obj: nat)
    | Asleep(obj: nat, prio: nat)
    | TryCas(obj: nat)
    | UnlockStore(obj: nat)
    | UnlockWake(obj: nat)

  /** The slot, the `state` word of every live lock object, the parking lot, where every thread is,
      and who has locked the mutex and not released it. */
  datatype State = State(slot: Slot, words: map<nat, nat>, lot: Lot, pc: map<int, Pc>, holders: set<int>)

  function PcOf(s: State, t: int): Pc {
    if t in s.pc then s.pc[t] else Idle
  }

  /** Where a thread goes once it has the lock object. */
  function Got(op: Op, obj: nat): Pc {
    match op
    case Lock => LockCas(obj)
    case TryLock => TryCas(obj)
    case Unlock => UnlockStore(obj)
  }

  datatype Step =
    | Call(op: Op)
    | Load
    | Alloc(made: nat)
    | AllocFails
    | Publish
    | Reload
    | Cas
    | Wait(prio: nat)
    | Recheck
    | Store
    | Wake

  predicate Enabled(s: State, t: int, e: Step) {
    var pc := PcOf(s, t);
    match e
    case Call(op) => pc == Idle && (op == Unlock ==> t in s.holders)
    case Load => pc.GetLoad?
    case Alloc(made) => pc.GetAlloc? && made !in s.words
    case AllocFails => pc.GetAlloc?
    case Publish => pc.GetCas?
    case Reload => pc.GetReload?
    case Cas => pc.LockCas? || pc.TryCas?
    case Wait(prio) => pc.LockWait? && prio < NO_PRIORITIES
    case Recheck => pc.Asleep?
    case Store => pc.UnlockStore?
    case Wake => pc.UnlockWake?
  }

  function Goto(s: State, t: int, pc: Pc): State {
    s.(pc := s.pc[t := pc])
  }

  /** A slot that holds an initialiser sends the thread on to allocate. */
  function AfterLoad(s: State, t: int, op: Op): State {
    match s.slot
    case Obj(id) => Goto(s, t, Got(op, id))
    case Init(_) => Goto(s, t, GetAlloc(op, s.slot))
  }

  function AfterPublish(s: State, t: int, pc: Pc): State
    requires pc.GetCas?
  {
    if s.slot == pc.current then Goto(s.(slot := Obj(pc.made)), t, Got(pc.op, pc.made))
    else Goto(s.(words := s.words - {pc.made}), t, GetReload(pc.op))
  }

  /** After a failed publish the slot is read again and taken as it is. */
  function AfterReload(s: State, t: int, op: Op): State {
    match s.slot
    case Obj(id) => Goto(s, t, Got(op, id))
    case Init(_) => Goto(s, t, Idle)
  }

  function AfterCas(s: State, t: int, pc: Pc): State
    requires pc.LockCas? || pc.TryCas?
  {
    if Word(s.words, pc.obj) == 0 then
      Goto(s.(words := s.words[pc.obj := 1], holders := s.holders + {t}), t, Idle)
    else Goto(s, t, if pc.LockCas? then LockWait(pc.obj) else Idle)
  }

  function AfterWait(s: State, t: int, obj: nat, prio: nat): State {
    if Word(s.words, obj) != 1 then Goto(s, t, LockCas(obj))
    else Goto(s.(lot := Park(s.lot, obj, Handle(t, prio))), t, Asleep(obj, prio))
  }

  function AfterRecheck(s: State, t: int, obj: nat, prio: nat): State {
    if Handle(t, prio) in Waiters(s.lot, obj) then s else Goto(s, t, LockCas(obj))
  }

  function Next(s: State, t: int, e: Step): State
    requires Enabled(s, t, e)
  {
    var pc := PcOf(s, t);
    match e
    case Call(op) => Goto(s, t, GetLoad(op))
    case Load => AfterLoad(s, t, pc.op)
    case Alloc(made) => Goto(s.(words := s.words[made := 0]), t, GetCas(pc.op, pc.current, made))
    case AllocFails => Goto(s, t, Idle)
    case Publish => AfterPublish(s, t, pc)
    case Reload => AfterReload(s, t, pc.op)
    case Cas => AfterCas(s, t, pc)
    case Wait(prio) => AfterWait(s, t, pc.obj, prio)
    case Recheck => AfterRecheck(s, t, pc.obj, pc.prio)
    case Store => Goto(s.(words := s.words[pc.obj := 0], holders := s.holders - {t}), t, UnlockWake(pc.obj))
    case Wake => Goto(s.(lot := WakeLot(s.lot, pc.obj, 1)), t, Idle)
  }

  function Initial(kind: nat): State {
    State(Init(kind), map[], map[], map[], {})
  }

  // ---------- the invariant ----------

  predicate UsesObject(pc: Pc) {
    pc.LockCas? || pc.LockWait? || pc.Asleep? || pc.TryCas? || pc.UnlockStore? || pc.UnlockWake?
  }

  /** What a thread's place says about the slot and the objects. */
  predicate PlaceOk(slot: Slot, words: map<nat, nat>, holders: set<int>, kind: nat, t: int, pc: Pc) {
    && (UsesObject(pc) ==> slot == Obj(pc.obj))
    && (pc.GetAlloc? ==> pc.current == Init(kind))
    && (pc.GetCas? ==> pc.current == Init(kind) && pc.made in words && words[pc.made] == 0 && slot != Obj(pc.made))
    && (pc.GetReload? ==> slot.Obj?)
    && ((pc.GetLoad? || pc.GetAlloc? || pc.GetCas? || pc.GetReload?) && pc.op == Unlock ==> t in holders)
    && (pc.UnlockStore? ==> t in holders)
  }

  predicate PlacesOk(s: State, kind: nat) {
    forall t :: t in s.pc ==> PlaceOk(s.slot, s.words, s.holders, kind, t, s.pc[t])
  }

  /** No two threads are about to publish the same object. */
  predicate Private(pc: map<int, Pc>) {
    forall t, u :: t in pc && u in pc && t != u && pc[t].GetCas? && pc[u].GetCas? ==> pc[t].made != pc[u].made
  }

  /** The word is 1 exactly when somebody holds the mutex, and at most one thread does. */
  predicate HeldOk(s: State, kind: nat) {
    && (forall t, u :: t in s.holders && u in s.holders ==> t == u)
    && match s.slot
       case Init(k) => k == kind && s.holders == {}
       case Obj(o) => o in s.words && s.words[o] == if s.holders == {} then 0 else 1
  }

  /** Whoever is in a list sleeps there, with that handle, and is there once. */
  predicate ListsOk(lot: Lot, pc: map<int, Pc>) {
    && (forall a, h :: a in lot && h in lot[a] ==> Sleeps(pc, a, h))
    && (forall a :: a in lot ==> OnceEach(lot[a]))
  }

  predicate Sleeps(pc: map<int, Pc>, a: nat, h: Handle) {
    h.id in pc && pc[h.id] == Asleep(a, h.prio)
  }

  /** A thread that is going to look at the word again, or to wake somebody. */
  predicate Helps(lot: Lot, t: int, pc: Pc, obj: nat) {
    || pc == LockCas(obj) || pc == LockWait(obj) || pc == UnlockWake(obj)
    || (pc.Asleep? && pc.obj == obj && Handle(t, pc.prio) !in Waiters(lot, obj))
  }

  predicate Stranded(s: State) {
    && s.slot.Obj? && s.slot.id in s.words && s.words[s.slot.id] == 0 && Waiters(s.lot, s.slot.id) != []
    && forall t :: t in s.pc ==> !Helps(s.lot, t, s.pc[t], s.slot.id)
  }

  predicate Inv(s: State, kind: nat) {
    HeldOk(s, kind) && PlacesOk(s, kind) && Private(s.pc) && ListsOk(s.lot, s.pc) && !Stranded(s)
  }

  // ---------- every step keeps it ----------

  /** A step that only moves a thread which was not helping. */
  lemma MoveKeeps(s: State, t: int, pc: Pc, kind: nat)
    requires Inv(s, kind) && PlaceOk(s.slot, s.words, s.holders, kind, t, pc) && !pc.GetCas? && !PcOf(s, t).Asleep?
    requires (s.slot.Obj? && Helps(s.lot, t, PcOf(s, t), s.slot.id)) ==>
               Helps(s.lot, t, pc, s.slot.id) || s.words[s.slot.id] != 0
    ensures Inv(Goto(s, t, pc), kind)
  {
    var n := Goto(s, t, pc);
    forall a, h | a in n.lot && h in n.lot[a]
      ensures Sleeps(n.pc, a, h)
    {
      assert Sleeps(s.pc, a, h);
    }
    if !Stranded(s) && s.slot.Obj? && s.words[s.slot.id] == 0 && Waiters(s.lot, s.slot.id) != [] {
      var u :| u in s.pc && Helps(s.lot, u, s.pc[u], s.slot.id);
      assert u in n.pc && Helps(n.lot, u, n.pc[u], n.slot.id);
    }
  }

  lemma AllocKeeps(s: State, t: int, pc: Pc, made: nat, kind: nat)
    requires Inv(s, kind) && pc == PcOf(s, t) && pc.GetAlloc? && made !in s.words
    ensures Inv(Goto(s.(words := s.words[made := 0]), t, GetCas(pc.op, pc.current, made)), kind)
  {
    var n := Goto(s.(words := s.words[made := 0]), t, GetCas(pc.op, pc.current, made));
    assert PlaceOk(s.slot, s.words, s.holders, kind, t, pc);
    forall u | u in n.pc
      ensures PlaceOk(n.slot, n.words, n.holders, kind, u, n.pc[u])
    {
      assert u != t ==> PlaceOk(s.slot, s.words, s.holders, kind, u, s.pc[u]);
    }
    StillListed(s, n, t);
    StillHelped(s, n, t);
  }

  lemma PublishKeeps(s: State, t: int, pc: Pc, kind: nat)
    requires Inv(s, kind) && pc == PcOf(s, t) && pc.GetCas?
    ensures Inv(AfterPublish(s, t, pc), kind)
  {
    var n := AfterPublish(s, t, pc);
    assert PlaceOk(s.slot, s.words, s.holders, kind, t, pc);
    forall u | u in n.pc
      ensures PlaceOk(n.slot, n.words, n.holders, kind, u, n.pc[u])
    {
      assert u != t ==> PlaceOk(s.slot, s.words, s.holders, kind, u, s.pc[u]);
    }
    StillListed(s, n, t);
    if s.slot == pc.current {
      NobodyParked(s, kind, pc.made);
    } else {
      StillHelped(s, n, t);
    }
  }

  /** Threads sleep on the published object only. */
  lemma ListedAtSlot(s: State, kind: nat, a: nat, h: Handle)
    requires PlacesOk(s, kind) && ListsOk(s.lot, s.pc) && h in Waiters(s.lot, a)
    ensures s.slot == Obj(a)
  {
    assert Sleeps(s.pc, a, h);
    assert PlaceOk(s.slot, s.words, s.holders, kind, h.id, s.pc[h.id]);
  }

  /** Before the object is published nobody sleeps anywhere. */
  lemma NobodyParked(s: State, kind: nat, a: nat)
    requires PlacesOk(s, kind) && ListsOk(s.lot, s.pc) && s.slot.Init?
    ensures Waiters(s.lot, a) == []
  {
    if Waiters(s.lot, a) != [] {
      ListedAtSlot(s, kind, a, s.lot[a][0]);
    }
  }

  /** Lists that did not change are in order after a thread that did not sleep has moved. */
  lemma StillListed(s: State, n: State, t: int)
    requires ListsOk(s.lot, s.pc) && !PcOf(s, t).Asleep? && n.lot == s.lot
    requires forall u :: u in s.pc && u != t ==> u in n.pc && n.pc[u] == s.pc[u]
    ensures ListsOk(n.lot, n.pc)
  {
    forall a, h | a in n.lot && h in n.lot[a]
      ensures Sleeps(n.pc, a, h)
    {
      assert Sleeps(s.pc, a, h);
    }
  }

  /** Help stays when the thread that moved was not helping. */
  lemma StillHelped(s: State, n: State, t: int)
    requires !Stranded(s) && n.lot == s.lot && n.slot == s.slot
    requires s.slot.Obj? ==> s.slot.id in s.words && s.slot.id in n.words && n.words[s.slot.id] == s.words[s.slot.id]
    requires s.slot.Obj? ==> !Helps(s.lot, t, PcOf(s, t), s.slot.id)
    requires forall u :: u in s.pc && u != t ==> u in n.pc && n.pc[u] == s.pc[u]
    ensures !Stranded(n)
  {
    if s.slot.Obj? && s.words[s.slot.id] == 0 && Waiters(s.lot, s.slot.id) != [] {
      var u :| u in s.pc && Helps(s.lot, u, s.pc[u], s.slot.id);
      assert u in n.pc && Helps(n.lot, u, n.pc[u], n.slot.id);
    }
  }

  lemma CasKeeps(s: State, t: int, pc: Pc, kind: nat)
    requires Inv(s, kind) && pc == PcOf(s, t) && (pc.LockCas? || pc.TryCas?)
    ensures Inv(AfterCas(s, t, pc), kind)
  {
    var n := AfterCas(s, t, pc);
    assert PlaceOk(s.slot, s.words, s.holders, kind, t, pc);
    forall u | u in n.pc
      ensures PlaceOk(n.slot, n.words, n.holders, kind, u, n.pc[u])
    {
      assert u != t ==> PlaceOk(s.slot, s.words, s.holders, kind, u, s.pc[u]);
    }
    StillListed(s, n, t);
  }

  lemma WaitKeeps(s: State, t: int, pc: Pc, prio: nat, kind: nat)
    requires Inv(s, kind) && pc == PcOf(s, t) && pc.LockWait?
    ensures Inv(AfterWait(s, t, pc.obj, prio), kind)
  {
    assert PlaceOk(s.slot, s.words, s.holders, kind, t, pc);
    if Word(s.words, pc.obj) != 1 {
      MoveKeeps(s, t, LockCas(pc.obj), kind);
    } else {
      ParkKeeps(s, t, pc, prio, kind, AfterWait(s, t, pc.obj, prio));
    }
  }

  lemma ParkListsOk(lot: Lot, pc: map<int, Pc>, t: int, obj: nat, h: Handle, after: Lot, now: map<int, Pc>)
    requires ListsOk(lot, pc) && h.id == t && !(t in pc && pc[t].Asleep?)
    requires after == Park(lot, obj, h) && now == pc[t := Asleep(obj, h.prio)]
    ensures ListsOk(after, now)
  {
    var l := Waiters(lot, obj);
    assert h in l ==> Sleeps(pc, obj, h);
    OnceEachInsert(l, h);
    assert after == lot[obj := Insert(l, h)];
    forall a, x | a in after && x in after[a]
      ensures Sleeps(now, a, x)
    {
      InsertMembers(l, h, x);
      assert (a in lot && x in lot[a]) ==> Sleeps(pc, a, x);
    }
  }

  lemma ParkKeeps(s: State, t: int, pc: Pc, prio: nat, kind: nat, n: State)
    requires Inv(s, kind) && pc == PcOf(s, t) && pc.LockWait? && pc.obj in s.words && s.words[pc.obj] == 1
    requires n == Goto(s.(lot := Park(s.lot, pc.obj, Handle(t, prio))), t, Asleep(pc.obj, prio))
    ensures Inv(n, kind)
  {
    ParkListsOk(s.lot, s.pc, t, pc.obj, Handle(t, prio), n.lot, n.pc);
    assert PlaceOk(s.slot, s.words, s.holders, kind, t, pc);
  }

  lemma RecheckKeeps(s: State, t: int, pc: Pc, kind: nat)
    requires Inv(s, kind) && pc == PcOf(s, t) && pc.Asleep?
    ensures Inv(AfterRecheck(s, t, pc.obj, pc.prio), kind)
  {
    var n := AfterRecheck(s, t, pc.obj, pc.prio);
    assert PlaceOk(s.slot, s.words, s.holders, kind, t, pc);
    if Handle(t, pc.prio) !in Waiters(s.lot, pc.obj) {
      forall a, x | a in n.lot && x in n.lot[a]
        ensures Sleeps(n.pc, a, x)
      {
        assert Sleeps(s.pc, a, x);
      }
      assert t in n.pc && Helps(n.lot, t, n.pc[t], pc.obj);
    }
  }

  lemma StoreKeeps(s: State, t: int, pc: Pc, kind: nat, n: State)
    requires Inv(s, kind) && pc == PcOf(s, t) && pc.UnlockStore?
    requires n == Goto(s.(words := s.words[pc.obj := 0], holders := s.holders - {t}), t, UnlockWake(pc.obj))
    ensures Inv(n, kind)
  {
    assert PlaceOk(s.slot, s.words, s.holders, kind, t, pc);
    forall u | u in n.pc
      ensures PlaceOk(n.slot, n.words, n.holders, kind, u, n.pc[u])
    {
      assert u != t ==> PlaceOk(s.slot, s.words, s.holders, kind, u, s.pc[u]);
    }
    StillListed(s, n, t);
    assert n.holders == {} by {
      forall u | u in s.holders
        ensures u == t
      {
        assert t in s.holders;
      }
    }
    assert t in n.pc && Helps(n.lot, t, n.pc[t], pc.obj);
  }

  lemma WakeKeeps(s: State, t: int, pc: Pc, kind: nat, n: State)
    requires Inv(s, kind) && pc == PcOf(s, t) && pc.UnlockWake?
    requires n == Goto(s.(lot := WakeLot(s.lot, pc.obj, 1)), t, Idle)
    ensures Inv(n, kind)
  {
    assert PlaceOk(s.slot, s.words, s.holders, kind, t, pc);
    var l := Waiters(s.lot, pc.obj);
    var front, rest := Woken(s.lot, pc.obj, 1), l[|Woken(s.lot, pc.obj, 1)|..];
    assert l == front + rest;
    WakeListsOk(s, n, t, pc.obj, l, front, rest);
    if l != [] {
      var h := l[0];
      assert front == [h] && h in front;
      assert Sleeps(s.pc, pc.obj, h);
      assert h.id in n.pc && Helps(n.lot, h.id, n.pc[h.id], pc.obj);
    }
  }

  lemma WakeListsOk(s: State, n: State, t: int, obj: nat, l: seq<Handle>, front: seq<Handle>, rest: seq<Handle>)
    requires ListsOk(s.lot, s.pc) && l == Waiters(s.lot, obj) && l == front + rest && !PcOf(s, t).Asleep?
    requires (n.lot == SetWaiters(s.lot, obj, rest) || (n.lot == s.lot && l == [])) && n.pc == s.pc[t := Idle]
    ensures ListsOk(n.lot, n.pc) && forall h :: h in front ==> h !in rest
  {
    OnceEachSplit(l, front, rest);
    forall a, x | a in n.lot && x in n.lot[a]
      ensures Sleeps(n.pc, a, x)
    {
      assert a in s.lot && x in s.lot[a];
      assert Sleeps(s.pc, a, x);
    }
  }

  lemma NextKeeps(s: State, t: int, e: Step, kind: nat)
    requires Inv(s, kind) && Enabled(s, t, e)
    ensures Inv(Next(s, t, e), kind)
  {
    var pc := PcOf(s, t);
    assert t in s.pc ==> PlaceOk(s.slot, s.words, s.holders, kind, t, pc);
    match e
    case Call(op) => MoveKeeps(s, t, GetLoad(op), kind);
    case Load => MoveKeeps(s, t, if s.slot.Obj? then Got(pc.op, s.slot.id) else GetAlloc(pc.op, s.slot), kind);
    case Alloc(made) => AllocKeeps(s, t, pc, made, kind);
    case AllocFails => MoveKeeps(s, t, Idle, kind);
    case Publish => PublishKeeps(s, t, pc, kind);
    case Reload => MoveKeeps(s, t, if s.slot.Obj? then Got(pc.op, s.slot.id) else Idle, kind);
    case Cas => CasKeeps(s, t, pc, kind);
    case Wait(prio) => WaitKeeps(s, t, pc, prio, kind);
    case Recheck => RecheckKeeps(s, t, pc, kind);
    case Store => StoreKeeps(s, t, pc, kind, Next(s, t, e));
    case Wake => WakeKeeps(s, t, pc, kind, Next(s, t, e));
  }

  // ---------- whole runs ----------

  /** A run: which thread takes which step. */
  type Run = seq<(int, Step)>

  predicate CanRun(s: State, es: Run)
    decreases es
  {
    es == [] || (Enabled(s, es[0].0, es[0].1) && CanRun(Next(s, es[0].0, es[0].1), es[1..]))
  }

  function After(s: State, es: Run): State
    requires CanRun(s, es)
    decreases es
  {
    if es == [] then s else After(Next(s, es[0].0, es[0].1), es[1..])
  }

  lemma {:induction false} RunKeeps(s: State, es: Run, kind: nat)
    requires Inv(s, kind) && CanRun(s, es)
    ensures Inv(After(s, es), kind)
    decreases es
  {
    if es != [] {
      NextKeeps(s, es[0].0, es[0].1, kind);
      RunKeeps(Next(s, es[0].0, es[0].1), es[1..], kind);
    }
  }

  /** Over every run from a static initialiser: all threads work on one live object, at most one
      thread holds the mutex, and the word tells exactly whether one does. */
  lemma MutualExclusion(kind: nat, es: Run)
    requires CanRun(Initial(kind), es)
    ensures var s := After(Initial(kind), es);
            && (forall t, u :: t in s.pc && u in s.pc && UsesObject(s.pc[t]) && UsesObject(s.pc[u]) ==>
                 s.pc[t].obj == s.pc[u].obj)
            && (forall t :: t in s.pc && UsesObject(s.pc[t]) ==>
                 s.pc[t].obj in s.words && (s.words[s.pc[t].obj] == 1 <==> s.holders != {}))
            && (forall t, u :: t in s.holders && u in s.holders ==> t == u)
  {
    assert Inv(Initial(kind), kind);
    RunKeeps(Initial(kind), es, kind);
    var s := After(Initial(kind), es);
    forall t | t in s.pc && UsesObject(s.pc[t])
      ensures s.slot == Obj(s.pc[t].obj)
    {
      assert PlaceOk(s.slot, s.words, s.holders, kind, t, s.pc[t]);
    }
  }

  /** No waiter is stranded, over every run: while somebody is parked, somebody holds the mutex, or
      some thread is going to wake one or to try for the mutex itself. */
  lemma NobodyStranded(kind: nat, es: Run, obj: nat)
    requires CanRun(Initial(kind), es)
    ensures var s := After(Initial(kind), es);
            Waiters(s.lot, obj) != [] ==>
              s.holders != {} || exists t :: t in s.pc && Helps(s.lot, t, s.pc[t], obj)
  {
    assert Inv(Initial(kind), kind);
    RunKeeps(Initial(kind), es, kind);
    var s := After(Initial(kind), es);
    if Waiters(s.lot, obj) != [] {
      ListedAtSlot(s, kind, obj, s.lot[obj][0]);
    }
  }

  /** An object is the mutex's own, or still with the thread that made it and is about to publish it. */
  predicate Owned(s: State, o: nat) {
    s.slot == Obj(o) || exists t :: t in s.pc && s.pc[t].GetCas? && s.pc[t].made == o
  }

  predicate NoLeak(s: State) {
    forall o :: o in s.words ==> Owned(s, o)
  }

  lemma StaysOwned(s: State, n: State, t: int, o: nat)
    requires Owned(s, o) && (s.slot.Obj? ==> n.slot == s.slot)
    requires forall u :: u in s.pc && u != t ==> u in n.pc && n.pc[u] == s.pc[u]
    requires PcOf(s, t).GetCas? && PcOf(s, t).made == o ==> Owned(n, o)
    ensures Owned(n, o)
  {
    if s.slot != Obj(o) {
      var u :| u in s.pc && s.pc[u].GetCas? && s.pc[u].made == o;
      assert u != t ==> u in n.pc && n.pc[u] == s.pc[u];
    }
  }

  lemma NextKeepsNoLeak(s: State, t: int, e: Step, kind: nat)
    requires Inv(s, kind) && NoLeak(s) && Enabled(s, t, e)
    ensures NoLeak(Next(s, t, e))
  {
    var n, pc := Next(s, t, e), PcOf(s, t);
    assert t in s.pc ==> PlaceOk(s.slot, s.words, s.holders, kind, t, pc);
    forall o | o in n.words
      ensures Owned(n, o)
    {
      if e.Alloc? && o == e.made {
        assert n.pc[t].GetCas? && n.pc[t].made == o;
      } else {
        assert o in s.words;
        StaysOwned(s, n, t, o);
      }
    }
  }

  lemma {:induction false} RunKeepsNoLeak(s: State, es: Run, kind: nat)
    requires Inv(s, kind) && NoLeak(s) && CanRun(s, es)
    ensures NoLeak(After(s, es))
    decreases es
  {
    if es != [] {
      NextKeeps(s, es[0].0, es[0].1, kind);
      NextKeepsNoLeak(s, es[0].0, es[0].1, kind);
      RunKeepsNoLeak(Next(s, es[0].0, es[0].1), es[1..], kind);
    }
  }

  /** No thread ever works on a freed object. Every live object is the mutex's own or still with its
      maker, so a copy that lost the race is freed by the thread that made it. */
  lemma WorksOnLiveObjects(kind: nat, es: Run, t: int)
    requires CanRun(Initial(kind), es)
    ensures var s := After(Initial(kind), es);
            && (UsesObject(PcOf(s, t)) ==> PcOf(s, t).obj in s.words)
            && (PcOf(s, t).GetCas? ==> PcOf(s, t).made in s.words && s.slot != Obj(PcOf(s, t).made))
            && forall o :: o in s.words ==> Owned(s, o)
  {
    assert Inv(Initial(kind), kind);
    RunKeeps(Initial(kind), es, kind);
    RunKeepsNoLeak(Initial(kind), es, kind);
    var s := After(Initial(kind), es);
    assert t in s.pc ==> PlaceOk(s.slot, s.words, s.holders, kind, t, s.pc[t]);
  }
}
