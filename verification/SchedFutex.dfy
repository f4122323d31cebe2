/** The waits inside the kernel and the scheduler together: exactly when a `futex_wake`, and when an
    exit, finds every task it wakes in the list of blocked tasks. */
module SchedFutex {
  import opened Basics
  import opened PrioQueue
  import opened HandleLists
  import opened TaskLists
  import opened Scheduler
  import opened SchedulerRuns
  import F = Futex

  /** Where a task is that has not returned from `futex_wait` or `join`. */
  datatype Wait = InFutex(addr: nat, deadline: Option<nat>) | InJoin(task: int)

  /** `named` are the tasks with a handle in the table of `sys_block_current_task`, which only
      `sys_wakeup_task` takes out. `disturbed` is history. A task comes into it when the timer passes
      the time of its futex wait, or when a wake-up names it that is not a `futex_wake` or the end it
      waits for. Blocking in `futex_wait`, the first time or again, takes it out; so does the start of a
      `join`, but not the further turns of its loop. */
  datatype System = System(core: Core, lot: F.Lot, waits: map<int, Wait>, named: set<int>, disturbed: set<int>)

  datatype KStep =
    | Sched(e: Step)
    | SysBlock(wakeup: Option<nat>)
    | SysWakeup(id: int)
    | FutexWait(a: nat, wakeup: Option<nat>)
    | FutexRecheck(now: nat)
    | FutexWake(a: nat, count: int)

  /** A task inside a wait first goes on with its loop. A step that wakes needs the tasks it wakes to be
      found: where one is not, the kernel stops at `unreachable!()`. */
  predicate CanStep(s: System, k: KStep)
    requires Known(s.core)
  {
    var c := s.core;
    match k
    case Sched(e) =>
      && Enabled(c, e)
      && (e.Blocks? || e.Exits? ==> c.current !in s.waits)
      && (e.Joins? && c.current in s.waits ==> s.waits[c.current] == InJoin(e.id))
    case SysBlock(_) => c.status[c.current] == Running && c.current !in s.waits
    case SysWakeup(id) => id in s.named ==> Enabled(c, Wakes(id))
    case FutexWait(_, _) => c.status[c.current] == Running && c.current !in s.waits
    case FutexRecheck(_) => c.status[c.current] == Running && c.current in s.waits && s.waits[c.current].InFutex?
    case FutexWake(a, count) =>
      count <= F.I32_MAX && TakenKnown(s, a, count) && AllFound(c.blocked, F.Woken(s.lot, a, count))
  }

  /** The handles a wake takes are of tasks of this core. */
  predicate TakenKnown(s: System, a: nat, count: int) {
    forall h :: h in F.Woken(s.lot, a, count) ==> h.id in s.core.status
  }

  /** The tasks whose time in a futex wait lies before `now`. */
  function PassedBy(waits: map<int, Wait>, now: nat): set<int> {
    set t | t in waits && waits[t].InFutex? && waits[t].deadline.Some? && waits[t].deadline.value < now
  }

  /** One turn of the loop of `join`. */
  function AfterJoin(s: System, id: int): System
    requires Known(s.core)
  {
    var t, n := s.core.current, s.(core := Join(s.core, id));
    if id !in s.core.waiting then n.(waits := s.waits - {t})
    else if t in s.waits then n
    else n.(waits := s.waits[t := InJoin(id)], disturbed := s.disturbed - {t})
  }

  function AfterSched(s: System, e: Step): System
    requires Known(s.core) && Enabled(s.core, e)
  {
    match e
    case Wakes(id) => s.(core := Wakeup(s.core, id), disturbed := s.disturbed + {id})
    case Ticks(now) => s.(core := Tick(s.core, now), disturbed := s.disturbed + PassedBy(s.waits, now))
    case Joins(id) => AfterJoin(s, id)
    case _ => s.(core := Next(s.core, e))
  }

  /** `futex_wait` once the word had the expected value, up to the reschedule. */
  function AfterWait(s: System, a: nat, wakeup: Option<nat>): System
    requires Known(s.core)
  {
    var t := s.core.current;
    s.(core := Block(s.core, wakeup), lot := F.Park(s.lot, a, HandleOf(s.core, t)),
       waits := s.waits[t := InFutex(a, wakeup)], disturbed := s.disturbed - {t})
  }

  /** It sleeps again. */
  function Resleep(s: System, deadline: Option<nat>): System
    requires Known(s.core)
  {
    s.(core := Block(s.core, deadline), disturbed := s.disturbed - {s.core.current})
  }

  /** It returns. */
  function Return(s: System, lot: F.Lot): System {
    s.(lot := lot, waits := s.waits - {s.core.current})
  }

  /** The body of its loop, with its three outcomes. */
  function AfterRecheck(s: System, now: nat): System
    requires Known(s.core) && CanStep(s, FutexRecheck(now))
  {
    var h, w := HandleOf(s.core, s.core.current), s.waits[s.core.current];
    if F.RecheckOutcome(s.lot, w.addr, h, w.deadline, now) == F.SleepAgain then Resleep(s, w.deadline)
    else Return(s, F.RecheckLot(s.lot, w.addr, h, w.deadline, now))
  }

  function AfterWake(s: System, a: nat, count: int): System
    requires Known(s.core) && TakenKnown(s, a, count)
  {
    s.(core := WakeupAll(s.core, F.Woken(s.lot, a, count)), lot := F.WakeLot(s.lot, a, count))
  }

  function StepOf(s: System, k: KStep): System
    requires Known(s.core) && CanStep(s, k)
  {
    match k
    case Sched(e) => AfterSched(s, e)
    case SysBlock(wakeup) => AfterSched(s, Blocks(wakeup)).(named := s.named + {s.core.current})
    case SysWakeup(id) => if id in s.named then AfterSched(s, Wakes(id)).(named := s.named - {id}) else s
    case FutexWait(a, wakeup) => AfterWait(s, a, wakeup)
    case FutexRecheck(now) => AfterRecheck(s, now)
    case FutexWake(a, count) => AfterWake(s, a, count)
  }

  // ---------- what holds in every state ----------

  predicate Asleep(c: Core, h: Handle, wakeup: Option<nat>) {
    h.id in c.status && c.status[h.id] == Status.Blocked && Node(h, wakeup) in c.blocked
  }

  predicate Awake(c: Core, id: int) {
    id in c.status && c.status[id] != Status.Blocked
  }

  /** A handle in the parking lot is of a task in that futex wait, which is blocked with its own time
      exactly as long as it is not disturbed. */
  predicate ParkedOk(c: Core, waits: map<int, Wait>, disturbed: set<int>, a: nat, h: Handle) {
    && h.id in waits && waits[h.id].InFutex? && waits[h.id].addr == a
    && h.id in c.prio && c.prio[h.id] == h.prio
    && if h.id in disturbed then Awake(c, h.id) else Asleep(c, h, waits[h.id].deadline)
  }

  predicate LotOk(c: Core, lot: F.Lot, waits: map<int, Wait>, disturbed: set<int>) {
    && (forall a, h :: a in lot && h in lot[a] ==> ParkedOk(c, waits, disturbed, a, h))
    && (forall a :: a in lot ==> OnceEach(lot[a]))
  }

  /** A task in the list of another is in that join; it is blocked and listed once exactly as long as it
      is not disturbed. */
  predicate JoinerOk(c: Core, waits: map<int, Wait>, disturbed: set<int>, a: int, l: seq<Handle>, h: Handle) {
    && h.id in waits && waits[h.id] == InJoin(a)
    && if h.id in disturbed then Awake(c, h.id) || multiset(l)[h] >= 2
       else Asleep(c, h, None) && multiset(l)[h] == 1
  }

  predicate WaitingOk(c: Core, waits: map<int, Wait>, disturbed: set<int>) {
    forall a, h :: a in c.waiting && h in c.waiting[a] ==> JoinerOk(c, waits, disturbed, a, c.waiting[a], h)
  }

  predicate ListedFor(c: Core, t: int, a: int) {
    a in c.prio && (a in c.waiting ==> t in c.prio && HandleOf(c, t) in c.waiting[a])
  }

  /** Who is in a join is listed, until the end it waits for. */
  predicate StillListed(c: Core, waits: map<int, Wait>) {
    forall t :: t in waits && waits[t].InJoin? ==> ListedFor(c, t, waits[t].task)
  }

  ghost predicate Safe(s: System) {
    && Inv(s.core) && LotOk(s.core, s.lot, s.waits, s.disturbed)
    && WaitingOk(s.core, s.waits, s.disturbed) && StillListed(s.core, s.waits)
  }

  // ---------- a step of the scheduler and a task it does not name ----------

  predicate Unmoved(c: Core, n: Core, h: Handle, wakeup: Option<nat>) {
    (Asleep(c, h, wakeup) ==> Asleep(n, h, wakeup)) && (Awake(c, h.id) ==> Awake(n, h.id))
  }

  lemma BlockUnmoved(c: Core, wakeup: Option<nat>, h: Handle, d: Option<nat>)
    requires Known(c) && h.id != c.current
    ensures Unmoved(c, Block(c, wakeup), h, d)
  {
    AddNodeMembers(c.blocked, Node(HandleOf(c, c.current), wakeup), Node(h, d));
  }

  lemma WakeupUnmoved(c: Core, id: int, h: Handle, d: Option<nat>)
    requires Known(c) && id in c.status && h.id != id
    ensures Unmoved(c, Wakeup(c, id), h, d)
  {
    RemoveNodeMembers(c.blocked, id, Node(h, d));
  }

  lemma {:induction false} WakeupAllUnmoved(c: Core, l: seq<Handle>, h: Handle, d: Option<nat>)
    requires Known(c) && forall x :: x in l ==> x.id in c.status && x.id != h.id
    ensures Unmoved(c, WakeupAll(c, l), h, d) && WakeupAll(c, l).prio == c.prio && WakeupAll(c, l).waiting == c.waiting
    decreases |l|
  {
    if l != [] && HasNode(c.blocked, l[0].id) {
      WakeupUnmoved(c, l[0].id, h, d);
      WakeupAllUnmoved(Wakeup(c, l[0].id), l[1..], h, d);
    }
  }

  /** The timer wakes a task exactly when its time is passed. */
  lemma TickMoves(c: Core, now: nat, h: Handle, d: Option<nat>)
    requires Inv(c)
    ensures !Elapsed(Node(h, d), now) ==> Unmoved(c, Tick(c, now), h, d)
    ensures Elapsed(Node(h, d), now) && (Asleep(c, h, d) || Awake(c, h.id)) ==> Awake(Tick(c, now), h.id)
  {
    var n := Tick(c, now);
    TickPlaced(c, now, n);
    NotDueMembers(c.blocked, now, Node(h, d));
    if Asleep(c, h, d) {
      assert Placed(n.status, n.ready, n.blocked, h.id);
      if Elapsed(Node(h, d), now) {
        OnlyNode(c, Node(h, d));
        NodeStays(c.blocked, now, Node(h, d));
        CountHasNode(n.blocked, h.id);
      } else {
        MemberCounts(n.blocked, Node(h, d));
      }
    }
  }

  lemma ScheduleStatus(c: Core, id: int)
    requires Known(c) && id in c.status
    requires c.ready != [] ==> c.ready[0].id in c.status && c.status[c.ready[0].id] == Status.Ready
    ensures var n := Schedule(c);
            && n.blocked == c.blocked && id in n.status
            && (n.status[id] == Status.Blocked <==> c.status[id] == Status.Blocked)
  {
  }

  lemma ScheduleUnmoved(c: Core, h: Handle, d: Option<nat>)
    requires Inv(c)
    ensures Unmoved(c, Schedule(c), h, d)
  {
    if c.ready != [] {
      FrontIsReady(c, c.ready[0], c.ready[1..]);
    }
    if h.id in c.status {
      ScheduleStatus(c, h.id);
    }
  }

  /** No step of the scheduler moves a task it does not name. */
  lemma SchedUnmoved(c: Core, e: Step, h: Handle, d: Option<nat>)
    requires Inv(c) && Enabled(c, e) && (e.Wakes? ==> e.id != h.id) && (e.Ticks? ==> !Elapsed(Node(h, d), e.now))
    requires e.Blocks? || e.Joins? || e.Exits? ==> c.current != h.id
    requires e.Exits? ==> forall x :: x in Joiners(c) ==> x.id != h.id
    ensures Unmoved(c, Next(c, e), h, d)
  {
    match e
    case Spawns(id, prio) =>
    case Blocks(wakeup) => BlockUnmoved(c, wakeup, h, d);
    case Wakes(id) => WakeupUnmoved(c, id, h, d);
    case Joins(id) => BlockUnmoved(c, None, h, d);
    case Exits => WakeupAllUnmoved(Finish(c), Joiners(c), h, d);
    case Ticks(now) => TickMoves(c, now, h, d);
    case Reschedules => ScheduleUnmoved(c, h, d);
  }

  /** A task has one node, so whether it stays on the list is whether that node does. */
  lemma NodeStays(l: seq<Node>, now: nat, n: Node)
    requires n in l && forall x :: x in l && x.task.id == n.task.id ==> x == n
    ensures HasNode(NotDue(l, now), n.task.id) <==> !Elapsed(n, now)
  {
    NotDueMembers(l, now, n);
    if HasNode(NotDue(l, now), n.task.id) {
      var i :| 0 <= i < |NotDue(l, now)| && NotDue(l, now)[i].task.id == n.task.id;
      NotDueMembers(l, now, NotDue(l, now)[i]);
    }
  }

  lemma OnlyNode(c: Core, n: Node)
    requires Inv(c) && n in c.blocked
    ensures forall x :: x in c.blocked && x.task.id == n.task.id ==> x == n
  {
    assert Placed(c.status, c.ready, c.blocked, n.task.id);
    forall x | x in c.blocked && x.task.id == n.task.id
      ensures x == n
    {
      TwoNodes(c.blocked, n, x);
    }
  }

  lemma {:induction false} TwoNodes(l: seq<Node>, n: Node, x: Node)
    requires n in l && x in l && x.task.id == n.task.id && Count(Tasks(l), n.task.id) <= 1
    ensures x == n
  {
    assert l == [l[0]] + l[1..];
    if l[0] == n && x != n {
      MemberCounts(l[1..], x);
    } else if l[0] == x && x != n {
      MemberCounts(l[1..], n);
    } else if l[0] != n {
      TwoNodes(l[1..], n, x);
    }
  }

  // ---------- the steps of the scheduler keep the invariant ----------

  lemma ParkedNext(s: System, e: Step, a: nat, h: Handle)
    requires Safe(s) && CanStep(s, Sched(e)) && a in s.lot && h in s.lot[a]
    ensures var n := AfterSched(s, e); ParkedOk(n.core, n.waits, n.disturbed, a, h)
  {
    var c := s.core;
    assert ParkedOk(c, s.waits, s.disturbed, a, h);
    var d := s.waits[h.id].deadline;
    match e
    case Wakes(id) =>
      if id != h.id {
        SchedUnmoved(c, e, h, d);
      }
    case Ticks(now) => TickMoves(c, now, h, d);
    case Exits =>
      JoinersWait(s);
      WakeupAllPrio(Finish(c), Joiners(c));
      SchedUnmoved(c, e, h, d);
    case _ => SchedUnmoved(c, e, h, d);
  }

  /** Those who wait for the end of the current task are in that join. */
  lemma JoinersWait(s: System)
    requires Safe(s)
    ensures forall x :: x in Joiners(s.core) ==> x.id in s.waits && s.waits[x.id] == InJoin(s.core.current)
  {
    forall x | x in Joiners(s.core)
      ensures x.id in s.waits && s.waits[x.id] == InJoin(s.core.current)
    {
      assert JoinerOk(s.core, s.waits, s.disturbed, s.core.current, s.core.waiting[s.core.current], x);
    }
  }

  /** An exit drops the list of the task that ends, and leaves the others alone. */
  lemma ExitLists(c: Core)
    requires Inv(c) && Enabled(c, Exits)
    ensures Next(c, Exits).waiting == c.waiting - {c.current}
  {
    FinishKeeps(c);
    WakeupAllKeeps(Finish(c), Joiners(c));
  }

  lemma JoinerAfterExit(s: System, a: int, h: Handle)
    requires Safe(s) && CanStep(s, Sched(Exits)) && a in s.core.waiting && h in s.core.waiting[a] && a != s.core.current
    ensures JoinerOk(Next(s.core, Exits), s.waits, s.disturbed, a, s.core.waiting[a], h)
  {
    JoinersWait(s);
    assert JoinerOk(s.core, s.waits, s.disturbed, a, s.core.waiting[a], h);
    SchedUnmoved(s.core, Exits, h, None);
  }

  /** Other steps but a join at most add an empty list. */
  lemma OtherLists(c: Core, e: Step, a: int)
    requires Known(c) && Enabled(c, e) && !e.Joins? && !e.Exits?
    ensures a in Next(c, e).waiting && Next(c, e).waiting[a] != [] ==>
              a in c.waiting && c.waiting[a] == Next(c, e).waiting[a]
  {
  }

  lemma JoinerNext(s: System, e: Step, a: int, h: Handle, l: seq<Handle>)
    requires Safe(s) && CanStep(s, Sched(e)) && !e.Joins? && !e.Exits?
    requires a in s.core.waiting && l == s.core.waiting[a] && h in l
    ensures JoinerOk(Next(s.core, e), s.waits, AfterSched(s, e).disturbed, a, l, h)
  {
    var c := s.core;
    assert JoinerOk(c, s.waits, s.disturbed, a, l, h);
    match e
    case Wakes(id) =>
      if id != h.id {
        SchedUnmoved(c, e, h, None);
      }
    case Ticks(now) => TickMoves(c, now, h, None);
    case _ => SchedUnmoved(c, e, h, None);
  }

  lemma SchedKeepsJoiners(s: System, e: Step)
    requires Safe(s) && CanStep(s, Sched(e)) && !e.Joins?
    ensures var n := AfterSched(s, e); WaitingOk(n.core, n.waits, n.disturbed)
  {
    var n := AfterSched(s, e);
    assert n.core == Next(s.core, e) && n.waits == s.waits;
    forall a, h | a in n.core.waiting && h in n.core.waiting[a]
      ensures JoinerOk(n.core, n.waits, n.disturbed, a, n.core.waiting[a], h)
    {
      if e.Exits? {
        ExitLists(s.core);
        JoinerAfterExit(s, a, h);
      } else {
        OtherLists(s.core, e, a);
        JoinerNext(s, e, a, h, s.core.waiting[a]);
      }
    }
  }

  /** A turn of the join loop: an entry is added. A task that is in the list already was disturbed, and
      has two entries from now on. */
  lemma JoinTurn(s: System, id: int, a: int, h: Handle)
    requires Safe(s) && CanStep(s, Sched(Joins(id))) && id in s.core.waiting
    requires a in s.core.waiting && h in AfterJoin(s, id).core.waiting[a]
    ensures var n := AfterJoin(s, id); JoinerOk(n.core, n.waits, n.disturbed, a, n.core.waiting[a], h)
  {
    var c := s.core;
    var me := HandleOf(c, c.current);
    var l := c.waiting[a];
    var more := if a == id then l + [me] else l;
    assert c.current in s.waits ==> me in c.waiting[id];
    assert multiset(more) == multiset(l) + if a == id then multiset{me} else multiset{};
    if h in l {
      assert JoinerOk(c, s.waits, s.disturbed, a, l, h);
      assert h.id == c.current ==> h == me && a == id;
      if h.id != c.current {
        BlockUnmoved(c, None, h, None);
      }
    } else {
      assert multiset(l)[h] == 0;
      AddNodeMembers(c.blocked, Node(me, None), Node(me, None));
    }
  }

  lemma JoinKeepsSafe(s: System, id: int)
    requires Safe(s) && CanStep(s, Sched(Joins(id)))
    ensures Safe(AfterJoin(s, id))
  {
    var n := AfterJoin(s, id);
    JoinKeeps(s.core, id);
    forall a, h | a in n.lot && h in n.lot[a]
      ensures ParkedOk(n.core, n.waits, n.disturbed, a, h)
    {
      ParkedNext(s, Joins(id), a, h);
    }
    forall a, h | a in n.core.waiting && h in n.core.waiting[a]
      ensures JoinerOk(n.core, n.waits, n.disturbed, a, n.core.waiting[a], h)
    {
      if id in s.core.waiting {
        JoinTurn(s, id, a, h);
      } else {
        assert JoinerOk(s.core, s.waits, s.disturbed, a, s.core.waiting[a], h);
      }
    }
  }

  lemma SchedKeeps(s: System, e: Step)
    requires Safe(s) && CanStep(s, Sched(e))
    ensures Safe(AfterSched(s, e))
  {
    if e.Joins? {
      JoinKeepsSafe(s, e.id);
    } else {
      var n := AfterSched(s, e);
      NextKeeps(s.core, e);
      forall a, h | a in n.lot && h in n.lot[a]
        ensures ParkedOk(n.core, n.waits, n.disturbed, a, h)
      {
        ParkedNext(s, e, a, h);
      }
      SchedKeepsJoiners(s, e);
      SchedListed(s, e);
    }
  }

  lemma SchedListed(s: System, e: Step)
    requires Safe(s) && CanStep(s, Sched(e)) && !e.Joins?
    ensures StillListed(AfterSched(s, e).core, s.waits)
  {
    var n := AfterSched(s, e).core;
    if e.Exits? {
      FinishKeeps(s.core);
      WakeupAllKeeps(Finish(s.core), Joiners(s.core));
      WakeupAllPrio(Finish(s.core), Joiners(s.core));
    }
    forall t | t in s.waits && s.waits[t].InJoin?
      ensures ListedFor(n, t, s.waits[t].task)
    {
      assert ListedFor(s.core, t, s.waits[t].task);
    }
  }

  lemma {:induction false} WakeupAllPrio(c: Core, l: seq<Handle>)
    requires Known(c) && forall x :: x in l ==> x.id in c.status
    ensures WakeupAll(c, l).prio == c.prio
    decreases |l|
  {
    if l != [] && HasNode(c.blocked, l[0].id) {
      WakeupAllPrio(Wakeup(c, l[0].id), l[1..]);
    }
  }

  // ---------- the futex steps ----------

  /** The current task parks: none of its handles is in the lot yet. */
  lemma WaitKeepsLot(s: System, a: nat, wakeup: Option<nat>, h: Handle, l: seq<Handle>, n: System)
    requires Safe(s) && CanStep(s, FutexWait(a, wakeup)) && n == AfterWait(s, a, wakeup)
    requires h == HandleOf(s.core, s.core.current) && l == F.Waiters(s.lot, a)
    ensures LotOk(n.core, n.lot, n.waits, n.disturbed)
  {
    var c := s.core;
    assert forall b, x :: b in s.lot && x in s.lot[b] ==> ParkedOk(c, s.waits, s.disturbed, b, x);
    OnceEachInsert(l, h);
    assert n.lot == s.lot[a := Insert(l, h)];
    forall b, x | b in n.lot && x in n.lot[b]
      ensures ParkedOk(n.core, n.waits, n.disturbed, b, x)
    {
      InsertMembers(l, h, x);
      if b == a && x == h {
        AddNodeMembers(c.blocked, Node(h, wakeup), Node(h, wakeup));
      } else {
        assert ParkedOk(c, s.waits, s.disturbed, b, x);
        BlockUnmoved(c, wakeup, x, s.waits[x.id].deadline);
      }
    }
  }

  lemma WaitKeeps(s: System, a: nat, wakeup: Option<nat>)
    requires Safe(s) && CanStep(s, FutexWait(a, wakeup))
    ensures Safe(AfterWait(s, a, wakeup))
  {
    var n := AfterWait(s, a, wakeup);
    BlockKeeps(s.core, wakeup);
    WaitKeepsLot(s, a, wakeup, HandleOf(s.core, s.core.current), F.Waiters(s.lot, a), n);
    BlockKeepsJoiners(s, wakeup, n);
  }

  /** The current task blocks, and is in no join. */
  lemma BlockKeepsJoiners(s: System, wakeup: Option<nat>, n: System)
    requires Safe(s) && s.core.status[s.core.current] == Running && n.core == Block(s.core, wakeup)
    requires s.core.current in s.waits ==> s.waits[s.core.current].InFutex?
    requires n.waits - {s.core.current} == s.waits - {s.core.current} && n.disturbed == s.disturbed - {s.core.current}
    requires s.core.current in n.waits && n.waits[s.core.current].InFutex?
    ensures WaitingOk(n.core, n.waits, n.disturbed) && StillListed(n.core, n.waits)
  {
    var c, t := s.core, s.core.current;
    forall a, h | a in n.core.waiting && h in n.core.waiting[a]
      ensures JoinerOk(n.core, n.waits, n.disturbed, a, n.core.waiting[a], h)
    {
      assert JoinerOk(c, s.waits, s.disturbed, a, c.waiting[a], h);
      assert h.id in s.waits - {t} && h.id in n.waits - {t};
      assert (s.waits - {t})[h.id] == (n.waits - {t})[h.id];
      BlockUnmoved(c, wakeup, h, None);
    }
    forall x | x in n.waits && n.waits[x].InJoin?
      ensures ListedFor(n.core, x, n.waits[x].task)
    {
      assert x in n.waits - {t} && x in s.waits - {t};
      assert (s.waits - {t})[x] == (n.waits - {t})[x];
      assert ListedFor(c, x, s.waits[x].task);
    }
  }

  /** `after` is a part of the lot that has no handle of the task. */
  predicate PartWithout(lot: F.Lot, after: F.Lot, id: int) {
    && (forall b :: b in after ==> OnceEach(after[b]))
    && (forall b, x :: b in after && x in after[b] ==> b in lot && x in lot[b] && x.id != id)
  }

  /** The wait of the current task ends: its handle is not in the lot. */
  lemma ReturnKeeps(s: System, lot: F.Lot)
    requires Safe(s) && s.core.current in s.waits && s.waits[s.core.current].InFutex?
    requires PartWithout(s.lot, lot, s.core.current)
    ensures Safe(Return(s, lot))
  {
    var n := Return(s, lot);
    forall b, x | b in n.lot && x in n.lot[b]
      ensures ParkedOk(n.core, n.waits, n.disturbed, b, x)
    {
      assert ParkedOk(s.core, s.waits, s.disturbed, b, x);
    }
    forall a, h | a in n.core.waiting && h in n.core.waiting[a]
      ensures JoinerOk(n.core, n.waits, n.disturbed, a, n.core.waiting[a], h)
    {
      assert JoinerOk(s.core, s.waits, s.disturbed, a, s.core.waiting[a], h);
    }
  }

  /** A task that sleeps again after a spurious wake-up. */
  lemma SleepAgainKeeps(s: System, a: nat, d: Option<nat>)
    requires Safe(s) && s.core.status[s.core.current] == Running
    requires s.core.current in s.waits && s.waits[s.core.current] == InFutex(a, d)
    ensures Safe(Resleep(s, d))
  {
    var c, n := s.core, Resleep(s, d);
    BlockKeeps(c, d);
    forall b, x | b in n.lot && x in n.lot[b]
      ensures ParkedOk(n.core, n.waits, n.disturbed, b, x)
    {
      assert ParkedOk(c, s.waits, s.disturbed, b, x);
      if x.id == c.current {
        AddNodeMembers(c.blocked, Node(x, d), Node(x, d));
      } else {
        BlockUnmoved(c, d, x, s.waits[x.id].deadline);
      }
    }
    BlockKeepsJoiners(s, d, n);
  }

  /** Taking out the handle of the current task leaves no other of its handles. */
  lemma DroppedFromLot(s: System, a: nat, h: Handle, l: seq<Handle>, lot: F.Lot)
    requires Safe(s) && s.core.current in s.waits && s.waits[s.core.current].InFutex?
    requires a == s.waits[s.core.current].addr && h == HandleOf(s.core, s.core.current)
    requires l == F.Waiters(s.lot, a) && (lot == F.SetWaiters(s.lot, a, Drop(l, h)) || (h !in l && lot == s.lot))
    ensures PartWithout(s.lot, lot, s.core.current)
  {
    if a in s.lot {
      OnceEachDrop(l, h);
    }
    forall b, x | b in lot && x in lot[b]
      ensures b in s.lot && x in s.lot[b] && x.id != s.core.current
    {
      DropContents(l, h, x);
      assert b in s.lot && x in s.lot[b];
      assert ParkedOk(s.core, s.waits, s.disturbed, b, x);
    }
  }

  /** What the recheck does to the lot when the wait ends. */
  lemma ReturnLot(lot: F.Lot, a: nat, h: Handle, d: Option<nat>, now: nat, l: seq<Handle>, after: F.Lot)
    requires l == F.Waiters(lot, a) && after == F.RecheckLot(lot, a, h, d, now)
    requires F.RecheckOutcome(lot, a, h, d, now) != F.SleepAgain
    ensures after == F.SetWaiters(lot, a, Drop(l, h)) || (h !in l && after == lot)
  {
  }

  lemma RecheckKeeps(s: System, now: nat)
    requires Safe(s) && CanStep(s, FutexRecheck(now))
    ensures Safe(AfterRecheck(s, now))
  {
    var h, w := HandleOf(s.core, s.core.current), s.waits[s.core.current];
    if F.RecheckOutcome(s.lot, w.addr, h, w.deadline, now) == F.SleepAgain {
      SleepAgainKeeps(s, w.addr, w.deadline);
    } else {
      var l, lot := F.Waiters(s.lot, w.addr), F.RecheckLot(s.lot, w.addr, h, w.deadline, now);
      ReturnLot(s.lot, w.addr, h, w.deadline, now, l, lot);
      DroppedFromLot(s, w.addr, h, l, lot);
      ReturnKeeps(s, lot);
    }
  }

  /** A wake finds every task it takes exactly when none of them is disturbed. */
  lemma WakeFindsExactly(s: System, a: nat, count: int)
    requires Safe(s)
    ensures TakenKnown(s, a, count)
    ensures AllFound(s.core.blocked, F.Woken(s.lot, a, count)) <==>
            forall h :: h in F.Woken(s.lot, a, count) ==> h.id !in s.disturbed
  {
    var l, front := F.Waiters(s.lot, a), F.Woken(s.lot, a, count);
    forall h | h in front
      ensures ParkedOk(s.core, s.waits, s.disturbed, a, h)
    {
      assert h in l && a in s.lot && h in s.lot[a];
    }
    if front != [] {
      assert l == front + l[|front|..];
      OnceEachSplit(l, front, l[|front|..]);
    }
    OnceEachDistinct(s.core.prio, front);
    FoundExactlyWhen(s.core, front);
  }

  lemma OnceEachDistinct(prio: map<int, nat>, l: seq<Handle>)
    requires OnceEach(l) && forall h :: h in l ==> h.id in prio && prio[h.id] == h.prio
    ensures Distinct(l)
  {
    forall i, j | 0 <= i < j < |l|
      ensures l[i].id != l[j].id
    {
      assert l[i] in l && l[j] in l;
      TwiceInList(l, i, j);
    }
  }

  lemma TwiceInList(l: seq<Handle>, i: int, j: int)
    requires 0 <= i < j < |l|
    ensures l[i] == l[j] ==> multiset(l)[l[i]] >= 2
  {
    assert l == l[..j] + l[j..];
    assert l[i] in l[..j] && l[j] in l[j..];
    assert l[i] in multiset(l[..j]) && l[j] in multiset(l[j..]);
    assert multiset(l) == multiset(l[..j]) + multiset(l[j..]);
  }

  lemma {:induction false} DistinctOnce(l: seq<Handle>, h: Handle)
    requires Distinct(l)
    ensures multiset(l)[h] <= 1
  {
    if l != [] {
      assert l == [l[0]] + l[1..];
      DistinctCons(l[0], l[1..], l);
      DistinctOnce(l[1..], h);
      assert multiset(l) == multiset{l[0]} + multiset(l[1..]);
      assert h == l[0] ==> h !in l[1..] && h !in multiset(l[1..]);
    }
  }

  /** And so does an exit: the tasks that wait for it are all found exactly when none is disturbed. */
  lemma ExitFindsExactly(s: System)
    requires Safe(s)
    ensures JoinersKnown(s.core)
    ensures AllFound(s.core.blocked, Joiners(s.core)) <==>
            forall h :: h in Joiners(s.core) ==> h.id !in s.disturbed
  {
    var c, l := s.core, Joiners(s.core);
    forall h | h in l
      ensures JoinerOk(c, s.waits, s.disturbed, c.current, l, h) && h.id in c.prio && c.prio[h.id] == h.prio
    {
      assert h in c.waiting[c.current];
    }
    FoundExactlyWhen(c, l);
    if forall h :: h in l ==> h.id !in s.disturbed {
      OnceEachDistinct(c.prio, l);
    } else if Distinct(l) {
      var h :| h in l && h.id in s.disturbed;
      DistinctOnce(l, h);
      assert c.status[h.id] != Status.Blocked;
    }
  }

  /** Waking the front of a list moves neither those behind it nor those elsewhere. */
  lemma WakeKeepsLot(s: System, a: nat, front: seq<Handle>, back: seq<Handle>, n: Core, lot: F.Lot)
    requires Safe(s) && F.Waiters(s.lot, a) == front + back && AllParked(s, a, front)
    requires n == WakeupAll(s.core, front) && lot == if a in s.lot then F.SetWaiters(s.lot, a, back) else s.lot
    ensures LotOk(n, lot, s.waits, s.disturbed)
  {
    var c := s.core;
    WakeupAllPrio(c, front);
    if a in s.lot {
      OnceEachSplit(s.lot[a], front, back);
    }
    forall b, x | b in lot && x in lot[b]
      ensures ParkedOk(n, s.waits, s.disturbed, b, x)
    {
      assert b in s.lot && x in s.lot[b];
      assert ParkedOk(c, s.waits, s.disturbed, b, x);
      forall y | y in front
        ensures y.id != x.id
      {
        assert ParkedOk(c, s.waits, s.disturbed, a, y);
      }
      WakeupAllUnmoved(c, front, x, s.waits[x.id].deadline);
    }
  }

  predicate AllParked(s: System, a: nat, l: seq<Handle>) {
    forall h :: h in l ==> h.id in s.core.status && ParkedOk(s.core, s.waits, s.disturbed, a, h)
  }

  lemma WakeKeepsJoiners(s: System, a: nat, front: seq<Handle>, n: Core)
    requires Safe(s) && AllParked(s, a, front) && n == WakeupAll(s.core, front)
    ensures WaitingOk(n, s.waits, s.disturbed) && StillListed(n, s.waits)
  {
    WakeupAllPrio(s.core, front);
    WakeupAllKeeps(s.core, front);
    forall b, x | b in n.waiting && x in n.waiting[b]
      ensures JoinerOk(n, s.waits, s.disturbed, b, n.waiting[b], x)
    {
      assert JoinerOk(s.core, s.waits, s.disturbed, b, s.core.waiting[b], x);
      WakeupAllUnmoved(s.core, front, x, None);
    }
    forall t | t in s.waits && s.waits[t].InJoin?
      ensures ListedFor(n, t, s.waits[t].task)
    {
      assert ListedFor(s.core, t, s.waits[t].task);
    }
  }

  lemma WakeKeeps(s: System, a: nat, count: int)
    requires Safe(s) && CanStep(s, FutexWake(a, count))
    ensures Safe(AfterWake(s, a, count))
  {
    var l, front := F.Waiters(s.lot, a), F.Woken(s.lot, a, count);
    assert l == front + l[|front|..];
    forall y | y in front
      ensures ParkedOk(s.core, s.waits, s.disturbed, a, y)
    {
      assert a in s.lot && y in s.lot[a];
    }
    WakeupAllKeeps(s.core, front);
    WakeKeepsLot(s, a, front, l[|front|..], WakeupAll(s.core, front), F.WakeLot(s.lot, a, count));
    WakeKeepsJoiners(s, a, front, WakeupAll(s.core, front));
  }

  // ---------- whole runs ----------

  lemma StepKeeps(s: System, k: KStep)
    requires Safe(s) && CanStep(s, k)
    ensures Safe(StepOf(s, k))
  {
    match k
    case Sched(e) => SchedKeeps(s, e);
    case SysBlock(wakeup) => SchedKeeps(s, Blocks(wakeup));
    case SysWakeup(id) =>
      if id in s.named {
        SchedKeeps(s, Wakes(id));
      }
    case FutexWait(a, wakeup) => WaitKeeps(s, a, wakeup);
    case FutexRecheck(now) => RecheckKeeps(s, now);
    case FutexWake(a, count) => WakeKeeps(s, a, count);
  }

  predicate CanRunAll(s: System, ks: seq<KStep>)
    decreases ks
  {
    ks == [] || (Known(s.core) && CanStep(s, ks[0]) && CanRunAll(StepOf(s, ks[0]), ks[1..]))
  }

  function AfterAll(s: System, ks: seq<KStep>): System
    requires CanRunAll(s, ks)
    decreases ks
  {
    if ks == [] then s else AfterAll(StepOf(s, ks[0]), ks[1..])
  }

  lemma {:induction false} StaysSafe(s: System, ks: seq<KStep>)
    requires Safe(s) && CanRunAll(s, ks)
    ensures Safe(AfterAll(s, ks))
    decreases ks
  {
    if ks != [] {
      StepKeeps(s, ks[0]);
      StaysSafe(StepOf(s, ks[0]), ks[1..]);
    }
  }

  function Start(idle: int): System {
    System(Boot(idle), map[], map[], {}, {})
  }

  /** In every run, with timeouts, spurious wake-ups and rechecks: a wake finds every task it takes if
      and only if none of them has, since it last blocked, been passed by the timer or been named by
      another wake-up. */
  lemma WakesFindAllExactly(idle: int, ks: seq<KStep>, a: nat, count: int)
    requires CanRunAll(Start(idle), ks)
    ensures var n := AfterAll(Start(idle), ks);
            AllFound(n.core.blocked, F.Woken(n.lot, a, count)) <==>
            forall h :: h in F.Woken(n.lot, a, count) ==> h.id !in n.disturbed
  {
    BootOk(idle);
    StaysSafe(Start(idle), ks);
    WakeFindsExactly(AfterAll(Start(idle), ks), a, count);
  }

  /** In every run: an exit finds every task that waits for it if and only if none of them has been
      named by another wake-up since it began to wait. */
  lemma ExitsFindAllExactly(idle: int, ks: seq<KStep>)
    requires CanRunAll(Start(idle), ks)
    ensures var n := AfterAll(Start(idle), ks);
            AllFound(n.core.blocked, Joiners(n.core)) <==> forall h :: h in Joiners(n.core) ==> h.id !in n.disturbed
  {
    BootOk(idle);
    StaysSafe(Start(idle), ks);
    ExitFindsExactly(AfterAll(Start(idle), ks));
  }

  /** In every run: a task that runs inside a futex wait, undisturbed, was taken by a wake, and its wait
      returns 0. */
  lemma UndisturbedWaitReturns(idle: int, ks: seq<KStep>, now: nat)
    requires CanRunAll(Start(idle), ks)
    requires var n := AfterAll(Start(idle), ks);
             Known(n.core) && CanStep(n, FutexRecheck(now)) && n.core.current !in n.disturbed
    ensures var n := AfterAll(Start(idle), ks);
            var w := n.waits[n.core.current];
            F.RecheckOutcome(n.lot, w.addr, HandleOf(n.core, n.core.current), w.deadline, now) == F.ReturnZero
  {
    BootOk(idle);
    StaysSafe(Start(idle), ks);
    var n := AfterAll(Start(idle), ks);
    var h, a := HandleOf(n.core, n.core.current), n.waits[n.core.current].addr;
    assert h in F.Waiters(n.lot, a) ==> ParkedOk(n.core, n.waits, n.disturbed, a, h);
  }

  /** Steps that disturb nobody. */
  predicate Quiet(k: KStep) {
    !k.SysWakeup? && (k.Sched? ==> !k.e.Wakes?) && (k.FutexWait? ==> k.wakeup.None?)
  }

  /** Without timeouts of futex waits and without other wake-ups, every wake and every exit finds all. */
  lemma QuietRunsFindAll(idle: int, ks: seq<KStep>, a: nat, count: int)
    requires CanRunAll(Start(idle), ks) && forall k :: k in ks ==> Quiet(k)
    ensures var n := AfterAll(Start(idle), ks);
            AllFound(n.core.blocked, F.Woken(n.lot, a, count)) && AllFound(n.core.blocked, Joiners(n.core))
  {
    StaysQuiet(Start(idle), ks);
    WakesFindAllExactly(idle, ks, a, count);
    ExitsFindAllExactly(idle, ks);
  }

  predicate Untimed(waits: map<int, Wait>) {
    forall t :: t in waits && waits[t].InFutex? ==> waits[t].deadline.None?
  }

  lemma NobodyPassed(waits: map<int, Wait>, now: nat)
    requires Untimed(waits)
    ensures PassedBy(waits, now) == {}
  {
    forall t
      ensures t !in PassedBy(waits, now)
    {
      assert t in waits ==> waits[t].InJoin? || waits[t].deadline.None?;
    }
  }

  lemma {:induction false} StaysQuiet(s: System, ks: seq<KStep>)
    requires CanRunAll(s, ks) && (forall k :: k in ks ==> Quiet(k))
    requires s.disturbed == {} && Untimed(s.waits)
    ensures AfterAll(s, ks).disturbed == {}
    decreases ks
  {
    if ks != [] {
      assert Quiet(ks[0]) && s.disturbed - {s.core.current} == {};
      if ks[0].Sched? && ks[0].e.Ticks? {
        NobodyPassed(s.waits, ks[0].e.now);
      }
      StaysQuiet(StepOf(s, ks[0]), ks[1..]);
    }
  }

  // ---------- the runs in which a task is missed ----------

  lemma {:induction false} RunOneMore(s: System, ks: seq<KStep>, k: KStep)
    requires CanRunAll(s, ks) && Known(AfterAll(s, ks).core) && CanStep(AfterAll(s, ks), k)
    ensures CanRunAll(s, ks + [k]) && AfterAll(s, ks + [k]) == StepOf(AfterAll(s, ks), k)
    decreases ks
  {
    var more := ks + [k];
    if ks == [] {
      assert more[1..] == [];
    } else {
      assert more[0] == ks[0] && more[1..] == ks[1..] + [k];
      RunOneMore(StepOf(s, ks[0]), ks[1..], k);
    }
  }

  predicate Leads(s: System, ks: seq<KStep>, n: System) {
    CanRunAll(s, ks) && AfterAll(s, ks) == n
  }

  lemma LeadsOn(s: System, ks: seq<KStep>, n: System, k: KStep)
    requires Leads(s, ks, n) && Known(n.core) && CanStep(n, k)
    ensures Leads(s, ks + [k], StepOf(n, k))
  {
    RunOneMore(s, ks, k);
  }

  /** Task `t` runs and `u` is ready; nobody waits for anything. */
  predicate TwoTasks(s: System, t: int, u: int) {
    && Known(s.core) && t != u && t in s.core.status && u in s.core.status
    && s.core.current == t && s.core.status[t] == Running && s.core.status[u] == Status.Ready
    && s.core.prio[t] == 1 && s.core.prio[u] == 1
    && s.core.ready == [Handle(u, 1)] && s.core.blocked == [] && s.lot == map[] && s.waits == map[]
    && u in s.core.waiting && s.core.waiting[u] == []
  }

  function SpawnBoth(t: int, u: int): seq<KStep> {
    [Sched(Spawns(t, 1)), Sched(Spawns(u, 1)), Sched(Reschedules)]
  }

  lemma SpawnBothRuns(idle: int, t: int, u: int) returns (n: System)
    requires idle != t && idle != u && t != u
    ensures Leads(Start(idle), SpawnBoth(t, u), n) && TwoTasks(n, t, u)
  {
    var s := Start(idle);
    var s1 := StepOf(s, Sched(Spawns(t, 1)));
    var s2 := StepOf(s1, Sched(Spawns(u, 1)));
    SpawnTwo(idle, t, u);
    FirstReadyRuns(s2.core, Handle(t, 1), [Handle(u, 1)]);
    LeadsOn(s, [], s, Sched(Spawns(t, 1)));
    LeadsOn(s, [] + [Sched(Spawns(t, 1))], s1, Sched(Spawns(u, 1)));
    LeadsOn(s, [] + [Sched(Spawns(t, 1))] + [Sched(Spawns(u, 1))], s2, Sched(Reschedules));
    assert [] + [Sched(Spawns(t, 1))] + [Sched(Spawns(u, 1))] + [Sched(Reschedules)] == SpawnBoth(t, u);
    n := StepOf(s2, Sched(Reschedules));
  }

  /** The other task runs once the current one has blocked. */
  lemma OtherRuns(s: System, ks: seq<KStep>, n: System, u: int) returns (m: System)
    requires Leads(s, ks, n) && Known(n.core) && n.core.status[n.core.current] == Status.Blocked
    requires n.core.ready == [Handle(u, 1)] && u in n.core.status
    ensures m == n.(core := n.core.(finished := [], ready := [], status := n.core.status[u := Running], current := u))
    ensures Leads(s, ks + [Sched(Reschedules)], m)
  {
    FirstReadyRuns(n.core, Handle(u, 1), []);
    LeadsOn(s, ks, n, Sched(Reschedules));
    m := StepOf(n, Sched(Reschedules));
  }

  /** The timer wakes the one task that sleeps. */
  lemma TimerWakes(c: Core, h: Handle, w: nat)
    requires c.blocked == [Node(h, Some(w))] && c.ready == []
    ensures Tick(c, w + 1) == c.(blocked := [], ready := [h], status := c.status[h.id := Status.Ready], timer := None)
  {
    assert c.blocked[1..] == [];
    assert Due(c.blocked[1..], w + 1) == [] && NotDue(c.blocked[1..], w + 1) == [];
    assert Elapsed(c.blocked[0], w + 1);
    assert Due(c.blocked, w + 1) == [h] && NotDue(c.blocked, w + 1) == [];
    assert MarkReady(c.status, [h]) == MarkReady(c.status[h.id := Status.Ready], [h][1..]);
    assert InsertAll([], [h]) == InsertAll(Insert([], h), [h][1..]) && [h][1..] == [];
  }

  /** `t` waits until `w`, `u` runs, the timer passes `w`. */
  function TimedMiss(t: int, u: int, a: nat, w: nat): seq<KStep> {
    SpawnBoth(t, u) + [FutexWait(a, Some(w))] + [Sched(Reschedules)] + [Sched(Ticks(w + 1))]
  }

  /** Then a wake takes `t` and does not find it. */
  lemma TimedWaitIsMissed(idle: int, t: int, u: int, a: nat, w: nat)
    requires idle != t && idle != u && t != u
    ensures CanRunAll(Start(idle), TimedMiss(t, u, a, w))
    ensures var n := AfterAll(Start(idle), TimedMiss(t, u, a, w));
            && n.core.current == u && F.Woken(n.lot, a, 1) == [Handle(t, 1)]
            && !AllFound(n.core.blocked, F.Woken(n.lot, a, 1))
  {
    var s, ks := Start(idle), SpawnBoth(t, u);
    var n := SpawnBothRuns(idle, t, u);
    var h := Handle(t, 1);
    LeadsOn(s, ks, n, FutexWait(a, Some(w)));
    var n1 := StepOf(n, FutexWait(a, Some(w)));
    var n2 := OtherRuns(s, ks + [FutexWait(a, Some(w))], n1, u);
    TimerWakes(n2.core, h, w);
    LeadsOn(s, ks + [FutexWait(a, Some(w))] + [Sched(Reschedules)], n2, Sched(Ticks(w + 1)));
  }

  /** `t` sleeps by `sys_block_current_task_with_timeout`, `u` runs, the timer wakes `t`, which runs. */
  function LeaveHandle(w: nat): seq<KStep> {
    [SysBlock(Some(w))] + [Sched(Reschedules)] + [Sched(Ticks(w + 1))] + [Sched(Reschedules)]
  }

  /** Its handle is left in the table. */
  lemma HandleIsLeft(s: System, ks: seq<KStep>, n: System, t: int, u: int, w: nat) returns (m: System)
    requires Leads(s, ks, n) && TwoTasks(n, t, u)
    ensures Leads(s, ks + LeaveHandle(w), m) && TwoTasks(m, t, u) && t in m.named
  {
    LeadsOn(s, ks, n, SysBlock(Some(w)));
    var n1 := StepOf(n, SysBlock(Some(w)));
    var n2 := OtherRuns(s, ks + [SysBlock(Some(w))], n1, u);
    TimerWakes(n2.core, Handle(t, 1), w);
    LeadsOn(s, ks + [SysBlock(Some(w))] + [Sched(Reschedules)], n2, Sched(Ticks(w + 1)));
    var n3 := StepOf(n2, Sched(Ticks(w + 1)));
    LeadsOn(s, ks + [SysBlock(Some(w))] + [Sched(Reschedules)] + [Sched(Ticks(w + 1))], n3, Sched(Reschedules));
    m := StepOf(n3, Sched(Reschedules));
    assert ks + [SysBlock(Some(w))] + [Sched(Reschedules)] + [Sched(Ticks(w + 1))] + [Sched(Reschedules)] ==
           ks + LeaveHandle(w);
  }

  /** `t` then waits without a timeout, and `u` calls `sys_wakeup_task`. */
  function OtherMiss(t: int, u: int, a: nat, w: nat): seq<KStep> {
    SpawnBoth(t, u) + LeaveHandle(w) + [FutexWait(a, None)] + [Sched(Reschedules)] + [SysWakeup(t)]
  }

  /** A miss without any futex timeout. */
  lemma OtherWakeupIsMissed(idle: int, t: int, u: int, a: nat, w: nat)
    requires idle != t && idle != u && t != u
    ensures CanRunAll(Start(idle), OtherMiss(t, u, a, w))
    ensures var n := AfterAll(Start(idle), OtherMiss(t, u, a, w));
            && n.core.current == u && F.Woken(n.lot, a, 1) == [Handle(t, 1)]
            && !AllFound(n.core.blocked, F.Woken(n.lot, a, 1))
  {
    var s, ks := Start(idle), SpawnBoth(t, u) + LeaveHandle(w);
    var n0 := SpawnBothRuns(idle, t, u);
    var n := HandleIsLeft(s, SpawnBoth(t, u), n0, t, u, w);
    LeadsOn(s, ks, n, FutexWait(a, None));
    var n1 := StepOf(n, FutexWait(a, None));
    var n2 := OtherRuns(s, ks + [FutexWait(a, None)], n1, u);
    LeadsOn(s, ks + [FutexWait(a, None)] + [Sched(Reschedules)], n2, SysWakeup(t));
  }

  /** Likewise when `t` waits for the end of `u`. */
  function JoinMiss(t: int, u: int, w: nat): seq<KStep> {
    SpawnBoth(t, u) + LeaveHandle(w) + [Sched(Joins(u))] + [Sched(Reschedules)] + [SysWakeup(t)]
  }

  /** Then the exit of `u` does not find `t`. */
  lemma JoinerIsMissed(idle: int, t: int, u: int, w: nat)
    requires idle != t && idle != u && t != u
    ensures CanRunAll(Start(idle), JoinMiss(t, u, w))
    ensures var n := AfterAll(Start(idle), JoinMiss(t, u, w));
            n.core.current == u && Joiners(n.core) == [Handle(t, 1)] && !AllFound(n.core.blocked, Joiners(n.core))
  {
    var s, ks := Start(idle), SpawnBoth(t, u) + LeaveHandle(w);
    var n0 := SpawnBothRuns(idle, t, u);
    var n := HandleIsLeft(s, SpawnBoth(t, u), n0, t, u, w);
    LeadsOn(s, ks, n, Sched(Joins(u)));
    var n1 := StepOf(n, Sched(Joins(u)));
    var n2 := OtherRuns(s, ks + [Sched(Joins(u))], n1, u);
    LeadsOn(s, ks + [Sched(Joins(u))] + [Sched(Reschedules)], n2, SysWakeup(t));
  }
}
