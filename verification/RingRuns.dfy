/** Every run of the driver and the controller on one ring. */
module RingRuns {
  import opened ProducerRing

  /** The two sides, what was put in and what was taken out so far, and the addresses returned for
      the TRBs still outstanding. */
  datatype System = System(p: Producer, k: Consumer, sent: seq<Trb>, got: seq<Trb>, addrs: seq<nat>)

  /** The driver writes a TRB and, at the end of a lap, the link; the controller looks at any moment. */
  datatype Step = Writes(trb: Trb) | Links | Looks

  /** The driver keeps at most `size - 2` TRBs outstanding, and writes the link before the next TRB. */
  predicate Enabled(s: System, e: Step) {
    match e
    case Writes(t) => Plain(t) && |s.sent| - |s.got| + 1 <= |s.p.trbs| - 2 && s.p.enqueue + 1 < |s.p.trbs|
    case Links => s.p.enqueue + 1 == |s.p.trbs|
    case Looks => s.k.dequeue < |s.p.trbs|
  }

  function Next(s: System, base: nat, e: Step): System
    requires Enabled(s, e)
  {
    match e
    case Writes(t) =>
      s.(p := Write(s.p, t), sent := s.sent + [t], addrs := s.addrs + [base + 16 * s.p.enqueue])
    case Links => s.(p := WriteLink(s.p, base))
    case Looks =>
      var (seen, k) := Look(s.p.trbs, base, s.k);
      match seen
      case Got(t) => s.(k := k, got := s.got + [t], addrs := if s.addrs == [] then [] else s.addrs[1..])
      case _ => s.(k := k)
  }

  predicate SameButCycle(t: Trb, u: Trb) {
    t == SetCycle(u, true) || t == SetCycle(u, false)
  }

  /** What was taken is a copy of the front of what was put in. */
  predicate Copied(sent: seq<Trb>, got: seq<Trb>) {
    |got| <= |sent| && forall i :: 0 <= i < |got| ==> SameButCycle(got[i], sent[i])
  }

  predicate AddrsOk(addrs: seq<nat>, base: nat, d: nat, m: nat) {
    forall i :: 0 <= i < |addrs| ==> addrs[i] == base + 16 * SlotOf(d, m, i)
  }

  predicate Inv(s: System, base: nat) {
    && Copied(s.sent, s.got) && Agree(s.p, base, s.k, s.sent[|s.got|..])
    && |s.addrs| == |s.sent| - |s.got| <= |s.p.trbs| - 2 && AddrsOk(s.addrs, base, s.k.dequeue, |s.p.trbs| - 1)
  }

  lemma AddrsAppend(addrs: seq<nat>, base: nat, d: nat, m: nat, a: nat)
    requires AddrsOk(addrs, base, d, m) && a == base + 16 * SlotOf(d, m, |addrs|)
    ensures AddrsOk(addrs + [a], base, d, m)
  {
  }

  lemma AddrsTail(addrs: seq<nat>, base: nat, d: nat, m: nat)
    requires AddrsOk(addrs, base, d, m) && addrs != []
    ensures AddrsOk(addrs[1..], base, d + 1, m)
  {
    forall i | 0 <= i < |addrs[1..]|
      ensures addrs[1..][i] == base + 16 * SlotOf(d + 1, m, i)
    {
      assert SlotOf(d + 1, m, i) == SlotOf(d, m, i + 1) && addrs[1..][i] == addrs[i + 1];
    }
  }

  lemma AddrsFollow(addrs: seq<nat>, base: nat, m: nat)
    requires AddrsOk(addrs, base, m, m) && |addrs| <= m
    ensures AddrsOk(addrs, base, 0, m)
  {
    forall i | 0 <= i < |addrs|
      ensures addrs[i] == base + 16 * SlotOf(0, m, i)
    {
      assert SlotOf(0, m, i) == SlotOf(m, m, i);
    }
  }

  lemma WriteKeeps(s: System, base: nat, t: Trb, q: seq<Trb>, n: System)
    requires Inv(s, base) && Enabled(s, Writes(t)) && q == s.sent[|s.got|..]
    requires n == s.(p := Write(s.p, t), sent := s.sent + [t], addrs := s.addrs + [base + 16 * s.p.enqueue])
    ensures Inv(n, base)
  {
    WriteAgrees(s.p, base, s.k, q, t);
    SentGrows(s.sent, s.got, t);
    WriteAddrs(s, base, q, s.addrs + [base + 16 * s.p.enqueue]);
  }

  lemma WriteAddrs(s: System, base: nat, q: seq<Trb>, addrs: seq<nat>)
    requires Inv(s, base) && q == s.sent[|s.got|..] && s.p.enqueue + 1 < |s.p.trbs|
    requires addrs == s.addrs + [base + 16 * s.p.enqueue]
    ensures AddrsOk(addrs, base, s.k.dequeue, |s.p.trbs| - 1)
  {
    NextSlot(s.p, base, s.k, q);
    AddrsAppend(s.addrs, base, s.k.dequeue, |s.p.trbs| - 1, base + 16 * s.p.enqueue);
  }

  lemma NextSlot(p: Producer, base: nat, k: Consumer, q: seq<Trb>)
    requires Agree(p, base, k, q) && p.enqueue + 1 < |p.trbs|
    ensures SlotOf(k.dequeue, |p.trbs| - 1, |q|) == p.enqueue
  {
  }

  lemma SentGrows(sent: seq<Trb>, got: seq<Trb>, t: Trb)
    requires Copied(sent, got)
    ensures Copied(sent + [t], got) && (sent + [t])[|got|..] == sent[|got|..] + [t]
  {
  }

  lemma FollowKeeps(s: System, base: nat, q: seq<Trb>, n: System)
    requires Inv(s, base) && q == s.sent[|s.got|..]
    requires s.k.dequeue == |s.p.trbs| - 1 && s.k.ccs != s.p.cycle
    requires n == s.(k := Consumer(0, !s.k.ccs))
    ensures Inv(n, base)
  {
    FollowAgrees(s.p, base, s.k, q);
    AddrsFollow(s.addrs, base, |s.p.trbs| - 1);
  }

  lemma TakenKeeps(s: System, base: nat, q: seq<Trb>, t: Trb, n: System)
    requires Inv(s, base) && q == s.sent[|s.got|..] && q != [] && s.k.dequeue < |s.p.trbs| - 1
    requires SameButCycle(t, q[0]) && Agree(s.p, base, Consumer(s.k.dequeue + 1, s.k.ccs), q[1..])
    requires n == s.(k := Consumer(s.k.dequeue + 1, s.k.ccs), got := s.got + [t], addrs := s.addrs[1..])
    ensures Inv(n, base)
  {
    AddrsTail(s.addrs, base, s.k.dequeue, |s.p.trbs| - 1);
    CopiedGrows(s.sent, s.got, t);
  }

  lemma CopiedGrows(sent: seq<Trb>, got: seq<Trb>, t: Trb)
    requires Copied(sent, got) && |got| < |sent| && SameButCycle(t, sent[|got|])
    ensures Copied(sent, got + [t]) && sent[|got + [t]|..] == sent[|got|..][1..]
  {
  }

  lemma GotKeeps(s: System, base: nat, q: seq<Trb>, n: System)
    requires Inv(s, base) && q == s.sent[|s.got|..] && q != [] && s.k.dequeue < |s.p.trbs| - 1
    requires n == s.(k := Consumer(s.k.dequeue + 1, s.k.ccs), got := s.got + [SetCycle(q[0], s.k.ccs)],
                     addrs := s.addrs[1..])
    ensures Inv(n, base)
  {
    TakeAgrees(s.p, base, s.k, q);
    TakenKeeps(s, base, q, SetCycle(q[0], s.k.ccs), n);
  }

  lemma LookKeeps(s: System, base: nat, q: seq<Trb>, n: System)
    requires Inv(s, base) && Enabled(s, Looks) && q == s.sent[|s.got|..] && n == Next(s, base, Looks)
    ensures Inv(n, base)
  {
    LookSees(s.p, base, s.k, q);
    if s.k.dequeue == |s.p.trbs| - 1 {
      if s.k.ccs != s.p.cycle {
        FollowKeeps(s, base, q, n);
      } else {
        assert n == s;
      }
    } else if q != [] {
      GotKeeps(s, base, q, n);
    } else {
      assert n == s;
    }
  }

  lemma NextKeeps(s: System, base: nat, e: Step)
    requires Inv(s, base) && Enabled(s, e)
    ensures Inv(Next(s, base, e), base)
  {
    match e
    case Writes(t) => WriteKeeps(s, base, t, s.sent[|s.got|..], Next(s, base, e));
    case Links => LinkAgrees(s.p, base, s.k, s.sent[|s.got|..]);
    case Looks => LookKeeps(s, base, s.sent[|s.got|..], Next(s, base, e));
  }

  function Start(size: nat): System {
    System(Producer(seq(size, _ => Trb(0, 0, 0)), 0, true), Consumer(0, true), [], [], [])
  }

  lemma StartOk(size: nat, base: nat)
    requires size >= 3
    ensures Inv(Start(size), base)
  {
    CycleIs(Trb(0, 0, 0));
  }

  predicate CanRun(s: System, base: nat, es: seq<Step>)
    decreases es
  {
    es == [] || (Enabled(s, es[0]) && CanRun(Next(s, base, es[0]), base, es[1..]))
  }

  function After(s: System, base: nat, es: seq<Step>): System
    requires CanRun(s, base, es)
    decreases es
  {
    if es == [] then s else After(Next(s, base, es[0]), base, es[1..])
  }

  lemma {:induction false} RunKeeps(s: System, base: nat, es: seq<Step>)
    requires Inv(s, base) && CanRun(s, base, es)
    ensures Inv(After(s, base, es), base)
    decreases es
  {
    if es != [] {
      NextKeeps(s, base, es[0]);
      RunKeeps(Next(s, base, es[0]), base, es[1..]);
    }
  }

  /** First in, first out, in every run: what the controller took is, TRB by TRB and up to the cycle
      bit, what the driver put in, in order, nothing skipped, nothing twice, nothing stale; and the
      addresses returned for the TRBs still outstanding are all different. */
  lemma FirstInFirstOut(size: nat, base: nat, es: seq<Step>)
    requires size >= 3 && CanRun(Start(size), base, es)
    ensures var s := After(Start(size), base, es);
            && |s.got| <= |s.sent| && |s.addrs| == |s.sent| - |s.got|
            && (forall i :: 0 <= i < |s.got| ==> SameButCycle(s.got[i], s.sent[i]))
            && (forall i, j :: 0 <= i < j < |s.addrs| ==> s.addrs[i] != s.addrs[j])
  {
    StartOk(size, base);
    RunKeeps(Start(size), base, es);
  }

  /** The controller is never stuck: while TRBs are outstanding it takes the oldest at its next look,
      or at the one after if it has to follow the link first. */
  lemma NeverStuck(s: System, base: nat)
    requires Inv(s, base) && |s.got| < |s.sent|
    ensures Enabled(s, Looks)
    ensures var n := Next(s, base, Looks);
            |n.got| == |s.got| + 1 || (Enabled(n, Looks) && |Next(n, base, Looks).got| == |s.got| + 1)
  {
    var q := s.sent[|s.got|..];
    LookSees(s.p, base, s.k, q);
    if s.k.dequeue == |s.p.trbs| - 1 {
      FollowAgrees(s.p, base, s.k, q);
      LookSees(s.p, base, Consumer(0, !s.k.ccs), q);
    }
  }

  // ---------- the bound ----------

  lemma {:induction false} RunExtends(s: System, base: nat, es: seq<Step>, e: Step)
    requires CanRun(s, base, es) && Enabled(After(s, base, es), e)
    ensures CanRun(s, base, es + [e]) && After(s, base, es + [e]) == Next(After(s, base, es), base, e)
    decreases es
  {
    var more := es + [e];
    if es == [] {
      assert more[1..] == [];
    } else {
      assert more[0] == es[0] && more[1..] == es[1..] + [e];
      RunExtends(Next(s, base, es[0]), base, es[1..], e);
    }
  }

  /** A run of a ring of three slots has led to this place. */
  predicate At(base: nat, es: seq<Step>, s: System, enqueue: nat, cycle: bool, k: Consumer, left: nat) {
    && CanRun(Start(3), base, es) && After(Start(3), base, es) == s && Inv(s, base)
    && |s.p.trbs| == 3 && s.p.enqueue == enqueue && s.p.cycle == cycle && s.k == k && |s.sent| - |s.got| == left
  }

  lemma ThenWrites(base: nat, es: seq<Step>, s: System, enqueue: nat, cycle: bool, k: Consumer, t: Trb)
    requires At(base, es, s, enqueue, cycle, k, 0) && enqueue < 2 && Plain(t)
    ensures At(base, es + [Writes(t)], Next(s, base, Writes(t)), enqueue + 1, cycle, k, 1)
  {
    NextKeeps(s, base, Writes(t));
    RunExtends(Start(3), base, es, Writes(t));
  }

  lemma ThenLinks(base: nat, es: seq<Step>, s: System, cycle: bool, k: Consumer, left: nat)
    requires At(base, es, s, 2, cycle, k, left)
    ensures At(base, es + [Links], Next(s, base, Links), 0, !cycle, k, left)
  {
    NextKeeps(s, base, Links);
    RunExtends(Start(3), base, es, Links);
  }

  lemma ThenLooks(base: nat, es: seq<Step>, s: System, enqueue: nat, cycle: bool, d: nat, ccs: bool)
    requires At(base, es, s, enqueue, cycle, Consumer(d, ccs), 1) && d < 2
    ensures At(base, es + [Looks], Next(s, base, Looks), enqueue, cycle, Consumer(d + 1, ccs), 0)
  {
    NextKeeps(s, base, Looks);
    LookSees(s.p, base, s.k, s.sent[|s.got|..]);
    RunExtends(Start(3), base, es, Looks);
  }

  /** A lap of a ring of three slots, at the end of which the controller rests at the link, and one TRB
      of the next lap. */
  function OneLap(a: Trb, b: Trb, c: Trb): seq<Step> {
    [] + [Writes(a)] + [Looks] + [Writes(b)] + [Links] + [Looks] + [Writes(c)]
  }

  /** There the bound is reached: with one TRB more, the controller never sees the outstanding one. */
  lemma StallIsReached(base: nat, a: Trb, b: Trb, c: Trb, d: Trb)
    requires Plain(a) && Plain(b) && Plain(c) && Plain(d)
    ensures CanRun(Start(3), base, OneLap(a, b, c))
    ensures var s := After(Start(3), base, OneLap(a, b, c));
            && |s.sent| - |s.got| == |s.p.trbs| - 2 && s.p.enqueue + 1 < |s.p.trbs| && s.k.dequeue < |s.p.trbs|
            && Look(Put(s.p, base, d).trbs, base, s.k) == (Nothing, s.k)
  {
    var s := Start(3);
    StartOk(3, base);
    ThenWrites(base, [], s, 0, true, Consumer(0, true), a);
    s := Next(s, base, Writes(a));
    ThenLooks(base, [] + [Writes(a)], s, 1, true, 0, true);
    s := Next(s, base, Looks);
    ThenWrites(base, [] + [Writes(a)] + [Looks], s, 1, true, Consumer(1, true), b);
    s := Next(s, base, Writes(b));
    ThenLinks(base, [] + [Writes(a)] + [Looks] + [Writes(b)], s, true, Consumer(1, true), 1);
    s := Next(s, base, Links);
    ThenLooks(base, [] + [Writes(a)] + [Looks] + [Writes(b)] + [Links], s, 0, false, 1, true);
    s := Next(s, base, Looks);
    ThenWrites(base, [] + [Writes(a)] + [Looks] + [Writes(b)] + [Links] + [Looks], s, 0, false, Consumer(2, true), c);
    s := Next(s, base, Writes(c));
    AtTheBound(s.p, base, s.k, s.sent[|s.got|..], d);
  }
}
