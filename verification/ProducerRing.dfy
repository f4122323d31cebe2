/** A ring of transfer request blocks (TRBs) whose last slot links back to the first: the driver fills
    it, the controller follows the cycle bit and the Link TRB (sections 4.9.2 and 6.4.4.1 of the xHCI
    specification). */
module ProducerRing {
  import opened BitOps

  const LINK: nat := 6
  const U32: nat := 0x1_0000_0000

  datatype Trb = Trb(param: nat, status: nat, control: nat)

  /** `set_cycle` */
  function SetCycle(t: Trb, cycle: bool): Trb {
    t.(control := if cycle then Or(t.control, 1) else And(t.control, 0xffff_fffe))
  }

  /** `cycle` */
  predicate Cycle(t: Trb) {
    And(t.control, 1) != 0
  }

  /** `trb_type` */
  function Type(t: Trb): nat {
    And(Shr(t.control, 10), 0x3f)
  }

  /** The Toggle Cycle flag of a Link TRB. */
  predicate Toggles(t: Trb) {
    And(Shr(t.control, 1), 1) != 0
  }

  lemma SetCycleIs(t: Trb, cycle: bool)
    requires t.control < U32
    ensures SetCycle(t, cycle).control == 2 * (t.control / 2) + if cycle then 1 else 0
    ensures SetCycle(t, cycle).control < U32
  {
    var x := t.control / 2;
    OrCons(x, t.control % 2, 0, 1);
    AndCons(x, t.control % 2, 0x7fff_ffff, 0);
    LowMask31(x);
  }

  lemma LowMask31(x: nat)
    requires x < 0x8000_0000
    ensures And(x, 0x7fff_ffff) == x
  {
    Pow2Of31();
    AndLowMask(x, 31);
    LowOfSmall(x, 31);
  }

  lemma Pow2Of31()
    ensures Pow2(31) == 0x8000_0000
  {
    assert Pow2(8) == 0x100 && Pow2(16) == 0x1_0000;
    assert Pow2(24) == 0x100_0000;
  }

  lemma CycleIs(t: Trb)
    ensures Cycle(t) <==> t.control % 2 == 1
  {
    AndCons(t.control / 2, t.control % 2, 0, 1);
  }

  /** Setting the cycle bit sets that bit and nothing else. */
  lemma SetCycleSetsOnlyThat(t: Trb, cycle: bool)
    requires t.control < U32
    ensures Cycle(SetCycle(t, cycle)) == cycle
    ensures Type(SetCycle(t, cycle)) == Type(t) && Toggles(SetCycle(t, cycle)) == Toggles(t)
    ensures SetCycle(SetCycle(t, cycle), Cycle(t)) == t
  {
    var u := SetCycle(t, cycle);
    SetCycleIs(t, cycle);
    CycleIs(u);
    CycleIs(t);
    SetCycleIs(u, Cycle(t));
    assert u.control / 2 == t.control / 2;
    assert Shr(u.control, 10) == Shr(u.control / 2, 9) && Shr(t.control, 10) == Shr(t.control / 2, 9);
    assert Shr(u.control, 1) == Shr(u.control / 2, 0) && Shr(t.control, 1) == Shr(t.control / 2, 0);
  }

  /** The Link TRB the driver writes. */
  function LinkTo(base: nat, cycle: bool): Trb {
    SetCycle(Trb(base, 0, Or(Shl(LINK, 10), 2)), cycle)
  }

  lemma LinkIs(base: nat, cycle: bool)
    ensures Type(LinkTo(base, cycle)) == LINK && Toggles(LinkTo(base, cycle))
    ensures Cycle(LinkTo(base, cycle)) == cycle && LinkTo(base, cycle).param == base
  {
    var link := Trb(base, 0, Or(Shl(LINK, 10), 2));
    assert Shl(LINK, 10) == 0x1800;
    assert link.control == 0x1802;
    SetCycleSetsOnlyThat(link, cycle);
    assert Shr(0x1802, 10) == 6 && Shr(0x1802, 1) == 0xc01;
    assert And(6, 0x3f) == 6 && And(0xc01, 1) == 1;
  }

  // ---------- the two sides ----------

  datatype Producer = Producer(trbs: seq<Trb>, enqueue: nat, cycle: bool)

  /** The first write of `Ring::enqueue`: the TRB itself. */
  function Write(p: Producer, t: Trb): Producer
    requires p.enqueue < |p.trbs|
  {
    Producer(p.trbs[p.enqueue := SetCycle(t, p.cycle)], p.enqueue + 1, p.cycle)
  }

  /** The second, at the end of a lap: the link. */
  function WriteLink(p: Producer, base: nat): Producer
    requires p.enqueue < |p.trbs|
  {
    Producer(p.trbs[p.enqueue := LinkTo(base, p.cycle)], 0, !p.cycle)
  }

  /** `Ring::enqueue` */
  function Put(p: Producer, base: nat, t: Trb): Producer
    requires p.enqueue + 1 < |p.trbs|
  {
    var written := Write(p, t);
    if written.enqueue >= |p.trbs| - 1 then WriteLink(written, base) else written
  }

  /** A ring of `n` zeroed slots after putting in all of `sent`. */
  function Filled(base: nat, n: nat, sent: seq<Trb>): (p: Producer)
    requires n >= 2
    ensures |p.trbs| == n && p.enqueue + 1 < n
    decreases |sent|
  {
    if sent == [] then Producer(seq(n, _ => Trb(0, 0, 0)), 0, true)
    else Put(Filled(base, n, sent[..|sent| - 1]), base, sent[|sent| - 1])
  }

  class Ring {
    const mem: array<Trb>
    const phys: nat
    var enqueue: nat
    var cycle: bool
    /** Everything put in so far. */
    ghost var sent: seq<Trb>

    ghost predicate Valid()
      reads this, mem
    {
      mem.Length >= 2 && State() == Filled(phys, mem.Length, sent)
    }

    ghost function State(): Producer
      reads this, mem
    {
      Producer(mem[..], enqueue, cycle)
    }

    constructor (phys: nat, trbCount: nat)
      requires trbCount >= 2
      ensures Valid() && fresh(mem) && this.phys == phys
      ensures State() == Producer(seq(trbCount, _ => Trb(0, 0, 0)), 0, true) && sent == []
    {
      mem := new Trb[trbCount](_ => Trb(0, 0, 0));
      this.phys := phys;
      enqueue := 0;
      cycle := true;
      sent := [];
    }

    method Enqueue(t: Trb) returns (addr: nat)
      requires Valid()
      modifies this, mem
      ensures Valid() && State() == Put(old(State()), phys, t) && sent == old(sent) + [t]
      ensures addr == phys + 16 * old(enqueue)
    {
      addr := phys + enqueue * 16;
      mem[enqueue] := SetCycle(t, cycle);
      enqueue := enqueue + 1;
      if enqueue >= mem.Length - 1 {
        mem[enqueue] := LinkTo(phys, cycle);
        enqueue := 0;
        cycle := !cycle;
      }
      sent := sent + [t];
      assert sent[..|sent| - 1] == old(sent);
    }
  }

  datatype Consumer = Consumer(dequeue: nat, ccs: bool)

  datatype Seen = Nothing | Followed | Got(trb: Trb)

  /** One look of the controller at the slot it is at. */
  function Look(trbs: seq<Trb>, base: nat, k: Consumer): (Seen, Consumer)
    requires k.dequeue < |trbs|
  {
    var t := trbs[k.dequeue];
    if Cycle(t) != k.ccs then (Nothing, k)
    else if Type(t) == LINK then (Followed, Consumer(if t.param < base then 0 else (t.param - base) / 16,
        if Toggles(t) then !k.ccs else k.ccs))
    else (Got(t), k.(dequeue := k.dequeue + 1))
  }

  // ---------- what they agree on ----------

  /** The slot of the `i`-th outstanding TRB, counted from slot `d`, in a ring of `n` slots and a link. */
  function SlotOf(d: nat, n: nat, i: nat): nat {
    if d + i < n then d + i else if d + i < 2 * n then d + i - n else 0
  }

  predicate Plain(t: Trb) {
    t.control < U32 && Type(t) != LINK
  }

  /** Everything before the producer's place carries its cycle bit, the rest and the link the other. */
  predicate Bits(p: Producer, n: nat)
    requires |p.trbs| == n + 1
  {
    && (forall s :: 0 <= s < n ==> Cycle(p.trbs[s]) == if s < p.enqueue then p.cycle else !p.cycle)
    && Cycle(p.trbs[n]) == !p.cycle
  }

  /** The outstanding TRBs are in the slots from the consumer's place on, one lap further behind the link. */
  predicate Stored(trbs: seq<Trb>, n: nat, k: Consumer, q: seq<Trb>)
    requires |trbs| == n + 1
  {
    forall i :: 0 <= i < |q| ==> trbs[SlotOf(k.dequeue, n, i)] == SetCycle(q[i],
        if k.dequeue + i < n then k.ccs else !k.ccs)
  }

  /** `p.enqueue` is `n` between the write of the last TRB of a lap and that of the link. */
  predicate Places(p: Producer, n: nat, k: Consumer, q: seq<Trb>) {
    && p.enqueue <= n && k.dequeue <= n
    && if k.ccs == p.cycle then k.dequeue <= p.enqueue && |q| == p.enqueue - k.dequeue
       else p.enqueue < k.dequeue && |q| == n - k.dequeue + p.enqueue
  }

  predicate Agree(p: Producer, base: nat, k: Consumer, q: seq<Trb>) {
    && |p.trbs| >= 3
    && var n := |p.trbs| - 1;
       && Places(p, n, k, q) && Bits(p, n) && Stored(p.trbs, n, k, q)
       && (k.ccs != p.cycle ==> p.trbs[n] == LinkTo(base, !p.cycle))
       && (forall i :: 0 <= i < |q| ==> Plain(q[i]))
  }

  lemma WriteStored(p: Producer, k: Consumer, q: seq<Trb>, t: Trb, n: nat)
    requires |p.trbs| == n + 1 && p.enqueue < n && Places(p, n, k, q) && Stored(p.trbs, n, k, q) && |q| + 1 < n
    ensures Stored(Write(p, t).trbs, n, k, q + [t])
  {
    var after := Write(p, t).trbs;
    assert SlotOf(k.dequeue, n, |q|) == p.enqueue;
    forall i | 0 <= i < |q + [t]|
      ensures after[SlotOf(k.dequeue, n, i)] == SetCycle((q + [t])[i], if k.dequeue + i < n then k.ccs else !k.ccs)
    {
      if i < |q| {
        assert SlotOf(k.dequeue, n, i) != p.enqueue;
        assert (q + [t])[i] == q[i];
      }
    }
  }

  /** The TRB is written, with at most `n - 2` outstanding afterwards in a ring of `n` slots in all. */
  lemma WriteAgrees(p: Producer, base: nat, k: Consumer, q: seq<Trb>, t: Trb)
    requires Agree(p, base, k, q) && Plain(t) && |q| + 1 <= |p.trbs| - 2 && p.enqueue + 1 < |p.trbs|
    ensures Agree(Write(p, t), base, k, q + [t])
  {
    SetCycleSetsOnlyThat(t, p.cycle);
    WriteStored(p, k, q, t, |p.trbs| - 1);
  }

  /** The link is written; the controller may have looked any number of times since the last TRB. */
  lemma LinkAgrees(p: Producer, base: nat, k: Consumer, q: seq<Trb>)
    requires Agree(p, base, k, q) && p.enqueue + 1 == |p.trbs| && |q| <= |p.trbs| - 2
    ensures Agree(WriteLink(p, base), base, k, q)
  {
    LinkIs(base, p.cycle);
  }

  /** What the controller sees: the oldest outstanding TRB, or the link it has to follow, or nothing,
      exactly when there is nothing. */
  lemma LookSees(p: Producer, base: nat, k: Consumer, q: seq<Trb>)
    requires Agree(p, base, k, q)
    ensures k.dequeue == |p.trbs| - 1 && k.ccs != p.cycle ==> Look(p.trbs, base, k) == (Followed, Consumer(0, !k.ccs))
    ensures k.dequeue == |p.trbs| - 1 && k.ccs == p.cycle ==> Look(p.trbs, base, k) == (Nothing, k) && q == []
    ensures k.dequeue < |p.trbs| - 1 && q != [] ==>
              Look(p.trbs, base, k) == (Got(SetCycle(q[0], k.ccs)), Consumer(k.dequeue + 1, k.ccs))
    ensures k.dequeue < |p.trbs| - 1 && q == [] ==> Look(p.trbs, base, k) == (Nothing, k)
  {
    var n := |p.trbs| - 1;
    LinkIs(base, !p.cycle);
    if q != [] {
      SetCycleSetsOnlyThat(q[0], k.ccs);
      assert k.dequeue < n ==> SlotOf(k.dequeue, n, 0) == k.dequeue;
    }
  }

  lemma FollowAgrees(p: Producer, base: nat, k: Consumer, q: seq<Trb>)
    requires Agree(p, base, k, q) && k.dequeue == |p.trbs| - 1 && k.ccs != p.cycle
    ensures Agree(p, base, Consumer(0, !k.ccs), q)
  {
    var n := |p.trbs| - 1;
    forall i | 0 <= i < |q|
      ensures p.trbs[SlotOf(0, n, i)] == SetCycle(q[i], if 0 + i < n then !k.ccs else k.ccs)
    {
      assert SlotOf(0, n, i) == SlotOf(n, n, i);
    }
  }

  lemma TakeAgrees(p: Producer, base: nat, k: Consumer, q: seq<Trb>)
    requires Agree(p, base, k, q) && k.dequeue < |p.trbs| - 1 && q != []
    ensures Agree(p, base, Consumer(k.dequeue + 1, k.ccs), q[1..])
  {
    var n := |p.trbs| - 1;
    forall i | 0 <= i < |q[1..]|
      ensures p.trbs[SlotOf(k.dequeue + 1, n, i)] == SetCycle(q[1..][i],
              if k.dequeue + 1 + i < n then k.ccs else !k.ccs)
    {
      assert SlotOf(k.dequeue + 1, n, i) == SlotOf(k.dequeue, n, i + 1) && q[1..][i] == q[i + 1];
    }
  }

  /** The bound is exact. With as many TRBs outstanding as there are slots before the link, the
      controller still finds the oldest one unless it rests at the link: then the link it should
      follow has just been written for the next lap, and it sees nothing. */
  lemma AtTheBound(p: Producer, base: nat, k: Consumer, q: seq<Trb>, t: Trb)
    requires Agree(p, base, k, q) && Plain(t) && |q| == |p.trbs| - 2 && p.enqueue + 1 < |p.trbs|
    ensures Look(Put(p, base, t).trbs, base, k).0 == Got(SetCycle(q[0], k.ccs)) <==> k.dequeue != |p.trbs| - 1
    ensures k.dequeue == |p.trbs| - 1 ==> Look(Put(p, base, t).trbs, base, k) == (Nothing, k)
  {
    var n := |p.trbs| - 1;
    SetCycleSetsOnlyThat(q[0], k.ccs);
    LinkIs(base, p.cycle);
    if k.dequeue < n {
      assert SlotOf(k.dequeue, n, 0) == k.dequeue;
    }
  }
}
