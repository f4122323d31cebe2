/** The ring of events the controller fills and the driver drains: no link, the cycle bit flips at the
    end of the ring on both sides (section 4.9.4 of the xHCI specification). */
module EventRing {
  import opened Basics
  import opened ProducerRing

  /** The controller's side. */
  datatype Hardware = Hardware(trbs: seq<Trb>, place: nat, pcs: bool)

  /** The controller writes one event with its cycle bit. */
  function Post(h: Hardware, t: Trb): Hardware
    requires h.place < |h.trbs|
  {
    var written := h.trbs[h.place := SetCycle(t, h.pcs)];
    if h.place + 1 >= |h.trbs| then Hardware(written, 0, !h.pcs) else Hardware(written, h.place + 1, h.pcs)
  }

  /** The driver's place in a ring of `n` slots after taking one event. */
  function Advance(k: Consumer, n: nat): Consumer {
    if k.dequeue + 1 >= n then Consumer(0, !k.ccs) else Consumer(k.dequeue + 1, k.ccs)
  }

  predicate EventBits(h: Hardware) {
    forall s :: 0 <= s < |h.trbs| ==> Cycle(h.trbs[s]) == if s < h.place then h.pcs else !h.pcs
  }

  /** The events not yet taken, as they were written. */
  predicate Holds(trbs: seq<Trb>, k: Consumer, q: seq<Trb>)
    requires trbs != []
  {
    forall i :: 0 <= i < |q| ==> trbs[SlotOf(k.dequeue, |trbs|, i)] == q[i]
  }

  predicate EventPlaces(h: Hardware, k: Consumer, q: seq<Trb>) {
    && h.place < |h.trbs| && k.dequeue < |h.trbs|
    && if k.ccs == h.pcs then k.dequeue <= h.place && |q| == h.place - k.dequeue
       else h.place <= k.dequeue && |q| == |h.trbs| - k.dequeue + h.place
  }

  predicate EventsAgree(h: Hardware, k: Consumer, q: seq<Trb>) {
    EventPlaces(h, k, q) && EventBits(h) && Holds(h.trbs, k, q)
  }

  /** The controller does not overrun the driver: it posts only while there is a free slot. */
  lemma PostAgrees(h: Hardware, k: Consumer, q: seq<Trb>, t: Trb)
    requires EventsAgree(h, k, q) && |q| < |h.trbs| && t.control < U32
    ensures EventsAgree(Post(h, t), k, q + [SetCycle(t, h.pcs)])
  {
    var n := |h.trbs|;
    SetCycleSetsOnlyThat(t, h.pcs);
    assert SlotOf(k.dequeue, n, |q|) == h.place;
    var after, longer := Post(h, t).trbs, q + [SetCycle(t, h.pcs)];
    forall i | 0 <= i < |longer|
      ensures after[SlotOf(k.dequeue, n, i)] == longer[i]
    {
      if i < |q| {
        assert SlotOf(k.dequeue, n, i) != h.place;
        assert longer[i] == q[i];
      }
    }
  }

  /** The driver sees an event exactly when there is one, and it is the oldest. */
  lemma SeesOldest(h: Hardware, k: Consumer, q: seq<Trb>)
    requires EventsAgree(h, k, q)
    ensures Cycle(h.trbs[k.dequeue]) == k.ccs <==> q != []
    ensures q != [] ==> h.trbs[k.dequeue] == q[0]
  {
    if q != [] {
      assert SlotOf(k.dequeue, |h.trbs|, 0) == k.dequeue;
    }
  }

  lemma AdvanceAgrees(h: Hardware, k: Consumer, q: seq<Trb>)
    requires EventsAgree(h, k, q) && q != []
    ensures EventsAgree(h, Advance(k, |h.trbs|), q[1..])
  {
    var n := |h.trbs|;
    var next := Advance(k, n);
    forall i | 0 <= i < |q[1..]|
      ensures h.trbs[SlotOf(next.dequeue, n, i)] == q[1..][i]
    {
      assert SlotOf(next.dequeue, n, i) == SlotOf(k.dequeue, n, i + 1) && q[1..][i] == q[i + 1];
    }
  }

  class Ring {
    const mem: array<Trb>
    var dequeue: nat
    var cycle: bool
    /** The controller's side, and the events it has posted that were not taken yet. */
    var place: nat
    var pcs: bool
    ghost var queue: seq<Trb>

    ghost predicate Valid()
      reads this, mem
    {
      EventsAgree(Hardware(mem[..], place, pcs), Consumer(dequeue, cycle), queue)
    }

    constructor (trbCount: nat)
      requires trbCount >= 1
      ensures Valid() && fresh(mem) && mem.Length == trbCount && queue == []
    {
      mem := new Trb[trbCount](_ => Trb(0, 0, 0));
      dequeue, cycle, place, pcs, queue := 0, true, 0, true, [];
      new;
      CycleIs(Trb(0, 0, 0));
    }

    /** `try_dequeue` */
    method TryDequeue() returns (r: Option<Trb>)
      requires Valid()
      modifies this
      ensures Valid()
      ensures old(queue) == [] ==> r == None && queue == []
      ensures old(queue) != [] ==> r == Some(old(queue)[0]) && queue == old(queue)[1..]
    {
      ghost var h, k := Hardware(mem[..], place, pcs), Consumer(dequeue, cycle);
      SeesOldest(h, k, queue);
      var trb := mem[dequeue];
      if Cycle(trb) != cycle {
        return None;
      }
      AdvanceAgrees(h, k, queue);
      dequeue := dequeue + 1;
      if dequeue >= mem.Length {
        dequeue := 0;
        cycle := !cycle;
      }
      queue := queue[1..];
      return Some(trb);
    }

    /** The controller posts an event. */
    method Arrive(t: Trb)
      requires Valid() && |queue| < mem.Length && t.control < U32
      modifies this, mem
      ensures Valid() && |queue| == |old(queue)| + 1 && queue[..|old(queue)|] == old(queue)
      ensures queue[|old(queue)|] == SetCycle(t, old(pcs))
    {
      PostAgrees(Hardware(mem[..], place, pcs), Consumer(dequeue, cycle), queue, t);
      mem[place] := SetCycle(t, pcs);
      ghost var posted := SetCycle(t, pcs);
      place := place + 1;
      if place >= mem.Length {
        place := 0;
        pcs := !pcs;
      }
      queue := queue + [posted];
    }
  }
}
