/** The scheduler's code over whole runs: from boot, every method can be called wherever the model can
    take the step, and leads where the model leads. */
module SchedulerDriver {
  import opened PrioQueue
  import opened TaskLists
  import opened Scheduler
  import opened SchedulerRuns
  import opened PerCoreScheduler

  /** The tasks in the ready list are ready. */
  lemma ReadyAreReady(c: Core)
    requires Inv(c)
    ensures forall h :: h in c.ready ==> h.id in c.status && c.status[h.id] == Status.Ready
  {
    forall h | h in c.ready
      ensures h.id in c.status && c.status[h.id] == Status.Ready
    {
      CountMember(c.ready, h);
      assert Placed(c.status, c.ready, c.blocked, h.id);
    }
  }

  /** One step; an exit that the model can take finds all its joiners. */
  method Take(p: PerCore, e: Step)
    requires p.Valid() && Inv(p.State()) && Enabled(p.State(), e)
    modifies p, p.ready
    ensures p.Valid() && p.ready == old(p.ready) && p.State() == Next(old(p.State()), e)
  {
    match e
    case Spawns(id, prio) => p.SpawnTask(id, prio);
    case Blocks(wakeup) => p.BlockCurrentTask(wakeup);
    case Wakes(id) =>
      WakeupFindsExactlyBlocked(p.State(), id);
      var found := p.CustomWakeup(id);
    case Joins(id) => p.JoinTask(id);
    case Exits => var found := p.ExitTask();
    case Ticks(now) =>
      DueKnown(p.State(), now);
      p.HandleWaitingTasks(now);
    case Reschedules =>
      ReadyAreReady(p.State());
      p.Reschedule();
  }

  /** Every run from boot. */
  method Run(idle: int, es: seq<Step>) returns (p: PerCore)
    requires CanRun(Boot(idle), es)
    ensures fresh(p) && p.Valid() && p.State() == After(Boot(idle), es)
  {
    p := new PerCore(idle);
    BootOk(idle);
    var k := 0;
    while k < |es|
      invariant k <= |es| && fresh(p.ready) && p.Valid() && Inv(p.State())
      invariant CanRun(p.State(), es[k..]) && After(p.State(), es[k..]) == After(Boot(idle), es)
    {
      assert es[k..][0] == es[k] && es[k..][1..] == es[k + 1..];
      NextKeeps(p.State(), es[k]);
      Take(p, es[k]);
      k := k + 1;
    }
  }
}
