/** Monitors with condition queues (kernel/monitor.c:102-256) on the dispatcher's queues. */
module Monitors {
  import opened Sequences
  import opened Wrappers
  import opened ThreadModel
  import opened Threads
  import opened MonitorModel
  import opened MonitorConditions

  class MonitorSystem {
    const scheduler: Scheduler
    var monitors: map<int, Monitor>
    ghost const idle: int

    ghost function Contents(): System
      reads this, scheduler
    {
      System(scheduler.Contents(), monitors)
    }

    ghost predicate Valid()
      reads this, scheduler, scheduler.readyMask
    {
      scheduler.Valid() && Good(Contents(), idle)
    }

    constructor (scheduler: Scheduler, monitors: map<int, Monitor>, ghost idle: int)
      requires scheduler.Valid() && Good(System(scheduler.Contents(), monitors), idle)
      ensures Valid() && this.scheduler == scheduler && this.idle == idle
      ensures Contents() == System(scheduler.Contents(), monitors)
    {
      this.scheduler, this.monitors, this.idle := scheduler, monitors, idle;
    }

    /** sys__monitor_lock. An owner that locks again is let into its own entrance queue (LockSafeIff). */
    method Lock(m: int)
      requires Valid() && m in monitors && Caller(Contents()) != idle
      modifies this`monitors, scheduler`threads, scheduler`queues, scheduler`active, scheduler.readyMask
      ensures scheduler.Valid() && Contents() == MonitorModel.Lock(old(Contents()), Caller(old(Contents())), m)
      ensures Valid() <==> Mon(old(Contents()), m).owner != Some(Caller(old(Contents())))
    {
      hide Placed, MonitorsOk, Dispatched, HasIdle, Shows, ThreadModel.Schedule, Runnable;
      ghost var s := Contents();
      GoodFacts(s, idle);
      LockSafeIff(s, m, idle);
      if !monitors[m].lock {
        monitors := monitors[m := Monitor(true, scheduler.active)];
      } else {
        EnqueueKeeps(scheduler.Contents(), EntranceQ(m));
        EnqueueRuns(scheduler.Contents(), EntranceQ(m), idle);
        scheduler.Enqueue(None, EntranceQ(m));
        scheduler.Schedule();
      }
    }

    /** The first at the entrance becomes the owner, or the monitor is freed; says whether there was one. */
    method PassOn(m: int) returns (released: bool)
      requires scheduler.Valid() && Placed(scheduler.Contents()) && m in monitors
      modifies this`monitors, scheduler`threads, scheduler`queues, scheduler.readyMask
      ensures scheduler.Valid() && Placed(scheduler.Contents())
      ensures Contents() == MonitorModel.PassOn(old(Contents()), m)
      ensures released == (Entrance(old(Contents()), m) != [])
    {
      hide Placed, Shows, Release;
      ReleaseNone(scheduler.Contents(), EntranceQ(m));
      var entrance := scheduler.Queued(EntranceQ(m));
      monitors := monitors[m := monitors[m].(owner := if entrance == [] then None else Some(entrance[0]))];
      released := scheduler.ReleaseOne(EntranceQ(m));
      if !released {
        monitors := monitors[m := monitors[m].(lock := false)];
      }
    }

    /** sys__monitor_unlock; false for E_NOT_OWNER */
    method Unlock(m: int) returns (ok: bool)
      requires Valid() && m in monitors
      modifies this`monitors, scheduler`threads, scheduler`queues, scheduler`active, scheduler.readyMask
      ensures Valid() && (Contents(), ok) == MonitorModel.Unlock(old(Contents()), Caller(old(Contents())), m)
      ensures ok <==> old(monitors)[m].owner == Some(Caller(old(Contents())))
      ensures !ok ==> Contents() == old(Contents())
    {
      hide Placed, MonitorsOk, MonitorsOkBut, Dispatched, HasIdle, Shows, ThreadModel.Schedule, Runnable,
        MonitorModel.PassOn;
      ghost var s := Contents();
      GoodFacts(s, idle);
      UnlockGood(s, m, idle);
      if monitors[m].owner != scheduler.active {
        return false;
      }
      OwnedIsLocked(s, m);
      PassOnGood(s, m, idle);
      var released := PassOn(m);
      if released {
        IdleRuns(scheduler.Contents(), idle);
        scheduler.Schedule();
      }
      return true;
    }

    /** sys__monitor_wait; false for E_NOT_OWNER */
    method Wait(m: int, c: int) returns (ok: bool)
      requires Valid() && m in monitors && Caller(Contents()) != idle
      modifies this`monitors, scheduler`threads, scheduler`queues, scheduler`active, scheduler.readyMask
      ensures Valid() && (Contents(), ok) == MonitorModel.Wait(old(Contents()), Caller(old(Contents())), m, c)
      ensures ok <==> old(monitors)[m].owner == Some(Caller(old(Contents())))
      ensures !ok ==> Contents() == old(Contents())
      ensures ok ==>
                var a := Caller(old(Contents()));
                && Waiters(Contents(), c) == Waiters(old(Contents()), c) + [a]
                && Th(Contents().kernel, a).qdata == m
    {
      hide Placed, MonitorsOk, MonitorsOkBut, Dispatched, HasIdle, Shows, ThreadModel.Schedule, Runnable,
        MonitorModel.PassOn;
      ghost var s := Contents();
      GoodFacts(s, idle);
      WaitGood(s, m, c, idle);
      WaitEffect(s, m, c, idle);
      if monitors[m].owner != scheduler.active {
        return false;
      }
      OwnedIsLocked(s, m);
      SuspendOk(s, m, c);
      SuspendedIdle(s, m, c, idle);
      scheduler.SetQData(m);
      scheduler.Enqueue(None, ConditionQ(c));
      PassOnGood(Contents(), m, idle);
      var _ := PassOn(m);
      IdleRuns(scheduler.Contents(), idle);
      scheduler.Schedule();
      return true;
    }

    /** The body of the loop of k_monitor_release. */
    method MoveFirst(c: int) returns (released: bool)
      requires scheduler.Valid() && Placed(scheduler.Contents()) && MonitorsOk(Contents())
               && Waiters(Contents(), c) != []
      modifies this`monitors, scheduler`threads, scheduler`queues, scheduler.readyMask
      ensures scheduler.Valid() && (Contents(), released) == MoveOne(old(Contents()), c)
    {
      hide Placed, MonitorsOk, Shows, Release, Without;
      WaiterFacts(Contents(), c);
      var t := scheduler.Queued(ConditionQ(c))[0];
      var m := scheduler.threads[t].qdata;
      if !monitors[m].lock {
        monitors := monitors[m := Monitor(true, Some(t))];
        var _ := scheduler.ReleaseOne(ConditionQ(c));
        released := true;
      } else {
        scheduler.Remove(ConditionQ(c), t);
        scheduler.Enqueue(Some(t), EntranceQ(m));
        released := false;
      }
    }

    /** k_monitor_release, for sys__monitor_signal and sys__monitor_broadcast */
    method ReleaseWaiters(c: int, broadcast: bool)
      requires Valid()
      modifies this`monitors, scheduler`threads, scheduler`queues, scheduler`active, scheduler.readyMask
      ensures Valid()
      ensures Contents() == if broadcast then Broadcast(old(Contents()), c) else Signal(old(Contents()), c)
    {
      hide Placed, MonitorsOk, Dispatched, HasIdle, Shows, ThreadModel.Schedule, Runnable, MoveOne, MoveAll;
      ghost var s := Contents();
      BroadcastGood(s, c, idle);
      SignalGood(s, c, idle);
      var reschedule := 0;
      var more := true;
      while more
        invariant scheduler.Valid() && Placed(scheduler.Contents()) && MonitorsOk(Contents())
        invariant HasIdle(scheduler.Contents(), idle)
        invariant broadcast ==>
          && more && MoveAll(Contents(), c).0 == MoveAll(s, c).0
          && (reschedule > 0 || MoveAll(Contents(), c).1) == MoveAll(s, c).1
        invariant !broadcast && more ==> Contents() == s && reschedule == 0
        invariant !broadcast && !more ==> Waiters(s, c) != [] && (Contents(), reschedule > 0) == MoveOne(s, c)
        decreases if more then 1 else 0, |Waiters(Contents(), c)|
      {
        MoveAllIs(Contents(), c);
        if scheduler.Queued(ConditionQ(c)) == [] {
          break;
        }
        MoveOneShrinks(Contents(), c);
        MoveOneOk(Contents(), c, idle);
        var released := MoveFirst(c);
        if released {
          reschedule := reschedule + 1;
        }
        more := broadcast;
      }
      if reschedule > 0 {
        IdleRuns(scheduler.Contents(), idle);
        scheduler.Schedule();
      }
    }
  }

  lemma GoodFacts(s: System, idle: int)
    requires Good(s, idle)
    ensures Placed(s.kernel) && MonitorsOk(s) && HasIdle(s.kernel, idle) && Running(s.kernel) && Dispatched(s.kernel)
    ensures s.kernel.active == Some(Caller(s)) && Caller(s) in s.kernel.threads
  {
  }

  lemma EnqueueRuns(k: Kernel, q: WaitQueue, idle: int)
    requires Placed(k) && Running(k) && HasIdle(k, idle) && k.active != Some(idle)
    ensures Runnable(Enqueue(k, k.active.value, q))
  {
    EnqueueKeeps(k, q);
    IdleRuns(Enqueue(k, k.active.value, q), idle);
  }
}
