/** The choice and hand-over of EDF threads (kernel/sched_edf.c:250-338) on the dispatcher's queues. */
module Edf {
  import opened Sequences
  import opened Time
  import opened Wrappers
  import opened ThreadModel
  import opened Threads
  import EdfModel

  class EdfScheduler {
    const scheduler: Scheduler
    var active: Option<int>
    var deadlines: EdfModel.Deadlines
    var activated: set<int>

    ghost function Contents(): EdfModel.Edf
      reads this, scheduler
    {
      EdfModel.Edf(scheduler.Contents(), active, deadlines, activated)
    }

    ghost predicate Valid()
      reads this, scheduler, scheduler.readyMask
    {
      scheduler.Valid() && EdfModel.Valid(Contents())
    }

    constructor (scheduler: Scheduler)
      requires scheduler.Valid() && Placed(scheduler.Contents())
      ensures Valid() && this.scheduler == scheduler
      ensures Contents() == EdfModel.Edf(scheduler.Contents(), None, map[], {})
    {
      this.scheduler, active, deadlines, activated := scheduler, None, map[], {};
    }

    /** The loop of k_edf_schedule. */
    method Choose() returns (first: int)
      requires Contents().Ready() != []
      ensures first == EdfModel.Choice(Contents())
    {
      var ready := scheduler.Queued(EdfReadyQ);
      var next := 0;
      if active.Some? {
        first := active.value;
      } else {
        first, next := ready[0], 1;
      }
      while next < |ready|
        invariant next <= |ready|
        invariant EdfModel.Earliest(deadlines, first, ready[next..]) == EdfModel.Choice(Contents())
      {
        assert ready[next..][1..] == ready[next + 1..];
        if Cmp(EdfModel.Deadline(deadlines, first), EdfModel.Deadline(deadlines, ready[next])) > 0 {
          first := ready[next];
        }
        next := next + 1;
      }
    }

    /** k_edf_schedule; when it returns true the caller goes on to kthreads_schedule. */
    method Schedule() returns (changed: bool)
      requires Valid()
      modifies this`active, this`activated, scheduler`threads, scheduler`queues, scheduler.readyMask
      ensures Valid() && (Contents(), changed) == EdfModel.Reschedule(old(Contents()))
      ensures changed ==> Runnable(scheduler.Contents())
    {
      hide *;
      ghost var e := Contents();
      ContentsAre();
      EdfModel.RescheduleIs(e);
      var ready := scheduler.Queued(EdfReadyQ);
      if ready == [] {
        return false;
      }
      var first := Choose();
      if active == Some(first) {
        return false;
      }
      EdfModel.HandOver(e);
      EdfModel.ChangedRuns(e);
      EdfModel.VacatedKeeps(e);
      EdfModel.VacatedIs(e);
      scheduler.Remove(EdfReadyQ, first);
      if active.Some? {
        PreemptActive(e, first);
      } else {
        assert activated == e.activated - EdfModel.Deactivated(e);
      }
      active := Some(first);
      ContentsAre();
      SameThreads(scheduler.Contents(), EdfModel.Vacated(e), first);
      scheduler.MoveToReady(first, true);
      ContentsAre();
      return true;
    }

    lemma ContentsAre()
      ensures Contents() == EdfModel.Edf(scheduler.Contents(), active, deadlines, activated)
      ensures Contents().Ready() == scheduler.Queued(EdfReadyQ)
      ensures scheduler.Contents() == Kernel(scheduler.threads, scheduler.queues, scheduler.active)
      ensures scheduler.Valid() && EdfModel.Valid(Contents()) <==> Valid()
    {
      hide EdfModel.Valid, Shows;
    }

    /** The EDF thread that was let run goes back to the EDF queue, if it can run. */
    method PreemptActive(ghost e: EdfModel.Edf, ghost c: int)
      requires active.Some? && e.active == active && EdfModel.Valid(e)
      requires scheduler.Valid() && scheduler.Contents() == Take(e.kernel, EdfReadyQ, c)
      modifies this`activated, scheduler`threads, scheduler`queues, scheduler.readyMask
      ensures scheduler.Valid() && scheduler.Contents() == EdfModel.Preempt(old(scheduler.Contents()), active.value)
      ensures activated == old(activated) - EdfModel.Deactivated(e)
    {
      hide Without, Shows;
      var a := active.value;
      ActiveFacts(e);
      if scheduler.threads[a].status.Active? || scheduler.threads[a].status.Ready? {
        if !scheduler.threads[a].status.Active? {
          ghost var th := scheduler.threads[a];
          assert scheduler.threads == scheduler.threads[a := th.(queue := Some(ReadyQ(th.prio)))];
          var _ := scheduler.RemoveFromReady(a);
        } else {
          activated := activated - {a};
        }
        scheduler.Enqueue(Some(a), EdfReadyQ);
      }
    }
  }

  lemma ActiveFacts(e: EdfModel.Edf)
    requires EdfModel.Valid(e) && e.active.Some?
    ensures var a := e.active.value;
            && a in e.kernel.threads && e.kernel.threads[a].prio < LEVELS
            && (e.kernel.threads[a].status.Ready? ==>
                  e.kernel.threads[a].queue == Some(ReadyQ(e.kernel.threads[a].prio)))
  {
    ThreadFacts(e.kernel, e.active.value);
  }

  lemma SameThreads(k: Kernel, k': Kernel, t: int)
    requires k == k' && t in k'.threads
    ensures t in k.threads && Th(k', t) == k.threads[t]
  {
  }
}
