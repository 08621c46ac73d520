/** What each call of the dispatcher does to the threads it is about (kernel/thread.c:200-296, 305-354, 891-931). */
module ThreadCalls {
  import opened Sequences
  import opened Wrappers
  import opened ThreadModel

  // ---------------------------------------------------------------- kthreads_schedule

  lemma SchedulePrio(k: Kernel, t: int)
    ensures Th(Schedule(k), t).prio == Th(k, t).prio && Th(Schedule(k), t).qdata == Th(k, t).qdata
  {
    hide Without, Top, Stays;
  }

  /** A level with the thread that would be preempted at its end. */
  function Candidates(k: Kernel, p: nat): seq<int> {
    Level(k, p) + if Running(k) && Th(k, k.active.value).prio == p then [k.active.value] else []
  }

  /** No ready thread has a higher priority than the running one. */
  ghost predicate Unrivalled(k: Kernel) {
    Running(k) && forall p: nat | Th(k, k.active.value).prio < p < LEVELS :: Level(k, p) == []
  }

  lemma StaysIff(k: Kernel)
    ensures Stays(k) <==> Unrivalled(k)
  {
    var p := Top(k, LEVELS);
    assert p >= 0 ==> Level(k, p) != [];
  }

  lemma PreemptedLevels(k: Kernel, p: nat)
    ensures Level(Preempted(k), p) == Candidates(k, p)
  {
  }

  lemma DispatchLevels(k: Kernel, p: nat)
    requires Top(k, LEVELS) >= 0
    ensures var top := Top(k, LEVELS);
            && Level(k, top) != [] && DispatchTop(k).active == Some(Level(k, top)[0])
            && Level(DispatchTop(k), p) == if p == top then Level(k, p)[1..] else Level(k, p)
  {
    var top := Top(k, LEVELS);
    HeadIndex(Level(k, top)[1..], Level(k, top)[0]);
    assert [Level(k, top)[0]] + Level(k, top)[1..] == Level(k, top);
    hide Top;
  }

  /** A running thread goes on exactly while no ready thread has a higher priority. Otherwise the first of the highest
      level runs, the thread that was running being the last of its own. */
  lemma ScheduleChooses(k: Kernel, top: nat)
    requires top < LEVELS && Candidates(k, top) != []
    requires forall p: nat | top < p < LEVELS :: Candidates(k, p) == []
    ensures Unrivalled(k) ==> Schedule(k) == k
    ensures !Unrivalled(k) ==>
              && Schedule(k).active == Some(Candidates(k, top)[0])
              && forall p: nat :: Level(Schedule(k), p) == if p == top then Candidates(k, p)[1..] else Candidates(k, p)
  {
    hide Stays, Unrivalled, Preempted, DispatchTop, Candidates, Level;
    StaysIff(k);
    if !Stays(k) {
      var k1 := Preempted(k);
      TopIs(k, top);
      forall p: nat ensures Level(Schedule(k), p) == if p == top then Candidates(k, p)[1..] else Candidates(k, p) {
        PreemptedLevels(k, p);
        DispatchLevels(k1, p);
      }
      PreemptedLevels(k, top);
      DispatchLevels(k1, top);
    }
  }

  lemma TopIs(k: Kernel, top: nat)
    requires top < LEVELS && Candidates(k, top) != []
    requires forall p: nat | top < p < LEVELS :: Candidates(k, p) == []
    ensures Top(Preempted(k), LEVELS) == top
  {
    hide Candidates, Preempted;
    PreemptedLevels(k, top);
    forall p: nat ensures Level(Preempted(k), p) == Candidates(k, p) {
      PreemptedLevels(k, p);
    }
    var found := Top(Preempted(k), LEVELS);
    assert found >= 0 ==> Level(Preempted(k), found) != [];
    assert Members(Preempted(k), ReadyQ(top)) != [];
  }

  // ---------------------------------------------------------------- kthread_set_prio

  /** The thread has the priority asked for, whatever its state was; no other thread's changes. */
  lemma SetPrioGives(k: Kernel, t: int, prio: nat, u: int)
    requires t in k.threads
    ensures Th(SetPrio(k, t, prio), u).prio == if u == t then prio else Th(k, u).prio
  {
    hide Schedule, Without;
    match k.threads[t].status {
      case Active => SchedulePrio(MoveToReady(WithPrio(k, t, prio), t, true), u);
      case Ready => SchedulePrio(MoveToReady(WithPrio(Take(k, ReadyQ(Th(k, t).prio), t), t, prio), t, true), u);
      case _ =>
    }
  }

  lemma PriosAre(k: Kernel, t: int, prio: nat)
    requires t in k.threads
    ensures forall u :: Th(SetPrio(k, t, prio), u).prio == if u == t then prio else Th(k, u).prio
  {
    hide SetPrio, Th;
    forall u ensures Th(SetPrio(k, t, prio), u).prio == if u == t then prio else Th(k, u).prio {
      SetPrioGives(k, t, prio, u);
    }
  }

  /** The thread at the end of its new level, before dispatching. */
  function Requeued(k: Kernel, t: int, prio: nat): Kernel {
    MoveToReady(WithPrio(if Th(k, t).status.Ready? then Take(k, ReadyQ(Th(k, t).prio), t) else k, t, prio), t, true)
  }

  lemma RequeuedParts(k: Kernel, t: int, prio: nat, idle: int)
    requires Safe(k, idle) && t in k.threads && prio < LEVELS
    requires k.threads[t].status.Active? || k.threads[t].status.Ready?
    ensures var k2 := Requeued(k, t, prio);
            && Placed(k2) && HasIdle(k2, idle) && SetPrio(k, t, prio) == Schedule(k2)
            && Level(k2, prio) == Without(Level(k, prio), t) + [t] && k2.active == k.active
            && (k.threads[t].status.Active? ==> !Running(k2))
            && (k.threads[t].status.Ready? ==> Running(k2) && k2.active != Some(t)
                                               && Th(k2, k2.active.value).prio == Th(k, k.active.value).prio)
            && forall p: nat | p != prio :: Level(k2, p) == Without(Level(k, p), t)
  {
    var th := k.threads[t];
    forall p: nat ensures t in Level(k, p) <==> th.status.Ready? && p == th.prio {
      InLevelIff(k, t, p);
    }
    if th.status.Active? {
      OutOfQueues(k, t);
    } else {
      TakeKeeps(k, ReadyQ(th.prio), t);
    }
    var k1 := if th.status.Ready? then Take(k, ReadyQ(th.prio), t) else k;
    RequeueKeeps(k1, t, prio);
    hide Placed, PlacedBut, Without, Schedule;
    WithoutOther(k, t);
  }

  lemma InLevelIff(k: Kernel, t: int, p: nat)
    requires Placed(k) && t in k.threads
    ensures t in Level(k, p) <==> k.threads[t].status.Ready? && p == k.threads[t].prio
  {
    ThreadFacts(k, t);
    assert t in Members(k, ReadyQ(p)) <==> Belongs(Th(k, t), ReadyQ(p));
  }

  lemma WithoutOther(k: Kernel, t: int)
    ensures forall p: nat | t !in Level(k, p) :: Without(Level(k, p), t) == Level(k, p)
  {
  }

  lemma TopCandidates(k: Kernel, idle: int) returns (top: nat)
    requires Placed(k) && HasIdle(k, idle)
    ensures top < LEVELS && Candidates(k, top) != []
    ensures forall p: nat | top < p < LEVELS :: Candidates(k, p) == []
  {
    hide Placed, Candidates, Preempted, Running;
    IdleRuns(k, idle);
    PreemptedKeeps(k);
    PreemptedIdle(k, idle);
    IdleRuns(Preempted(k), idle);
    var found := Top(Preempted(k), LEVELS);
    top := found;
    PreemptedLevels(k, top);
    forall p: nat | top < p < LEVELS ensures Candidates(k, p) == [] {
      PreemptedLevels(k, p);
    }
  }

  lemma PreemptedIdle(k: Kernel, idle: int)
    requires HasIdle(k, idle)
    ensures HasIdle(Preempted(k), idle)
  {
  }

  /** Only the thread that was raised can outrank the running one. */
  lemma AloneAbove(k: Kernel, t: int, prio: nat, idle: int)
    requires Safe(k, idle) && t in k.threads && prio < LEVELS && k.threads[t].status.Ready?
    requires !Unrivalled(Requeued(k, t, prio))
    ensures var k2 := Requeued(k, t, prio);
            && Candidates(k2, prio) == [t] && forall p: nat | prio < p < LEVELS :: Candidates(k2, p) == []
  {
    hide Requeued, SetPrio, Schedule;
    RequeuedParts(k, t, prio, idle);
    var k2, a := Requeued(k, t, prio), k.active.value;
    forall p: nat | Th(k, a).prio < p < LEVELS ensures Level(k, p) == [] {
      NoneAbove(k, p);
    }
    WithoutNothing(t);
    hide Placed, Dispatched, HasIdle, Without, Level, Running;
  }

  lemma WithoutNothing(t: int)
    ensures Without([], t) == []
  {
  }

  lemma NoneAbove(k: Kernel, p: nat)
    requires Placed(k) && Dispatched(k) && Th(k, k.active.value).prio < p
    ensures Level(k, p) == []
  {
    if Level(k, p) != [] {
      InLevelIsReady(k, p, 0);
    }
  }

  /** A thread that could run and is not running afterwards is ready, and the last of its new level. */
  lemma SetPrioPlace(k: Kernel, t: int, prio: nat, idle: int)
    requires Safe(k, idle) && t in k.threads && prio < LEVELS
    requires k.threads[t].status.Active? || k.threads[t].status.Ready?
    ensures var k' := SetPrio(k, t, prio);
            var level := Level(k', prio);
            k'.active != Some(t) ==> Th(k', t).status.Ready? && level != [] && level[|level| - 1] == t
  {
    hide *;
    RequeuedParts(k, t, prio, idle);
    var k2 := Requeued(k, t, prio);
    var top := TopCandidates(k2, idle);
    ScheduleChooses(k2, top);
    CandidatesOf(k2, prio);
    ActiveOrReady(k);
    if !Unrivalled(k2) && !Th(k, t).status.Active? {
      AloneAbove(k, t, prio, idle);
      assert Candidates(k2, prio)[0] == t;
    }
    SetPrioSafe(k, t, prio, idle);
    LastIsReady(SetPrio(k, t, prio), t, prio, idle);
  }

  lemma CandidatesOf(k: Kernel, p: nat)
    ensures !Running(k) ==> Candidates(k, p) == Level(k, p)
  {
  }

  lemma ActiveOrReady(k: Kernel)
    ensures forall t | t in k.threads :: Th(k, t) == k.threads[t]
  {
  }

  lemma LastIsReady(k: Kernel, t: int, prio: nat, idle: int)
    requires Safe(k, idle)
    ensures Level(k, prio) != [] && Level(k, prio)[|Level(k, prio)| - 1] == t ==> Th(k, t).status.Ready?
  {
    if Level(k, prio) != [] {
      InLevelIsReady(k, prio, |Level(k, prio)| - 1);
    }
  }

  // ---------------------------------------------------------------- kthread_create, kthread_enqueue

  /** A new thread has the priority asked for, or the nearest there is, and is the last of its level. */
  lemma CreateGives(k: Kernel, t: int, asked: int)
    ensures var k' := Create(k, t, asked);
            var prio, level := Th(k', t).prio, Level(k', Th(k', t).prio);
            && prio < LEVELS
            && (0 <= asked < LEVELS ==> prio == asked)
            && (asked < 0 ==> prio == 0) && (asked >= LEVELS ==> prio == LEVELS - 1)
            && Th(k', t).status.Ready? && level == Level(k, prio) + [t]
            && forall u | u != t :: Th(k', u) == Th(k, u)
  {
  }

  /** A thread that blocks waits at the end of the queue it was told to, and nobody else comes there or goes. */
  lemma BlockJoins(k: Kernel, q: WaitQueue)
    requires Placed(k) && Running(k)
    ensures var a, k' := k.active.value, Step(k, Block(q));
            && Members(k', q) == Members(k, q) + [a]
            && Th(k', a).status.Waiting? && Th(k', a).queue == Some(q)
            && forall r: Queue | !r.ReadyQ? && r != q :: Members(k', r) == Members(k, r)
  {
    var k1 := Enqueue(k, k.active.value, q);
    EnqueueKeeps(k, q);
    WaitersStay(k1, k.active.value);
    hide Placed, Schedule;
  }

  /** kthreads_schedule moves no thread that waits. */
  lemma WaitersStay(k: Kernel, t: int)
    requires Placed(k) && Th(k, t).status.Waiting?
    ensures Th(Schedule(k), t) == Th(k, t)
    ensures forall q: Queue | !q.ReadyQ? :: Members(Schedule(k), q) == Members(k, q)
  {
    if !Stays(k) {
      PreemptedKeeps(k);
      var k1 := Preempted(k);
      if Top(k1, LEVELS) >= 0 {
        InLevelIsReady(k1, Top(k1, LEVELS), 0);
      }
      hide Placed, Without, Top;
    }
  }
}
