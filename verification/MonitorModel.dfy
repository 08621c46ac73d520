/** Monitors with condition queues (kernel/monitor.c:102-256), on values. */
module MonitorModel {
  import opened Sequences
  import opened Wrappers
  import opened ThreadModel

  datatype Monitor = Monitor(lock: bool, owner: Option<int>)

  datatype System = System(kernel: Kernel, monitors: map<int, Monitor>)

  function Mon(s: System, m: int): Monitor {
    if m in s.monitors then s.monitors[m] else Monitor(false, None)
  }

  function Entrance(s: System, m: int): seq<int> {
    Members(s.kernel, EntranceQ(m))
  }

  function Waiters(s: System, c: int): seq<int> {
    Members(s.kernel, ConditionQ(c))
  }

  // ---------------------------------------------------------------- calls

  function Rescheduled(s: System): System {
    s.(kernel := Schedule(s.kernel))
  }

  /** sys__monitor_lock by thread a, the active one. */
  function Lock(s: System, a: int, m: int): System {
    if !Mon(s, m).lock then s.(monitors := s.monitors[m := Monitor(true, Some(a))])
    else Rescheduled(s.(kernel := Enqueue(s.kernel, a, EntranceQ(m))))
  }

  /** The first thread at the entrance becomes the owner; without one the monitor is free. */
  function PassOn(s: System, m: int): System {
    if Entrance(s, m) == [] then s.(monitors := s.monitors[m := Monitor(false, None)])
    else System(Release(s.kernel, EntranceQ(m)), s.monitors[m := Mon(s, m).(owner := Some(Entrance(s, m)[0]))])
  }

  /** sys__monitor_unlock; false for E_NOT_OWNER. */
  function Unlock(s: System, a: int, m: int): (System, bool) {
    if Mon(s, m).owner != Some(a) then (s, false)
    else (if Entrance(s, m) == [] then PassOn(s, m) else Rescheduled(PassOn(s, m)), true)
  }

  /** The owner a joins the condition queue, noting the monitor it waits for. */
  function Suspended(s: System, a: int, m: int, c: int): System {
    s.(kernel := Enqueue(WithThread(s.kernel, a, Th(s.kernel, a).(qdata := m)), a, ConditionQ(c)))
  }

  /** sys__monitor_wait; false for E_NOT_OWNER. */
  function Wait(s: System, a: int, m: int, c: int): (System, bool) {
    if Mon(s, m).owner != Some(a) then (s, false)
    else (Rescheduled(PassOn(Suspended(s, a, m, c), m)), true)
  }

  /** The first waiter becomes the owner of its monitor if that is free, and else goes to its entrance queue; true in
      the first case. */
  function MoveOne(s: System, c: int): (System, bool)
    requires Waiters(s, c) != []
  {
    var t := Waiters(s, c)[0];
    var m := Th(s.kernel, t).qdata;
    if !Mon(s, m).lock then
      (System(Release(s.kernel, ConditionQ(c)), s.monitors[m := Monitor(true, Some(t))]), true)
    else
      (s.(kernel := Enqueue(Take(s.kernel, ConditionQ(c), t), t, EntranceQ(m))), false)
  }

  lemma MoveOneShrinks(s: System, c: int)
    requires Waiters(s, c) != []
    ensures Waiters(MoveOne(s, c).0, c) == Waiters(s, c)[1..]
  {
    HeadIndex(Waiters(s, c)[1..], Waiters(s, c)[0]);
    assert [Waiters(s, c)[0]] + Waiters(s, c)[1..] == Waiters(s, c);
  }

  function MoveAll(s: System, c: int): (System, bool)
    decreases |Waiters(s, c)|
  {
    if Waiters(s, c) == [] then (s, false)
    else
      MoveOneShrinks(s, c);
      var (s', released) := MoveOne(s, c);
      var (s'', more) := MoveAll(s', c);
      (s'', released || more)
  }

  /** sys__monitor_signal */
  function Signal(s: System, c: int): System {
    if Waiters(s, c) == [] then s
    else if MoveOne(s, c).1 then Rescheduled(MoveOne(s, c).0)
    else MoveOne(s, c).0
  }

  /** sys__monitor_broadcast */
  function Broadcast(s: System, c: int): System {
    if MoveAll(s, c).1 then Rescheduled(MoveAll(s, c).0) else MoveAll(s, c).0
  }

  // ---------------------------------------------------------------- the invariant

  /** The thread is blocked on the monitor, at its entrance or on a condition. */
  predicate WaitsFor(th: Thread, m: int) {
    && th.status.Waiting? && th.queue.Some?
    && (th.queue.value == EntranceQ(m) || (th.queue.value.ConditionQ? && th.qdata == m))
  }

  /** A locked monitor has an owner, who does not wait for it; a free one has none, and nobody at its entrance. */
  ghost predicate MonitorOk(s: System, m: int) {
    var mon := Mon(s, m);
    && (mon.lock <==> mon.owner.Some?)
    && (!mon.lock ==> Entrance(s, m) == [])
    && (mon.owner.Some? ==> mon.owner.value in s.kernel.threads && !WaitsFor(Th(s.kernel, mon.owner.value), m))
  }

  /** A thread on a condition has noted the monitor it waits for. */
  predicate Noted(s: System, t: int) {
    var th := Th(s.kernel, t);
    th.status.Waiting? && th.queue.Some? && th.queue.value.ConditionQ? ==> th.qdata in s.monitors
  }

  ghost predicate MonitorsOk(s: System) {
    && (forall m | m in s.monitors :: MonitorOk(s, m))
    && (forall t | t in s.kernel.threads :: Noted(s, t))
  }

  /** The same for all monitors but one. */
  ghost predicate MonitorsOkBut(s: System, n: int) {
    && (forall m | m in s.monitors && m != n :: MonitorOk(s, m))
    && (forall t | t in s.kernel.threads :: Noted(s, t))
  }

  ghost predicate Good(s: System, idle: int) {
    Safe(s.kernel, idle) && MonitorsOk(s)
  }

  /** No thread waits in k' that did not wait in the same place in k, and no entrance queue has filled. */
  ghost predicate Calmer(k: Kernel, k': Kernel) {
    && (forall t | t in k.threads :: t in k'.threads)
    && (forall t | t in k'.threads && k'.threads[t].status.Waiting? ::
          && t in k.threads && k.threads[t].status.Waiting?
          && k'.threads[t].queue == k.threads[t].queue && k'.threads[t].qdata == k.threads[t].qdata)
    && (forall m :: Members(k, EntranceQ(m)) == [] ==> Members(k', EntranceQ(m)) == [])
  }

  lemma CalmerKeeps(s: System, k: Kernel, m: int)
    requires MonitorOk(s, m) && Calmer(s.kernel, k)
    ensures MonitorOk(s.(kernel := k), m)
  {
  }

  lemma CalmerNoted(s: System, k: Kernel)
    requires Calmer(s.kernel, k) && forall t | t in s.kernel.threads :: Noted(s, t)
    ensures forall t | t in k.threads :: Noted(s.(kernel := k), t)
  {
    forall t | t in k.threads ensures Noted(s.(kernel := k), t) {
      if k.threads[t].status.Waiting? {
        assert Noted(s, t);
      }
    }
  }

  lemma CalmerOk(s: System, k: Kernel)
    requires MonitorsOk(s) && Calmer(s.kernel, k)
    ensures MonitorsOk(s.(kernel := k))
  {
    hide MonitorOk, Noted, Calmer;
    CalmerNoted(s, k);
    forall m | m in s.monitors ensures MonitorOk(s.(kernel := k), m) {
      CalmerKeeps(s, k, m);
    }
  }

  lemma ScheduleCalm(k: Kernel)
    requires Placed(k)
    ensures Calmer(k, Schedule(k))
    ensures forall q: Queue | !q.ReadyQ? :: Members(Schedule(k), q) == Members(k, q)
  {
    if !Stays(k) {
      PreemptedKeeps(k);
      hide Placed, Without;
      DispatchCalm(Preempted(k));
    }
  }

  lemma DispatchCalm(k: Kernel)
    ensures Calmer(k, DispatchTop(k))
    ensures forall q: Queue | !q.ReadyQ? :: Members(DispatchTop(k), q) == Members(k, q)
  {
    hide Without;
  }

  lemma ReleaseCalm(k: Kernel, q: WaitQueue)
    ensures Calmer(k, Release(k, q))
    ensures forall r: Queue | !r.ReadyQ? && r != q :: Members(Release(k, q), r) == Members(k, r)
  {
    if Members(k, q) != [] {
      ReleaseShrinks(k, q);
    }
    hide Without;
  }

  /** A thread's new record and a longer queue do not disturb a monitor it does not own, nor one it does not then
      wait for. */
  lemma PutOk(s: System, t: int, th: Thread, q: Queue, list: seq<int>, m: int)
    requires MonitorOk(s, m) && t in s.kernel.threads
    requires Mon(s, m).owner == Some(t) ==> !WaitsFor(th, m)
    requires q == EntranceQ(m) ==> Mon(s, m).lock
    ensures MonitorOk(s.(kernel := s.kernel.(threads := s.kernel.threads[t := th],
                                             queues := s.kernel.queues[q := list])), m)
  {
  }

  lemma PutNoted(s: System, k: Kernel, t: int)
    requires forall u | u in s.kernel.threads :: Noted(s, u)
    requires k.threads.Keys == s.kernel.threads.Keys
    requires forall u | u in k.threads && u != t :: k.threads[u] == s.kernel.threads[u]
    requires Noted(s.(kernel := k), t)
    ensures forall u | u in k.threads :: Noted(s.(kernel := k), u)
  {
    forall u | u in k.threads ensures Noted(s.(kernel := k), u) {
      assert Noted(s, u);
    }
  }

  /** A running thread takes a free monitor. */
  lemma LockFree(s: System, m: int)
    requires MonitorsOk(s) && Running(s.kernel) && m in s.monitors && !Mon(s, m).lock
    ensures MonitorsOk(s.(monitors := s.monitors[m := Monitor(true, s.kernel.active)]))
  {
    var s' := s.(monitors := s.monitors[m := Monitor(true, s.kernel.active)]);
    forall n | n in s'.monitors ensures MonitorOk(s', n) {
      assert n != m ==> MonitorOk(s, n);
    }
    forall t | t in s'.kernel.threads ensures Noted(s', t) {
      assert Noted(s, t);
    }
  }

  /** A running thread that is not the owner queues at the entrance of a locked monitor. */
  lemma QueueAtEntrance(s: System, m: int)
    requires MonitorsOk(s) && Running(s.kernel) && m in s.monitors && Mon(s, m).lock
    requires Mon(s, m).owner != s.kernel.active
    ensures MonitorsOk(s.(kernel := Enqueue(s.kernel, s.kernel.active.value, EntranceQ(m))))
  {
    var a := s.kernel.active.value;
    var k := Enqueue(s.kernel, a, EntranceQ(m));
    var s' := s.(kernel := k);
    forall n | n in s'.monitors ensures MonitorOk(s', n) {
      assert MonitorOk(s, n);
      hide MonitorOk;
      PutOk(s, a, Th(k, a), EntranceQ(m), Entrance(s, m) + [a], n);
    }
    hide MonitorOk;
    PutNoted(s, k, a);
  }

  /** The monitor passes to the first at its entrance, or becomes free. */
  lemma PassOnOk(s: System, m: int)
    requires Placed(s.kernel) && MonitorsOkBut(s, m) && m in s.monitors && Mon(s, m).lock
    ensures MonitorsOk(PassOn(s, m)) && Placed(PassOn(s, m).kernel)
  {
    var s' := PassOn(s, m);
    ReleaseKeeps(s.kernel, EntranceQ(m));
    ReleaseCalm(s.kernel, EntranceQ(m));
    if Entrance(s, m) != [] {
      NewOwnerReady(s, m);
    }
    hide Placed, Calmer, Release, Noted;
    forall n | n in s'.monitors ensures MonitorOk(s', n) {
      if n != m {
        assert MonitorOk(s, n);
        CalmerKeeps(s, Release(s.kernel, EntranceQ(m)), n);
        assert Entrance(s, m) == [] ==> Release(s.kernel, EntranceQ(m)) == s.kernel by {
          ReleaseNone(s.kernel, EntranceQ(m));
        }
        OtherMonitor(s, s', n);
      }
    }
    CalmerNoted(s, Release(s.kernel, EntranceQ(m)));
    ReleaseNone(s.kernel, EntranceQ(m));
    forall t | t in s'.kernel.threads ensures Noted(s', t) {
      assert Noted(s.(kernel := Release(s.kernel, EntranceQ(m))), t);
      SameNoted(s.(kernel := Release(s.kernel, EntranceQ(m))), s', t);
    }
  }

  lemma ReleaseNone(k: Kernel, q: Queue)
    ensures Members(k, q) == [] ==> Release(k, q) == k
  {
  }

  lemma SameNoted(s: System, s': System, t: int)
    requires Noted(s, t) && s'.kernel == s.kernel && s.monitors.Keys <= s'.monitors.Keys
    ensures Noted(s', t)
  {
  }

  lemma OtherMonitor(s: System, s': System, n: int)
    requires MonitorOk(s.(kernel := s'.kernel), n) && Mon(s', n) == Mon(s, n)
    ensures MonitorOk(s', n)
  {
  }

  lemma NewOwnerReady(s: System, m: int)
    requires Placed(s.kernel) && Entrance(s, m) != []
    ensures var t := Entrance(s, m)[0];
            t in PassOn(s, m).kernel.threads && Th(PassOn(s, m).kernel, t).status.Ready?
  {
  }

  /** The owner goes to wait on a condition: all is well but for the monitor it still owns. */
  lemma SuspendOk(s: System, m: int, c: int)
    requires Placed(s.kernel) && MonitorsOk(s) && Running(s.kernel) && m in s.monitors
    ensures var s' := Suspended(s, s.kernel.active.value, m, c);
            Placed(s'.kernel) && MonitorsOkBut(s', m)
  {
    var k, a := s.kernel, s.kernel.active.value;
    var th := Th(k, a).(qdata := m);
    var s' := Suspended(s, a, m, c);
    OutOfQueues(k, a);
    ThreadBut(k, a, th);
    ThreadFacts(k, a);
    PutKeeps(WithThread(k, a, th), a, Waiting, ConditionQ(c), true);
    hide Placed, PlacedBut;
    forall n | n in s'.monitors && n != m ensures MonitorOk(s', n) {
      assert MonitorOk(s, n);
      hide MonitorOk;
      PutOk(s, a, Th(s'.kernel, a), ConditionQ(c), Waiters(s, c) + [a], n);
      assert s'.kernel == k.(threads := k.threads[a := Th(s'.kernel, a)],
                             queues := k.queues[ConditionQ(c) := Waiters(s, c) + [a]]);
    }
    hide MonitorOk;
    PutNoted(s, s'.kernel, a);
  }

  lemma WaiterFacts(s: System, c: int)
    requires Placed(s.kernel) && MonitorsOk(s) && Waiters(s, c) != []
    ensures var t := Waiters(s, c)[0];
            var th := Th(s.kernel, t);
            && t in s.kernel.threads && t in Waiters(s, c) && th.status.Waiting? && th.queue == Some(ConditionQ(c))
            && th.prio < LEVELS && th.qdata in s.monitors && WaitsFor(th, th.qdata)
  {
    var t := Waiters(s, c)[0];
    assert t in Members(s.kernel, ConditionQ(c)) && Belongs(Th(s.kernel, t), ConditionQ(c));
    assert Noted(s, t);
  }

  /** A waiter whose monitor is free becomes its owner. */
  lemma MoveToOwner(s: System, c: int)
    requires Placed(s.kernel) && MonitorsOk(s) && Waiters(s, c) != [] && MoveOne(s, c).1
    ensures MonitorsOk(MoveOne(s, c).0) && Placed(MoveOne(s, c).0.kernel)
  {
    var s', t := MoveOne(s, c).0, Waiters(s, c)[0];
    var m, k := Th(s.kernel, t).qdata, Release(s.kernel, ConditionQ(c));
    WaiterFacts(s, c);
    ReleaseKeeps(s.kernel, ConditionQ(c));
    ReleaseCalm(s.kernel, ConditionQ(c));
    hide Placed, Calmer, Noted;
    forall n | n in s'.monitors ensures MonitorOk(s', n) {
      if n != m {
        assert MonitorOk(s, n);
        CalmerKeeps(s, k, n);
        OtherMonitor(s, s', n);
      }
    }
    CalmerNoted(s, k);
    forall u | u in s'.kernel.threads ensures Noted(s', u) {
      assert Noted(s.(kernel := k), u);
      SameNoted(s.(kernel := k), s', u);
    }
  }

  /** A waiter whose monitor is taken goes to the end of its entrance queue. */
  lemma MoveToEntrance(s: System, c: int)
    requires Placed(s.kernel) && MonitorsOk(s) && Waiters(s, c) != [] && !MoveOne(s, c).1
    ensures MonitorsOk(MoveOne(s, c).0) && Placed(MoveOne(s, c).0.kernel)
    ensures Dispatched(s.kernel) ==> Dispatched(MoveOne(s, c).0.kernel)
  {
    var s', t := MoveOne(s, c).0, Waiters(s, c)[0];
    var m := Th(s.kernel, t).qdata;
    WaiterFacts(s, c);
    TakeKeeps(s.kernel, ConditionQ(c), t);
    var k := Take(s.kernel, ConditionQ(c), t);
    hide Placed, PlacedBut, Without;
    PutKeeps(k, t, Waiting, EntranceQ(m), true);
    forall n | n in s'.monitors ensures MonitorOk(s', n) {
      assert MonitorOk(s, n) && MonitorOk(s, m);
      hide MonitorOk;
      OwnerDoesNotWait(s, m, t);
      CalmTake(s, t, c, n);
      PutOk(s.(kernel := k), t, Th(s'.kernel, t), EntranceQ(m), Members(k, EntranceQ(m)) + [t], n);
    }
    hide MonitorOk;
    PutNoted(s, s'.kernel, t);
  }

  lemma OwnerDoesNotWait(s: System, m: int, t: int)
    requires MonitorOk(s, m) && WaitsFor(Th(s.kernel, t), m)
    ensures Mon(s, m).owner != Some(t)
  {
  }

  lemma CalmTake(s: System, t: int, c: int, n: int)
    requires MonitorOk(s, n)
    ensures MonitorOk(s.(kernel := Take(s.kernel, ConditionQ(c), t)), n)
  {
    hide Without;
  }

  /** Broadcasting ends with the condition queue empty. */
  lemma {:induction false} MoveAllOk(s: System, c: int, idle: int)
    requires Placed(s.kernel) && MonitorsOk(s) && HasIdle(s.kernel, idle)
    ensures var s' := MoveAll(s, c).0;
            && Placed(s'.kernel) && MonitorsOk(s') && HasIdle(s'.kernel, idle) && Waiters(s', c) == []
            && s'.monitors.Keys == s.monitors.Keys
            && (!MoveAll(s, c).1 && Dispatched(s.kernel) ==> Dispatched(s'.kernel))
    decreases |Waiters(s, c)|
  {
    hide Placed, MonitorsOk, MoveAll, MoveOne, Dispatched, HasIdle, Waiters;
    MoveAllIs(s, c);
    if Waiters(s, c) != [] {
      var s1 := MoveOne(s, c).0;
      MoveOneOk(s, c, idle);
      MoveOneShrinks(s, c);
      MoveAllOk(s1, c, idle);
    }
  }

  lemma MoveAllIs(s: System, c: int)
    ensures Waiters(s, c) == [] ==> MoveAll(s, c) == (s, false)
    ensures Waiters(s, c) != [] ==>
              && MoveAll(s, c).0 == MoveAll(MoveOne(s, c).0, c).0
              && MoveAll(s, c).1 == (MoveOne(s, c).1 || MoveAll(MoveOne(s, c).0, c).1)
  {
    hide Waiters, MoveOne;
  }

  lemma MoveOneOk(s: System, c: int, idle: int)
    requires Placed(s.kernel) && MonitorsOk(s) && HasIdle(s.kernel, idle) && Waiters(s, c) != []
    ensures var (s', released) := MoveOne(s, c);
            && Placed(s'.kernel) && MonitorsOk(s') && HasIdle(s'.kernel, idle)
            && s'.monitors.Keys == s.monitors.Keys
            && (!released && Dispatched(s.kernel) ==> Dispatched(s'.kernel))
  {
    WaiterFacts(s, c);
    if MoveOne(s, c).1 {
      MoveToOwner(s, c);
    } else {
      MoveToEntrance(s, c);
    }
    hide Placed, MonitorsOk, Dispatched, Without;
  }

  // ---------------------------------------------------------------- runs

  datatype Call =
    | DoLock(m: int) | DoUnlock(m: int) | DoWait(m: int, c: int) | DoSignal(c: int) | DoBroadcast(c: int)
    | Other(op: Op)

  /** The calling thread. */
  function Caller(s: System): int {
    if s.kernel.active.Some? then s.kernel.active.value else 0
  }

  function After(s: System, call: Call): System {
    match call
    case DoLock(m) => Lock(s, Caller(s), m)
    case DoUnlock(m) => Unlock(s, Caller(s), m).0
    case DoWait(m, c) => Wait(s, Caller(s), m, c).0
    case DoSignal(c) => Signal(s, c)
    case DoBroadcast(c) => Broadcast(s, c)
    case Other(op) => s.(kernel := Step(s.kernel, op))
  }

  /** Other calls block and wake threads on other queues. */
  predicate Elsewhere(op: Op) {
    match op
    case Block(q) => q.WaitQ?
    case Wake(q) => q.WaitQ?
    case WakeAll(q) => q.WaitQ?
    case _ => true
  }

  /** The monitor exists, its owner does not lock it again, the idle thread does not block. */
  predicate Permitted(s: System, call: Call, idle: int) {
    match call
    case DoLock(m) => m in s.monitors && Caller(s) != idle && Mon(s, m).owner != Some(Caller(s))
    case DoUnlock(m) => m in s.monitors
    case DoWait(m, _) => m in s.monitors && Caller(s) != idle
    case Other(op) => Allowed(s.kernel, op, idle) && Elsewhere(op)
    case _ => true
  }

  lemma RescheduledGood(s: System, idle: int)
    requires Placed(s.kernel) && HasIdle(s.kernel, idle) && MonitorsOk(s)
    ensures Good(Rescheduled(s), idle)
  {
    hide Placed, HasIdle, MonitorsOk, Calmer;
    ScheduleSafe(s.kernel, idle);
    ScheduleCalm(s.kernel);
    CalmerOk(s, Schedule(s.kernel));
  }

  lemma LockGood(s: System, m: int, idle: int)
    requires Good(s, idle) && Permitted(s, DoLock(m), idle)
    ensures Good(Lock(s, Caller(s), m), idle)
  {
    if !Mon(s, m).lock {
      LockFree(s, m);
    } else {
      QueueAtEntrance(s, m);
      EnqueueKeeps(s.kernel, EntranceQ(m));
      hide Placed, MonitorsOk, Dispatched;
      RescheduledGood(s.(kernel := Enqueue(s.kernel, Caller(s), EntranceQ(m))), idle);
    }
  }

  lemma PassOnGood(s: System, m: int, idle: int)
    requires Placed(s.kernel) && HasIdle(s.kernel, idle) && MonitorsOkBut(s, m) && m in s.monitors && Mon(s, m).lock
    ensures var s' := PassOn(s, m);
            Placed(s'.kernel) && HasIdle(s'.kernel, idle) && MonitorsOk(s') && Good(Rescheduled(s'), idle)
  {
    hide Placed, MonitorsOk, MonitorsOkBut, Rescheduled, Good;
    PassOnOk(s, m);
    ReleaseIdle(s.kernel, EntranceQ(m), idle);
    RescheduledGood(PassOn(s, m), idle);
  }

  lemma OwnedIsLocked(s: System, m: int)
    requires MonitorsOk(s) && m in s.monitors && Mon(s, m).owner.Some?
    ensures Mon(s, m).lock && MonitorsOkBut(s, m)
  {
    assert MonitorOk(s, m);
  }

  lemma UnlockGood(s: System, m: int, idle: int)
    requires Good(s, idle) && m in s.monitors
    ensures Good(Unlock(s, Caller(s), m).0, idle)
  {
    if Mon(s, m).owner == Some(Caller(s)) {
      OwnedIsLocked(s, m);
      hide Placed, MonitorsOk, MonitorsOkBut;
      PassOnGood(s, m, idle);
    }
  }

  lemma WaitGood(s: System, m: int, c: int, idle: int)
    requires Good(s, idle) && m in s.monitors && Caller(s) != idle
    ensures Good(Wait(s, Caller(s), m, c).0, idle)
  {
    if Mon(s, m).owner == Some(Caller(s)) {
      OwnedIsLocked(s, m);
      SuspendOk(s, m, c);
      hide Placed, MonitorsOk, MonitorsOkBut, Good;
      PassOnGood(Suspended(s, Caller(s), m, c), m, idle);
    }
  }

  lemma SignalGood(s: System, c: int, idle: int)
    requires Good(s, idle)
    ensures Good(Signal(s, c), idle)
  {
    if Waiters(s, c) != [] {
      hide Placed, MonitorsOk, Dispatched, HasIdle, MoveOne;
      MoveOneOk(s, c, idle);
      if MoveOne(s, c).1 {
        RescheduledGood(MoveOne(s, c).0, idle);
      }
    }
  }

  lemma BroadcastGood(s: System, c: int, idle: int)
    requires Good(s, idle)
    ensures Good(Broadcast(s, c), idle) && Waiters(Broadcast(s, c), c) == []
  {
    hide Placed, MonitorsOk, Dispatched, HasIdle, MoveAll, Calmer;
    MoveAllOk(s, c, idle);
    if MoveAll(s, c).1 {
      RescheduledGood(MoveAll(s, c).0, idle);
      ScheduleCalm(MoveAll(s, c).0.kernel);
    }
  }

  // ---------------------------------------------------------------- other calls

  lemma CalmerChain(k: Kernel, k1: Kernel, k2: Kernel)
    requires Calmer(k, k1) && Calmer(k1, k2)
    ensures Calmer(k, k2)
  {
  }

  lemma {:induction false} ReleaseAllCalm(k: Kernel, q: WaitQueue)
    ensures Calmer(k, ReleaseAll(k, q))
    ensures forall r: Queue | !r.ReadyQ? && r != q :: Members(ReleaseAll(k, q), r) == Members(k, r)
    decreases |Members(k, q)|
  {
    ReleaseAllStep(k, q);
    if Members(k, q) != [] {
      ReleaseShrinks(k, q);
      ReleaseCalm(k, q);
      ReleaseAllCalm(Release(k, q), q);
      hide Calmer, ReleaseAll, Release;
      CalmerChain(k, Release(k, q), ReleaseAll(Release(k, q), q));
    }
  }

  lemma RequeueCalm(k: Kernel, t: int, prio: nat)
    requires t in k.threads && (k.threads[t].status.Active? || k.threads[t].status.Ready?)
    ensures var k1 := if k.threads[t].status.Active? then k else Take(k, ReadyQ(k.threads[t].prio), t);
            var k2 := MoveToReady(WithPrio(k1, t, prio), t, true);
            Calmer(k, k2) && forall q: Queue | !q.ReadyQ? :: Members(k2, q) == Members(k, q)
  {
    hide Without;
  }

  /** A change of priority moves a thread between ready queues only. */
  lemma SetPrioCalm(k: Kernel, t: int, prio: nat, idle: int)
    requires Safe(k, idle) && t in k.threads && prio < LEVELS
    ensures Calmer(k, SetPrio(k, t, prio))
    ensures forall q: Queue | !q.ReadyQ? :: Members(SetPrio(k, t, prio), q) == Members(k, q)
  {
    var th := k.threads[t];
    if th.status.Active? || th.status.Ready? {
      if th.status.Active? {
        OutOfQueues(k, t);
      } else {
        assert Belongs(Th(k, t), ReadyQ(th.prio)) && t in Members(k, ReadyQ(th.prio));
        TakeKeeps(k, ReadyQ(th.prio), t);
      }
      var k1 := if th.status.Active? then k else Take(k, ReadyQ(th.prio), t);
      RequeueKeeps(k1, t, prio);
      RequeueCalm(k, t, prio);
      hide Placed, PlacedBut, Without, Dispatched, Schedule, Calmer, Members, Take, MoveToReady, WithPrio;
      var k2 := MoveToReady(WithPrio(k1, t, prio), t, true);
      ScheduleCalm(k2);
      CalmerChain(k, k2, Schedule(k2));
    }
  }

  /** A thread that blocks elsewhere waits for no monitor. */
  lemma BlockElsewhere(s: System, q: Queue)
    requires MonitorsOk(s) && Running(s.kernel) && q.WaitQ?
    ensures MonitorsOk(s.(kernel := Enqueue(s.kernel, Caller(s), q)))
  {
    var a := Caller(s);
    var k := Enqueue(s.kernel, a, q);
    var s' := s.(kernel := k);
    forall n | n in s'.monitors ensures MonitorOk(s', n) {
      assert MonitorOk(s, n);
      hide MonitorOk;
      PutOk(s, a, Th(k, a), q, Members(s.kernel, q) + [a], n);
    }
    hide MonitorOk;
    PutNoted(s, k, a);
  }

  lemma OtherOk(s: System, op: Op, idle: int)
    requires Good(s, idle) && Allowed(s.kernel, op, idle) && Elsewhere(op)
    ensures MonitorsOk(s.(kernel := Step(s.kernel, op)))
  {
    var k := s.kernel;
    hide Placed, MonitorsOk, Schedule, Calmer, Release, ReleaseAll, Create, SetPrio;
    match op {
      case Block(q) =>
        BlockElsewhere(s, q);
        EnqueueKeeps(k, q);
        ScheduleCalm(Enqueue(k, Caller(s), q));
        CalmerOk(s.(kernel := Enqueue(k, Caller(s), q)), Step(k, op));
      case Wake(q) =>
        ReleaseKeeps(k, q);
        ReleaseCalm(k, q);
        ScheduleCalm(Release(k, q));
        CalmerChain(k, Release(k, q), Step(k, op));
        CalmerOk(s, Step(k, op));
      case WakeAll(q) =>
        ReleaseAllInOrder(k, q, 0);
        ReleaseAllCalm(k, q);
        ScheduleCalm(ReleaseAll(k, q));
        CalmerChain(k, ReleaseAll(k, q), Step(k, op));
        CalmerOk(s, Step(k, op));
      case Change(t, prio) =>
        SetPrioCalm(k, t, prio, idle);
        CalmerOk(s, Step(k, op));
      case Start(t, asked) =>
        CreateKeeps(k, t, asked);
        CreateCalm(k, t, asked);
        ScheduleCalm(Create(k, t, asked));
        CalmerChain(k, Create(k, t, asked), Step(k, op));
        CalmerOk(s, Step(k, op));
    }
  }

  lemma CreateCalm(k: Kernel, t: int, asked: int)
    requires t !in k.threads
    ensures Calmer(k, Create(k, t, asked))
  {
  }

  /** Every call keeps the threads in their places, the highest one running, and the monitors in order. */
  lemma CallGood(s: System, call: Call, idle: int)
    requires Good(s, idle) && Permitted(s, call, idle)
    ensures Good(After(s, call), idle)
  {
    match call {
      case DoLock(m) => LockGood(s, m, idle);
      case DoUnlock(m) => UnlockGood(s, m, idle);
      case DoWait(m, c) => WaitGood(s, m, c, idle);
      case DoSignal(c) => SignalGood(s, c, idle);
      case DoBroadcast(c) => BroadcastGood(s, c, idle);
      case Other(op) =>
        OtherOk(s, op, idle);
        StepSafe(s.kernel, op, idle);
    }
  }

  function RunCalls(s: System, calls: seq<Call>): System
    decreases |calls|
  {
    if calls == [] then s else RunCalls(After(s, calls[0]), calls[1..])
  }

  predicate AllPermitted(s: System, calls: seq<Call>, idle: int)
    decreases |calls|
  {
    calls != [] ==> Permitted(s, calls[0], idle) && AllPermitted(After(s, calls[0]), calls[1..], idle)
  }

  /** Monitor safety over every run. */
  lemma {:induction false} RunGood(s: System, calls: seq<Call>, idle: int)
    requires Good(s, idle) && AllPermitted(s, calls, idle)
    ensures Good(RunCalls(s, calls), idle)
    decreases |calls|
  {
    if calls != [] {
      hide Good, Permitted, After;
      CallGood(s, calls[0], idle);
      RunGood(After(s, calls[0]), calls[1..], idle);
    }
  }

  lemma StartGood(kernel: Kernel, monitors: map<int, Monitor>, idle: int)
    requires Safe(kernel, idle) && forall m | m in monitors :: monitors[m] == Monitor(false, None)
    requires forall t | t in kernel.threads :: !kernel.threads[t].status.Waiting?
    ensures Good(System(kernel, monitors), idle)
  {
    var s := System(kernel, monitors);
    forall m | m in monitors ensures MonitorOk(s, m) {
      if Entrance(s, m) != [] {
        var t := Entrance(s, m)[0];
        assert t in Members(kernel, EntranceQ(m)) && Belongs(Th(kernel, t), EntranceQ(m));
      }
    }
  }

  // ---------------------------------------------------------------- locking twice

  lemma ScheduleLeavesWaiting(k: Kernel, t: int)
    requires Placed(k) && Th(k, t).status.Waiting?
    ensures Th(Schedule(k), t) == Th(k, t)
  {
    if !Stays(k) {
      var k2, p := Preempted(k), Top(Preempted(k), LEVELS);
      PreemptedKeeps(k);
      if p >= 0 {
        InLevelIsReady(k2, p, 0);
      }
      hide Placed, Without, Top;
    }
  }

  /** A monitor is no recursive lock: locking keeps the system in order exactly when the caller is not the owner
      already. An owner that locks again waits at the entrance for itself. */
  lemma LockSafeIff(s: System, m: int, idle: int)
    requires Good(s, idle) && m in s.monitors && Caller(s) != idle
    ensures Good(Lock(s, Caller(s), m), idle) <==> Mon(s, m).owner != Some(Caller(s))
  {
    var a := Caller(s);
    if Mon(s, m).owner != Some(a) {
      LockGood(s, m, idle);
    } else {
      OwnedIsLocked(s, m);
      var k := Enqueue(s.kernel, a, EntranceQ(m));
      EnqueueKeeps(s.kernel, EntranceQ(m));
      ScheduleLeavesWaiting(k, a);
      hide Placed, Schedule;
      assert !MonitorOk(Lock(s, a, m), m);
    }
  }

  /** So locking a free monitor twice in a row always breaks it. */
  lemma LockTwice(s: System, m: int, idle: int)
    requires Good(s, idle) && m in s.monitors && !Mon(s, m).lock && Caller(s) != idle
    ensures var s1 := Lock(s, Caller(s), m); Good(s1, idle) && !Good(Lock(s1, Caller(s1), m), idle)
  {
    assert MonitorOk(s, m);
    hide Good, MonitorsOk;
    LockGood(s, m, idle);
    LockSafeIff(Lock(s, Caller(s), m), m, idle);
  }

  // ---------------------------------------------------------------- the entrance queue

  /** Nobody has left the entrance, those who came are behind, and a locked monitor has kept its owner. */
  predicate Grown(s: System, s': System, m: int) {
    Entrance(s, m) <= Entrance(s', m) && (Mon(s, m).lock ==> Mon(s', m) == Mon(s, m))
  }

  lemma GrownChain(s: System, s1: System, s2: System, m: int)
    requires Grown(s, s1, m) && Grown(s1, s2, m)
    ensures Grown(s, s2, m)
  {
  }

  lemma RescheduledGrown(s: System, m: int)
    requires Placed(s.kernel)
    ensures Grown(s, Rescheduled(s), m) && Entrance(Rescheduled(s), m) == Entrance(s, m)
    ensures Rescheduled(s).monitors == s.monitors
  {
    hide Placed, Schedule;
    ScheduleCalm(s.kernel);
  }

  lemma LockGrown(s: System, n: int, m: int, idle: int)
    requires Good(s, idle) && Permitted(s, DoLock(n), idle)
    ensures Grown(s, Lock(s, Caller(s), n), m)
  {
    if Mon(s, n).lock {
      EnqueueKeeps(s.kernel, EntranceQ(n));
      hide Placed, Schedule;
      RescheduledGrown(s.(kernel := Enqueue(s.kernel, Caller(s), EntranceQ(n))), m);
    }
  }

  /** Passing a monitor on: the first at the entrance leaves it and owns the monitor. */
  lemma PassOnFirst(s: System, m: int)
    requires Mon(s, m).lock && Entrance(s, m) != []
    ensures Entrance(PassOn(s, m), m) == Entrance(s, m)[1..]
    ensures Mon(PassOn(s, m), m) == Monitor(true, Some(Entrance(s, m)[0]))
  {
    ReleaseShrinks(s.kernel, EntranceQ(m));
  }

  lemma PassOnOther(s: System, n: int, m: int)
    requires n != m
    ensures Grown(s, PassOn(s, n), m)
  {
    ReleaseCalm(s.kernel, EntranceQ(n));
  }

  lemma SuspendedSame(s: System, a: int, n: int, c: int, m: int)
    ensures Entrance(Suspended(s, a, n, c), m) == Entrance(s, m) && Suspended(s, a, n, c).monitors == s.monitors
  {
  }

  lemma MoveOneGrown(s: System, c: int, m: int)
    requires Waiters(s, c) != []
    ensures Grown(s, MoveOne(s, c).0, m)
  {
    ReleaseCalm(s.kernel, ConditionQ(c));
    hide Without, Release;
  }

  lemma {:induction false} MoveAllGrown(s: System, c: int, m: int)
    ensures Grown(s, MoveAll(s, c).0, m)
    decreases |Waiters(s, c)|
  {
    MoveAllIs(s, c);
    if Waiters(s, c) != [] {
      MoveOneShrinks(s, c);
      MoveOneGrown(s, c, m);
      MoveAllGrown(MoveOne(s, c).0, c, m);
      hide MoveAll, MoveOne, Grown, Waiters;
      GrownChain(s, MoveOne(s, c).0, MoveAll(s, c).0, m);
    }
  }

  lemma SignalGrown(s: System, c: int, m: int, idle: int)
    requires Good(s, idle)
    ensures Grown(s, Signal(s, c), m)
  {
    if Waiters(s, c) != [] {
      hide Placed, MonitorsOk, Dispatched, HasIdle, MoveOne, Rescheduled, Grown;
      MoveOneGrown(s, c, m);
      MoveOneOk(s, c, idle);
      RescheduledGrown(MoveOne(s, c).0, m);
      GrownChain(s, MoveOne(s, c).0, Rescheduled(MoveOne(s, c).0), m);
    } else {
      assert Grown(s, s, m);
    }
  }

  lemma BroadcastGrown(s: System, c: int, m: int, idle: int)
    requires Good(s, idle)
    ensures Grown(s, Broadcast(s, c), m)
  {
    hide Placed, MonitorsOk, Dispatched, HasIdle, MoveAll, Rescheduled, Grown;
    MoveAllGrown(s, c, m);
    MoveAllOk(s, c, idle);
    RescheduledGrown(MoveAll(s, c).0, m);
    GrownChain(s, MoveAll(s, c).0, Rescheduled(MoveAll(s, c).0), m);
  }

  lemma OtherGrown(s: System, op: Op, m: int, idle: int)
    requires Good(s, idle) && Allowed(s.kernel, op, idle) && Elsewhere(op)
    ensures Grown(s, s.(kernel := Step(s.kernel, op)), m)
  {
    var k := s.kernel;
    hide Placed, MonitorsOk, Schedule, Calmer, Release, ReleaseAll, SetPrio;
    match op {
      case Block(q) =>
        EnqueueKeeps(k, q);
        ScheduleCalm(Enqueue(k, Caller(s), q));
      case Wake(q) =>
        ReleaseKeeps(k, q);
        ReleaseCalm(k, q);
        ScheduleCalm(Release(k, q));
      case WakeAll(q) =>
        ReleaseAllInOrder(k, q, 0);
        ReleaseAllCalm(k, q);
        ScheduleCalm(ReleaseAll(k, q));
      case Change(t, prio) =>
        SetPrioCalm(k, t, prio, idle);
      case Start(t, asked) =>
        CreateKeeps(k, t, asked);
        ScheduleCalm(Create(k, t, asked));
    }
  }

  /** The call gives the monitor up. */
  predicate Frees(s: System, call: Call, m: int) {
    && Mon(s, m).owner == Some(Caller(s))
    && (call == DoUnlock(m) || (call.DoWait? && call.m == m))
  }

  /** Once the monitor is given up, the first at the entrance owns it and the others move up. */
  predicate MovedUp(s: System, s': System, m: int) {
    Entrance(s, m) != [] ==>
      Entrance(s, m)[1..] <= Entrance(s', m) && Mon(s', m) == Monitor(true, Some(Entrance(s, m)[0]))
  }

  lemma UnlockMoves(s: System, n: int, m: int, idle: int)
    requires Good(s, idle) && n in s.monitors
    ensures if Frees(s, DoUnlock(n), m) then MovedUp(s, Unlock(s, Caller(s), n).0, m)
            else Grown(s, Unlock(s, Caller(s), n).0, m)
  {
    if Mon(s, n).owner == Some(Caller(s)) {
      OwnedIsLocked(s, n);
      PassOnGood(s, n, idle);
      hide Placed, MonitorsOk, MonitorsOkBut, Schedule, PassOn, Good, Rescheduled;
      var s1 := PassOn(s, n);
      RescheduledGrown(s1, m);
      if n == m {
        if Entrance(s, m) != [] {
          PassOnFirst(s, m);
        }
      } else {
        PassOnOther(s, n, m);
        GrownChain(s, s1, Rescheduled(s1), m);
      }
    }
  }

  lemma WaitMoves(s: System, n: int, c: int, m: int, idle: int)
    requires Good(s, idle) && n in s.monitors && Caller(s) != idle
    ensures if Frees(s, DoWait(n, c), m) then MovedUp(s, Wait(s, Caller(s), n, c).0, m)
            else Grown(s, Wait(s, Caller(s), n, c).0, m)
  {
    if Mon(s, n).owner == Some(Caller(s)) {
      OwnedIsLocked(s, n);
      SuspendOk(s, n, c);
      var s0 := Suspended(s, Caller(s), n, c);
      SuspendedSame(s, Caller(s), n, c, m);
      assert HasIdle(s0.kernel, idle);
      PassOnGood(s0, n, idle);
      hide Placed, MonitorsOk, MonitorsOkBut, Schedule, PassOn, Good, Rescheduled, Suspended;
      var s1 := PassOn(s0, n);
      RescheduledGrown(s1, m);
      if n == m {
        if Entrance(s, m) != [] {
          PassOnFirst(s0, m);
        }
      } else {
        PassOnOther(s0, n, m);
        GrownChain(s0, s1, Rescheduled(s1), m);
      }
    }
  }

  lemma CallMoves(s: System, call: Call, m: int, idle: int)
    requires Good(s, idle) && Permitted(s, call, idle)
    ensures if Frees(s, call, m) then MovedUp(s, After(s, call), m) else Grown(s, After(s, call), m)
  {
    hide Good, MovedUp, Grown, Lock, Unlock, Wait, Signal, Broadcast;
    match call {
      case DoLock(n) => LockGrown(s, n, m, idle);
      case DoUnlock(n) => UnlockMoves(s, n, m, idle);
      case DoWait(n, c) => WaitMoves(s, n, c, m, idle);
      case DoSignal(c) => SignalGrown(s, c, m, idle);
      case DoBroadcast(c) => BroadcastGrown(s, c, m, idle);
      case Other(op) => OtherGrown(s, op, m, idle);
    }
  }

  /** How often in a run the monitor is given up. */
  function Freed(s: System, calls: seq<Call>, m: int): nat
    decreases |calls|
  {
    if calls == [] then 0
    else (if Frees(s, calls[0], m) then 1 else 0) + Freed(After(s, calls[0]), calls[1..], m)
  }

  /** After n releases of the monitor the first n have left its entrance, in order, and nobody else; the n-th owns
      it. */
  predicate Advanced(s: System, s': System, n: nat, m: int) {
    var first := Entrance(s, m);
    n <= |first| ==>
      && first[n..] <= Entrance(s', m)
      && Mon(s', m) == if n == 0 then Mon(s, m) else Monitor(true, Some(first[n - 1]))
  }

  /** No overtaking: whoever is at position i of the entrance owns the monitor after exactly i + 1 releases of it. */
  lemma {:induction false} NoOvertaking(s: System, calls: seq<Call>, m: int, idle: int)
    requires Good(s, idle) && AllPermitted(s, calls, idle) && Mon(s, m).lock
    ensures Advanced(s, RunCalls(s, calls), Freed(s, calls, m), m)
    decreases |calls|
  {
    hide *;
    if calls == [] {
      NoCalls(s, m);
    } else {
      var s1, frees, n := After(s, calls[0]), Frees(s, calls[0], m), Freed(After(s, calls[0]), calls[1..], m);
      RunCallsIs(s, calls, m, idle);
      CallGood(s, calls[0], idle);
      CallMoves(s, calls[0], m, idle);
      if frees && Entrance(s, m) == [] {
        NobodyLeft(s, RunCalls(s, calls), Freed(s, calls, m), m);
      } else {
        MovedLock(s, s1, m, frees);
        NoOvertaking(s1, calls[1..], m, idle);
        ThenMore(s, s1, RunCalls(s, calls), m, frees, n);
      }
    }
  }

  lemma NoCalls(s: System, m: int)
    ensures RunCalls(s, []) == s && Freed(s, [], m) == 0 && Advanced(s, s, 0, m)
  {
    hide Entrance, Mon;
  }

  lemma NobodyLeft(s: System, s': System, n: nat, m: int)
    requires n > |Entrance(s, m)|
    ensures Advanced(s, s', n, m)
  {
    hide Entrance, Mon;
  }

  lemma MovedLock(s: System, s1: System, m: int, frees: bool)
    requires Mon(s, m).lock && (frees ==> Entrance(s, m) != [])
    requires if frees then MovedUp(s, s1, m) else Grown(s, s1, m)
    ensures Mon(s1, m).lock
  {
  }

  lemma ThenMore(s: System, s1: System, s2: System, m: int, frees: bool, n: nat)
    requires frees ==> Entrance(s, m) != []
    requires if frees then MovedUp(s, s1, m) else Grown(s, s1, m)
    requires Mon(s, m).lock && Advanced(s1, s2, n, m)
    ensures Advanced(s, s2, n + if frees then 1 else 0, m)
  {
    var first := Entrance(s, m);
    var left := if frees then first[1..] else first;
    hide Entrance, Mon;
    if n <= |left| {
      assert left <= Entrance(s1, m);
      assert left[n..] <= Entrance(s1, m)[n..];
      assert n > 0 ==> left[n - 1] == Entrance(s1, m)[n - 1];
    }
  }

  lemma RunCallsIs(s: System, calls: seq<Call>, m: int, idle: int)
    requires calls != []
    ensures var s1 := After(s, calls[0]);
            && RunCalls(s, calls) == RunCalls(s1, calls[1..])
            && (AllPermitted(s, calls, idle) ==> Permitted(s, calls[0], idle) && AllPermitted(s1, calls[1..], idle))
            && Freed(s, calls, m) == Freed(s1, calls[1..], m) + if Frees(s, calls[0], m) then 1 else 0
  {
    hide After, Permitted, Frees;
  }

  // ---------------------------------------------------------------- broadcast loses nobody

  /** The owner and, behind it, the threads at the entrance. */
  function Line(s: System, m: int): seq<int> {
    (if Mon(s, m).owner.Some? then [Mon(s, m).owner.value] else []) + Entrance(s, m)
  }

  /** Those of a list of waiters that wait for one monitor, in order. */
  function ForMonitor(k: Kernel, list: seq<int>, m: int): seq<int> {
    if list == [] then []
    else (if Th(k, list[0]).qdata == m then [list[0]] else []) + ForMonitor(k, list[1..], m)
  }

  lemma {:induction false} ForMonitorFrame(k: Kernel, k': Kernel, list: seq<int>, m: int)
    requires forall t :: Th(k', t).qdata == Th(k, t).qdata
    ensures ForMonitor(k', list, m) == ForMonitor(k, list, m)
  {
    if list != [] {
      ForMonitorFrame(k, k', list[1..], m);
    }
  }

  /** Moving one waiter puts it at the end of the line of the monitor it waits for. */
  lemma MoveOneLine(s: System, c: int, m: int)
    requires MonitorsOk(s) && Placed(s.kernel) && Waiters(s, c) != [] && m in s.monitors
    ensures Line(MoveOne(s, c).0, m) == Line(s, m) + ForMonitor(s.kernel, Waiters(s, c)[..1], m)
    ensures forall t :: Th(MoveOne(s, c).0.kernel, t).qdata == Th(s.kernel, t).qdata
  {
    hide Placed, Without, Calmer;
    var t := Waiters(s, c)[0];
    WaiterFacts(s, c);
    assert MonitorOk(s, m) && MonitorOk(s, Th(s.kernel, t).qdata);
    assert Waiters(s, c)[..1] == [t];
    ReleaseCalm(s.kernel, ConditionQ(c));
  }

  /** Broadcasting puts every waiter, in order, at the end of the line of its own monitor: the first of a free
      monitor becomes the owner, the others wait at the entrance. */
  lemma {:induction false} MoveAllLine(s: System, c: int, m: int, idle: int)
    requires MonitorsOk(s) && Placed(s.kernel) && HasIdle(s.kernel, idle) && m in s.monitors
    ensures Line(MoveAll(s, c).0, m) == Line(s, m) + ForMonitor(s.kernel, Waiters(s, c), m)
    decreases |Waiters(s, c)|
  {
    hide *;
    var list := Waiters(s, c);
    MoveAllIs(s, c);
    ForMonitorSplit(s.kernel, list, m);
    if list != [] {
      var s1 := MoveOne(s, c).0;
      MoveOneShrinks(s, c);
      MoveOneOk(s, c, idle);
      MoveOneLine(s, c, m);
      MoveAllLine(s1, c, m, idle);
      ForMonitorFrame(s.kernel, s1.kernel, list[1..], m);
    }
  }

  lemma ForMonitorSplit(k: Kernel, list: seq<int>, m: int)
    ensures list == [] ==> ForMonitor(k, list, m) == []
    ensures list != [] ==> ForMonitor(k, list, m) == ForMonitor(k, list[..1], m) + ForMonitor(k, list[1..], m)
  {
    if list != [] {
      assert list[..1] == [list[0]];
    }
  }

  /** sys__monitor_broadcast loses no waiter and lets none pass another. */
  lemma BroadcastLine(s: System, c: int, m: int, idle: int)
    requires Good(s, idle) && m in s.monitors
    ensures Waiters(Broadcast(s, c), c) == []
    ensures Line(Broadcast(s, c), m) == Line(s, m) + ForMonitor(s.kernel, Waiters(s, c), m)
  {
    BroadcastGood(s, c, idle);
    MoveAllLine(s, c, m, idle);
    MoveAllOk(s, c, idle);
    hide Placed, MonitorsOk, MoveAll, Schedule, Waiters, ForMonitor, Good, HasIdle;
    ScheduleCalm(MoveAll(s, c).0.kernel);
  }

  /** sys__monitor_signal does the same for the first waiter only. */
  lemma SignalLine(s: System, c: int, m: int, idle: int)
    requires Good(s, idle) && m in s.monitors
    ensures Waiters(Signal(s, c), c) == if Waiters(s, c) == [] then [] else Waiters(s, c)[1..]
    ensures Line(Signal(s, c), m) ==
            Line(s, m) + ForMonitor(s.kernel, if Waiters(s, c) == [] then [] else Waiters(s, c)[..1], m)
  {
    if Waiters(s, c) != [] {
      MoveOneShrinks(s, c);
      MoveOneLine(s, c, m);
      MoveOneOk(s, c, idle);
      hide Placed, MonitorsOk, MoveOne, Schedule, ForMonitor, Good, HasIdle;
      ScheduleCalm(MoveOne(s, c).0.kernel);
    }
  }
}
