/** Who is inside a monitor: the history of calls that returned, and the owner field (kernel/monitor.c:102-256). */
module MonitorHistory {
  import opened Wrappers
  import opened Sequences
  import opened ThreadModel
  import opened MonitorModel

  /** The thread was blocked on the monitor and no longer is: its call to lock or wait returns. */
  predicate Returns(s: System, s': System, t: int, m: int) {
    WaitsFor(Th(s.kernel, t), m) && !WaitsFor(Th(s'.kernel, t), m)
  }

  /** The thread enters the monitor: a call to lock or wait that blocked returns, or one to lock that does not
      block. */
  predicate Enters(s: System, call: Call, t: int, m: int) {
    var s' := After(s, call);
    || Returns(s, s', t, m)
    || (call == DoLock(m) && t == Caller(s) && !WaitsFor(Th(s'.kernel, t), m))
  }

  /** The thread leaves the monitor: it calls unlock or wait. */
  predicate Leaves(s: System, call: Call, t: int, m: int) {
    t == Caller(s) && (call == DoUnlock(m) || (call.DoWait? && call.m == m))
  }

  /** The threads inside the monitor: those that have entered it and not left it since. */
  function InsideAfter(s: System, call: Call, inside: set<int>, m: int): set<int> {
    (set t | t in inside && !Leaves(s, call, t, m))
    + (set t | t in After(s, call).kernel.threads && Enters(s, call, t, m))
  }

  function Inside(s: System, calls: seq<Call>, inside: set<int>, m: int): set<int>
    decreases |calls|
  {
    if calls == [] then inside else Inside(After(s, calls[0]), calls[1..], InsideAfter(s, calls[0], inside, m), m)
  }

  function Owners(s: System, m: int): set<int> {
    if Mon(s, m).owner.Some? then {Mon(s, m).owner.value} else {}
  }

  // ---------------------------------------------------------------- who returns owns the monitor

  /** Whoever returns is the owner then, and a new owner has returned. */
  ghost predicate Handed(s: System, s': System, m: int) {
    && (forall t :: Returns(s, s', t, m) ==> Mon(s', m).owner == Some(t))
    && (Mon(s', m).owner.Some? && Mon(s', m).owner != Mon(s, m).owner ==> Returns(s, s', Mon(s', m).owner.value, m))
  }

  /** The same threads wait for the monitor. */
  ghost predicate SameWaiters(k: Kernel, k': Kernel, m: int) {
    forall t :: WaitsFor(Th(k', t), m) <==> WaitsFor(Th(k, t), m)
  }

  lemma ScheduleSame(k: Kernel, m: int)
    requires Placed(k)
    ensures SameWaiters(k, Schedule(k), m)
  {
    ScheduleCalm(k);
    forall t ensures WaitsFor(Th(Schedule(k), t), m) <==> WaitsFor(Th(k, t), m) {
      if Th(k, t).status.Waiting? {
        ScheduleLeavesWaiting(k, t);
      }
    }
  }

  lemma HandedSame(s: System, s1: System, s2: System, m: int)
    requires Handed(s, s1, m) && SameWaiters(s1.kernel, s2.kernel, m) && Mon(s2, m) == Mon(s1, m)
    ensures Handed(s, s2, m)
  {
  }

  lemma NothingHanded(s: System, s': System, m: int)
    requires SameWaiters(s.kernel, s'.kernel, m) && Mon(s', m) == Mon(s, m)
    ensures Handed(s, s', m)
  {
  }

  lemma RescheduledHanded(s: System, s1: System, m: int)
    requires Handed(s, s1, m) && Placed(s1.kernel)
    ensures Handed(s, Rescheduled(s1), m)
  {
    hide Handed, Placed, SameWaiters, Schedule;
    ScheduleSame(s1.kernel, m);
    HandedSame(s, s1, Rescheduled(s1), m);
  }

  lemma ReleaseWaits(k: Kernel, q: Queue, t: int, m: int)
    ensures WaitsFor(Th(Release(k, q), t), m) <==>
            WaitsFor(Th(k, t), m) && !(Members(k, q) != [] && t == Members(k, q)[0])
  {
    hide Without;
  }

  /** Passing a monitor on lets the first at its entrance return, and nobody else. */
  lemma PassOnHanded(s: System, n: int, m: int)
    requires Placed(s.kernel) && MonitorsOkBut(s, n) && n in s.monitors && Mon(s, n).lock
    ensures Handed(s, PassOn(s, n), m)
  {
    var s', q := PassOn(s, n), EntranceQ(n);
    forall t ensures Returns(s, s', t, m) <==> m == n && Entrance(s, n) != [] && t == Entrance(s, n)[0] {
      ReleaseWaits(s.kernel, q, t, m);
      if Entrance(s, n) != [] {
        EntranceWaits(s.kernel, n);
      }
      hide Placed, Release;
    }
  }

  lemma EntranceWaits(k: Kernel, n: int)
    requires Placed(k) && Members(k, EntranceQ(n)) != []
    ensures forall m :: WaitsFor(Th(k, Members(k, EntranceQ(n))[0]), m) <==> m == n
  {
    var t := Members(k, EntranceQ(n))[0];
    assert t in Members(k, EntranceQ(n)) && Belongs(Th(k, t), EntranceQ(n));
    PlacedMember(k, EntranceQ(n), t);
  }

  lemma PlacedMember(k: Kernel, q: Queue, t: int)
    requires Placed(k) && t in Members(k, q) && !q.ReadyQ?
    ensures t in k.threads && Th(k, t).status.Waiting? && Th(k, t).queue == Some(q)
  {
    assert Belongs(Th(k, t), q);
    ThreadFacts(k, t);
  }

  /** A thread that starts to wait, and others that stay as they are, let nobody return. */
  lemma StartHanded(s: System, a: int, th: Thread, k: Kernel, m: int)
    requires !WaitsFor(Th(s.kernel, a), m)
    requires k.threads == s.kernel.threads[a := th]
    ensures Handed(s, s.(kernel := k), m)
  {
  }

  lemma LockHanded(s: System, n: int, m: int, idle: int)
    requires Good(s, idle) && Permitted(s, DoLock(n), idle)
    ensures n != m || Mon(s, n).lock ==> Handed(s, Lock(s, Caller(s), n), m)
    ensures n == m && !Mon(s, n).lock ==>
              && SameWaiters(s.kernel, Lock(s, Caller(s), n).kernel, m)
              && Mon(Lock(s, Caller(s), n), m).owner == Some(Caller(s))
    ensures Mon(s, n).lock ==> WaitsFor(Th(Lock(s, Caller(s), n).kernel, Caller(s)), n)
  {
    var a := Caller(s);
    if Mon(s, n).lock {
      var k := Enqueue(s.kernel, a, EntranceQ(n));
      StartHanded(s, a, Th(k, a), k, m);
      EnqueueKeeps(s.kernel, EntranceQ(n));
      RescheduledHanded(s, s.(kernel := k), m);
      ScheduleLeavesWaiting(k, a);
    } else {
      NothingHanded(s, s, m);
    }
  }

  lemma UnlockHanded(s: System, n: int, m: int, idle: int)
    requires Good(s, idle) && n in s.monitors
    ensures Handed(s, Unlock(s, Caller(s), n).0, m)
  {
    if Mon(s, n).owner == Some(Caller(s)) {
      OwnedIsLocked(s, n);
      PassOnHanded(s, n, m);
      PassOnGood(s, n, idle);
      hide Placed, Handed, PassOn, Schedule, MonitorsOk;
      RescheduledHanded(s, PassOn(s, n), m);
    } else {
      NothingHanded(s, s, m);
    }
  }

  lemma WaitHanded(s: System, n: int, c: int, m: int, idle: int)
    requires Good(s, idle) && n in s.monitors && Caller(s) != idle
    ensures Handed(s, Wait(s, Caller(s), n, c).0, m)
  {
    if Mon(s, n).owner == Some(Caller(s)) {
      OwnedIsLocked(s, n);
      SuspendOk(s, n, c);
      var s0 := Suspended(s, Caller(s), n, c);
      assert HasIdle(s0.kernel, idle);
      PassOnGood(s0, n, idle);
      SuspendHanded(s, n, c, m, idle);
      hide Placed, Handed, PassOn, Schedule, MonitorsOk, MonitorsOkBut, Suspended;
      RescheduledHanded(s, PassOn(s0, n), m);
    } else {
      NothingHanded(s, s, m);
    }
  }

  lemma SuspendHanded(s: System, n: int, c: int, m: int, idle: int)
    requires Good(s, idle) && n in s.monitors && Mon(s, n).owner == Some(Caller(s)) && Mon(s, n).lock
    ensures Handed(s, PassOn(Suspended(s, Caller(s), n, c), n), m)
  {
    var a := Caller(s);
    var s0 := Suspended(s, a, n, c);
    SuspendOk(s, n, c);
    PassOnHanded(s0, n, m);
    if Entrance(s0, n) != [] {
      EntranceWaits(s0.kernel, n);
      PlacedMember(s0.kernel, EntranceQ(n), Entrance(s0, n)[0]);
    }
    hide Placed, MonitorsOk, MonitorsOkBut, PassOn, Dispatched;
    var s1 := PassOn(s0, n);
    forall t | t != a ensures WaitsFor(Th(s0.kernel, t), m) <==> WaitsFor(Th(s.kernel, t), m) {
    }
    CallerRuns(s, idle);
  }

  lemma CallerRuns(s: System, idle: int)
    requires Good(s, idle)
    ensures Th(s.kernel, Caller(s)).status.Active? && s.kernel.active == Some(Caller(s))
  {
  }

  /** Moving one waiter lets it return if its monitor was free; no thread starts to wait for a monitor. */
  lemma MoveOneHanded(s: System, c: int, m: int)
    requires Placed(s.kernel) && MonitorsOk(s) && Waiters(s, c) != []
    ensures Handed(s, MoveOne(s, c).0, m)
    ensures forall t :: WaitsFor(Th(MoveOne(s, c).0.kernel, t), m) ==> WaitsFor(Th(s.kernel, t), m)
  {
    var t := Waiters(s, c)[0];
    WaiterFacts(s, c);
    var s' := MoveOne(s, c).0;
    assert MonitorOk(s, Th(s.kernel, t).qdata);
    forall u
      ensures WaitsFor(Th(s'.kernel, u), m) <==>
              WaitsFor(Th(s.kernel, u), m) && !(MoveOne(s, c).1 && u == t)
    {
      ReleaseWaits(s.kernel, ConditionQ(c), u, m);
      hide Release, Without, Placed, MonitorsOk;
    }
    hide Placed, MonitorsOk, MonitorOk, Release, Without;
  }

  lemma HandedChain(s: System, s1: System, s2: System, m: int)
    requires Handed(s, s1, m) && Handed(s1, s2, m) && Grown(s1, s2, m) && MonitorOk(s1, m) && MonitorOk(s2, m)
    requires forall t :: WaitsFor(Th(s1.kernel, t), m) ==> WaitsFor(Th(s.kernel, t), m)
    ensures Handed(s, s2, m)
  {
  }

  lemma {:induction false} MoveAllHanded(s: System, c: int, m: int, idle: int)
    requires Placed(s.kernel) && MonitorsOk(s) && HasIdle(s.kernel, idle) && m in s.monitors
    ensures Handed(s, MoveAll(s, c).0, m)
    decreases |Waiters(s, c)|
  {
    hide *;
    MoveAllIs(s, c);
    if Waiters(s, c) != [] {
      var s1 := MoveOne(s, c).0;
      MoveOneShrinks(s, c);
      MoveOneOk(s, c, idle);
      MoveOneHanded(s, c, m);
      MoveAllHanded(s1, c, m, idle);
      MoveAllGrown(s1, c, m);
      MoveAllOk(s1, c, idle);
      OneOk(s1, m);
      OneOk(MoveAll(s, c).0, m);
      HandedChain(s, s1, MoveAll(s, c).0, m);
    } else {
      SelfHanded(s, m);
    }
  }

  lemma OneOk(s: System, m: int)
    requires MonitorsOk(s) && m in s.monitors
    ensures MonitorOk(s, m)
  {
  }

  lemma SelfHanded(s: System, m: int)
    ensures Handed(s, s, m)
  {
  }

  lemma SignalHanded(s: System, c: int, m: int, idle: int)
    requires Good(s, idle) && m in s.monitors
    ensures Handed(s, Signal(s, c), m)
  {
    SelfHanded(s, m);
    if Waiters(s, c) != [] {
      hide Placed, MonitorsOk, HasIdle, MoveOne, Handed, Rescheduled, Dispatched;
      MoveOneOk(s, c, idle);
      MoveOneHanded(s, c, m);
      RescheduledHanded(s, MoveOne(s, c).0, m);
    }
  }

  lemma BroadcastHanded(s: System, c: int, m: int, idle: int)
    requires Good(s, idle) && m in s.monitors
    ensures Handed(s, Broadcast(s, c), m)
  {
    hide Placed, MonitorsOk, HasIdle, MoveAll, Handed, Rescheduled, Dispatched;
    MoveAllOk(s, c, idle);
    MoveAllHanded(s, c, m, idle);
    RescheduledHanded(s, MoveAll(s, c).0, m);
  }

  // ---------------------------------------------------------------- other calls

  lemma SameChain(k: Kernel, k1: Kernel, k2: Kernel, m: int)
    requires SameWaiters(k, k1, m) && SameWaiters(k1, k2, m)
    ensures SameWaiters(k, k2, m)
  {
  }

  lemma ReleaseSame(k: Kernel, q: Queue, m: int)
    requires Placed(k) && q.WaitQ?
    ensures SameWaiters(k, Release(k, q), m)
  {
    forall t ensures WaitsFor(Th(Release(k, q), t), m) <==> WaitsFor(Th(k, t), m) {
      ReleaseWaits(k, q, t, m);
      if Members(k, q) != [] {
        PlacedMember(k, q, Members(k, q)[0]);
      }
      hide Placed, Release;
    }
  }

  lemma {:induction false} ReleaseAllSame(k: Kernel, q: Queue, m: int)
    requires Placed(k) && q.WaitQ?
    ensures SameWaiters(k, ReleaseAll(k, q), m)
    decreases |Members(k, q)|
  {
    hide Placed, Release, ReleaseAll, Members, Th, WaitsFor;
    ReleaseAllStep(k, q);
    if Members(k, q) != [] {
      ReleaseKeeps(k, q);
      ReleaseSame(k, q, m);
      ReleaseAllSame(Release(k, q), q, m);
      SameChain(k, Release(k, q), ReleaseAll(k, q), m);
    }
  }

  lemma SetPrioSame(k: Kernel, t: int, prio: nat, idle: int, m: int)
    requires Safe(k, idle) && t in k.threads && prio < LEVELS
    ensures SameWaiters(k, SetPrio(k, t, prio), m)
  {
    var th := k.threads[t];
    if th.status.Active? || th.status.Ready? {
      var k1 := if th.status.Active? then k else Take(k, ReadyQ(th.prio), t);
      if th.status.Active? {
        OutOfQueues(k, t);
      } else {
        ThreadFacts(k, t);
        assert Belongs(Th(k, t), ReadyQ(th.prio)) && t in Members(k, ReadyQ(th.prio));
        TakeKeeps(k, ReadyQ(th.prio), t);
      }
      RequeueKeeps(k1, t, prio);
      hide Placed, PlacedBut, Dispatched, Schedule, Without;
      var k2 := MoveToReady(WithPrio(k1, t, prio), t, true);
      ScheduleSame(k2, m);
      assert SameWaiters(k, k2, m);
      hide SameWaiters;
      SameChain(k, k2, Schedule(k2), m);
    }
  }

  lemma OtherHanded(s: System, op: Op, m: int, idle: int)
    requires Good(s, idle) && Allowed(s.kernel, op, idle) && Elsewhere(op)
    ensures Handed(s, s.(kernel := Step(s.kernel, op)), m)
  {
    var k := s.kernel;
    hide Placed, MonitorsOk, Schedule, Release, ReleaseAll, SetPrio, Handed;
    match op {
      case Block(q) =>
        EnqueueKeeps(k, q);
        StartHanded(s, Caller(s), Th(Enqueue(k, Caller(s), q), Caller(s)), Enqueue(k, Caller(s), q), m);
        RescheduledHanded(s, s.(kernel := Enqueue(k, Caller(s), q)), m);
      case Wake(q) =>
        ReleaseKeeps(k, q);
        ReleaseSame(k, q, m);
        NothingHanded(s, s.(kernel := Release(k, q)), m);
        RescheduledHanded(s, s.(kernel := Release(k, q)), m);
      case WakeAll(q) =>
        ReleaseAllInOrder(k, q, 0);
        ReleaseAllSame(k, q, m);
        NothingHanded(s, s.(kernel := ReleaseAll(k, q)), m);
        RescheduledHanded(s, s.(kernel := ReleaseAll(k, q)), m);
      case Change(t, prio) =>
        SetPrioSame(k, t, prio, idle, m);
        NothingHanded(s, s.(kernel := SetPrio(k, t, prio)), m);
      case Start(t, asked) =>
        CreateKeeps(k, t, asked);
        assert SameWaiters(k, Create(k, t, asked), m);
        NothingHanded(s, s.(kernel := Create(k, t, asked)), m);
        RescheduledHanded(s, s.(kernel := Create(k, t, asked)), m);
    }
  }

  // ---------------------------------------------------------------- the theorem

  /** For every permitted call but a lock that does not block: whoever was blocked on the monitor and no longer is owns
      it, and a new owner is such a thread. */
  lemma CallHands(s: System, call: Call, m: int, idle: int)
    requires Good(s, idle) && Permitted(s, call, idle) && m in s.monitors
    ensures !(call == DoLock(m) && !Mon(s, m).lock) ==> Handed(s, After(s, call), m)
  {
    hide Good, Handed, Lock, Unlock, Wait, Signal, Broadcast;
    match call {
      case DoLock(n) => LockHanded(s, n, m, idle);
      case DoUnlock(n) => UnlockHanded(s, n, m, idle);
      case DoWait(n, c) => WaitHanded(s, n, c, m, idle);
      case DoSignal(c) => SignalHanded(s, c, m, idle);
      case DoBroadcast(c) => BroadcastHanded(s, c, m, idle);
      case Other(op) => OtherHanded(s, op, m, idle);
    }
  }

  /** One call: if exactly the owner was inside, exactly the owner is. */
  lemma StepInside(s: System, call: Call, m: int, idle: int)
    requires Good(s, idle) && Permitted(s, call, idle) && m in s.monitors
    ensures InsideAfter(s, call, Owners(s, m), m) == Owners(After(s, call), m)
  {
    var s' := After(s, call);
    CallGood(s, call, idle);
    CallHands(s, call, m, idle);
    CallMoves(s, call, m, idle);
    CallKeepsMonitors(s, call, idle);
    GoodMonitor(s, m, idle);
    GoodMonitor(s', m, idle);
    if call == DoLock(m) {
      LockHanded(s, m, m, idle);
    }
    hide Good, After, Permitted;
    forall t ensures t in InsideAfter(s, call, Owners(s, m), m) <==> t in Owners(s', m) {
      OneInside(s, call, t, m);
    }
  }

  lemma GoodMonitor(s: System, m: int, idle: int)
    requires Good(s, idle) && m in s.monitors
    ensures MonitorOk(s, m)
  {
  }

  lemma CallKeepsMonitors(s: System, call: Call, idle: int)
    requires Good(s, idle) && Permitted(s, call, idle)
    ensures After(s, call).monitors.Keys == s.monitors.Keys
  {
    hide Placed, MonitorsOk, Schedule;
    match call {
      case DoSignal(c) =>
        if Waiters(s, c) != [] {
          MoveOneOk(s, c, idle);
        }
      case DoBroadcast(c) => MoveAllOk(s, c, idle);
      case _ =>
    }
  }

  lemma OneInside(s: System, call: Call, t: int, m: int)
    requires MonitorOk(s, m) && MonitorOk(After(s, call), m)
    requires !(call == DoLock(m) && !Mon(s, m).lock) ==> Handed(s, After(s, call), m)
    requires if Frees(s, call, m) then MovedUp(s, After(s, call), m) else Grown(s, After(s, call), m)
    requires call == DoLock(m) && !Mon(s, m).lock ==>
               SameWaiters(s.kernel, After(s, call).kernel, m) && Mon(After(s, call), m).owner == Some(Caller(s))
    requires call == DoLock(m) && Mon(s, m).lock ==> WaitsFor(Th(After(s, call).kernel, Caller(s)), m)
    requires Frees(s, call, m) ==> Mon(After(s, call), m).owner != Some(Caller(s))
    ensures t in InsideAfter(s, call, Owners(s, m), m) <==> t in Owners(After(s, call), m)
  {
    hide After;
  }

  /** Over every run, the threads inside a monitor are exactly its owner: at most one, and the one the owner field
      names. */
  lemma {:induction false} OnlyOwnerInside(s: System, calls: seq<Call>, m: int, idle: int)
    requires Good(s, idle) && AllPermitted(s, calls, idle) && m in s.monitors
    ensures Inside(s, calls, Owners(s, m), m) == Owners(RunCalls(s, calls), m)
    decreases |calls|
  {
    if calls != [] {
      hide Good, After, InsideAfter, Owners, Permitted;
      StepInside(s, calls[0], m, idle);
      CallGood(s, calls[0], idle);
      CallKeepsMonitors(s, calls[0], idle);
      OnlyOwnerInside(After(s, calls[0]), calls[1..], m, idle);
    }
  }

  /** From monitors that nobody owns: mutual exclusion. */
  lemma MutualExclusion(s: System, calls: seq<Call>, m: int, idle: int)
    requires Good(s, idle) && AllPermitted(s, calls, idle) && m in s.monitors && Mon(s, m).owner.None?
    ensures |Inside(s, calls, {}, m)| <= 1
    ensures forall t | t in Inside(s, calls, {}, m) :: Mon(RunCalls(s, calls), m).owner == Some(t)
  {
    OnlyOwnerInside(s, calls, m, idle);
    assert Owners(s, m) == {};
    hide Inside, RunCalls;
  }
}
