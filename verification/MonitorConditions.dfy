/** Who waits on a condition, over whole runs (kernel/monitor.c:157-256). */
module MonitorConditions {
  import opened Sequences
  import opened Wrappers
  import opened ThreadModel
  import opened MonitorModel

  /** Of the queue of condition d, what a call leaves: the owner's wait on d adds the caller at the end, a signal takes
      the first, a broadcast takes all, every other call leaves it alone. */
  ghost predicate Waited(s: System, call: Call, d: int) {
    var before, after := Waiters(s, d), Waiters(After(s, call), d);
    match call
    case DoWait(m, c) =>
      after == if c == d && Mon(s, m).owner == Some(Caller(s)) then before + [Caller(s)] else before
    case DoSignal(c) => after == if c == d && before != [] then before[1..] else before
    case DoBroadcast(c) => after == if c == d then [] else before
    case _ => after == before
  }

  lemma RescheduledWaiters(s: System, d: int)
    requires Placed(s.kernel)
    ensures Waiters(Rescheduled(s), d) == Waiters(s, d)
  {
    ScheduleCalm(s.kernel);
    hide Schedule, Placed, Calmer;
  }

  lemma PassOnWaiters(s: System, m: int, d: int)
    ensures Waiters(PassOn(s, m), d) == Waiters(s, d)
  {
    ReleaseCalm(s.kernel, EntranceQ(m));
    hide Release, Calmer;
  }

  lemma LockWaits(s: System, m: int, d: int, idle: int)
    requires Good(s, idle) && Permitted(s, DoLock(m), idle)
    ensures Waited(s, DoLock(m), d)
  {
    if Mon(s, m).lock {
      EnqueueKeeps(s.kernel, EntranceQ(m));
      RescheduledWaiters(s.(kernel := Enqueue(s.kernel, Caller(s), EntranceQ(m))), d);
    }
    hide Placed, MonitorsOk, Rescheduled;
  }

  lemma UnlockWaits(s: System, m: int, d: int, idle: int)
    requires Good(s, idle) && Permitted(s, DoUnlock(m), idle)
    ensures Waited(s, DoUnlock(m), d)
  {
    hide Placed, MonitorsOk, PassOn, Rescheduled, Dispatched, HasIdle, MonitorsOkBut;
    if Mon(s, m).owner == Some(Caller(s)) {
      GoodParts(s, idle);
      OwnedIsLocked(s, m);
      PassOnGood(s, m, idle);
      PassOnWaiters(s, m, d);
      RescheduledWaiters(PassOn(s, m), d);
    }
  }

  lemma GoodParts(s: System, idle: int)
    requires Good(s, idle)
    ensures Placed(s.kernel) && HasIdle(s.kernel, idle) && MonitorsOk(s) && Running(s.kernel)
    ensures forall n :: MonitorsOkBut(s, n)
  {
    hide Placed, HasIdle, MonitorOk, Noted;
  }

  /** Waiting puts the caller on the condition asked for, with the monitor noted. */
  lemma SuspendedWaiters(s: System, a: int, m: int, c: int, d: int)
    ensures Waiters(Suspended(s, a, m, c), d) == Waiters(s, d) + if d == c then [a] else []
    ensures Th(Suspended(s, a, m, c).kernel, a).qdata == m
  {
  }

  lemma WaitWaits(s: System, m: int, c: int, d: int, idle: int)
    requires Good(s, idle) && Permitted(s, DoWait(m, c), idle)
    ensures Waited(s, DoWait(m, c), d)
  {
    hide Placed, MonitorsOk, PassOn, Rescheduled, Dispatched, HasIdle, MonitorsOkBut, Suspended;
    if Mon(s, m).owner == Some(Caller(s)) {
      var s1 := Suspended(s, Caller(s), m, c);
      WaitParts(s, m, c, idle);
      SuspendedWaiters(s, Caller(s), m, c, d);
      PassOnWaiters(s1, m, d);
      RescheduledWaiters(PassOn(s1, m), d);
    }
  }

  lemma WaitParts(s: System, m: int, c: int, idle: int)
    requires Good(s, idle) && Permitted(s, DoWait(m, c), idle) && Mon(s, m).owner == Some(Caller(s))
    ensures var s1 := Suspended(s, Caller(s), m, c);
            Placed(s1.kernel) && Placed(PassOn(s1, m).kernel) && Caller(s) in s.kernel.threads
  {
    hide Placed, MonitorsOk, PassOn, Dispatched, HasIdle, MonitorsOkBut;
    GoodParts(s, idle);
    OwnedIsLocked(s, m);
    SuspendOk(s, m, c);
    SuspendedIdle(s, m, c, idle);
    PassOnGood(Suspended(s, Caller(s), m, c), m, idle);
  }

  lemma SuspendedIdle(s: System, m: int, c: int, idle: int)
    requires HasIdle(s.kernel, idle) && Caller(s) != idle
    ensures HasIdle(Suspended(s, Caller(s), m, c).kernel, idle)
    ensures Mon(Suspended(s, Caller(s), m, c), m) == Mon(s, m)
  {
  }

  lemma MoveOneWaiters(s: System, c: int, d: int)
    requires Waiters(s, c) != []
    ensures Waiters(MoveOne(s, c).0, d) == if d == c then Waiters(s, c)[1..] else Waiters(s, d)
  {
    MoveOneShrinks(s, c);
    if d != c {
      ReleaseCalm(s.kernel, ConditionQ(c));
      hide Release, Without;
    }
  }

  lemma {:induction false} MoveAllWaiters(s: System, c: int, d: int)
    requires d != c
    ensures Waiters(MoveAll(s, c).0, d) == Waiters(s, d)
    decreases |Waiters(s, c)|
  {
    hide MoveAll, MoveOne, Waiters;
    MoveAllIs(s, c);
    if Waiters(s, c) != [] {
      MoveOneShrinks(s, c);
      MoveOneWaiters(s, c, d);
      MoveAllWaiters(MoveOne(s, c).0, c, d);
    }
  }

  lemma SignalWaits(s: System, c: int, d: int, idle: int)
    requires Good(s, idle)
    ensures Waited(s, DoSignal(c), d)
  {
    hide Placed, MonitorsOk, MoveOne, Rescheduled, Dispatched, HasIdle, MonitorsOkBut;
    GoodParts(s, idle);
    if Waiters(s, c) != [] {
      MoveOneOk(s, c, idle);
      MoveOneWaiters(s, c, d);
      RescheduledWaiters(MoveOne(s, c).0, d);
    }
  }

  lemma BroadcastWaits(s: System, c: int, d: int, idle: int)
    requires Good(s, idle)
    ensures Waited(s, DoBroadcast(c), d)
  {
    hide Placed, MonitorsOk, MoveAll, Rescheduled, Dispatched, HasIdle, MonitorsOkBut;
    GoodParts(s, idle);
    MoveAllOk(s, c, idle);
    if d != c {
      MoveAllWaiters(s, c, d);
    }
    RescheduledWaiters(MoveAll(s, c).0, d);
  }

  lemma OtherWaits(s: System, op: Op, d: int, idle: int)
    requires Good(s, idle) && Permitted(s, Other(op), idle)
    ensures Waited(s, Other(op), d)
  {
    var k := s.kernel;
    hide Placed, MonitorsOk, Schedule, Calmer, Release, ReleaseAll, SetPrio;
    match op {
      case Block(q) =>
        EnqueueKeeps(k, q);
        ScheduleCalm(Enqueue(k, Caller(s), q));
      case Wake(q) =>
        ReleaseKeeps(k, q);
        ReleaseCalm(k, q);
        ScheduleCalm(Release(k, q));
      case WakeAll(q) =>
        ReleaseAllInOrder(k, q, 0);
        ReleaseAllCalm(k, q);
        ScheduleCalm(ReleaseAll(k, q));
      case Change(t, prio) =>
        SetPrioCalm(k, t, prio, idle);
      case Start(t, asked) =>
        CreateKeeps(k, t, asked);
        ScheduleCalm(Create(k, t, asked));
    }
  }

  lemma CallWaits(s: System, call: Call, d: int, idle: int)
    requires Good(s, idle) && Permitted(s, call, idle)
    ensures Waited(s, call, d)
  {
    hide *;
    match call
    case DoLock(m) => LockWaits(s, m, d, idle);
    case DoUnlock(m) => UnlockWaits(s, m, d, idle);
    case DoWait(m, c) => WaitWaits(s, m, c, d, idle);
    case DoSignal(c) => SignalWaits(s, c, d, idle);
    case DoBroadcast(c) => BroadcastWaits(s, c, d, idle);
    case Other(op) => OtherWaits(s, op, d, idle);
  }

  /** The caller of a wait that is not refused is blocked on the condition it asked for, and comes back to the
      monitor it gave up; it is refused exactly for callers who are not the owner, and then changes nothing. */
  lemma WaitEffect(s: System, m: int, c: int, idle: int)
    requires Good(s, idle) && Permitted(s, DoWait(m, c), idle)
    ensures var a, (s', ok) := Caller(s), Wait(s, Caller(s), m, c);
            && (ok <==> Mon(s, m).owner == Some(a))
            && (!ok ==> s' == s)
            && (ok ==>
                  && Waiters(s', c) == Waiters(s, c) + [a]
                  && Th(s'.kernel, a).qdata == m
                  && Th(s'.kernel, a).status.Waiting? && Th(s'.kernel, a).queue == Some(ConditionQ(c)))
  {
    hide Placed, MonitorsOk, PassOn, Rescheduled, Dispatched, HasIdle, MonitorsOkBut, Suspended, Waiters;
    WaitWaits(s, m, c, c, idle);
    if Mon(s, m).owner == Some(Caller(s)) {
      var a, s1 := Caller(s), Suspended(s, Caller(s), m, c);
      WaitParts(s, m, c, idle);
      SuspendedThread(s, a, m, c);
      PassedThread(s1, m, c, a);
      RescheduledThread(PassOn(s1, m), a);
    }
  }

  /** A free monitor is the caller's; at one that is locked the caller waits, the last at its entrance. */
  lemma LockEffect(s: System, m: int, idle: int)
    requires Good(s, idle) && Permitted(s, DoLock(m), idle)
    ensures var a, s' := Caller(s), Lock(s, Caller(s), m);
            if Mon(s, m).lock then
              && s'.monitors == s.monitors && Entrance(s', m) == Entrance(s, m) + [a]
              && Th(s'.kernel, a).status.Waiting? && Th(s'.kernel, a).queue == Some(EntranceQ(m))
            else
              && s'.kernel == s.kernel && s'.monitors == s.monitors[m := Monitor(true, Some(a))]
  {
    if Mon(s, m).lock {
      var s1 := s.(kernel := Enqueue(s.kernel, Caller(s), EntranceQ(m)));
      EnqueueKeeps(s.kernel, EntranceQ(m));
      RescheduledThread(s1, Caller(s));
      ScheduleCalm(s1.kernel);
    }
    hide Placed, MonitorsOk, Schedule;
  }

  lemma SuspendedThread(s: System, a: int, m: int, c: int)
    requires a in s.kernel.threads
    ensures var th := Th(Suspended(s, a, m, c).kernel, a);
            th.qdata == m && th.status.Waiting? && th.queue == Some(ConditionQ(c))
  {
  }

  lemma PassedThread(s: System, m: int, c: int, a: int)
    requires Placed(s.kernel) && Th(s.kernel, a).queue == Some(ConditionQ(c))
    ensures Th(PassOn(s, m).kernel, a) == Th(s.kernel, a)
  {
    NotAtEntrance(s.kernel, m, c, a);
    hide Without, Placed;
  }

  lemma NotAtEntrance(k: Kernel, m: int, c: int, a: int)
    requires Placed(k) && Th(k, a).queue == Some(ConditionQ(c))
    ensures a !in Members(k, EntranceQ(m))
  {
    assert a in Members(k, EntranceQ(m)) <==> Belongs(Th(k, a), EntranceQ(m));
  }

  lemma RescheduledThread(s: System, a: int)
    requires Placed(s.kernel) && Th(s.kernel, a).status.Waiting?
    ensures Th(Rescheduled(s).kernel, a) == Th(s.kernel, a)
  {
    ScheduleLeavesWaiting(s.kernel, a);
    hide Schedule, Placed;
  }

  // ---------------------------------------------------------------- runs

  function Signals(calls: seq<Call>, c: int): nat {
    if calls == [] then 0 else (if calls[0] == DoSignal(c) then 1 else 0) + Signals(calls[1..], c)
  }

  ghost predicate NoBroadcast(calls: seq<Call>, c: int) {
    forall i | 0 <= i < |calls| :: calls[i] != DoBroadcast(c)
  }

  /** The caller, if the call makes it wait on the condition. */
  function Comer(s: System, call: Call, c: int): seq<int> {
    if call.DoWait? && call.c == c && Mon(s, call.m).owner == Some(Caller(s)) then [Caller(s)] else []
  }

  /** The threads that have come to wait on the condition, in order. */
  function Comers(s: System, calls: seq<Call>, c: int): seq<int>
    decreases |calls|
  {
    if calls == [] then [] else Comer(s, calls[0], c) + Comers(After(s, calls[0]), calls[1..], c)
  }

  /** First come, first served: over every run without a broadcast, n signals take the first n waiters off the
      condition, in order: whoever was at position i has left it after exactly i + 1 signals. Those that have
      come since are behind the rest, in order. */
  lemma {:induction false} FirstComeFirstServed(s: System, calls: seq<Call>, c: int, idle: int)
    requires Good(s, idle) && AllPermitted(s, calls, idle) && NoBroadcast(calls, c)
    requires Signals(calls, c) <= |Waiters(s, c)|
    ensures Waiters(RunCalls(s, calls), c) == Waiters(s, c)[Signals(calls, c)..] + Comers(s, calls, c)
    decreases |calls|
  {
    hide *;
    RunParts(s, calls, c, idle);
    if calls == [] {
      assert Waiters(s, c)[0..] + [] == Waiters(s, c);
    } else {
      var s1, rest := After(s, calls[0]), calls[1..];
      CallGood(s, calls[0], idle);
      CallWaits(s, calls[0], c, idle);
      OneCall(s, calls[0], c);
      FirstComeFirstServed(s1, rest, c, idle);
      Shifted(Waiters(s, c), Waiters(s1, c), if calls[0] == DoSignal(c) then 1 else 0, Comer(s, calls[0], c),
              Signals(rest, c), Comers(s1, rest, c));
    }
  }

  lemma RunParts(s: System, calls: seq<Call>, c: int, idle: int)
    requires AllPermitted(s, calls, idle) && NoBroadcast(calls, c)
    ensures calls == [] ==> RunCalls(s, calls) == s && Signals(calls, c) == 0 && Comers(s, calls, c) == []
    ensures calls != [] ==>
              var s1, rest := After(s, calls[0]), calls[1..];
              && Permitted(s, calls[0], idle) && AllPermitted(s1, rest, idle)
              && NoBroadcast(rest, c) && calls[0] != DoBroadcast(c)
              && RunCalls(s, calls) == RunCalls(s1, rest)
              && Signals(calls, c) == (if calls[0] == DoSignal(c) then 1 else 0) + Signals(rest, c)
              && Comers(s, calls, c) == Comer(s, calls[0], c) + Comers(s1, rest, c)
  {
    hide After, Permitted, Comer;
  }

  lemma OneCall(s: System, call: Call, c: int)
    requires Waited(s, call, c) && call != DoBroadcast(c)
    ensures var w := Waiters(s, c);
            Waiters(After(s, call), c) ==
            (if call == DoSignal(c) && w != [] then w[1..] else w) + Comer(s, call, c)
  {
    hide After, Waiters;
  }

  lemma Shifted(w: seq<int>, w1: seq<int>, k: nat, comer: seq<int>, n: nat, comers: seq<int>)
    requires k + n <= |w| && w1 == w[k..] + comer
    ensures w1[n..] + comers == w[k + n..] + (comer + comers)
  {
  }

  /** A broadcast empties the condition for those that come after it. */
  lemma AfterBroadcast(s: System, calls: seq<Call>, c: int, idle: int)
    requires Good(s, idle) && AllPermitted(s, [DoBroadcast(c)] + calls, idle) && NoBroadcast(calls, c)
    requires Signals(calls, c) == 0
    ensures var s1 := Broadcast(s, c);
            Waiters(s1, c) == [] && Waiters(RunCalls(s1, calls), c) == Comers(s1, calls, c)
  {
    hide Good, Waiters, Broadcast, RunCalls, Comers, Permitted;
    assert ([DoBroadcast(c)] + calls)[1..] == calls;
    BroadcastGood(s, c, idle);
    FirstComeFirstServed(Broadcast(s, c), calls, c, idle);
  }
}
