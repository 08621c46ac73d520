/** EDF threads and the dispatcher together, over whole runs (kernel/sched_edf.c:125-434, kernel/sched.c:99-132,
    kernel/thread.c:253-296). */
module EdfRuns {
  import opened Sequences
  import opened Time
  import opened Wrappers
  import opened ThreadModel
  import opened EdfModel

  /** Where EDF threads wait for their next period. */
  const EDF_WAIT: WaitQueue := WaitQ(0)

  // ---------------------------------------------------------------- the dispatcher with its hooks

  /** ksched_deactivate_thread: for an EDF thread, one that has a deadline, the hook is k_edf_schedule. */
  function Deactivate(e: Edf, t: int): Edf {
    if t !in e.activated then e
    else
      var e' := if t in e.deadlines then Reschedule(e).0 else e;
      e'.(activated := e'.activated - {t})
  }

  /** The part of kthreads_schedule that changes the active thread. */
  function Switch(e: Edf): Edf {
    var k := DispatchTop(Preempted(e.kernel));
    e.(kernel := k, activated := e.activated + if k.active.Some? then {k.active.value} else {})
  }

  /** kthreads_schedule */
  function Dispatch(e: Edf): Edf {
    if Stays(e.kernel) then e
    else Switch(if e.kernel.active.Some? then Deactivate(e, e.kernel.active.value) else e)
  }

  // ---------------------------------------------------------------- what holds between calls

  /** k_edf_schedule has nothing to change. */
  predicate Settled(e: Edf) {
    !Reschedule(e).1
  }

  function Waiters(k: Kernel): seq<int> {
    Members(k, EDF_WAIT)
  }

  /** The same threads are in the queues of EDF threads. */
  predicate SameQueues(k: Kernel, k': Kernel) {
    Members(k', EdfReadyQ) == Members(k, EdfReadyQ) && Waiters(k') == Waiters(k)
  }

  /** EDF threads have deadlines, those that wait for their period do not have the turn; the idle thread has no
      deadline and never waits. */
  ghost predicate Eligible(e: Edf, idle: int) {
    && (e.active.Some? ==> e.active.value in e.deadlines)
    && (forall t | t in e.Ready() :: t in e.deadlines)
    && (forall t | t in Waiters(e.kernel) :: t in e.deadlines && e.active != Some(t))
    && idle !in e.deadlines
    && HasIdle(e.kernel, idle)
  }

  ghost predicate InPlace(e: Edf, idle: int) {
    Valid(e) && Eligible(e, idle)
  }

  ghost predicate Good(e: Edf, idle: int) {
    && InPlace(e, idle)
    && Dispatched(e.kernel) && e.kernel.active.value in e.activated
    && Settled(e)
  }

  lemma SameSettled(e: Edf, e': Edf)
    requires e'.active == e.active && e'.deadlines == e.deadlines && e'.Ready() == e.Ready()
    ensures Settled(e') == Settled(e)
  {
    hide Earliest;
  }

  /** Nothing to change means that the thread let run has the earliest deadline, and that without one nobody waits. */
  lemma SettledMeans(e: Edf)
    requires Settled(e)
    ensures e.active.None? ==> e.Ready() == []
    ensures e.active.Some? ==> forall t | t in e.Ready() :: NotLater(e.deadlines, e.active.value, t)
  {
    if e.Ready() != [] {
      ChoiceIsEarliest(e);
      hide Choice, NotLater;
      if e.active.Some? {
        forall t | t in e.Ready() ensures NotLater(e.deadlines, e.active.value, t) {
          var i :| 0 <= i < |e.Ready()| && e.Ready()[i] == t;
        }
      }
    }
  }

  // ---------------------------------------------------------------- one call of k_edf_schedule

  lemma RescheduleKeeps(e: Edf, idle: int)
    requires InPlace(e, idle)
    ensures var e' := Reschedule(e).0;
            && InPlace(e', idle) && Settled(e') && e'.kernel.active == e.kernel.active
            && (Running(e'.kernel) && Running(e.kernel) ==>
                  (e.kernel.active.value in e.activated ==> e'.kernel.active.value in e'.activated))
  {
    hide Choice, ReadyAfter, LevelLeft, Reschedule;
    var e' := Reschedule(e).0;
    SecondCallChangesNothing(e);
    SettledIs(e);
    if Reschedule(e).1 {
      HandOver(e);
      NotReadyAfter(e);
      InOneQueue(e.kernel, Choice(e));
      RescheduleThread(e, idle);
      if e.kernel.active.Some? {
        RescheduleThread(e, e.kernel.active.value);
      }
    }
  }

  lemma InOneQueue(k: Kernel, t: int)
    requires Placed(k)
    ensures t in Members(k, EdfReadyQ) ==> t !in Waiters(k)
  {
    QueuedIff(k, t, EdfReadyQ);
    QueuedIff(k, t, EDF_WAIT);
  }

  /** The record of a thread that is neither let run nor waits to be is not touched; the one let run does not stay
      active. */
  lemma RescheduleThread(e: Edf, t: int)
    requires Valid(e) && Reschedule(e).1
    ensures var e' := Reschedule(e).0;
            && e'.kernel.active == e.kernel.active && e.kernel.threads.Keys <= e'.kernel.threads.Keys
            && (t !in e.Ready() && e.active != Some(t) ==> Th(e'.kernel, t) == Th(e.kernel, t))
            && (e.active == Some(t) ==> !Th(e'.kernel, t).status.Active?)
            && (e.active != Some(t) ==> (t in e'.activated <==> t in e.activated))
  {
    ChoiceIsEarliest(e);
    hide Without, Choice, Placed;
  }

  // ---------------------------------------------------------------- dispatching

  lemma DeactivateKeeps(e: Edf, idle: int, t: int)
    requires InPlace(e, idle)
    requires Settled(e) || (t in e.activated && t in e.deadlines)
    ensures InPlace(Deactivate(e, t), idle) && Settled(Deactivate(e, t))
  {
    hide *;
    DeactivateIs(e, t);
    RescheduleKeeps(e, idle);
    SettledIs(e);
    FlagsAside(e, e.activated - {t}, idle);
    FlagsAside(Reschedule(e).0, Reschedule(e).0.activated - {t}, idle);
  }

  lemma DeactivateIs(e: Edf, t: int)
    ensures var e' := Reschedule(e).0;
            Deactivate(e, t) ==
            if t !in e.activated then e
            else if t in e.deadlines then e'.(activated := e'.activated - {t})
            else e.(activated := e.activated - {t})
  {
    hide Reschedule;
  }

  lemma SettledIs(e: Edf)
    ensures Settled(e) <==> !Reschedule(e).1
    ensures Settled(e) ==> Reschedule(e).0 == e
  {
    hide Choice;
  }

  lemma FlagsAside(e: Edf, activated: set<int>, idle: int)
    ensures InPlace(e, idle) ==> InPlace(e.(activated := activated), idle)
    ensures Settled(e.(activated := activated)) == Settled(e)
  {
    SameSettled(e, e.(activated := activated));
    hide Placed, Settled, HasIdle;
  }

  lemma SwitchGood(e: Edf, idle: int)
    requires InPlace(e, idle) && Settled(e)
    ensures Good(Switch(e), idle)
  {
    hide *;
    InPlaceParts(e, idle);
    var k := Preempted(e.kernel);
    PreemptedKeeps(e.kernel);
    PreemptedParts(e.kernel, idle);
    IdleRuns(k, idle);
    RunnableParts(k);
    DispatchTopKeeps(k);
    DispatchTopParts(k, idle);
    SwitchIs(e);
    SwitchedParts(e, Switch(e), idle);
  }

  lemma InPlaceParts(e: Edf, idle: int)
    requires InPlace(e, idle)
    ensures Placed(e.kernel) && HasIdle(e.kernel, idle)
  {
    hide Placed, HasIdle;
  }

  lemma PreemptedParts(k: Kernel, idle: int)
    requires HasIdle(k, idle)
    ensures HasIdle(Preempted(k), idle)
    ensures SameQueues(k, Preempted(k))
    ensures k.threads.Keys <= Preempted(k).threads.Keys
  {
  }

  lemma RunnableParts(k: Kernel)
    requires Runnable(k) && !Running(k)
    ensures Top(k, LEVELS) >= 0
  {
    hide Running, Top;
  }

  lemma DispatchTopParts(k: Kernel, idle: int)
    requires HasIdle(k, idle)
    ensures HasIdle(DispatchTop(k), idle)
    ensures SameQueues(k, DispatchTop(k))
    ensures k.threads.Keys <= DispatchTop(k).threads.Keys
  {
    hide Without;
  }

  lemma SwitchIs(e: Edf)
    ensures var k := DispatchTop(Preempted(e.kernel));
            && Switch(e).kernel == k && Switch(e).active == e.active && Switch(e).deadlines == e.deadlines
            && (k.active.Some? ==> k.active.value in Switch(e).activated)
            && (SameQueues(e.kernel, Preempted(e.kernel)) && SameQueues(Preempted(e.kernel), k) ==>
                  SameQueues(e.kernel, Switch(e).kernel))
  {
    hide DispatchTop, Preempted;
  }

  lemma SwitchedParts(e: Edf, e': Edf, idle: int)
    requires InPlace(e, idle) && Settled(e)
    requires e'.active == e.active && e'.deadlines == e.deadlines && SameQueues(e.kernel, e'.kernel)
    requires e.kernel.threads.Keys <= e'.kernel.threads.Keys
    requires Placed(e'.kernel) && Dispatched(e'.kernel) && HasIdle(e'.kernel, idle)
    requires e'.kernel.active.Some? ==> e'.kernel.active.value in e'.activated
    ensures Good(e', idle)
  {
    SameSettled(e, e');
    hide Placed, HasIdle, Settled;
  }

  /** The dispatcher settles the EDF threads, or finds them settled. */
  lemma DispatchGood(e: Edf, idle: int)
    requires InPlace(e, idle)
    requires Settled(e) || (var t := e.kernel.active;
                            !Stays(e.kernel) && t.Some? && t.value in e.activated && t.value in e.deadlines)
    requires Stays(e.kernel) ==> e.kernel.active.Some? && e.kernel.active.value in e.activated
    ensures Good(Dispatch(e), idle)
  {
    hide *;
    DispatchIs(e);
    InPlaceParts(e, idle);
    if Stays(e.kernel) {
      StaysDispatched(e.kernel, idle);
      SameQueuesAgain(e.kernel);
      SwitchedParts(e, e, idle);
    } else if e.kernel.active.Some? {
      DeactivateKeeps(e, idle, e.kernel.active.value);
      SwitchGood(Deactivate(e, e.kernel.active.value), idle);
    } else {
      SwitchGood(e, idle);
    }
  }

  lemma SameQueuesAgain(k: Kernel)
    ensures SameQueues(k, k)
  {
  }

  lemma StaysDispatched(k: Kernel, idle: int)
    requires Placed(k) && HasIdle(k, idle) && Stays(k)
    ensures Dispatched(k)
  {
    hide *;
    IdleRuns(k, idle);
    ScheduleDispatches(k);
    StaysIs(k);
  }

  lemma StaysIs(k: Kernel)
    requires Stays(k)
    ensures Schedule(k) == k
  {
    hide Stays, Preempted, DispatchTop;
  }

  lemma DispatchIs(e: Edf)
    ensures Dispatch(e) ==
            if Stays(e.kernel) then e
            else Switch(if e.kernel.active.Some? then Deactivate(e, e.kernel.active.value) else e)
  {
  }

  // ---------------------------------------------------------------- events

  /** A call that does not concern EDF; EDF_SET, EDF_WAIT and EDF_EXIT by the active thread; the alarms for a thread's
      period and for its deadline. `missed`: the deadline has passed; `late`: the
      time of the next run has passed, so the thread gets a new deadline; `come`: that run has come already. */
  datatype Event =
    | Other(op: Op)
    | Adopt(deadline: Time)
    | Wait(deadline: Time, missed: bool, late: bool, come: bool)
    | Period(t: int, missed: bool)
    | Overdue(t: int, missed: bool)
    | Leave(missed: bool)

  /** What a call does before it comes to kthreads_schedule. */
  function Entered(k: Kernel, op: Op): Kernel {
    match op
    case Block(q) => if k.active.Some? then Enqueue(k, k.active.value, q) else k
    case Wake(q) => Release(k, q)
    case WakeAll(q) => ReleaseAll(k, q)
    case Start(t, asked) => Create(k, t, asked)
    case Change(t, prio) =>
      match Th(k, t).status
      case Active => MoveToReady(WithPrio(k, t, prio), t, true)
      case Ready => MoveToReady(WithPrio(Take(k, ReadyQ(Th(k, t).prio), t), t, prio), t, true)
      case _ => WithPrio(k, t, prio)
  }

  predicate Dispatches(k: Kernel, op: Op) {
    op.Change? ==> CanRun(k, op.t)
  }

  /** Without EDF threads it is the step of the dispatcher. */
  lemma EnteredIsStep(k: Kernel, op: Op)
    requires k.active.Some?
    ensures ThreadModel.Step(k, op) == if Dispatches(k, op) then Schedule(Entered(k, op)) else Entered(k, op)
  {
    hide Schedule, Take, MoveToReady, Release, ReleaseAll, Create;
  }

  function Caller(e: Edf): int {
    if e.kernel.active.Some? then e.kernel.active.value else 0
  }

  /** The thread gives up its turn. */
  function GiveUp(e: Edf, t: int): Edf {
    e.(active := if e.active == Some(t) then None else e.active)
  }

  function WithDeadline(e: Edf, t: int, deadline: Time): Edf {
    GiveUp(e, t).(deadlines := e.deadlines[t := deadline])
  }

  /** k_edf_schedule, and kthreads_schedule if it changed something. */
  function Arrange(e: Edf): Edf {
    if Reschedule(e).1 then Dispatch(Reschedule(e).0) else e
  }

  /** The thread joins the EDF threads that are ready. */
  function Joined(e: Edf, t: int): Edf {
    e.(kernel := Enqueue(Take(e.kernel, EDF_WAIT, t), t, EdfReadyQ))
  }

  function Step(e: Edf, event: Event): Edf {
    var k, t := e.kernel, Caller(e);
    match event
    case Other(op) =>
      var e1 := e.(kernel := Entered(k, op));
      if Dispatches(k, op) then Dispatch(e1) else e1
    case Adopt(deadline) => WithDeadline(e, t, deadline)
    case Wait(deadline, missed, late, come) =>
      var e1 := if late then WithDeadline(e, t, deadline) else GiveUp(e, t);
      if missed then GiveUp(e, t)
      else Dispatch(e1.(kernel := Enqueue(k, t, if come then EdfReadyQ else EDF_WAIT)))
    case Overdue(u, missed) =>
      if u !in Waiters(k) then e
      else if !missed then e.(kernel := Take(k, EDF_WAIT, u))
      else Dispatch(e.(kernel := MoveToReady(Take(k, EDF_WAIT, u), u, true)))
    case Period(u, missed) =>
      if u !in Waiters(k) then e
      else if missed then e.(kernel := Take(k, EDF_WAIT, u))
      else Arrange(Joined(e, u))
    case Leave(missed) =>
      if missed then GiveUp(e, t) else Arrange(GiveUp(e, t).(deadlines := e.deadlines - {t}))
  }

  predicate TurnFree(e: Edf, t: int) {
    e.active == Some(t) ==> e.Ready() == []
  }

  /** Calls that do not concern EDF leave its queues alone. */
  predicate Apart(op: Op) {
    op.Block? || op.Wake? || op.WakeAll? ==> op.q != EdfReadyQ && op.q != EDF_WAIT
  }

  /** What keeps everything in order. The idle thread is no EDF thread, a caller of EDF_WAIT and EDF_EXIT is one, and
      deadlines are found missed by the alarm for them only; GiveUpIff, PeriodIff and OverdueIff say what becomes of
      the rest. */
  predicate Permitted(e: Edf, event: Event, idle: int) {
    var k, t := e.kernel, Caller(e);
    match event
    case Other(op) => Allowed(k, op, idle) && Apart(op)
    case Adopt(_) => t != idle && TurnFree(e, t)
    case Wait(_, missed, _, _) => t in e.deadlines && (missed ==> TurnFree(e, t))
    case Period(u, missed) => u in Waiters(k) ==> !missed
    case Overdue(u, missed) => u in Waiters(k) ==> missed
    case Leave(missed) => t in e.deadlines && (missed ==> TurnFree(e, t))
  }

  // ---------------------------------------------------------------- the events keep everything in order

  lemma GoodParts(e: Edf, idle: int)
    requires Good(e, idle)
    ensures InPlace(e, idle) && Placed(e.kernel) && Settled(e) && Safe(e.kernel, idle) && Running(e.kernel)
    ensures Dispatched(e.kernel)
    ensures e.kernel.active == Some(Caller(e)) && Caller(e) in e.activated && Caller(e) in e.kernel.threads
    ensures Th(e.kernel, Caller(e)).status.Active? && Caller(e) !in e.Ready() && Caller(e) !in Waiters(e.kernel)
  {
    NotQueued(e.kernel, Caller(e), EdfReadyQ);
    NotQueued(e.kernel, Caller(e), EDF_WAIT);
    hide Placed, HasIdle, Settled;
  }

  lemma NotQueued(k: Kernel, t: int, q: Queue)
    requires Placed(k) && !Blocked(Th(k, t))
    ensures t !in Members(k, q)
  {
    QueuedIff(k, t, q);
  }

  lemma {:induction false} ReleaseAllApart(k: Kernel, q: Queue, r: Queue)
    requires !q.ReadyQ? && !r.ReadyQ? && r != q
    ensures var k' := ReleaseAll(k, q);
            Members(k', r) == Members(k, r) && k'.active == k.active && k.threads.Keys <= k'.threads.Keys
    decreases |Members(k, q)|
  {
    hide Release, ReleaseAll, Members;
    ReleaseAllStep(k, q);
    if Members(k, q) != [] {
      ReleaseShrinks(k, q);
      ReleaseApart(k, q, r);
      ReleaseAllApart(Release(k, q), q, r);
    }
  }

  lemma EnteredKeeps(k: Kernel, op: Op, idle: int)
    requires Safe(k, idle) && Allowed(k, op, idle) && Apart(op)
    ensures var k' := Entered(k, op);
            && Placed(k') && HasIdle(k', idle) && (!Dispatches(k, op) ==> Dispatched(k'))
            && k'.active == k.active && SameQueues(k, k') && k.threads.Keys <= k'.threads.Keys
  {
    hide Placed, Release, ReleaseAll, Schedule;
    match op {
      case Block(q) =>
        EnqueueKeeps(k, q);
      case Wake(q) =>
        ReleaseKeeps(k, q);
        ReleaseIdle(k, q, idle);
        ReleaseApart(k, q, EdfReadyQ);
        ReleaseApart(k, q, EDF_WAIT);
      case WakeAll(q) =>
        ReleaseAllInOrder(k, q, 0);
        ReleaseAllIdle(k, q, idle);
        ReleaseAllApart(k, q, EdfReadyQ);
        ReleaseAllApart(k, q, EDF_WAIT);
      case Start(t, asked) =>
        CreateKeeps(k, t, asked);
      case Change(t, prio) =>
        ChangeKeeps(k, t, prio, idle);
    }
  }

  lemma ReleaseApart(k: Kernel, q: Queue, r: Queue)
    requires !q.ReadyQ? && !r.ReadyQ? && r != q
    ensures var k' := Release(k, q);
            Members(k', r) == Members(k, r) && k'.active == k.active && k.threads.Keys <= k'.threads.Keys
  {
    hide Without;
  }

  lemma ChangeKeeps(k: Kernel, t: int, prio: nat, idle: int)
    requires Safe(k, idle) && t in k.threads && prio < LEVELS
    ensures var k' := Entered(k, Change(t, prio));
            && Placed(k') && HasIdle(k', idle) && (!CanRun(k, t) ==> Dispatched(k'))
            && k'.active == k.active && SameQueues(k, k') && k.threads.Keys <= k'.threads.Keys
  {
    hide Placed, PlacedBut, Without;
    var th := k.threads[t];
    match th.status {
      case Active =>
        OutOfQueues(k, t);
        RequeueKeeps(k, t, prio);
      case Ready =>
        ReadyQueued(k, t);
        TakeKeeps(k, ReadyQ(th.prio), t);
        RequeueKeeps(Take(k, ReadyQ(th.prio), t), t, prio);
      case _ =>
        PrioKeeps(k, t, prio);
    }
  }

  lemma ReadyQueued(k: Kernel, t: int)
    requires Placed(k) && t in k.threads && k.threads[t].status.Ready?
    ensures t in Members(k, ReadyQ(k.threads[t].prio))
  {
    ThreadFacts(k, t);
    assert Belongs(Th(k, t), ReadyQ(k.threads[t].prio));
  }

  lemma KernelParts(e: Edf, k: Kernel, idle: int)
    requires InPlace(e, idle) && Placed(k) && HasIdle(k, idle) && SameQueues(e.kernel, k)
    requires e.kernel.threads.Keys <= k.threads.Keys
    ensures InPlace(e.(kernel := k), idle) && Settled(e.(kernel := k)) == Settled(e)
  {
    SameSettled(e, e.(kernel := k));
    hide Placed, HasIdle, Settled;
  }

  lemma OtherGood(e: Edf, op: Op, idle: int)
    requires Good(e, idle) && Permitted(e, Other(op), idle)
    ensures Good(Step(e, Other(op)), idle)
  {
    hide Good, InPlace, Eligible, Valid, Settled, Reschedule, Dispatch, Arrange, Placed, Dispatched, HasIdle, Safe,
      Running, Stays, Take, MoveToReady, Enqueue, Joined, Members, Entered, Dispatches, Allowed;
    GoodParts(e, idle);
    EnteredKeeps(e.kernel, op, idle);
    KernelParts(e, Entered(e.kernel, op), idle);
    var e1 := e.(kernel := Entered(e.kernel, op));
    if Dispatches(e.kernel, op) {
      DispatchGood(e1, idle);
    } else {
      GoodIs(e1, idle);
    }
  }

  lemma GoodIs(e: Edf, idle: int)
    requires InPlace(e, idle) && Dispatched(e.kernel) && Caller(e) in e.activated && Settled(e)
    ensures Good(e, idle)
  {
    hide InPlace, Settled;
  }

  lemma ArrangeGood(e: Edf, idle: int)
    requires InPlace(e, idle) && Dispatched(e.kernel) && Caller(e) in e.activated
    ensures Good(Arrange(e), idle)
  {
    RescheduleKeeps(e, idle);
    SettledIs(e);
    var e1 := Reschedule(e).0;
    StaysRuns(e1.kernel);
    hide Good, InPlace, Settled, Reschedule, Dispatch, Stays;
    if Reschedule(e).1 {
      DispatchGood(e1, idle);
    } else {
      GoodIs(e, idle);
    }
  }

  lemma StaysRuns(k: Kernel)
    ensures Stays(k) ==> Running(k)
  {
  }

  /** Giving up its turn leaves the EDF threads settled exactly when it was not the thread's turn, or nobody waits for
      it. */
  lemma GiveUpIff(e: Edf, t: int)
    requires Settled(e)
    ensures Settled(GiveUp(e, t)) <==> TurnFree(e, t)
  {
    var e1 := GiveUp(e, t);
    if e.active == Some(t) {
      hide Choice;
    } else {
      SameSettled(e, e1);
      hide Settled;
    }
  }

  lemma {:induction false} EarliestFrame(d: Deadlines, d': Deadlines, first: int, queue: seq<int>)
    requires Deadline(d', first) == Deadline(d, first)
    requires forall i | 0 <= i < |queue| :: Deadline(d', queue[i]) == Deadline(d, queue[i])
    ensures Earliest(d', first, queue) == Earliest(d, first, queue)
    decreases |queue|
  {
    hide Deadline;
    if queue != [] {
      EarliestFrame(d, d', if NotLater(d, first, queue[0]) then first else queue[0], queue[1..]);
    }
  }

  /** The deadline of a thread that neither has the turn nor waits for it does not matter. */
  lemma DeadlineAside(e: Edf, t: int, deadlines: Deadlines)
    requires t !in e.Ready() && e.active != Some(t)
    requires forall u | u != t :: Deadline(deadlines, u) == Deadline(e.deadlines, u)
    ensures Settled(e.(deadlines := deadlines)) == Settled(e)
  {
    if e.Ready() != [] {
      forall i | 0 <= i < |e.Ready()| ensures e.Ready()[i] != t {
        assert e.Ready()[i] in e.Ready();
      }
      if e.active.Some? {
        EarliestFrame(e.deadlines, deadlines, e.active.value, e.Ready());
      } else {
        EarliestFrame(e.deadlines, deadlines, e.Ready()[0], e.Ready()[1..]);
      }
    }
    hide Earliest, Deadline, Members;
  }

  /** What becomes of everything but the deadlines and the turn does not depend on them. */
  lemma TurnParts(e: Edf, e': Edf, idle: int)
    requires InPlace(e, idle) && e'.kernel == e.kernel && idle !in e'.deadlines
    requires e'.active.Some? ==> e'.active == e.active && e'.active.value in e'.deadlines
    requires forall t | t in e.Ready() || t in Waiters(e.kernel) :: t in e'.deadlines
    ensures InPlace(e', idle)
  {
    hide Placed, HasIdle;
  }

  lemma AdoptGood(e: Edf, deadline: Time, idle: int)
    requires Good(e, idle) && Permitted(e, Adopt(deadline), idle)
    ensures Good(Step(e, Adopt(deadline)), idle)
  {
    hide Good, InPlace, Eligible, Valid, Settled, Reschedule, Dispatch, Arrange, Placed, Dispatched, HasIdle, Safe,
      Running, Stays, Take, MoveToReady, Enqueue, Joined, Members, Entered, Dispatches, Allowed;
    GoodParts(e, idle);
    var t, e1 := Caller(e), GiveUp(e, Caller(e));
    var e2 := WithDeadline(e, t, deadline);
    DeadlineParts(e, t, deadline, idle);
    GiveUpIff(e, t);
    DeadlineAside(e1, t, e2.deadlines);
    GoodIs(e2, idle);
  }

  lemma DeadlineParts(e: Edf, t: int, deadline: Time, idle: int)
    requires InPlace(e, idle) && t != idle
    ensures InPlace(WithDeadline(e, t, deadline), idle)
  {
    TurnParts(e, WithDeadline(e, t, deadline), idle);
    hide Valid, HasIdle;
  }

  lemma LeaveGood(e: Edf, missed: bool, idle: int)
    requires Good(e, idle) && Permitted(e, Leave(missed), idle)
    ensures Good(Step(e, Leave(missed)), idle)
  {
    hide Good, InPlace, Eligible, Valid, Settled, Reschedule, Dispatch, Arrange, Placed, Dispatched, HasIdle, Safe,
      Running, Stays, Take, MoveToReady, Enqueue, Joined, Members, Entered, Dispatches, Allowed;
    GoodParts(e, idle);
    var t, e1 := Caller(e), GiveUp(e, Caller(e));
    GiveUpIff(e, t);
    LeaveParts(e, t, idle);
    if missed {
      GoodIs(e1, idle);
    } else {
      ArrangeGood(e1.(deadlines := e.deadlines - {t}), idle);
    }
  }

  lemma LeaveParts(e: Edf, t: int, idle: int)
    requires InPlace(e, idle) && t !in e.Ready() && t !in Waiters(e.kernel)
    ensures InPlace(GiveUp(e, t), idle)
    ensures InPlace(GiveUp(e, t).(deadlines := e.deadlines - {t}), idle)
  {
    TurnParts(e, GiveUp(e, t), idle);
    TurnParts(e, GiveUp(e, t).(deadlines := e.deadlines - {t}), idle);
    hide Valid, HasIdle;
  }

  /** An EDF thread without the turn may join either queue, and leave that of those that wait. */
  lemma QueuedParts(e: Edf, k: Kernel, t: int, idle: int)
    requires InPlace(e, idle) && Placed(k) && HasIdle(k, idle) && e.kernel.threads.Keys <= k.threads.Keys
    requires t in e.deadlines && e.active != Some(t)
    requires forall u | u in Members(k, EdfReadyQ) :: u in e.Ready() || u == t
    requires forall u | u in Waiters(k) :: u in Waiters(e.kernel) || u == t
    ensures InPlace(e.(kernel := k), idle)
  {
    hide Placed, HasIdle;
    if e.active.Some? {
      assert e.active.value != t && e.active.value !in e.Ready();
    }
  }

  lemma WaitGood(e: Edf, event: Event, idle: int)
    requires Good(e, idle) && event.Wait? && Permitted(e, event, idle)
    ensures Good(Step(e, event), idle)
  {
    hide Good, InPlace, Eligible, Valid, Settled, Reschedule, Dispatch, Arrange, Placed, Dispatched, HasIdle, Safe,
      Running, Stays, Take, MoveToReady, Enqueue, Joined, Members, Entered, Dispatches, Allowed;
    GoodParts(e, idle);
    var t := Caller(e);
    GiveUpIff(e, t);
    LeaveParts(e, t, idle);
    CallerNotIdle(e, idle);
    DeadlineParts(e, t, event.deadline, idle);
    if event.missed {
      GoodIs(GiveUp(e, t), idle);
    } else {
      var q: WaitQueue := if event.come then EdfReadyQ else EDF_WAIT;
      var e1 := if event.late then WithDeadline(e, t, event.deadline) else GiveUp(e, t);
      var k := Enqueue(e.kernel, t, q);
      EnqueueKeeps(e.kernel, q);
      EnqueueParts(e.kernel, t, q, idle);
      QueuedParts(e1, k, t, idle);
      DispatchGood(e1.(kernel := k), idle);
    }
  }

  lemma CallerNotIdle(e: Edf, idle: int)
    requires InPlace(e, idle)
    ensures forall t | t in e.deadlines :: t != idle
    ensures HasIdle(e.kernel, idle)
  {
    hide Valid, HasIdle;
  }

  lemma EnqueueParts(k: Kernel, t: int, q: WaitQueue, idle: int)
    requires HasIdle(k, idle) && t != idle
    ensures var k' := Enqueue(k, t, q);
            && HasIdle(k', idle) && !Stays(k') == (k.active == Some(t) || !Stays(k)) && k'.active == k.active
            && k.threads.Keys <= k'.threads.Keys
            && Members(k', EdfReadyQ) == Members(k, EdfReadyQ) + (if q == EdfReadyQ then [t] else [])
            && Waiters(k') == Waiters(k) + if q == EDF_WAIT then [t] else []
  {
    SameTop(k, Enqueue(k, t, q), LEVELS);
    hide Top;
  }

  lemma {:induction false} SameTop(k: Kernel, k': Kernel, n: nat)
    requires forall p: nat :: Members(k', ReadyQ(p)) == Members(k, ReadyQ(p))
    ensures Top(k', n) == Top(k, n)
  {
    if n > 0 {
      SameTop(k, k', n - 1);
    }
  }

  lemma JoinedParts(e: Edf, t: int, idle: int)
    requires InPlace(e, idle) && t in Waiters(e.kernel)
    ensures var e1 := Joined(e, t);
            && Placed(e1.kernel) && HasIdle(e1.kernel, idle) && (Dispatched(e.kernel) ==> Dispatched(e1.kernel))
            && e1.kernel.active == e.kernel.active && e.kernel.threads.Keys <= e1.kernel.threads.Keys
            && e1.Ready() == e.Ready() + [t] && (forall u :: u in Waiters(e1.kernel) ==> u in Waiters(e.kernel))
            && t in e.deadlines && e.active != Some(t)
  {
    var k := e.kernel;
    assert Belongs(Th(k, t), EDF_WAIT);
    TakeKeeps(k, EDF_WAIT, t);
    ThreadFacts(k, t);
    PlacedDistinct(k, EDF_WAIT);
    WithoutFacts(Waiters(k), t);
    PutKeeps(Take(k, EDF_WAIT, t), t, Waiting, EdfReadyQ, true);
    hide Placed, PlacedBut, Without;
  }

  lemma PeriodGood(e: Edf, t: int, missed: bool, idle: int)
    requires Good(e, idle) && Permitted(e, Period(t, missed), idle)
    ensures Good(Step(e, Period(t, missed)), idle)
  {
    hide Good, InPlace, Eligible, Valid, Settled, Reschedule, Dispatch, Arrange, Placed, Dispatched, HasIdle, Safe,
      Running, Stays, Take, MoveToReady, Enqueue, Joined, Members, Entered, Dispatches, Allowed;
    GoodParts(e, idle);
    if t in Waiters(e.kernel) {
      JoinedParts(e, t, idle);
      JoinedIs(e, t);
      QueuedParts(e, Joined(e, t).kernel, t, idle);
      ArrangeGood(Joined(e, t), idle);
    }
  }

  lemma RaisedParts(e: Edf, t: int, idle: int)
    requires InPlace(e, idle) && t in Waiters(e.kernel) && Running(e.kernel)
    ensures var k' := MoveToReady(Take(e.kernel, EDF_WAIT, t), t, true);
            && Placed(k') && HasIdle(k', idle) && k'.active == e.kernel.active
            && e.kernel.threads.Keys <= k'.threads.Keys
            && Members(k', EdfReadyQ) == e.Ready() && (forall u :: u in Waiters(k') ==> u in Waiters(e.kernel))
            && t in e.deadlines && e.active != Some(t)
  {
    var k := e.kernel;
    assert Belongs(Th(k, t), EDF_WAIT);
    TakeKeeps(k, EDF_WAIT, t);
    ThreadFacts(k, t);
    PlacedDistinct(k, EDF_WAIT);
    WithoutFacts(Waiters(k), t);
    PutKeeps(Take(k, EDF_WAIT, t), t, Ready, ReadyQ(Th(k, t).prio), true);
    hide Placed, PlacedBut, Without;
  }

  lemma OverdueGood(e: Edf, t: int, idle: int)
    requires Good(e, idle)
    ensures Good(Step(e, Overdue(t, true)), idle)
  {
    hide Good, InPlace, Eligible, Valid, Settled, Reschedule, Dispatch, Arrange, Placed, Dispatched, HasIdle, Safe,
      Running, Stays, Take, MoveToReady, Enqueue, Joined, Members, Entered, Dispatches, Allowed;
    GoodParts(e, idle);
    if t in Waiters(e.kernel) {
      var k := MoveToReady(Take(e.kernel, EDF_WAIT, t), t, true);
      RaisedParts(e, t, idle);
      QueuedParts(e, k, t, idle);
      SameSettled(e, e.(kernel := k));
      DispatchGood(e.(kernel := k), idle);
    }
  }

  lemma JoinedIs(e: Edf, t: int)
    ensures Joined(e, t) == e.(kernel := Joined(e, t).kernel)
  {
  }

  /** The alarm for the period keeps a waiting thread in order exactly when its deadline has not passed: a thread found
      too late is taken out of its queue and put in no other. */
  lemma PeriodIff(e: Edf, t: int, missed: bool, idle: int)
    requires Good(e, idle) && t in Waiters(e.kernel)
    ensures Good(Step(e, Period(t, missed)), idle) <==> !missed
  {
    hide Good, Placed, Arrange, Joined, Take, Waiters;
    if missed {
      Lost(e, t, idle);
    } else {
      PeriodGood(e, t, missed, idle);
    }
  }

  /** That for the deadline does so exactly when it has passed: a thread found waiting in time, the alarm being early,
      is lost in the same way. */
  lemma OverdueIff(e: Edf, t: int, missed: bool, idle: int)
    requires Good(e, idle) && t in Waiters(e.kernel)
    ensures Good(Step(e, Overdue(t, missed)), idle) <==> missed
  {
    hide Good, Placed, Dispatch, MoveToReady, Take, Waiters;
    if missed {
      OverdueGood(e, t, idle);
    } else {
      Lost(e, t, idle);
    }
  }

  lemma OverdueCases(e: Edf, t: int, missed: bool, idle: int)
    requires Good(e, idle) && Permitted(e, Overdue(t, missed), idle)
    ensures Good(Step(e, Overdue(t, missed)), idle)
  {
    hide Good, Placed, Dispatch, MoveToReady, Take, Members;
    if missed {
      OverdueGood(e, t, idle);
    }
  }

  lemma Lost(e: Edf, t: int, idle: int)
    requires Good(e, idle) && t in Waiters(e.kernel)
    ensures !Good(e.(kernel := Take(e.kernel, EDF_WAIT, t)), idle)
  {
    GoodParts(e, idle);
    TakenOut(e.kernel, t);
    GoodPlaced(e.(kernel := Take(e.kernel, EDF_WAIT, t)), idle);
    hide Good, Placed, Take, Waiters;
  }

  lemma GoodPlaced(e: Edf, idle: int)
    ensures Good(e, idle) ==> Placed(e.kernel)
  {
    hide Placed, Eligible, Settled;
  }

  lemma TakenOut(k: Kernel, t: int)
    requires Placed(k) && t in Waiters(k)
    ensures !Placed(Take(k, EDF_WAIT, t))
  {
    var k' := Take(k, EDF_WAIT, t);
    QueuedIff(k, t, EDF_WAIT);
    PlacedDistinct(k, EDF_WAIT);
    WithoutFacts(Waiters(k), t);
    NotPlaced(k', t, EDF_WAIT);
  }

  lemma NotPlaced(k: Kernel, t: int, q: Queue)
    requires Belongs(Th(k, t), q) && t !in Members(k, q)
    ensures !Placed(k)
  {
  }

  lemma QueuedIff(k: Kernel, t: int, q: Queue)
    requires Placed(k)
    ensures t in Members(k, q) <==> Belongs(Th(k, t), q)
  {
  }

  lemma StepGood(e: Edf, event: Event, idle: int)
    requires Good(e, idle) && Permitted(e, event, idle)
    ensures Good(Step(e, event), idle)
  {
    hide *;
    match event
    case Other(op) => OtherGood(e, op, idle);
    case Adopt(deadline) => AdoptGood(e, deadline, idle);
    case Wait(_, _, _, _) => WaitGood(e, event, idle);
    case Overdue(t, missed) => OverdueCases(e, t, missed, idle);
    case Period(t, missed) => PeriodGood(e, t, missed, idle);
    case Leave(missed) => LeaveGood(e, missed, idle);
  }

  // ---------------------------------------------------------------- runs

  function Run(e: Edf, events: seq<Event>): Edf
    decreases |events|
  {
    if events == [] then e else Run(Step(e, events[0]), events[1..])
  }

  predicate AllPermitted(e: Edf, events: seq<Event>, idle: int)
    decreases |events|
  {
    events != [] ==> Permitted(e, events[0], idle) && AllPermitted(Step(e, events[0]), events[1..], idle)
  }

  lemma {:induction false} RunGood(e: Edf, events: seq<Event>, idle: int)
    requires Good(e, idle) && AllPermitted(e, events, idle)
    ensures Good(Run(e, events), idle)
    decreases |events|
  {
    if events != [] {
      StepGood(e, events[0], idle);
      hide Good, Step, Permitted;
      RunGood(Step(e, events[0]), events[1..], idle);
    }
  }

  /** With no EDF thread yet, a safe kernel is where the runs start. */
  lemma StartGood(k: Kernel, idle: int)
    requires Safe(k, idle) && Members(k, EdfReadyQ) == Waiters(k) == []
    ensures Good(Edf(k, None, map[], {k.active.value}), idle)
  {
    hide Placed, HasIdle;
  }

  /** Earliest deadline first, over every run: at every point between calls the EDF thread that has the turn has the
      earliest deadline of all that are ready, and if none has the turn none is ready; it is in no EDF queue itself,
      every thread is in exactly its place, and the running thread is not outranked. */
  lemma EarliestFirst(e: Edf, events: seq<Event>, idle: int)
    requires Good(e, idle) && AllPermitted(e, events, idle)
    ensures var e' := Run(e, events);
            && Safe(e'.kernel, idle)
            && (e'.active.None? ==> e'.Ready() == [])
            && (e'.active.Some? ==>
                  && e'.active.value !in e'.Ready()
                  && forall t | t in e'.Ready() :: NotLater(e'.deadlines, e'.active.value, t))
  {
    RunGood(e, events, idle);
    GoodParts(Run(e, events), idle);
    SettledMeans(Run(e, events));
    hide Run, Settled, NotLater, Placed, HasIdle, Dispatched;
  }

  // ---------------------------------------------------------------- what the events do to the thread they are about

  /** Nobody is lost: whoever was ready among the EDF threads still is, or has the turn; who waits for a period,
      and the deadlines, are left alone. */
  predicate Carries(e: Edf, e': Edf) {
    && Waiters(e'.kernel) == Waiters(e.kernel) && e'.deadlines == e.deadlines
    && forall t | t in e.Ready() :: t in e'.Ready() || e'.active == Some(t)
  }

  lemma RescheduleCarries(e: Edf)
    requires Valid(e)
    ensures Carries(e, Reschedule(e).0)
  {
    if Reschedule(e).1 {
      HandOver(e);
      PlacedDistinct(e.kernel, EdfReadyQ);
      WithoutFacts(e.Ready(), Choice(e));
      hide Choice, LevelLeft, Reschedule, Without, Placed;
    }
  }

  lemma DeactivateCarries(e: Edf, t: int)
    requires Valid(e)
    ensures Carries(e, Deactivate(e, t))
  {
    RescheduleCarries(e);
    hide Reschedule, Valid;
  }

  lemma SwitchCarries(e: Edf, idle: int)
    requires HasIdle(e.kernel, idle)
    ensures Carries(e, Switch(e))
  {
    hide Preempted, DispatchTop;
    PreemptedParts(e.kernel, idle);
    DispatchTopParts(Preempted(e.kernel), idle);
  }

  lemma DispatchCarries(e: Edf, idle: int)
    requires InPlace(e, idle)
    ensures Carries(e, Dispatch(e))
  {
    hide *;
    DispatchIs(e);
    ValidOf(e, idle);
    CarriesSelf(e);
    if !Stays(e.kernel) {
      if e.kernel.active.Some? {
        var t := e.kernel.active.value;
        DeactivateCarries(e, t);
        DeactivatedIdle(e, t, idle);
        SwitchCarries(Deactivate(e, t), idle);
        CarriesOn(e, Deactivate(e, t), Switch(Deactivate(e, t)));
      } else {
        SwitchCarries(e, idle);
      }
    }
  }

  lemma ValidOf(e: Edf, idle: int)
    requires InPlace(e, idle)
    ensures Valid(e) && HasIdle(e.kernel, idle)
  {
    hide Valid, HasIdle;
  }

  lemma CarriesSelf(e: Edf)
    ensures Carries(e, e)
  {
  }

  lemma CarriesOn(e: Edf, e1: Edf, e2: Edf)
    requires Carries(e, e1) && Carries(e1, e2) && (e1.active == e2.active)
    ensures Carries(e, e2)
  {
  }

  lemma DeactivatedIdle(e: Edf, t: int, idle: int)
    requires InPlace(e, idle)
    ensures HasIdle(Deactivate(e, t).kernel, idle) && Switch(Deactivate(e, t)).active == Deactivate(e, t).active
  {
    RescheduleKeeps(e, idle);
    hide Reschedule, Valid, HasIdle, DispatchTop, Preempted;
  }

  /** EDF_SET stores the deadline of the caller, and of no other thread. */
  lemma AdoptEffect(e: Edf, deadline: Time)
    ensures Step(e, Adopt(deadline)).deadlines == e.deadlines[Caller(e) := deadline]
    ensures Step(e, Adopt(deadline)).kernel == e.kernel && Step(e, Adopt(deadline)).active != Some(Caller(e))
  {
  }

  /** EDF_EXIT leaves the caller without one. */
  lemma LeaveEffect(e: Edf, idle: int)
    requires Good(e, idle) && Permitted(e, Leave(false), idle)
    ensures var e' := Step(e, Leave(false));
            && e'.deadlines == e.deadlines - {Caller(e)} && Waiters(e'.kernel) == Waiters(e.kernel)
            && forall t | t in e.Ready() :: t in e'.Ready() || e'.active == Some(t)
  {
    hide Good, InPlace, Eligible, Valid, Settled, Reschedule, Dispatch, Placed, Dispatched, HasIdle, Safe,
      Running, Stays, Members, Waiters, Allowed;
    GoodParts(e, idle);
    var e1 := GiveUp(e, Caller(e)).(deadlines := e.deadlines - {Caller(e)});
    LeaveParts(e, Caller(e), idle);
    ArrangeCarries(e1, idle);
  }

  lemma ArrangeCarries(e: Edf, idle: int)
    requires InPlace(e, idle)
    ensures Carries(e, Arrange(e))
  {
    hide InPlace, Valid, Settled, Reschedule, Dispatch, Waiters, Members;
    ValidOf(e, idle);
    RescheduleCarries(e);
    RescheduleKeeps(e, idle);
    DispatchCarries(Reschedule(e).0, idle);
    SettledKeepsTurn(Reschedule(e).0);
    CarriesSelf(e);
  }

  /** EDF_WAIT: the caller gives up its turn and waits for its next period, or, when that has come, joins the
      EDF threads that are ready, where it may get the turn at once. */
  lemma WaitEffect(e: Edf, deadline: Time, late: bool, come: bool, idle: int)
    requires Good(e, idle) && Permitted(e, Wait(deadline, false, late, come), idle)
    ensures var t, e' := Caller(e), Step(e, Wait(deadline, false, late, come));
            && e'.deadlines == (if late then e.deadlines[t := deadline] else e.deadlines)
            && Waiters(e'.kernel) == Waiters(e.kernel) + (if come then [] else [t])
            && (come ==> t in e'.Ready() || e'.active == Some(t))
  {
    hide Good, InPlace, Eligible, Valid, Settled, Reschedule, Dispatch, Arrange, Placed, Dispatched, HasIdle, Safe,
      Running, Stays, Take, MoveToReady, Enqueue, Joined, Members, Entered, Dispatches, Allowed, Waiters;
    GoodParts(e, idle);
    var t := Caller(e);
    var e1 := WaitingIs(e, deadline, late, come, idle);
    DispatchCarries(e1, idle);
  }

  /** What EDF_WAIT leaves to kthreads_schedule. */
  lemma WaitingIs(e: Edf, deadline: Time, late: bool, come: bool, idle: int) returns (e1: Edf)
    requires Good(e, idle) && Permitted(e, Wait(deadline, false, late, come), idle)
    ensures InPlace(e1, idle) && Step(e, Wait(deadline, false, late, come)) == Dispatch(e1)
    ensures var t := Caller(e);
            && e1.deadlines == (if late then e.deadlines[t := deadline] else e.deadlines)
            && Waiters(e1.kernel) == Waiters(e.kernel) + (if come then [] else [t])
            && (come ==> t in e1.Ready())
  {
    hide Good, InPlace, Eligible, Valid, Settled, Reschedule, Dispatch, Arrange, Placed, Dispatched, HasIdle, Safe,
      Running, Stays, Take, MoveToReady, Enqueue, Joined, Members, Entered, Dispatches, Allowed, Waiters;
    GoodParts(e, idle);
    var t := Caller(e);
    LeaveParts(e, t, idle);
    CallerNotIdle(e, idle);
    DeadlineParts(e, t, deadline, idle);
    var q: WaitQueue := if come then EdfReadyQ else EDF_WAIT;
    var e0 := if late then WithDeadline(e, t, deadline) else GiveUp(e, t);
    var k := Enqueue(e.kernel, t, q);
    EnqueueKeeps(e.kernel, q);
    EnqueueParts(e.kernel, t, q, idle);
    QueuedParts(e0, k, t, idle);
    e1 := e0.(kernel := k);
  }

  lemma SettledKeepsTurn(e: Edf)
    requires Settled(e)
    ensures Dispatch(e).active == e.active
  {
    SettledIs(e);
    hide Reschedule, Stays, DispatchTop, Preempted, Settled;
  }

  /** The alarm for its period makes a waiting thread ready, or gives it the turn at once. */
  lemma PeriodEffect(e: Edf, t: int, idle: int)
    requires Good(e, idle) && t in Waiters(e.kernel)
    ensures var e' := Step(e, Period(t, false));
            && e'.deadlines == e.deadlines
            && (t in e'.Ready() || e'.active == Some(t))
  {
    hide Good, InPlace, Eligible, Valid, Settled, Reschedule, Dispatch, Placed, Dispatched, HasIdle, Safe,
      Running, Stays, Take, MoveToReady, Enqueue, Joined, Members, Entered, Dispatches, Allowed, Waiters;
    GoodParts(e, idle);
    var e1 := Joined(e, t);
    JoinedParts(e, t, idle);
    JoinedIs(e, t);
    QueuedParts(e, e1.kernel, t, idle);
    ValidOf(e1, idle);
    assert t in e1.Ready();
    ArrangeCarries(e1, idle);
  }
}
