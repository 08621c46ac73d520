/** Threads, their queues and the dispatcher (kernel/thread.c:253-446, 891-931), on values. */
module ThreadModel {
  import opened Sequences
  import opened Wrappers

  /** PRIO_LEVELS */
  const LEVELS: nat := 64

  datatype Status = Active | Ready | Waiting | Passive

  /** The queues a thread can be in: one per priority for ready threads, and those where threads wait. */
  datatype Queue = ReadyQ(prio: nat) | WaitQ(id: int) | EntranceQ(monitor: int) | ConditionQ(id: int) | EdfReadyQ

  /** kthread_t: state, prio, queue and qdata. */
  datatype Thread = Thread(status: Status, prio: nat, queue: Option<Queue>, qdata: int)

  datatype Kernel = Kernel(threads: map<int, Thread>, queues: map<Queue, seq<int>>, active: Option<int>)

  function Th(k: Kernel, t: int): Thread {
    if t in k.threads then k.threads[t] else Thread(Passive, 0, None, 0)
  }

  function Members(k: Kernel, q: Queue): seq<int> {
    if q in k.queues then k.queues[q] else []
  }

  predicate Blocked(th: Thread) {
    th.status.Ready? || th.status.Waiting?
  }

  predicate Belongs(th: Thread, q: Queue) {
    Blocked(th) && th.queue == Some(q)
  }

  /** A ready thread is bound for the queue of its priority, a waiting one for a queue of the other kind. */
  predicate ThreadOk(th: Thread) {
    && th.prio < LEVELS
    && (th.status.Ready? ==> th.queue == Some(ReadyQ(th.prio)))
    && (th.status.Waiting? ==> th.queue.Some? && !th.queue.value.ReadyQ?)
  }

  /** Every ready or waiting thread is in exactly the queue it names, once; no other thread is in any queue; no
      thread but the active one has the active state. */
  ghost predicate Placed(k: Kernel) {
    && (forall t | t in k.threads :: ThreadOk(k.threads[t]))
    && (forall q :: NoDuplicates(Members(k, q)))
    && (forall q, t {:trigger t in Members(k, q)} {:trigger Belongs(Th(k, t), q)} ::
          t in Members(k, q) <==> Belongs(Th(k, t), q))
    && (forall t | t in k.threads && k.threads[t].status.Active? :: k.active == Some(t))
    && (k.active.Some? ==> k.active.value in k.threads)
  }

  /** The same for all threads but x, which is in no queue. */
  ghost predicate PlacedBut(k: Kernel, x: int) {
    && (forall t | t in k.threads && t != x :: ThreadOk(k.threads[t]))
    && (forall q :: NoDuplicates(Members(k, q)))
    && (forall q, t {:trigger t in Members(k, q)} {:trigger Belongs(Th(k, t), q)} ::
          t in Members(k, q) <==> t != x && Belongs(Th(k, t), q))
    && (forall t | t in k.threads && t != x && k.threads[t].status.Active? :: k.active == Some(t))
    && (k.active.Some? ==> k.active.value in k.threads)
  }

  // ---------------------------------------------------------------- operations

  function Put(k: Kernel, t: int, status: Status, q: Queue, last: bool): Kernel {
    k.(threads := k.threads[t := Th(k, t).(status := status, queue := Some(q))],
       queues := k.queues[q := if last then Members(k, q) + [t] else [t] + Members(k, q)])
  }

  /** kthread_move_to_ready */
  function MoveToReady(k: Kernel, t: int, last: bool): Kernel {
    Put(k, t, Ready, ReadyQ(Th(k, t).prio), last)
  }

  /** kthread_enqueue */
  function Enqueue(k: Kernel, t: int, q: Queue): Kernel {
    Put(k, t, Waiting, q, true)
  }

  function Take(k: Kernel, q: Queue, t: int): Kernel {
    k.(queues := k.queues[q := Without(Members(k, q), t)])
  }

  /** kthreadq_release */
  function Release(k: Kernel, q: Queue): Kernel {
    if Members(k, q) == [] then k
    else MoveToReady(Take(k, q, Members(k, q)[0]), Members(k, q)[0], true)
  }

  /** kthreadq_release_all */
  function ReleaseAll(k: Kernel, q: Queue): Kernel
    requires !q.ReadyQ?
    decreases |Members(k, q)|
  {
    if Members(k, q) == [] then k
    else
      ReleaseShrinks(k, q);
      ReleaseAll(Release(k, q), q)
  }

  lemma ReleaseShrinks(k: Kernel, q: Queue)
    requires !q.ReadyQ? && Members(k, q) != []
    ensures Members(Release(k, q), q) == Members(k, q)[1..]
  {
    HeadIndex(Members(k, q)[1..], Members(k, q)[0]);
    assert [Members(k, q)[0]] + Members(k, q)[1..] == Members(k, q);
  }

  /** The highest priority below n with a ready thread; -1 when there is none. */
  function Top(k: Kernel, n: nat): (p: int)
    ensures -1 <= p < n
    ensures p >= 0 ==> Members(k, ReadyQ(p)) != []
    ensures forall j: nat | p < j < n :: Members(k, ReadyQ(j)) == []
  {
    if n == 0 then -1 else if Members(k, ReadyQ(n - 1)) != [] then n - 1 else Top(k, n - 1)
  }

  predicate Running(k: Kernel) {
    k.active.Some? && k.active.value in k.threads && k.threads[k.active.value].status.Active?
  }

  function Activate(k: Kernel, t: int): Kernel {
    k.(threads := k.threads[t := Th(k, t).(status := Active, queue := None)], active := Some(t))
  }

  /** A thread stays active when it still can run and no ready thread has a higher priority. */
  predicate Stays(k: Kernel) {
    Running(k) && Top(k, LEVELS) <= Th(k, k.active.value).prio
  }

  /** The active thread, if it still can run, goes to the end of its level. */
  function Preempted(k: Kernel): Kernel {
    if Running(k) then MoveToReady(k, k.active.value, true) else k
  }

  function DispatchTop(k: Kernel): Kernel {
    var p := Top(k, LEVELS);
    if p < 0 then k
    else Activate(Take(k, ReadyQ(p), Members(k, ReadyQ(p))[0]), Members(k, ReadyQ(p))[0])
  }

  /** kthreads_schedule */
  function Schedule(k: Kernel): Kernel {
    if Stays(k) then k else DispatchTop(Preempted(k))
  }

  function WithThread(k: Kernel, t: int, th: Thread): Kernel {
    k.(threads := k.threads[t := th])
  }

  function WithPrio(k: Kernel, t: int, prio: nat): Kernel {
    WithThread(k, t, Th(k, t).(prio := prio))
  }

  /** kthread_set_prio */
  function SetPrio(k: Kernel, t: int, prio: nat): Kernel {
    match Th(k, t).status
    case Active => Schedule(MoveToReady(WithPrio(k, t, prio), t, true))
    case Ready => Schedule(MoveToReady(WithPrio(Take(k, ReadyQ(Th(k, t).prio), t), t, prio), t, true))
    case _ => WithPrio(k, t, prio)
  }

  function Clamp(prio: int): nat {
    if prio < 0 then 0 else if prio >= LEVELS then LEVELS - 1 else prio
  }

  /** kthread_create, for a thread that is to run */
  function Create(k: Kernel, t: int, prio: int): Kernel {
    MoveToReady(WithThread(k, t, Thread(Passive, Clamp(prio), None, 0)), t, true)
  }

  // ---------------------------------------------------------------- every thread in its queue

  lemma PutMembers(k: Kernel, t: int, status: Status, q: Queue, last: bool, r: Queue)
    ensures Members(Put(k, t, status, q, last), r) ==
            if r != q then Members(k, r) else if last then Members(k, q) + [t] else [t] + Members(k, q)
  {
  }

  /** A thread that is in no queue is put in the one it is bound for. */
  lemma PutKeeps(k: Kernel, t: int, status: Status, q: Queue, last: bool)
    requires PlacedBut(k, t) && t in k.threads
    requires ThreadOk(Th(k, t).(status := status, queue := Some(q))) && (status.Ready? || status.Waiting?)
    ensures Placed(Put(k, t, status, q, last))
  {
    var k' := Put(k, t, status, q, last);
    forall r ensures NoDuplicates(Members(k', r)) {
      PutMembers(k, t, status, q, last, r);
      assert t !in Members(k, q) && NoDuplicates(Members(k, q));
      EndsDistinct(Members(k, q), t);
      assert NoDuplicates(Members(k, r));
    }
    forall r, u ensures u in Members(k', r) <==> Belongs(Th(k', u), r) {
      PutMembers(k, t, status, q, last, r);
      assert u in Members(k, r) <==> u != t && Belongs(Th(k, u), r);
    }
  }

  lemma EndsDistinct(s: seq<int>, t: int)
    requires NoDuplicates(s) && t !in s
    ensures NoDuplicates(s + [t]) && NoDuplicates([t] + s)
  {
  }

  lemma TakeKeeps(k: Kernel, q: Queue, t: int)
    requires Placed(k) && t in Members(k, q)
    ensures PlacedBut(Take(k, q, t), t) && t in k.threads
  {
    var k' := Take(k, q, t);
    assert Belongs(Th(k, t), q);
    forall r ensures NoDuplicates(Members(k', r)) {
      assert NoDuplicates(Members(k, r)) && NoDuplicates(Members(k, q));
      WithoutFacts(Members(k, q), t);
    }
    forall r, u ensures u in Members(k', r) <==> u != t && Belongs(Th(k', u), r) {
      assert u in Members(k, r) <==> Belongs(Th(k, u), r);
      assert NoDuplicates(Members(k, q));
      WithoutFacts(Members(k, q), t);
    }
  }

  lemma ThreadFacts(k: Kernel, t: int)
    requires Placed(k) && t in k.threads
    ensures ThreadOk(k.threads[t]) && Th(k, t) == k.threads[t]
  {
  }

  lemma OutOfQueues(k: Kernel, t: int)
    requires Placed(k) && !Blocked(Th(k, t))
    ensures PlacedBut(k, t)
  {
  }

  lemma ActivateKeeps(k: Kernel, t: int)
    requires PlacedBut(k, t) && t in k.threads && Th(k, t).prio < LEVELS
    requires Running(k) ==> k.active == Some(t)
    ensures Placed(Activate(k, t)) && Running(Activate(k, t))
  {
    var k' := Activate(k, t);
    forall r ensures NoDuplicates(Members(k', r)) {
      assert NoDuplicates(Members(k, r));
    }
    forall r, u ensures u in Members(k', r) <==> Belongs(Th(k', u), r) {
      assert u in Members(k, r) <==> u != t && Belongs(Th(k, u), r);
    }
  }

  lemma PreemptedKeeps(k: Kernel)
    requires Placed(k)
    ensures Placed(Preempted(k)) && !Running(Preempted(k))
    ensures Running(k) ==> Top(Preempted(k), LEVELS) >= 0
  {
    if Running(k) {
      var a := k.active.value;
      OutOfQueues(k, a);
      PutKeeps(k, a, Ready, ReadyQ(Th(k, a).prio), true);
      assert Members(Preempted(k), ReadyQ(Th(k, a).prio)) != [];
    }
  }

  /** Some thread can run: the active one, or one that is ready. */
  predicate Runnable(k: Kernel) {
    Running(k) || Top(k, LEVELS) >= 0
  }

  /** The active thread's priority is at least that of every ready thread. */
  ghost predicate Dispatched(k: Kernel) {
    && Running(k)
    && (forall t | t in k.threads && k.threads[t].status.Ready? ::
          k.threads[t].prio <= k.threads[k.active.value].prio)
  }

  lemma TopIsHighest(k: Kernel, t: int)
    requires Placed(k) && t in k.threads && k.threads[t].status.Ready?
    ensures k.threads[t].prio <= Top(k, LEVELS)
  {
    assert Belongs(Th(k, t), ReadyQ(Th(k, t).prio));
    assert t in Members(k, ReadyQ(Th(k, t).prio));
  }

  /** kthreads_schedule leaves a running thread that no ready thread outranks; every thread stays in its place. */
  lemma ScheduleDispatches(k: Kernel)
    requires Placed(k) && Runnable(k)
    ensures Placed(Schedule(k)) && Dispatched(Schedule(k))
  {
    if Stays(k) {
      forall t | t in k.threads && k.threads[t].status.Ready? ensures k.threads[t].prio <= Th(k, k.active.value).prio {
        TopIsHighest(k, t);
      }
    } else {
      PreemptedKeeps(k);
      DispatchTopKeeps(Preempted(k));
    }
  }

  lemma DispatchTopKeeps(k: Kernel)
    requires Placed(k) && !Running(k) && Top(k, LEVELS) >= 0
    ensures Placed(DispatchTop(k)) && Dispatched(DispatchTop(k))
  {
    var p := Top(k, LEVELS);
    var t := Members(k, ReadyQ(p))[0];
    assert t in Members(k, ReadyQ(p)) && Belongs(Th(k, t), ReadyQ(p));
    TakeKeeps(k, ReadyQ(p), t);
    ActivateKeeps(Take(k, ReadyQ(p), t), t);
    forall u | u in DispatchTop(k).threads && DispatchTop(k).threads[u].status.Ready? ensures Th(k, u).prio <= p {
      TopIsHighest(k, u);
    }
  }

  lemma EnqueueKeeps(k: Kernel, q: Queue)
    requires Placed(k) && Running(k) && !q.ReadyQ?
    ensures Placed(Enqueue(k, k.active.value, q))
  {
    OutOfQueues(k, k.active.value);
    PutKeeps(k, k.active.value, Waiting, q, true);
  }

  lemma ReleaseKeeps(k: Kernel, q: Queue)
    requires Placed(k) && !q.ReadyQ?
    ensures Placed(Release(k, q))
    ensures Members(k, q) != [] ==> Members(Release(k, q), q) == Members(k, q)[1..]
    ensures Running(k) ==> Running(Release(k, q))
  {
    if Members(k, q) != [] {
      var t := Members(k, q)[0];
      assert t in Members(k, q) && Belongs(Th(k, t), q);
      TakeKeeps(k, q, t);
      PutKeeps(Take(k, q, t), t, Ready, ReadyQ(Th(k, t).prio), true);
      ReleaseShrinks(k, q);
    }
  }

  function OfPrio(k: Kernel, s: seq<int>, p: nat): seq<int> {
    if s == [] then [] else (if Th(k, s[0]).prio == p then [s[0]] else []) + OfPrio(k, s[1..], p)
  }

  lemma {:induction false} OfPrioFrame(k: Kernel, k': Kernel, s: seq<int>, p: nat)
    requires forall i | 0 <= i < |s| :: Th(k', s[i]).prio == Th(k, s[i]).prio
    ensures OfPrio(k', s, p) == OfPrio(k, s, p)
  {
    if s != [] {
      assert s[0] in s;
      OfPrioFrame(k, k', s[1..], p);
    }
  }

  lemma ReleaseAppends(k: Kernel, q: Queue, p: nat)
    requires !q.ReadyQ? && Members(k, q) != []
    ensures Members(Release(k, q), ReadyQ(p)) ==
            Members(k, ReadyQ(p)) + if Th(k, Members(k, q)[0]).prio == p then [Members(k, q)[0]] else []
    ensures forall t :: Th(Release(k, q), t).prio == Th(k, t).prio
  {
  }

  lemma ReleaseAllStep(k: Kernel, q: Queue)
    requires !q.ReadyQ?
    ensures Members(k, q) == [] ==> ReleaseAll(k, q) == k
    ensures Members(k, q) != [] ==> ReleaseAll(k, q) == ReleaseAll(Release(k, q), q)
  {
  }

  /** Releasing a queue empties it; its threads go to the ends of the queues of their priorities, in their order. */
  lemma {:induction false} ReleaseAllInOrder(k: Kernel, q: Queue, p: nat)
    requires Placed(k) && !q.ReadyQ?
    ensures Placed(ReleaseAll(k, q)) && (Running(k) ==> Running(ReleaseAll(k, q)))
    ensures Members(ReleaseAll(k, q), q) == []
    ensures Members(ReleaseAll(k, q), ReadyQ(p)) == Members(k, ReadyQ(p)) + OfPrio(k, Members(k, q), p)
    decreases |Members(k, q)|
  {
    hide Placed, Release, ReleaseAll, Members, Th, Running;
    var s := Members(k, q);
    ReleaseAllStep(k, q);
    if s != [] {
      var k' := Release(k, q);
      ReleaseKeeps(k, q);
      ReleaseAppends(k, q, p);
      ReleaseAllInOrder(k', q, p);
      OfPrioFrame(k, k', s[1..], p);
    }
  }

  // ---------------------------------------------------------------- runs

  /** The queues of threads that wait. */
  type WaitQueue = q: Queue | !q.ReadyQ? witness EdfReadyQ

  /** Calls that enter the kernel and end in kthreads_schedule. */
  datatype Op =
    | Block(q: WaitQueue) | Wake(q: WaitQueue) | WakeAll(q: WaitQueue)
    | Change(t: int, prio: nat) | Start(t: int, asked: int)

  function Step(k: Kernel, op: Op): Kernel {
    match op
    case Block(q) => if k.active.Some? then Schedule(Enqueue(k, k.active.value, q)) else k
    case Wake(q) => Schedule(Release(k, q))
    case WakeAll(q) => Schedule(ReleaseAll(k, q))
    case Change(t, prio) => SetPrio(k, t, prio)
    case Start(t, asked) => Schedule(Create(k, t, asked))
  }

  /** The idle thread never blocks, a changed thread and its priority exist, a new thread is new. */
  predicate Allowed(k: Kernel, op: Op, idle: int) {
    match op
    case Block(_) => k.active != Some(idle)
    case Change(t, prio) => t in k.threads && prio < LEVELS
    case Start(t, _) => t !in k.threads
    case _ => true
  }

  /** The idle thread is always active or ready. */
  predicate HasIdle(k: Kernel, idle: int) {
    idle in k.threads && (k.threads[idle].status.Active? || k.threads[idle].status.Ready?)
  }

  ghost predicate Safe(k: Kernel, idle: int) {
    Placed(k) && Dispatched(k) && HasIdle(k, idle)
  }

  lemma IdleRuns(k: Kernel, idle: int)
    requires Placed(k) && HasIdle(k, idle)
    ensures Runnable(k)
  {
    if k.threads[idle].status.Ready? {
      TopIsHighest(k, idle);
    }
  }

  /** Dispatching makes no thread wait. */
  lemma ScheduleKeepsIdle(k: Kernel, idle: int)
    requires Placed(k) && HasIdle(k, idle)
    ensures HasIdle(Schedule(k), idle)
  {
  }

  lemma ScheduleSafe(k: Kernel, idle: int)
    requires Placed(k) && HasIdle(k, idle)
    ensures Safe(Schedule(k), idle)
  {
    hide Placed, Dispatched, HasIdle, Schedule, Runnable;
    IdleRuns(k, idle);
    ScheduleDispatches(k);
    ScheduleKeepsIdle(k, idle);
  }

  lemma CreateKeeps(k: Kernel, t: int, prio: int)
    requires Placed(k) && t !in k.threads
    ensures Placed(Create(k, t, prio))
  {
    NewThread(k, t, Thread(Passive, Clamp(prio), None, 0));
    PutKeeps(WithThread(k, t, Thread(Passive, Clamp(prio), None, 0)), t, Ready, ReadyQ(Clamp(prio)), true);
  }

  lemma NewThread(k: Kernel, t: int, th: Thread)
    requires Placed(k) && t !in k.threads
    ensures PlacedBut(WithThread(k, t, th), t)
  {
    OutOfQueues(k, t);
    ThreadBut(k, t, th);
  }

  /** The record of a thread that is in no queue can be anything. */
  lemma ThreadBut(k: Kernel, t: int, th: Thread)
    requires PlacedBut(k, t)
    ensures PlacedBut(WithThread(k, t, th), t)
  {
    var k1 := WithThread(k, t, th);
    forall q, u ensures u in Members(k1, q) <==> u != t && Belongs(Th(k1, u), q) {
      assert u in Members(k, q) <==> u != t && Belongs(Th(k, u), q);
    }
    forall q ensures NoDuplicates(Members(k1, q)) {
      assert NoDuplicates(Members(k, q));
    }
  }

  /** The first half of kthread_set_prio: out of its queue, a thread gets its new priority and goes back. */
  lemma RequeueKeeps(k: Kernel, t: int, prio: nat)
    requires PlacedBut(k, t) && t in k.threads && prio < LEVELS
    ensures Placed(MoveToReady(WithPrio(k, t, prio), t, true))
  {
    ThreadBut(k, t, Th(k, t).(prio := prio));
    PutKeeps(WithPrio(k, t, prio), t, Ready, ReadyQ(prio), true);
  }

  lemma PrioKeeps(k: Kernel, t: int, prio: nat)
    requires Placed(k) && t in k.threads && prio < LEVELS && !k.threads[t].status.Ready?
    ensures Placed(WithPrio(k, t, prio))
  {
    var k1 := WithPrio(k, t, prio);
    forall q, u ensures u in Members(k1, q) <==> Belongs(Th(k1, u), q) {
      assert u in Members(k, q) <==> Belongs(Th(k, u), q);
    }
    forall q ensures NoDuplicates(Members(k1, q)) {
      assert NoDuplicates(Members(k, q));
    }
  }

  lemma SetPrioSafe(k: Kernel, t: int, prio: nat, idle: int)
    requires Safe(k, idle) && t in k.threads && prio < LEVELS
    ensures Safe(SetPrio(k, t, prio), idle)
  {
    var th := k.threads[t];
    match th.status {
      case Active =>
        OutOfQueues(k, t);
        RequeueKeeps(k, t, prio);
        ScheduleSafe(MoveToReady(WithPrio(k, t, prio), t, true), idle);
      case Ready =>
        assert Belongs(Th(k, t), ReadyQ(th.prio)) && t in Members(k, ReadyQ(th.prio));
        var k1 := Take(k, ReadyQ(th.prio), t);
        TakeKeeps(k, ReadyQ(th.prio), t);
        RequeueKeeps(k1, t, prio);
        ScheduleSafe(MoveToReady(WithPrio(k1, t, prio), t, true), idle);
      case _ =>
        PrioKeeps(k, t, prio);
    }
  }

  lemma ReleaseIdle(k: Kernel, q: Queue, idle: int)
    requires HasIdle(k, idle)
    ensures HasIdle(Release(k, q), idle)
  {
  }

  lemma {:induction false} ReleaseAllIdle(k: Kernel, q: Queue, idle: int)
    requires HasIdle(k, idle) && !q.ReadyQ?
    ensures HasIdle(ReleaseAll(k, q), idle)
    decreases |Members(k, q)|
  {
    if Members(k, q) != [] {
      ReleaseIdle(k, q, idle);
      ReleaseShrinks(k, q);
      ReleaseAllIdle(Release(k, q), q, idle);
    }
  }

  /** Every call leaves the threads in their places and the highest one running. */
  lemma StepSafe(k: Kernel, op: Op, idle: int)
    requires Safe(k, idle) && Allowed(k, op, idle)
    ensures Safe(Step(k, op), idle)
  {
    hide Placed, Schedule, SetPrio, ReleaseAll, Release;
    match op {
      case Block(q) =>
        EnqueueKeeps(k, q);
        ScheduleSafe(Enqueue(k, k.active.value, q), idle);
      case Wake(q) =>
        ReleaseKeeps(k, q);
        ReleaseIdle(k, q, idle);
        ScheduleSafe(Release(k, q), idle);
      case WakeAll(q) =>
        ReleaseAllInOrder(k, q, 0);
        ReleaseAllIdle(k, q, idle);
        ScheduleSafe(ReleaseAll(k, q), idle);
      case Change(t, prio) =>
        SetPrioSafe(k, t, prio, idle);
      case Start(t, asked) =>
        CreateKeeps(k, t, asked);
        ScheduleSafe(Create(k, t, asked), idle);
    }
  }

  function Run(k: Kernel, ops: seq<Op>): Kernel
    decreases |ops|
  {
    if ops == [] then k else Run(Step(k, ops[0]), ops[1..])
  }

  predicate AllAllowed(k: Kernel, ops: seq<Op>, idle: int)
    decreases |ops|
  {
    ops != [] ==> Allowed(k, ops[0], idle) && AllAllowed(Step(k, ops[0]), ops[1..], idle)
  }

  /** Over every run, every thread is in exactly its place and the running one is not outranked. */
  lemma {:induction false} RunSafe(k: Kernel, ops: seq<Op>, idle: int)
    requires Safe(k, idle) && AllAllowed(k, ops, idle)
    ensures Safe(Run(k, ops), idle)
    decreases |ops|
  {
    if ops != [] {
      StepSafe(k, ops[0], idle);
      RunSafe(Step(k, ops[0]), ops[1..], idle);
    }
  }

  /** kthreads_init: the idle thread is the only one, and is started. */
  lemma BootSafe(idle: int)
    ensures Safe(Schedule(Create(Kernel(map[], map[], None), idle, 0)), idle)
  {
    var k := Kernel(map[], map[], None);
    CreateKeeps(k, idle, 0);
    ScheduleSafe(Create(k, idle, 0), idle);
  }

  // ---------------------------------------------------------------- first in, first out within a level

  function Level(k: Kernel, p: nat): seq<int> {
    Members(k, ReadyQ(p))
  }

  /** The head of the level has been made active. */
  predicate Served(level: seq<int>, k: Kernel) {
    level != [] && k.active == Some(level[0])
  }

  /** Nobody passes those who were in the level: they keep their order, and only their head can leave. */
  predicate Kept(level: seq<int>, k: Kernel, p: nat) {
    (if Served(level, k) then level[1..] else level) <= Level(k, p)
  }

  lemma PrefixOfTail(s: seq<int>, t: seq<int>)
    requires s <= t && s != []
    ensures s[1..] <= t[1..] && s[0] == t[0]
  {
  }

  lemma InLevelIsReady(k: Kernel, p: nat, i: nat)
    requires Placed(k) && i < |Level(k, p)|
    ensures Th(k, Level(k, p)[i]).status.Ready? && Th(k, Level(k, p)[i]).prio == p
  {
    var t := Level(k, p)[i];
    assert t in Members(k, ReadyQ(p)) && Belongs(Th(k, t), ReadyQ(p));
  }

  lemma ScheduleKeepsOrder(k: Kernel, level: seq<int>, p: nat)
    requires Placed(k) && Runnable(k) && level <= Level(k, p)
    ensures Kept(level, Schedule(k), p)
  {
    if Stays(k) {
      if level != [] {
        InLevelIsReady(k, p, 0);
      }
    } else {
      PreemptedKeeps(k);
      var k2 := Preempted(k);
      assert level <= Level(k2, p);
      hide Placed, Stays, Preempted, Top;
      ScheduleTakes(k2, level, p);
    }
  }

  lemma ScheduleTakes(k: Kernel, level: seq<int>, p: nat)
    requires Placed(k) && Top(k, LEVELS) >= 0 && level <= Level(k, p)
    ensures Kept(level, DispatchTop(k), p)
  {
    var h := Top(k, LEVELS);
    var t := Level(k, h)[0];
    HeadIndex(Level(k, h)[1..], t);
    assert [t] + Level(k, h)[1..] == Level(k, h);
    InLevelIsReady(k, h, 0);
    if level != [] {
      InLevelIsReady(k, p, 0);
      PrefixOfTail(level, Level(k, p));
    }
  }

  lemma {:induction false} ReleaseAllGrows(k: Kernel, q: Queue, p: nat)
    requires !q.ReadyQ?
    ensures Level(k, p) <= Level(ReleaseAll(k, q), p)
    decreases |Members(k, q)|
  {
    if Members(k, q) != [] {
      ReleaseShrinks(k, q);
      ReleaseAppends(k, q, p);
      ReleaseAllGrows(Release(k, q), q, p);
    }
  }

  /** A thread that changes its priority leaves its place in the level, even when it comes back to the end of it. */
  function Staying(level: seq<int>, op: Op): seq<int> {
    if op.Change? then Without(level, op.t) else level
  }

  lemma WithoutPrefix(s: seq<int>, t: seq<int>, x: int)
    requires s <= t
    ensures Without(s, x) <= Without(t, x)
    ensures x !in s ==> s <= Without(t, x)
  {
    hide RemoveAt, IndexOf;
    if x in s {
      IndexPrefix(s, t, x);
      RemoveAtPrefix(s, t, IndexOf(s, x));
    } else if x in t {
      IndexAfterPrefix(s, t, x);
      RemoveAtPrefix(s, t, IndexOf(t, x));
    }
  }

  lemma RemoveAtPrefix(s: seq<int>, t: seq<int>, i: nat)
    requires s <= t && i < |t|
    ensures if i < |s| then RemoveAt(s, i) <= RemoveAt(t, i) else s <= RemoveAt(t, i)
  {
  }

  lemma IndexAfterPrefix(s: seq<int>, t: seq<int>, x: int)
    requires s <= t && x !in s && x in t
    ensures |s| <= IndexOf(t, x)
  {
    assert t[IndexOf(t, x)] == x;
  }

  lemma {:induction false} IndexPrefix(s: seq<int>, t: seq<int>, x: int)
    requires s <= t && x in s
    ensures IndexOf(t, x) == IndexOf(s, x)
    decreases |s|
  {
    if s[0] != x {
      IndexPrefix(s[1..], t[1..], x);
    }
  }

  lemma TakeKeepsOrder(k: Kernel, t: int, level: seq<int>, p: nat)
    requires Placed(k) && level <= Level(k, p)
    ensures Without(level, t) <= Level(Take(k, ReadyQ(Th(k, t).prio), t), p)
  {
    WithoutPrefix(level, Level(k, p), t);
    if Th(k, t).prio != p && t in Level(k, p) {
      var i :| 0 <= i < |Level(k, p)| && Level(k, p)[i] == t;
      InLevelIsReady(k, p, i);
    }
    hide Placed;
    if Th(k, t).prio != p {
      assert t !in level;
      assert Without(level, t) == level;
    }
  }

  lemma SetPrioKeepsOrder(k: Kernel, t: int, prio: nat, idle: int, level: seq<int>, p: nat)
    requires Safe(k, idle) && t in k.threads && prio < LEVELS && level <= Level(k, p)
    ensures Kept(Without(level, t), SetPrio(k, t, prio), p)
  {
    var th := k.threads[t];
    PlacedLevel(k, t, level, p);
    match th.status {
      case Active =>
        OutOfQueues(k, t);
        RequeueKeeps(k, t, prio);
        var k2 := MoveToReady(WithPrio(k, t, prio), t, true);
        IdleRuns(k2, idle);
        hide Placed, PlacedBut, Runnable, Schedule, Kept, Without;
        ScheduleKeepsOrder(k2, Without(level, t), p);
      case Ready =>
        ThreadFacts(k, t);
        assert Belongs(Th(k, t), ReadyQ(th.prio)) && t in Members(k, ReadyQ(th.prio));
        var k1 := Take(k, ReadyQ(th.prio), t);
        TakeKeeps(k, ReadyQ(th.prio), t);
        TakeKeepsOrder(k, t, level, p);
        RequeueKeeps(k1, t, prio);
        var k2 := MoveToReady(WithPrio(k1, t, prio), t, true);
        IdleRuns(k2, idle);
        hide Placed, PlacedBut, Runnable, Schedule, Kept, Without;
        ScheduleKeepsOrder(k2, Without(level, t), p);
      case _ =>
    }
  }

  /** Only ready threads are in a level, and the active one is not in it. */
  lemma PlacedLevel(k: Kernel, t: int, level: seq<int>, p: nat)
    requires Placed(k) && Running(k) && t in k.threads && level <= Level(k, p)
    ensures !k.threads[t].status.Ready? ==> Without(level, t) == level
    ensures level != [] ==> k.active != Some(level[0])
  {
    if t in level {
      var i :| 0 <= i < |level| && level[i] == t;
      InLevelIsReady(k, p, i);
    }
    if level != [] {
      InLevelIsReady(k, p, 0);
    }
  }

  /** One call keeps the order of every level, of those threads that it does not give a new priority. */
  lemma StepKeepsOrder(k: Kernel, op: Op, idle: int, level: seq<int>, p: nat)
    requires Safe(k, idle) && Allowed(k, op, idle) && level <= Level(k, p)
    ensures Kept(Staying(level, op), Step(k, op), p)
  {
    hide Placed, Schedule, ReleaseAll, Runnable, Kept, SetPrio, Without;
    match op {
      case Block(q) =>
        EnqueueKeeps(k, q);
        IdleRuns(Enqueue(k, k.active.value, q), idle);
        ScheduleKeepsOrder(Enqueue(k, k.active.value, q), level, p);
      case Wake(q) =>
        ReleaseKeeps(k, q);
        ReleaseIdle(k, q, idle);
        IdleRuns(Release(k, q), idle);
        ScheduleKeepsOrder(Release(k, q), level, p);
      case WakeAll(q) =>
        ReleaseAllInOrder(k, q, 0);
        ReleaseAllIdle(k, q, idle);
        ReleaseAllGrows(k, q, p);
        IdleRuns(ReleaseAll(k, q), idle);
        ScheduleKeepsOrder(ReleaseAll(k, q), level, p);
      case Start(t, asked) =>
        CreateKeeps(k, t, asked);
        IdleRuns(Create(k, t, asked), idle);
        ScheduleKeepsOrder(Create(k, t, asked), level, p);
      case Change(t, prio) =>
        SetPrioKeepsOrder(k, t, prio, idle, level, p);
    }
  }

  /** What is left of those who were in the level after a run: each call takes away the thread it gives a new priority,
      if it is one of them, and then the first of them, if that one has been made active. */
  function Remaining(k: Kernel, ops: seq<Op>, level: seq<int>): seq<int>
    decreases |ops|
  {
    if ops == [] then level
    else
      var k', stay := Step(k, ops[0]), Staying(level, ops[0]);
      Remaining(k', ops[1..], if Served(stay, k') then stay[1..] else stay)
  }

  /** Over every run, nobody passes those who were in a level: they are at its front, in their order, but for
      those that have been given a new priority and those that have been made active when they were the first.
      */
  lemma {:induction false} LevelKeepsOrder(k: Kernel, ops: seq<Op>, idle: int, level: seq<int>, p: nat)
    requires Safe(k, idle) && AllAllowed(k, ops, idle) && level <= Level(k, p)
    ensures Remaining(k, ops, level) <= Level(Run(k, ops), p)
    decreases |ops|
  {
    if ops != [] {
      var k', stay := Step(k, ops[0]), Staying(level, ops[0]);
      StepSafe(k, ops[0], idle);
      StepKeepsOrder(k, ops[0], idle, level, p);
      hide Step, Safe, Staying, Allowed, Level;
      LevelKeepsOrder(k', ops[1..], idle, if Served(stay, k') then stay[1..] else stay, p);
    }
  }

  /** How often in a run the first of those that are left is made active. */
  function Serves(k: Kernel, ops: seq<Op>, level: seq<int>): nat
    decreases |ops|
  {
    if ops == [] then 0
    else
      var k', stay := Step(k, ops[0]), Staying(level, ops[0]);
      if Served(stay, k') then 1 + Serves(k', ops[1..], stay[1..]) else Serves(k', ops[1..], stay)
  }

  predicate Changes(ops: seq<Op>, level: seq<int>) {
    exists i :: 0 <= i < |ops| && ops[i].Change? && ops[i].t in level
  }

  lemma {:induction false} ServedInTurn(k: Kernel, ops: seq<Op>, level: seq<int>)
    requires !Changes(ops, level)
    ensures Serves(k, ops, level) <= |level| && Remaining(k, ops, level) == level[Serves(k, ops, level)..]
    decreases |ops|
  {
    if ops != [] {
      var k' := Step(k, ops[0]);
      assert Staying(level, ops[0]) == level;
      var left := if Served(level, k') then level[1..] else level;
      forall i | 0 <= i < |ops[1..]| && ops[1..][i].Change? ensures ops[1..][i].t !in left {
        assert ops[1..][i] == ops[i + 1];
      }
      hide Step, Served;
      ServedInTurn(k', ops[1..], left);
    }
  }

  /** First in, first out: over a run that gives none of a level's threads a new priority, whatever happens to
      others, the thread at position i is at position i - n once n <= i of them have been made active, so that
      it is the next to run of them when n == i. */
  lemma FirstInFirstOut(k: Kernel, ops: seq<Op>, idle: int, p: nat)
    requires Safe(k, idle) && AllAllowed(k, ops, idle) && !Changes(ops, Level(k, p))
    ensures var n := Serves(k, ops, Level(k, p));
            n <= |Level(k, p)| && Level(k, p)[n..] <= Level(Run(k, ops), p)
  {
    hide *;
    LevelKeepsOrder(k, ops, idle, Level(k, p), p);
    ServedInTurn(k, ops, Level(k, p));
  }
}
