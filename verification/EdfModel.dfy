/** Choice of the EDF thread to run (kernel/sched_edf.c:250-338), on values. */
module EdfModel {
  import opened Sequences
  import opened Time
  import opened Wrappers
  import opened ThreadModel

  type Deadlines = map<int, Time>

  /** The threads, the EDF thread that is let run, the threads' active deadlines, and those with the flag set
      that makes the dispatcher call the deactivation hook. */
  datatype Edf = Edf(kernel: Kernel, active: Option<int>, deadlines: Deadlines, activated: set<int>) {
    function Ready(): seq<int> {
      Members(kernel, EdfReadyQ)
    }
  }

  function Deadline(d: Deadlines, t: int): Time {
    if t in d then d[t] else Time(0, 0)
  }

  predicate NotLater(d: Deadlines, t: int, u: int) {
    Cmp(Deadline(d, t), Deadline(d, u)) <= 0
  }

  /** The loop: go through the queue and change to a thread only for a strictly earlier deadline. */
  function Earliest(d: Deadlines, first: int, queue: seq<int>): int
    decreases |queue|
  {
    if queue == [] then first
    else Earliest(d, if NotLater(d, first, queue[0]) then first else queue[0], queue[1..])
  }

  /** The thread to run: the choice starts with the active one, if there is one. */
  function Choice(e: Edf): int
    requires e.Ready() != []
  {
    if e.active.Some? then Earliest(e.deadlines, e.active.value, e.Ready())
    else Earliest(e.deadlines, e.Ready()[0], e.Ready()[1..])
  }

  /** The active thread is preempted: if it can run it joins the EDF threads that are ready. */
  function Preempt(k: Kernel, t: int): Kernel {
    match Th(k, t).status
    case Active => Enqueue(k, t, EdfReadyQ)
    case Ready => Enqueue(Take(k, ReadyQ(Th(k, t).prio), t), t, EdfReadyQ)
    case _ => k
  }

  /** The preempted thread, if it is the running one, is not to be deactivated a second time. */
  function Deactivated(e: Edf): set<int> {
    if e.active.Some? && Th(e.kernel, e.active.value).status.Active? then {e.active.value} else {}
  }

  /** k_edf_schedule, with its result. */
  function Reschedule(e: Edf): (Edf, bool) {
    if e.Ready() == [] || e.active == Some(Choice(e)) then (e, false)
    else
      var c := Choice(e);
      var k := Take(e.kernel, EdfReadyQ, c);
      (Edf(MoveToReady(if e.active.Some? then Preempt(k, e.active.value) else k, c, true), Some(c), e.deadlines,
           e.activated - Deactivated(e)), true)
  }

  /** The EDF thread that is let run is not among those that wait for it. */
  ghost predicate Valid(e: Edf) {
    && Placed(e.kernel)
    && (e.active.Some? ==> e.active.value in e.kernel.threads && e.active.value !in e.Ready())
  }

  // ---------------------------------------------------------------- the choice

  lemma NotLaterOrder(d: Deadlines, t: int, u: int, v: int)
    ensures NotLater(d, t, u) && NotLater(d, u, v) ==> NotLater(d, t, v)
    ensures NotLater(d, t, u) || NotLater(d, u, t)
  {
    CmpOrder(Deadline(d, v), Deadline(d, u), Deadline(d, t));
    CmpOrder(Deadline(d, t), Deadline(d, u), Deadline(d, u));
    CmpOrder(Deadline(d, t), Deadline(d, v), Deadline(d, v));
    CmpOrder(Deadline(d, u), Deadline(d, v), Deadline(d, v));
  }

  /** No deadline is earlier than that of the chosen thread; a tie goes to the one the choice starts with, then to
      the order of the queue. */
  lemma {:induction false} EarliestIsFirstMinimum(d: Deadlines, first: int, queue: seq<int>)
    ensures var c := Earliest(d, first, queue);
            && NotLater(d, c, first) && (forall i | 0 <= i < |queue| :: NotLater(d, c, queue[i]))
            && (c == first || exists i :: FirstMinimum(d, first, queue, c, i))
    decreases |queue|
  {
    if queue != [] {
      hide NotLater;
      var next, rest := if NotLater(d, first, queue[0]) then first else queue[0], queue[1..];
      EarliestIsFirstMinimum(d, next, rest);
      var c := Earliest(d, next, rest);
      NotLaterOrder(d, c, next, first);
      NotLaterOrder(d, c, next, queue[0]);
      NotLaterOrder(d, first, queue[0], first);
      forall i | 0 <= i < |queue| ensures NotLater(d, c, queue[i]) {
        assert i > 0 ==> queue[i] == rest[i - 1];
      }
      if c != next {
        var i :| FirstMinimum(d, next, rest, c, i);
        LaterMinimum(d, first, queue, c, i);
      } else if c != first {
        assert FirstMinimum(d, first, queue, c, 0);
      }
    }
  }

  /** c is at position i of the queue and strictly earlier than all before it. */
  ghost predicate FirstMinimum(d: Deadlines, first: int, queue: seq<int>, c: int, i: int) {
    && 0 <= i < |queue| && queue[i] == c && !NotLater(d, first, c)
    && forall j | 0 <= j < i :: !NotLater(d, queue[j], c)
  }

  lemma LaterMinimum(d: Deadlines, first: int, queue: seq<int>, c: int, i: int)
    requires queue != []
    requires var next := if NotLater(d, first, queue[0]) then first else queue[0];
             FirstMinimum(d, next, queue[1..], c, i)
    ensures FirstMinimum(d, first, queue, c, i + 1)
  {
    hide NotLater;
    NotLaterOrder(d, first, queue[0], c);
    NotLaterOrder(d, queue[0], first, c);
    NotLaterOrder(d, first, queue[0], queue[0]);
    forall j | 0 <= j < i + 1 ensures !NotLater(d, queue[j], c) {
      assert j > 0 ==> queue[j] == queue[1..][j - 1];
    }
  }

  /** With no earlier deadline in the queue the choice stays. */
  lemma {:induction false} EarliestStays(d: Deadlines, first: int, queue: seq<int>)
    requires forall i | 0 <= i < |queue| :: NotLater(d, first, queue[i])
    ensures Earliest(d, first, queue) == first
  {
    if queue != [] {
      EarliestStays(d, first, queue[1..]);
    }
  }

  /** The chosen thread has the earliest deadline of the active thread and all that are ready; it is the active one
      when that is not later than any, and else the first in the queue with the earliest deadline. */
  lemma ChoiceIsEarliest(e: Edf)
    requires e.Ready() != []
    ensures e.active.Some? ==> NotLater(e.deadlines, Choice(e), e.active.value)
    ensures forall i | 0 <= i < |e.Ready()| :: NotLater(e.deadlines, Choice(e), e.Ready()[i])
    ensures e.active == Some(Choice(e)) || Choice(e) in e.Ready()
    ensures e.active.Some? && (forall i | 0 <= i < |e.Ready()| :: NotLater(e.deadlines, e.active.value, e.Ready()[i]))
            ==> Choice(e) == e.active.value
    ensures e.active != Some(Choice(e)) ==>
              exists i :: && 0 <= i < |e.Ready()| && e.Ready()[i] == Choice(e)
                          && forall j | 0 <= j < i :: !NotLater(e.deadlines, e.Ready()[j], Choice(e))
  {
    hide NotLater, Members, Earliest;
    var d, queue := e.deadlines, e.Ready();
    if e.active.Some? {
      EarliestIsFirstMinimum(d, e.active.value, queue);
      if forall i | 0 <= i < |queue| :: NotLater(d, e.active.value, queue[i]) {
        EarliestStays(d, e.active.value, queue);
      }
    } else {
      var rest, c := queue[1..], Choice(e);
      EarliestIsFirstMinimum(d, queue[0], rest);
      forall i | 0 <= i < |queue| ensures NotLater(d, c, queue[i]) {
        assert i > 0 ==> queue[i] == rest[i - 1];
      }
      if c != queue[0] {
        var i :| FirstMinimum(d, queue[0], rest, c, i);
        assert queue[i + 1] == c;
        forall j | 0 <= j < i + 1 ensures !NotLater(d, queue[j], c) {
          assert j > 0 ==> queue[j] == rest[j - 1];
        }
      }
    }
  }

  // ---------------------------------------------------------------- the hand-over

  /** The queue of EDF threads that are ready, afterwards. */
  function ReadyAfter(e: Edf): seq<int>
    requires e.Ready() != []
  {
    Without(e.Ready(), Choice(e))
    + if e.active.Some? && CanRun(e.kernel, e.active.value) then [e.active.value] else []
  }

  predicate CanRun(k: Kernel, t: int) {
    Th(k, t).status.Active? || Th(k, t).status.Ready?
  }

  lemma PassivePlaced(k: Kernel, c: int)
    requires PlacedBut(k, c)
    ensures Placed(WithThread(k, c, Thread(Passive, 0, None, 0)))
  {
    var m := WithThread(k, c, Thread(Passive, 0, None, 0));
    forall q, t ensures t in Members(m, q) <==> Belongs(Th(m, t), q) {
      assert t in Members(k, q) <==> t != c && Belongs(Th(k, t), q);
    }
    forall q ensures NoDuplicates(Members(m, q)) {
      assert NoDuplicates(Members(k, q));
    }
  }

  lemma PreemptPlaced(k: Kernel, a: int)
    requires Placed(k) && a in k.threads && a !in Members(k, EdfReadyQ)
    ensures Placed(Preempt(k, a))
  {
    match Th(k, a).status {
      case Active =>
        OutOfQueues(k, a);
        PutKeeps(k, a, Waiting, EdfReadyQ, true);
      case Ready =>
        ThreadFacts(k, a);
        assert Belongs(Th(k, a), ReadyQ(Th(k, a).prio)) && a in Members(k, ReadyQ(Th(k, a).prio));
        TakeKeeps(k, ReadyQ(Th(k, a).prio), a);
        PutKeeps(Take(k, ReadyQ(Th(k, a).prio), a), a, Waiting, EdfReadyQ, true);
      case _ =>
    }
  }

  /** Preempting one thread does not depend on the record of another. */
  lemma PreemptApart(k: Kernel, a: int, c: int, th: Thread)
    requires a != c
    ensures WithThread(Preempt(WithThread(k, c, th), a), c, Th(k, c)) == WithThread(Preempt(k, a), c, Th(k, c))
    ensures c in k.threads ==> WithThread(Preempt(k, a), c, Th(k, c)) == Preempt(k, a)
  {
    hide Without, Members;
    TakeApart(k, c, th, ReadyQ(Th(k, a).prio), a);
    var k1 := if Th(k, a).status.Ready? then Take(k, ReadyQ(Th(k, a).prio), a) else k;
    if CanRun(k, a) {
      PutApart(k1, a, c, th);
    }
  }

  lemma TakeApart(k: Kernel, c: int, th: Thread, q: Queue, a: int)
    ensures Take(WithThread(k, c, th), q, a) == WithThread(Take(k, q, a), c, th)
  {
  }

  lemma PutApart(k: Kernel, a: int, c: int, th: Thread)
    requires a != c
    ensures WithThread(Enqueue(WithThread(k, c, th), a, EdfReadyQ), c, Th(k, c)) ==
            WithThread(Enqueue(k, a, EdfReadyQ), c, Th(k, c))
    ensures c in k.threads ==> WithThread(Enqueue(k, a, EdfReadyQ), c, Th(k, c)) == Enqueue(k, a, EdfReadyQ)
  {
    assert WithThread(Enqueue(WithThread(k, c, th), a, EdfReadyQ), c, Th(k, c)).threads ==
           WithThread(Enqueue(k, a, EdfReadyQ), c, Th(k, c)).threads;
  }

  lemma PreemptMembers(k: Kernel, a: int, q: Queue)
    requires !q.ReadyQ?
    ensures Members(Preempt(k, a), q) == Members(k, q) + if CanRun(k, a) && q == EdfReadyQ then [a] else []
    ensures !CanRun(k, a) ==> Preempt(k, a) == k
  {
    hide Without;
  }

  /** With the choice taken out of the EDF queue, the active EDF thread is preempted. */
  lemma PreemptKeeps(k: Kernel, c: int, a: int)
    requires PlacedBut(k, c) && c in k.threads && a in k.threads && a != c && a !in Members(k, EdfReadyQ)
    ensures PlacedBut(Preempt(k, a), c) && c in Preempt(k, a).threads && Th(Preempt(k, a), c) == Th(k, c)
  {
    var blank := Thread(Passive, 0, None, 0);
    var m := WithThread(k, c, blank);
    PassivePlaced(k, c);
    assert Members(m, EdfReadyQ) == Members(k, EdfReadyQ);
    PreemptPlaced(m, a);
    PreemptApart(k, a, c, blank);
    assert Th(Preempt(m, a), c) == blank;
    hide Placed, PlacedBut, Preempt;
    OutOfQueues(Preempt(m, a), c);
    ThreadBut(Preempt(m, a), c, Th(k, c));
  }

  /** What Reschedule leaves when it changes the thread: the choice out of the EDF queue, the active EDF thread, if
      any, preempted. */
  function Vacated(e: Edf): Kernel
    requires e.Ready() != []
  {
    var k := Take(e.kernel, EdfReadyQ, Choice(e));
    if e.active.Some? then Preempt(k, e.active.value) else k
  }

  lemma VacatedKeeps(e: Edf)
    requires Valid(e) && Reschedule(e).1
    ensures var c := Choice(e);
            && PlacedBut(Vacated(e), c) && c in Vacated(e).threads && Th(Vacated(e), c) == Th(e.kernel, c)
            && c in e.Ready() && c in e.kernel.threads
            && Th(e.kernel, c).prio < LEVELS && Th(e.kernel, c).status.Waiting?
  {
    var c := Choice(e);
    ChoiceIsEarliest(e);
    ChosenBelongs(e.kernel, c);
    TakeKeeps(e.kernel, EdfReadyQ, c);
    hide Placed, PlacedBut, Choice;
    var k := Take(e.kernel, EdfReadyQ, c);
    if e.active.Some? {
      assert e.active.value !in Members(k, EdfReadyQ) by {
        assert NoDuplicates(e.Ready()) by { PlacedDistinct(e.kernel, EdfReadyQ); }
        WithoutFacts(e.Ready(), c);
      }
      PreemptKeeps(k, c, e.active.value);
    }
  }

  lemma PlacedDistinct(k: Kernel, q: Queue)
    requires Placed(k)
    ensures NoDuplicates(Members(k, q))
  {
  }

  lemma NotInLevel(k: Kernel, t: int, p: nat)
    requires Placed(k) && (!Th(k, t).status.Ready? || Th(k, t).prio != p)
    ensures t !in Members(k, ReadyQ(p))
  {
    if t in Members(k, ReadyQ(p)) {
      assert Belongs(Th(k, t), ReadyQ(p));
      ThreadFacts(k, t);
    }
  }

  /** The preempted thread leaves its level, which keeps its order. */
  lemma PreemptLevels(k: Kernel, k0: Kernel, a: int, p: nat)
    requires Placed(k0) && k.threads == k0.threads && Members(k, ReadyQ(p)) == Members(k0, ReadyQ(p))
    ensures Members(Preempt(k, a), ReadyQ(p)) == Without(Members(k, ReadyQ(p)), a)
  {
    if !Th(k, a).status.Ready? || Th(k, a).prio != p {
      NotInLevel(k0, a, p);
    }
    hide Placed;
  }

  lemma VacatedLevels(e: Edf, p: nat)
    requires Valid(e) && e.Ready() != []
    ensures Members(Vacated(e), ReadyQ(p)) == LevelLeft(e, p)
  {
    if e.active.Some? {
      PreemptLevels(Take(e.kernel, EdfReadyQ, Choice(e)), e.kernel, e.active.value, p);
    }
    hide Placed, Without, Choice, Preempt;
  }

  /** A level without the thread that was let run. */
  function LevelLeft(e: Edf, p: nat): seq<int> {
    var level := Members(e.kernel, ReadyQ(p));
    if e.active.Some? then Without(level, e.active.value) else level
  }

  lemma ChosenBelongs(k: Kernel, c: int)
    requires Placed(k)
    ensures c in Members(k, EdfReadyQ) ==> c in k.threads && Th(k, c).prio < LEVELS && Th(k, c).status.Waiting?
  {
    if c in Members(k, EdfReadyQ) {
      assert Belongs(Th(k, c), EdfReadyQ);
    }
  }

  lemma VacatedMembers(e: Edf, q: Queue)
    requires e.Ready() != [] && !q.ReadyQ?
    ensures Members(Vacated(e), q) == if q == EdfReadyQ then ReadyAfter(e) else Members(e.kernel, q)
  {
    hide Preempt, Without, Choice;
    var k := Take(e.kernel, EdfReadyQ, Choice(e));
    if e.active.Some? {
      PreemptMembers(k, e.active.value, q);
    }
  }

  /** When the choice is another thread, it leaves the EDF queue for the end of its priority level; the one that was
      let run takes its place at the end of the EDF queue, unless it is blocked, in which case it stays where it is;
      all others keep their order, and every thread is in exactly one place. */
  lemma HandOver(e: Edf)
    requires Valid(e) && Reschedule(e).1
    ensures var e' := Reschedule(e).0;
            && Valid(e') && e'.active == Some(Choice(e)) && e'.deadlines == e.deadlines
            && e'.activated == e.activated - Deactivated(e)
            && e'.Ready() == ReadyAfter(e)
            && Th(e'.kernel, Choice(e)).status.Ready? && Choice(e) in e.Ready()
            && (forall q: Queue | !q.ReadyQ? && q != EdfReadyQ :: Members(e'.kernel, q) == Members(e.kernel, q))
            && (forall p: nat :: Members(e'.kernel, ReadyQ(p)) ==
                  LevelLeft(e, p) + if Th(e.kernel, Choice(e)).prio == p then [Choice(e)] else [])
  {
    var c, k := Choice(e), Vacated(e);
    VacatedKeeps(e);
    VacatedMembers(e, EdfReadyQ);
    forall q: Queue | !q.ReadyQ? && q != EdfReadyQ ensures Members(Reschedule(e).0.kernel, q) == Members(e.kernel, q) {
      VacatedMembers(e, q);
    }
    forall p: nat
      ensures Members(Reschedule(e).0.kernel, ReadyQ(p)) ==
              LevelLeft(e, p) + if Th(e.kernel, c).prio == p then [c] else []
    {
      VacatedLevels(e, p);
    }
    NotReadyAfter(e);
    hide Placed, PlacedBut, Preempt, Choice, ReadyAfter, LevelLeft;
    PutKeeps(k, c, Ready, ReadyQ(Th(k, c).prio), true);
  }

  lemma NotReadyAfter(e: Edf)
    requires Valid(e) && Reschedule(e).1
    ensures Choice(e) !in ReadyAfter(e)
    ensures forall t :: t in ReadyAfter(e) ==> t in e.Ready() || e.active == Some(t)
  {
    PlacedDistinct(e.kernel, EdfReadyQ);
    WithoutFacts(e.Ready(), Choice(e));
    hide Choice, Without;
  }

  /** Calling k_edf_schedule again changes nothing. */
  lemma SecondCallChangesNothing(e: Edf)
    requires Valid(e)
    ensures Reschedule(Reschedule(e).0) == (Reschedule(e).0, false)
  {
    if Reschedule(e).1 {
      var e', c := Reschedule(e).0, Choice(e);
      HandOver(e);
      NotReadyAfter(e);
      ChoiceIsEarliest(e);
      hide Choice, Valid, NotLater, ReadyAfter;
      forall i | 0 <= i < |e'.Ready()| ensures NotLater(e'.deadlines, c, e'.Ready()[i]) {
        var t := e'.Ready()[i];
        assert t in ReadyAfter(e);
        if t in e.Ready() {
          var j :| 0 <= j < |e.Ready()| && e.Ready()[j] == t;
        }
      }
      if e'.Ready() != [] {
        ChoiceIsEarliest(e');
      }
    }
  }

  /** A thread that is blocked when another is chosen stays exactly as it was. */
  lemma BlockedStays(e: Edf, t: int)
    requires Valid(e) && Reschedule(e).1 && Th(e.kernel, t).status.Waiting? && t !in e.Ready()
    ensures Th(Reschedule(e).0.kernel, t) == Th(e.kernel, t)
  {
    ChoiceIsEarliest(e);
    hide Without, Choice;
  }

  /** After a change some thread can be dispatched, as the caller's kthreads_schedule asks for. */
  lemma ChangedRuns(e: Edf)
    requires Valid(e) && Reschedule(e).1
    ensures Runnable(Reschedule(e).0.kernel)
  {
    HandOver(e);
    hide Choice, Valid, Reschedule;
    ReadyIsRunnable(Reschedule(e).0.kernel, Choice(e));
  }

  lemma ReadyIsRunnable(k: Kernel, t: int)
    requires Placed(k) && Th(k, t).status.Ready?
    ensures Runnable(k)
  {
    TopIsHighest(k, t);
  }

  lemma RescheduleIs(e: Edf)
    ensures e.Ready() == [] || e.active == Some(Choice(e)) ==> Reschedule(e) == (e, false)
    ensures e.Ready() != [] && e.active != Some(Choice(e)) ==>
              Reschedule(e) ==
              (Edf(MoveToReady(Vacated(e), Choice(e), true), Some(Choice(e)), e.deadlines,
                   e.activated - Deactivated(e)), true)
  {
    hide Choice, Preempt, Take, MoveToReady;
  }

  lemma VacatedIs(e: Edf)
    requires e.Ready() != []
    ensures var k := Take(e.kernel, EdfReadyQ, Choice(e));
            && (e.active.Some? ==> Vacated(e) == Preempt(k, e.active.value))
            && (e.active.None? ==> Vacated(e) == k && Deactivated(e) == {})
  {
    hide Choice, Preempt, Take;
  }
}
