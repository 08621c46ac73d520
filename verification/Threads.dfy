/** The dispatcher of the kernel with its ready mask (kernel/thread.c:253-446, 891-931). */
module Threads {
  import opened Bits
  import opened Sequences
  import opened Wrappers
  import opened ThreadModel
  import ThreadCalls

  /** sizeof (word_t): so many bits of a mask word are used, and RDY_MASKS words. */
  const WORD: nat := 4
  const MASKS: nat := (LEVELS + WORD - 1) / WORD

  /** A bit of the mask is set exactly when the queue of that priority is not empty. */
  ghost predicate Shows(mask: seq<nat>, k: Kernel) {
    && |mask| == MASKS && (forall i | 0 <= i < MASKS :: mask[i] < Pow2(WORD))
    && (forall p: nat | p < LEVELS :: Bit(mask[p / WORD], p % WORD) <==> Members(k, ReadyQ(p)) != [])
  }

  lemma ShowsSame(mask: seq<nat>, k: Kernel, k': Kernel)
    requires Shows(mask, k)
    requires forall p: nat | p < LEVELS :: Members(k', ReadyQ(p)) == [] <==> Members(k, ReadyQ(p)) == []
    ensures Shows(mask, k')
  {
  }

  lemma ShowsFilled(mask: seq<nat>, k: Kernel, k': Kernel, p: nat)
    requires Shows(mask, k) && p < LEVELS && Members(k', ReadyQ(p)) != []
    requires forall r: nat | r != p :: Members(k', ReadyQ(r)) == Members(k, ReadyQ(r))
    ensures Shows(mask[p / WORD := SetBit(mask[p / WORD], p % WORD)], k')
  {
    hide Bit, SetBit, Members;
    SetBitBound(mask[p / WORD], p % WORD, WORD);
    var mask' := mask[p / WORD := SetBit(mask[p / WORD], p % WORD)];
    forall r: nat | r < LEVELS ensures Bit(mask'[r / WORD], r % WORD) <==> Members(k', ReadyQ(r)) != [] {
      SetBitBits(mask[p / WORD], p % WORD, r % WORD);
      assert r == WORD * (r / WORD) + r % WORD;
    }
  }

  lemma ClearBitBelow(w: nat, j: nat)
    ensures ClearBit(w, j) <= w
  {
  }

  lemma ShowsEmptied(mask: seq<nat>, k: Kernel, k': Kernel, p: nat)
    requires Shows(mask, k) && p < LEVELS && Members(k', ReadyQ(p)) == []
    requires forall r: nat | r != p :: Members(k', ReadyQ(r)) == Members(k, ReadyQ(r))
    ensures Shows(mask[p / WORD := ClearBit(mask[p / WORD], p % WORD)], k')
  {
    hide Bit, ClearBit, Members;
    ClearBitBelow(mask[p / WORD], p % WORD);
    var mask' := mask[p / WORD := ClearBit(mask[p / WORD], p % WORD)];
    forall r: nat | r < LEVELS ensures Bit(mask'[r / WORD], r % WORD) <==> Members(k', ReadyQ(r)) != [] {
      ClearBitBits(mask[p / WORD], p % WORD, r % WORD);
      assert r == WORD * (r / WORD) + r % WORD;
    }
  }

  /** A word of the mask that is zero has four empty queues; one that is not has its highest at its highest bit. */
  lemma WordShows(mask: seq<nat>, k: Kernel, i: nat)
    requires Shows(mask, k) && i < MASKS
    ensures mask[i] == 0 ==> forall p: nat | WORD * i <= p < WORD * i + WORD :: Members(k, ReadyQ(p)) == []
    ensures mask[i] > 0 ==>
      && Msb(mask[i]) < WORD && Members(k, ReadyQ(WORD * i + Msb(mask[i]))) != []
      && (forall p: nat | WORD * i + Msb(mask[i]) < p < WORD * i + WORD :: Members(k, ReadyQ(p)) == [])
  {
    hide Bit, Msb, Members;
    ZeroIffNoBit(mask[i]);
    forall p: nat | WORD * i <= p < WORD * i + WORD
      ensures Bit(mask[i], p % WORD) <==> Members(k, ReadyQ(p)) != []
      ensures p % WORD == p - WORD * i
    {
      assert p / WORD == i;
    }
    if mask[i] > 0 {
      MsbIsSet(mask[i]);
      BitBelow(mask[i]);
      assert (WORD * i + Msb(mask[i])) % WORD == Msb(mask[i]);
    }
  }

  lemma BitBelow(w: nat)
    requires 0 < w < Pow2(WORD)
    ensures Msb(w) < WORD
  {
    MsbIsSet(w);
    if Msb(w) >= WORD {
      HighBitsClear(w, WORD, Msb(w));
    }
  }

  lemma TopIs(k: Kernel, p: nat)
    requires p < LEVELS && Members(k, ReadyQ(p)) != []
    requires forall r: nat | p < r < LEVELS :: Members(k, ReadyQ(r)) == []
    ensures Top(k, LEVELS) == p
  {
  }

  class Scheduler {
    var threads: map<int, Thread>
    var queues: map<Queue, seq<int>>
    var active: Option<int>
    const readyMask: array<nat>

    ghost function Contents(): Kernel
      reads this
    {
      Kernel(threads, queues, active)
    }

    ghost predicate Valid()
      reads this, readyMask
    {
      Shows(readyMask[..], Contents())
    }

    function Queued(q: Queue): seq<int>
      reads this
      ensures Queued(q) == Members(Contents(), q)
    {
      if q in queues then queues[q] else []
    }

    /** kthread_ready_list_init */
    constructor ()
      ensures Valid() && fresh(readyMask) && Contents() == Kernel(map[], map[], None)
    {
      threads, queues, active := map[], map[], None;
      readyMask := new nat[MASKS](i => 0);
      new;
      NoReady(readyMask[..]);
    }

    /** kthread_ready_list_highest */
    method Highest() returns (first: int)
      requires Valid()
      ensures first == Top(Contents(), LEVELS)
    {
      hide Bit, Msb, Members, Shows, Pow2;
      ghost var k := Contents();
      first := -1;
      var i := MASKS;
      while i > 0
        invariant i <= MASKS && first == -1
        invariant forall p: nat | WORD * i <= p < LEVELS :: Members(k, ReadyQ(p)) == []
      {
        i := i - 1;
        MaskWord(readyMask[..], k, i);
        WordShows(readyMask[..], k, i);
        if readyMask[i] != 0 {
          var msb := MsbIndex32(readyMask[i]);
          TopIs(k, WORD * i + msb);
          return WORD * i + msb;
        }
      }
    }

    /** kthread_ready_list_set_not_empty */
    method SetNotEmpty(index: nat)
      requires readyMask.Length == MASKS && index < LEVELS
      modifies readyMask
      ensures readyMask[..] ==
              old(readyMask[..])[index / WORD := SetBit(old(readyMask[..])[index / WORD], index % WORD)]
    {
      hide SetBit;
      var i, j := index / WORD, index % WORD;
      readyMask[i] := SetBit(readyMask[i], j);
    }

    /** kthread_ready_list_set_empty */
    method SetEmpty(index: nat)
      requires readyMask.Length == MASKS && index < LEVELS
      modifies readyMask
      ensures readyMask[..] ==
              old(readyMask[..])[index / WORD := ClearBit(old(readyMask[..])[index / WORD], index % WORD)]
    {
      hide ClearBit;
      var i, j := index / WORD, index % WORD;
      readyMask[i] := ClearBit(readyMask[i], j);
    }

    /** kthread_move_to_ready */
    method MoveToReady(t: int, last: bool)
      requires Valid() && t in threads && threads[t].prio < LEVELS
      modifies this`threads, this`queues, readyMask
      ensures Valid() && Contents() == ThreadModel.MoveToReady(old(Contents()), t, last)
    {
      hide Bit, SetBit, Shows, Pow2;
      ghost var k := Contents();
      ShowsLength(readyMask[..], k);
      var prio := threads[t].prio;
      var q := ReadyQ(prio);
      threads := threads[t := threads[t].(status := Ready, queue := Some(q))];
      queues := queues[q := if last then Queued(q) + [t] else [t] + Queued(q)];
      ShowsFilled(readyMask[..], k, Contents(), prio);
      SetNotEmpty(prio);
    }

    /** kthread_remove_from_ready */
    method RemoveFromReady(t: int) returns (removed: bool)
      requires Valid() && t in threads && threads[t].prio < LEVELS
      modifies this`threads, this`queues, readyMask
      ensures Valid() && removed == (t in Members(old(Contents()), ReadyQ(old(threads)[t].prio)))
      ensures var th := old(threads)[t].(queue := Some(ReadyQ(old(threads)[t].prio)));
              Contents() == Take(WithThread(old(Contents()), t, th), ReadyQ(th.prio), t)
    {
      hide Bit, ClearBit, Shows, Pow2, Without;
      ghost var k := Contents();
      var prio := threads[t].prio;
      var q := ReadyQ(prio);
      threads := threads[t := threads[t].(queue := Some(q))];
      removed := t in Queued(q);
      TakeStillShows(readyMask[..], k, t, prio);
      queues := queues[q := Without(Queued(q), t)];
      if removed && Queued(q) == [] {
        ShowsLength(readyMask[..], k);
        ShowsEmptied(readyMask[..], k, Contents(), prio);
        SetEmpty(prio);
      }
    }

    /** kthread_enqueue; without a thread, the active one. */
    method Enqueue(thread: Option<int>, q: WaitQueue)
      requires Valid() && (thread.Some? || active.Some?)
      requires thread.Some? ==> thread.value in threads
      requires thread.None? ==> active.value in threads
      modifies this`threads, this`queues
      ensures Valid()
      ensures Contents() == ThreadModel.Enqueue(old(Contents()),
                                                if thread.Some? then thread.value else old(active).value, q)
    {
      hide Bit, Pow2;
      var t := if thread.Some? then thread.value else active.value;
      ghost var k := Contents();
      threads := threads[t := threads[t].(status := Waiting, queue := Some(q))];
      queues := queues[q := Queued(q) + [t]];
      ShowsSame(readyMask[..], k, Contents());
    }

    /** kthread_set_qdata of the active thread */
    method SetQData(qdata: int)
      requires Valid() && active.Some? && active.value in threads
      modifies this`threads
      ensures Valid()
      ensures var a := active.value;
              Contents() == WithThread(old(Contents()), a, Th(old(Contents()), a).(qdata := qdata))
    {
      hide Bit, Pow2;
      ghost var k := Contents();
      threads := threads[active.value := threads[active.value].(qdata := qdata)];
      ShowsSame(readyMask[..], k, Contents());
    }

    /** kthreadq_remove of a given thread */
    method Remove(q: WaitQueue, t: int)
      requires Valid()
      modifies this`queues
      ensures Valid() && Contents() == Take(old(Contents()), q, t)
    {
      hide Shows, Without;
      ShowsTaken(readyMask[..], Contents(), q, t);
      queues := queues[q := Without(Queued(q), t)];
    }

    /** kthreadq_release */
    method ReleaseOne(q: WaitQueue) returns (released: bool)
      requires Valid() && Placed(Contents())
      modifies this`threads, this`queues, readyMask
      ensures Valid() && Placed(Contents()) && Contents() == Release(old(Contents()), q)
      ensures released == (Members(old(Contents()), q) != [])
    {
      hide Shows, Placed, Without;
      ReleaseKeeps(Contents(), q);
      released := false;
      if Queued(q) != [] {
        ghost var k := Contents();
        var t := Queued(q)[0];
        MemberInRange(k, q, t);
        TakeFirst(k, q);
        queues := queues[q := Queued(q)[1..]];
        ShowsTaken(readyMask[..], k, q, t);
        MoveToReady(t, true);
        released := true;
      }
    }

    /** kthreadq_release_all */
    method ReleaseAll(q: WaitQueue) returns (count: nat)
      requires Valid() && Placed(Contents())
      modifies this`threads, this`queues, readyMask
      ensures Valid() && Placed(Contents()) && Contents() == ThreadModel.ReleaseAll(old(Contents()), q)
      ensures count == |Members(old(Contents()), q)|
    {
      hide Shows, Placed, Release, Members, ThreadModel.ReleaseAll;
      count := 0;
      var more := true;
      while more
        invariant Valid() && Placed(Contents())
        invariant ThreadModel.ReleaseAll(Contents(), q) == ThreadModel.ReleaseAll(old(Contents()), q)
        invariant count + |Members(Contents(), q)| == |Members(old(Contents()), q)|
        invariant !more ==> Members(Contents(), q) == []
        decreases if more then 1 else 0, |Members(Contents(), q)|
      {
        ghost var k := Contents();
        ReleaseAllStep(k, q);
        ReleaseNothing(k, q);
        if Members(k, q) != [] {
          ReleaseShrinks(k, q);
        }
        more := ReleaseOne(q);
        if more {
          count := count + 1;
        }
      }
      ReleaseAllStep(Contents(), q);
    }

    /** kthreads_schedule */
    method Schedule()
      requires Valid() && Placed(Contents()) && Runnable(Contents())
      modifies this`threads, this`queues, this`active, readyMask
      ensures Valid() && Contents() == ThreadModel.Schedule(old(Contents()))
      ensures Placed(Contents()) && Dispatched(Contents())
    {
      hide Shows, Placed, Dispatched, Without, Bit, Pow2;
      ghost var k := Contents();
      ScheduleDispatches(k);
      PlacedFacts(k);
      var highest := Highest();
      if active.None? || !threads[active.value].status.Active? || highest > threads[active.value].prio {
        PreemptedKeeps(k);
        if active.Some? && threads[active.value].status.Active? {
          MoveToReady(active.value, true);
        }
        DispatchFirst();
      }
    }

    /** The last part of kthreads_schedule: the first thread of the highest level becomes active. */
    method DispatchFirst()
      requires Valid() && Placed(Contents()) && Top(Contents(), LEVELS) >= 0
      modifies this`threads, this`queues, this`active, readyMask
      ensures Valid() && Contents() == DispatchTop(old(Contents()))
    {
      hide Shows, Placed, Without, Bit, Pow2, SetBit, ClearBit;
      ghost var k := Contents();
      var highest: nat := Highest();
      var next := Queued(ReadyQ(highest))[0];
      MemberInRange(k, ReadyQ(highest), next);
      TakeFirst(k, ReadyQ(highest));
      queues := queues[ReadyQ(highest) := Queued(ReadyQ(highest))[1..]];
      ghost var k1 := Contents();
      if Queued(ReadyQ(highest)) == [] {
        ShowsLength(readyMask[..], k);
        ShowsEmptied(readyMask[..], k, k1, highest);
        SetEmpty(highest);
      } else {
        ShowsSame(readyMask[..], k, k1);
      }
      active := Some(next);
      threads := threads[next := threads[next].(status := Active, queue := None)];
      ShowsSame(readyMask[..], k1, Contents());
    }

    /** kthread_set_prio; without a thread, the active one. */
    method SetPrio(thread: Option<int>, prio: nat, ghost idle: int) returns (oldPrio: nat)
      requires Valid() && Safe(Contents(), idle) && prio < LEVELS
      requires thread.Some? ==> thread.value in threads
      modifies this`threads, this`queues, this`active, readyMask
      ensures var t := if thread.Some? then thread.value else old(active).value;
              && Contents() == ThreadModel.SetPrio(old(Contents()), t, prio)
              && oldPrio == Th(old(Contents()), t).prio
              && (forall u :: Th(Contents(), u).prio == if u == t then prio else Th(old(Contents()), u).prio)
      ensures Valid() && Safe(Contents(), idle)
    {
      hide Shows, Placed, Without, Dispatched, Top, HasIdle, ThreadModel.MoveToReady,
        ThreadModel.Schedule, Safe;
      ghost var k := Contents();
      SafeParts(k, idle);
      DispatchedRuns(k);
      PlacedFacts(k);
      var t := if thread.Some? then thread.value else active.value;
      oldPrio := threads[t].prio;
      SetPrioSafe(k, t, prio, idle);
      ThreadCalls.PriosAre(k, t, prio);
      match threads[t].status {
        case Active =>
          RequeueReady(k, t, prio, idle);
          threads := threads[t := threads[t].(prio := prio)];
          ShowsSame(readyMask[..], k, Contents());
          MoveToReady(t, true);
          Schedule();
        case Ready =>
          RequeueReady(k, t, prio, idle);
          var _ := RemoveFromReady(t);
          ghost var k1 := Contents();
          threads := threads[t := threads[t].(prio := prio)];
          ShowsSame(readyMask[..], k1, Contents());
          MoveToReady(t, true);
          Schedule();
        case Waiting =>
          threads := threads[t := threads[t].(prio := prio)];
          ShowsSame(readyMask[..], k, Contents());
        case Passive =>
          threads := threads[t := threads[t].(prio := prio)];
          ShowsSame(readyMask[..], k, Contents());
      }
    }

    /** kthread_create, for a thread that is to run. */
    method Create(t: int, asked: int)
      requires Valid() && Placed(Contents()) && t !in threads
      modifies this`threads, this`queues, readyMask
      ensures Valid() && Placed(Contents()) && Contents() == ThreadModel.Create(old(Contents()), t, asked)
      ensures t in threads && threads[t].prio == if asked < 0 then 0 else if asked < LEVELS then asked else LEVELS - 1
    {
      hide Shows, Placed;
      ghost var k := Contents();
      CreateKeeps(k, t, asked);
      ThreadCalls.CreateGives(k, t, asked);
      var prio := asked;
      if prio < 0 {
        prio := 0;
      }
      if prio >= LEVELS {
        prio := LEVELS - 1;
      }
      threads := threads[t := Thread(Passive, prio, None, 0)];
      ShowsSame(readyMask[..], k, Contents());
      MoveToReady(t, true);
    }
  }

  lemma SafeParts(k: Kernel, idle: int)
    requires Safe(k, idle)
    ensures Placed(k) && Dispatched(k) && HasIdle(k, idle)
  {
  }

  lemma NoReady(mask: seq<nat>)
    requires |mask| == MASKS && forall i | 0 <= i < MASKS :: mask[i] == 0
    ensures Shows(mask, Kernel(map[], map[], None))
  {
    hide Bit;
    forall p: nat | p < LEVELS ensures !Bit(mask[p / WORD], p % WORD) {
      ZeroIffNoBit(mask[p / WORD]);
    }
  }

  lemma ShowsLength(mask: seq<nat>, k: Kernel)
    requires Shows(mask, k)
    ensures |mask| == MASKS
  {
  }

  lemma MaskWord(mask: seq<nat>, k: Kernel, i: nat)
    requires Shows(mask, k) && i < MASKS
    ensures |mask| == MASKS && mask[i] < WORD_LIMIT
  {
    Pow2Constants();
  }

  /** Taking a thread out of its level leaves the mask right unless the level is now empty. */
  lemma TakeStillShows(mask: seq<nat>, k: Kernel, t: int, p: nat)
    requires Shows(mask, k) && t in k.threads
    ensures var k' := Take(WithThread(k, t, k.threads[t].(queue := Some(ReadyQ(p)))), ReadyQ(p), t);
            !(t in Members(k, ReadyQ(p)) && Members(k', ReadyQ(p)) == []) ==> Shows(mask, k')
  {
    hide Bit, Pow2;
  }

  lemma PlacedFacts(k: Kernel)
    requires Placed(k)
    ensures k.active.Some? ==> k.active.value in k.threads
    ensures forall t | t in k.threads :: k.threads[t].prio < LEVELS
  {
  }

  lemma DispatchedRuns(k: Kernel)
    requires Dispatched(k)
    ensures Running(k)
  {
  }

  lemma MemberInRange(k: Kernel, q: Queue, t: int)
    requires Placed(k) && t in Members(k, q)
    ensures t in k.threads && k.threads[t].prio < LEVELS
  {
    assert Belongs(Th(k, t), q);
  }

  /** Removing the first of a queue and removing it by reference are the same. */
  lemma TakeFirst(k: Kernel, q: Queue)
    requires Members(k, q) != []
    ensures Take(k, q, Members(k, q)[0]) == k.(queues := k.queues[q := Members(k, q)[1..]])
  {
    HeadIndex(Members(k, q)[1..], Members(k, q)[0]);
    assert [Members(k, q)[0]] + Members(k, q)[1..] == Members(k, q);
  }

  lemma ShowsTaken(mask: seq<nat>, k: Kernel, q: WaitQueue, t: int)
    requires Shows(mask, k)
    ensures Shows(mask, Take(k, q, t))
  {
    hide Without;
    ShowsSame(mask, k, Take(k, q, t));
  }

  lemma ReleaseNothing(k: Kernel, q: Queue)
    ensures Members(k, q) == [] ==> Release(k, q) == k
  {
  }

  /** In the middle of kthread_set_prio the thread is back in a queue and there is one to dispatch. */
  lemma RequeueReady(k: Kernel, t: int, prio: nat, idle: int)
    requires Safe(k, idle) && t in k.threads && prio < LEVELS
             && (k.threads[t].status.Active? || k.threads[t].status.Ready?)
    ensures k.threads[t].status.Ready? ==>
              WithThread(k, t, k.threads[t].(queue := Some(ReadyQ(k.threads[t].prio)))) == k
    ensures var k1 := if k.threads[t].status.Active? then k else Take(k, ReadyQ(k.threads[t].prio), t);
            var k2 := MoveToReady(WithPrio(k1, t, prio), t, true);
            Placed(k2) && Runnable(k2)
  {
    var th := k.threads[t];
    var k1 := if th.status.Active? then k else Take(k, ReadyQ(th.prio), t);
    if th.status.Active? {
      OutOfQueues(k, t);
    } else {
      ThreadFacts(k, t);
      assert Belongs(Th(k, t), ReadyQ(th.prio)) && t in Members(k, ReadyQ(th.prio));
      TakeKeeps(k, ReadyQ(th.prio), t);
    }
    RequeueKeeps(k1, t, prio);
    assert Members(MoveToReady(WithPrio(k1, t, prio), t, true), ReadyQ(prio)) != [];
  }
}
