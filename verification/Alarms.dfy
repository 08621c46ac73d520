/** The alarms of the kernel on top of the arch timer (kernel/time.c:22-266, arch/i386/arch/time.c). */
module Alarms {
  import opened Sequences
  import opened Time
  import opened SortedInsert
  import opened AlarmModel
  import opened AlarmRuns
  import opened ArchTimer
  import opened Wrappers
  import ClockModel

  class AlarmClock {
    const timer: Timer
    var alarms: AlarmModel.Alarms
    var queue: seq<int>
    var threshold: Time

    ghost function Contents(): State
      reads this
    {
      State(alarms, queue)
    }

    /** All but the link between the alarms and the timer. */
    ghost predicate Running()
      reads this, timer, timer.timer
    {
      TimerRuns() && Consistent(Contents())
    }

    ghost predicate TimerRuns()
      reads this, timer, timer.timer
    {
      timer.Valid() && Canonical(threshold) && Value(threshold) == Value(timer.threshold)
    }

    ghost predicate Valid()
      reads this, timer, timer.timer
    {
      Running() && Armed(Contents(), timer.Conf(), timer.Abs())
    }

    ghost function Snap(): Snapshot
      reads this, timer, timer.timer
      requires timer.Valid()
    {
      Snapshot(Contents(), timer.Abs())
    }

    /** k_time_init */
    constructor (device: Device)
      requires device.Valid()
      modifies device
      ensures Valid() && timer.timer == device && fresh(timer)
      ensures Contents() == State(map[], []) && ClockModel.Now(timer.Abs()) == 0
    {
      alarms, queue := map[], [];
      var t := new Timer(device);
      timer := t;
      var min := t.timer.minInterval;
      HalfValue(min);
      threshold := Time(min.sec / 2, min.nsec / 2 + if min.sec % 2 != 0 then NS / 2 else 0);
    }

    /** k_schedule_alarms; the result lists the actions it takes. */
    method ScheduleAlarms() returns (fired: seq<Firing>, ghost ref: Time)
      requires Running()
      modifies this`alarms, this`queue, timer, timer.timer
      ensures Running() && timer.Conf() == old(timer.Conf())
      ensures Rep(ref) && Value(ref) == ClockModel.Now(old(timer.Abs())) + Value(threshold)
      ensures AllFired(old(Contents()), Contents(), fired, ref)
      ensures TimerSet(Contents(), timer.Conf(), old(timer.Abs()), timer.Abs())
    {
      hide Consistent, AllFired, NothingDue, Cmp, Add, Sub, Value, Rep;
      var time := timer.GetTime();
      var refTime := Add(time, threshold);
      Exact(time, threshold);
      ref := refTime;
      fired := FireDue(refTime);
      if queue != [] {
        FirstWaits(Contents(), refTime);
        var expiry := alarms[queue[0]].exp;
        Exact(expiry, time);
        timer.Set(Sub(expiry, time), K_TIMER_INTERRUPT);
      }
    }

    /** One turn of the loop: the first alarm is taken off the queue and, if it is periodic, put back for its next
        instant. */
    method FireFirst() returns (firing: Firing)
      requires queue != [] && queue[0] in alarms
      modifies this`alarms, this`queue
      ensures Contents() == Fire(old(Contents()))
      ensures firing == Firing(old(queue)[0], old(alarms)[old(queue)[0]].exp)
    {
      hide SortAdd, Add, ByExpiry;
      var id := queue[0];
      var alarm := alarms[id];
      queue := queue[1..];
      firing := Firing(id, alarm.exp);
      if alarm.periodic {
        alarms := alarms[id := alarm.(exp := Add(alarm.exp, alarm.period))];
        queue := SortAdd(queue, id, ByExpiry(alarms));
      } else {
        alarms := alarms[id := alarm.(active := false)];
      }
    }

    /** The loop of k_schedule_alarms. */
    method FireDue(ref: Time) returns (fired: seq<Firing>)
      requires Consistent(Contents()) && Rep(ref)
      modifies this`alarms, this`queue
      ensures Consistent(Contents()) && NothingDue(Contents(), ref)
      ensures AllFired(old(Contents()), Contents(), fired, ref)
    {
      hide Sorted, NoDuplicates, ByExpiry, SomeFired, AllFired, NothingDue, IsDue, Fire, Consistent;
      ghost var s0 := Contents();
      fired := [];
      LoopStart(s0, ref);
      while queue != [] && IsDue(Get(alarms, queue[0]), ref)
        invariant Consistent(Contents()) && SomeFired(s0, Contents(), fired, ref)
        decreases Total(alarms, queue, ref)
      {
        ghost var s := Contents();
        FireKeeps(s, ref);
        FireProgress(s0, s, fired, ref);
        FireShrinks(s, ref);
        RestOfQueue(s);
        var firing := FireFirst();
        fired := fired + [firing];
      }
      LoopEnd(s0, Contents(), fired, ref);
    }

    /** Hardware time passes, up to the end of the loaded interval. */
    method Advance(n: nat)
      requires Valid() && timer.timer.passed + n <= Value(timer.lastLoad)
      modifies timer.timer
      ensures Valid() && Contents() == old(Contents())
      ensures ClockModel.Now(timer.Abs()) == ClockModel.Now(old(timer.Abs())) + n
      ensures timer.Conf() == old(timer.Conf())
      ensures StepOk(timer.Conf(), old(Snap()), AlarmRuns.Step(Tick(n), [], Time(0, 0), Snap()))
    {
      timer.timer.Advance(n);
    }

    /** The timer interrupt: arch_timer_handler, which calls k_timer_interrupt when the delay is over. */
    method Interrupt() returns (fired: seq<Firing>, ghost ref: Time)
      requires Valid() && timer.timer.passed == Value(timer.lastLoad)
      modifies this`alarms, this`queue, timer, timer.timer
      ensures Valid() && ClockModel.Now(timer.Abs()) == ClockModel.Now(old(timer.Abs()))
      ensures if ClockModel.Interrupt(old(timer.Conf()), old(timer.Abs())).1 == Some(K_TIMER_INTERRUPT) then
                && Rep(ref) && Value(ref) == ClockModel.Now(timer.Abs()) + Value(threshold)
                && AllFired(old(Contents()), Contents(), fired, ref)
              else
                fired == [] && Contents() == old(Contents())
      ensures timer.Conf() == old(timer.Conf())
      ensures StepOk(timer.Conf(), old(Snap()), AlarmRuns.Step(Expiry, fired, ref, Snap()))
    {
      hide Consistent, AllFired, TimerSet, Armed, AllSound;
      ghost var c, t := timer.Conf(), timer.Abs();
      InterruptArms(Contents(), c, t);
      ClockModel.StepKeeps(c, t, ClockModel.Expire);
      fired, ref := [], Time(0, 0);
      var called := timer.Handler();
      if called == Some(K_TIMER_INTERRUPT) {
        ghost var t' := timer.Abs();
        fired, ref := ScheduleAlarms();
        SetArms(Contents(), c, t', timer.Abs());
        SetKeepsNow(Contents(), c, t', timer.Abs());
      }
    }

    /** k_alarm_new; `id` is the new record's address. */
    method New(id: int, alarm: Alarm) returns (fired: seq<Firing>, ghost ref: Time)
      requires Valid() && id !in alarms && alarm.Sound()
      modifies this`alarms, this`queue, timer, timer.timer
      ensures Valid() && ClockModel.Now(timer.Abs()) == ClockModel.Now(old(timer.Abs()))
      ensures Value(ref) == ClockModel.Now(timer.Abs()) + Value(threshold)
      ensures AllFired(Created(old(Contents()), id, alarm), Contents(), fired, ref)
      ensures Went(alarm.(active := alarm.exp.sec + alarm.exp.nsec > 0), Contents(), fired, ref, id)
      ensures forall q | q in old(alarms) :: Went(old(alarms)[q], Contents(), fired, ref, q)
      ensures timer.Conf() == old(timer.Conf())
      ensures StepOk(timer.Conf(), old(Snap()), AlarmRuns.Step(Event.New(id, alarm), fired, ref, Snap()))
    {
      hide Sorted, NoDuplicates, ByExpiry, AllFired, ConsistentBut, Armed, TimerSet, AllSound, Consistent, Enqueue;
      ghost var s := Contents();
      CreatedBut(s, id, alarm);
      alarms := alarms[id := alarm];
      fired, ref := AddAlarm(id);
      AllWent(s, Created(s, id, alarm), Contents(), fired, ref, id, alarm);
    }

    /** k_alarm_add */
    method AddAlarm(id: int) returns (fired: seq<Firing>, ghost ref: Time)
      requires TimerRuns() && ConsistentBut(Contents(), id) && id in alarms
      modifies this`alarms, this`queue, timer, timer.timer
      ensures Valid() && ClockModel.Now(timer.Abs()) == ClockModel.Now(old(timer.Abs()))
      ensures Value(ref) == ClockModel.Now(timer.Abs()) + Value(threshold)
      ensures AllFired(Enqueue(old(Contents()), id), Contents(), fired, ref)
      ensures timer.Conf() == old(timer.Conf())
    {
      hide Sorted, NoDuplicates, ByExpiry, SortAdd, AllFired, ConsistentBut, Armed, TimerSet, AllSound;
      ghost var s, c, t := Contents(), timer.Conf(), timer.Abs();
      EnqueueKeeps(s, id);
      var alarm := alarms[id];
      if alarm.exp.sec + alarm.exp.nsec > 0 {
        alarms := alarms[id := alarm.(active := true)];
        queue := SortAdd(queue, id, ByExpiry(alarms));
      } else {
        alarms := alarms[id := alarm.(active := false)];
      }
      assert Contents() == Enqueue(s, id);
      fired, ref := ScheduleAlarms();
      SetArms(Contents(), c, t, timer.Abs());
      SetKeepsNow(Contents(), c, t, timer.Abs());
    }

    /** k_alarm_set */
    method Set(id: int, alarm: Alarm) returns (fired: seq<Firing>, ghost ref: Time)
      requires Valid() && id in alarms && alarm.Sound()
      modifies this`alarms, this`queue, timer, timer.timer
      ensures Valid() && ClockModel.Now(timer.Abs()) == ClockModel.Now(old(timer.Abs()))
      ensures if Cmp(old(alarms)[id].exp, alarm.exp) == 0 then
                fired == [] && Contents() == Changed(old(Contents()), id, alarm) && timer.Abs() == old(timer.Abs())
              else
                && Value(ref) == ClockModel.Now(timer.Abs()) + Value(threshold)
                && AllFired(Changed(old(Contents()), id, alarm), Contents(), fired, ref)
      ensures if Cmp(old(alarms)[id].exp, alarm.exp) == 0 then
                && queue == old(queue)
                && alarms == old(alarms)[id := old(alarms)[id].(period := alarm.period, periodic := alarm.periodic)]
              else
                && Went(alarm.(active := alarm.exp.sec + alarm.exp.nsec > 0), Contents(), fired, ref, id)
                && forall q | q in old(alarms) && q != id :: Went(old(alarms)[q], Contents(), fired, ref, q)
      ensures timer.Conf() == old(timer.Conf())
      ensures StepOk(timer.Conf(), old(Snap()), AlarmRuns.Step(Event.Set(id, alarm), fired, ref, Snap()))
    {
      hide Sorted, NoDuplicates, ByExpiry, SortAdd, AllFired, ConsistentBut, TimerSet, AllSound, Consistent,
        Enqueue, Without;
      ghost var s := Contents();
      var was := alarms[id];
      fired, ref := [], Time(0, 0);
      var same := Cmp(was.exp, alarm.exp) == 0;
      CmpOrder(was.exp, alarm.exp, alarm.exp);
      if same {
        ParametersKeep(s, id, alarm.(active := was.active));
      } else {
        ChangedBut(s, id, alarm.(active := was.active));
      }
      alarms := alarms[id := was.(period := alarm.period, periodic := alarm.periodic)];
      if !same {
        if was.active {
          queue := Without(queue, id);
        }
        alarms := alarms[id := alarms[id].(exp := alarm.exp)];
        assert alarms == s.alarms[id := alarm.(active := was.active)];
        fired, ref := AddAlarm(id);
        AllWent(s, Changed(s, id, alarm), Contents(), fired, ref, id, alarm);
      }
    }

    /** k_alarm_remove */
    method Remove(id: int) returns (fired: seq<Firing>, ghost ref: Time)
      requires Valid() && id in alarms
      modifies this`alarms, this`queue, timer, timer.timer
      ensures Valid() && ClockModel.Now(timer.Abs()) == ClockModel.Now(old(timer.Abs()))
      ensures Value(ref) == ClockModel.Now(timer.Abs()) + Value(threshold)
      ensures AllFired(Deleted(old(Contents()), id), Contents(), fired, ref)
      ensures id !in alarms && id !in queue && Times(fired, id) == []
      ensures forall q | q in old(alarms) && q != id :: Went(old(alarms)[q], Contents(), fired, ref, q)
      ensures timer.Conf() == old(timer.Conf())
      ensures StepOk(timer.Conf(), old(Snap()), AlarmRuns.Step(Event.Remove(id), fired, ref, Snap()))
    {
      hide Sorted, NoDuplicates, ByExpiry, AllFired, Armed, TimerSet, AllSound, Consistent, Without;
      ghost var s, c, t := Contents(), timer.Conf(), timer.Abs();
      DeletedKeeps(s, id);
      DeletedRecords(s, id);
      if alarms[id].active {
        queue := Without(queue, id);
      }
      alarms := alarms - {id};
      assert Contents() == Deleted(s, id);
      fired, ref := ScheduleAlarms();
      SetArms(Contents(), c, t, timer.Abs());
      SetKeepsNow(Contents(), c, t, timer.Abs());
      RemovedSilent(s, Contents(), fired, ref, id);
      OthersWent(s, Deleted(s, id), Contents(), fired, ref, id);
    }
  }

  lemma OthersWent(s: State, s1: State, s': State, fired: seq<Firing>, ref: Time, id: int)
    requires AllFired(s1, s', fired, ref)
    requires forall q | q in s.alarms && q != id :: q in s1.alarms && s1.alarms[q] == s.alarms[q]
    ensures forall q | q in s.alarms && q != id :: Went(s.alarms[q], s', fired, ref, q)
  {
    hide AllFired, Went;
    forall q | q in s.alarms && q != id ensures Went(s.alarms[q], s', fired, ref, q) {
      FiredWent(s1, s', fired, ref, q);
    }
  }

  lemma DeletedRecords(s: State, id: int)
    ensures Deleted(s, id).alarms == s.alarms - {id}
  {
    hide Without;
  }

  lemma AllWent(s: State, s1: State, s': State, fired: seq<Firing>, ref: Time, id: int, a: Alarm)
    requires AllFired(s1, s', fired, ref)
    requires s1 == Created(s, id, a) || (s1 == Changed(s, id, a) && Cmp(Get(s.alarms, id).exp, a.exp) != 0)
    ensures Went(a.(active := a.exp.sec + a.exp.nsec > 0), s', fired, ref, id)
    ensures forall q | q in s.alarms && q != id :: Went(s.alarms[q], s', fired, ref, q)
  {
    hide *;
    QueuedRecord(s, id, a);
    FiredWent(s1, s', fired, ref, id);
    OthersWent(s, s1, s', fired, ref, id);
  }

  /** The first alarm that is not due expires after now + threshold in the order of time_cmp. It is later by value, so
      that the delay set is above the threshold, exactly unless it is that very instant in its carried form while
      now + threshold is not carried. */
  lemma FirstWaits(s: State, ref: Time)
    requires Consistent(s) && NothingDue(s, ref) && s.queue != [] && Rep(ref)
    ensures s.queue[0] in s.alarms && s.alarms[s.queue[0]].Sound()
    ensures var exp := s.alarms[s.queue[0]].exp;
            && Cmp(exp, ref) > 0 && Value(exp) >= Value(ref)
            && (Value(exp) > Value(ref) <==> !Uncarried(ref, exp))
  {
    RestOfQueue(s);
    CmpExact(s.alarms[s.queue[0]].exp, ref);
  }

  /** The case arises: with a threshold of half a second, at half a second past 0, the alarm for second 1 is not
      due, and the timer is set exactly the threshold ahead. */
  lemma ThresholdAhead(now: Time, threshold: Time, s: State)
    requires now == Time(0, NS / 2) && threshold == Time(0, NS / 2)
    requires s == State(map[7 := Alarm(Time(1, 0), Time(0, 0), false, true)], [7])
    ensures Consistent(s) && NothingDue(s, Add(now, threshold))
    ensures Value(Sub(s.alarms[s.queue[0]].exp, now)) == Value(threshold)
  {
    var a := Alarm(Time(1, 0), Time(0, 0), false, true);
    assert !IsDue(a, Add(now, threshold)) && Value(Sub(a.exp, now)) == Value(threshold) && a.Sound();
    assert Get(s.alarms, 7) == a && forall id | id in s.alarms :: id == 7;
    hide IsDue, Cmp, Add, Sub, Value, Rep;
  }
}
