/** Alarms and timer together, over whole runs (kernel/time.c:22-266, arch/i386/arch/time.c:52-119): every instant of
    every alarm, once and in time. */
module AlarmRuns {
  import opened Wrappers
  import opened Sequences
  import opened Time
  import opened SortedInsert
  import opened AlarmModel
  import ClockModel

  /** The function the kernel asks the timer to call, k_timer_interrupt. */
  const K_TIMER_INTERRUPT: nat := 1

  /** With alarms waiting, the timer will call k_timer_interrupt, no earlier than the first expiry less the
      threshold (that is ClockModel.PendingCallback) and at most min - threshold after it. */
  ghost predicate Armed(s: State, c: ClockModel.Config, t: ClockModel.State) {
    s.queue != [] ==>
      && t.handler == Some(K_TIMER_INTERRUPT)
      && Value(Get(s.alarms, s.queue[0]).exp) <= ClockModel.Now(t) + ClockModel.Ahead(t)
      && ClockModel.Now(t) + ClockModel.Ahead(t) <= Value(Get(s.alarms, s.queue[0]).exp) + (c.min - c.threshold)
  }

  /** A threshold away from what has been fired, the timer is set to the first expiry. */
  ghost predicate TimerSet(s: State, c: ClockModel.Config, t: ClockModel.State, t': ClockModel.State) {
    if s.queue == [] then t' == t
    else
      var d := Value(Get(s.alarms, s.queue[0]).exp) - ClockModel.Now(t);
      d >= c.threshold && t' == ClockModel.Set(c, t, d, K_TIMER_INTERRUPT)
  }

  lemma SetArms(s: State, c: ClockModel.Config, t: ClockModel.State, t': ClockModel.State)
    requires ClockModel.Valid(c, t) && TimerSet(s, c, t, t')
    ensures Armed(s, c, t')
  {
  }

  /** No alarm that waits is overdue by more than min - threshold: the timer is still going to be early enough. */
  lemma NeverOverdue(s: State, c: ClockModel.Config, t: ClockModel.State, id: int)
    requires Consistent(s) && ClockModel.Valid(c, t) && Armed(s, c, t)
    requires id in s.alarms && s.alarms[id].active && s.alarms[id].Sound()
    ensures ClockModel.Now(t) <= Value(s.alarms[id].exp) + (c.min - c.threshold)
  {
    assert Get(s.alarms, id).active && id in s.queue;
    var j :| 0 <= j < |s.queue| && s.queue[j] == id;
    RestOfQueue(s);
    CmpExact(s.alarms[id].exp, Get(s.alarms, s.queue[0]).exp);
  }

  /** Setting the timer does not move the clock. */
  lemma SetKeepsNow(s: State, c: ClockModel.Config, t: ClockModel.State, t': ClockModel.State)
    requires TimerSet(s, c, t, t')
    ensures ClockModel.Now(t') == ClockModel.Now(t)
  {
  }

  /** An interrupt before the delay is over keeps the timer armed; when alarms wait, the one at its end calls
      k_timer_interrupt. */
  lemma InterruptArms(s: State, c: ClockModel.Config, t: ClockModel.State)
    requires ClockModel.Valid(c, t) && t.passed == t.load && Armed(s, c, t)
    ensures ClockModel.Interrupt(c, t).1 != Some(K_TIMER_INTERRUPT) ==>
              Armed(s, c, ClockModel.Interrupt(c, t).0)
  {
  }

  // ---------------------------------------------------------------- runs

  datatype Snapshot = Snapshot(state: State, clock: ClockModel.State)

  /** Hardware time passes; the loaded interval ends; k_alarm_new, k_alarm_set, k_alarm_remove. */
  datatype Event = Tick(n: nat) | Expiry | New(id: int, a: Alarm) | Set(id: int, a: Alarm) | Remove(id: int)

  /** An event, the actions it takes, the time up to which it looked for them, and what it leaves. */
  datatype Step = Step(event: Event, fired: seq<Firing>, ref: Time, after: Snapshot)

  ghost predicate Good(c: ClockModel.Config, x: Snapshot) {
    Consistent(x.state) && ClockModel.Valid(c, x.clock) && Armed(x.state, c, x.clock)
  }

  predicate Possible(x: Snapshot, e: Event) {
    match e
    case Tick(n) => x.clock.passed + n <= x.clock.load
    case Expiry => x.clock.passed == x.clock.load
    case New(id, a) => id !in x.state.alarms && a.Sound()
    case Set(id, a) => id in x.state.alarms && a.Sound()
    case Remove(id) => id in x.state.alarms
  }

  /** The event does not come to k_schedule_alarms. */
  predicate Quiet(c: ClockModel.Config, x: Snapshot, e: Event) {
    match e
    case Tick(_) => true
    case Expiry => ClockModel.Interrupt(c, x.clock).1 != Some(K_TIMER_INTERRUPT)
    case Set(id, a) => Cmp(Get(x.state.alarms, id).exp, a.exp) == 0
    case _ => false
  }

  /** What the event does to the alarms before any of them is fired. */
  function Prepared(s: State, e: Event): State {
    match e
    case New(id, a) => Created(s, id, a)
    case Set(id, a) => Changed(s, id, a)
    case Remove(id) => Deleted(s, id)
    case _ => s
  }

  /** What the methods of AlarmClock promise. */
  ghost predicate StepOk(c: ClockModel.Config, x: Snapshot, st: Step) {
    && Possible(x, st.event) && Good(c, st.after)
    && ClockModel.Now(st.after.clock) == ClockModel.Now(x.clock) + (if st.event.Tick? then st.event.n else 0)
    && if Quiet(c, x, st.event) then
         st.fired == [] && st.after.state == Prepared(x.state, st.event)
       else
         && Value(st.ref) == ClockModel.Now(st.after.clock) + c.threshold
         && AllFired(Prepared(x.state, st.event), st.after.state, st.fired, st.ref)
  }

  ghost predicate RunOk(c: ClockModel.Config, x: Snapshot, steps: seq<Step>)
    decreases |steps|
  {
    steps != [] ==> StepOk(c, x, steps[0]) && RunOk(c, steps[0].after, steps[1..])
  }

  function Final(x: Snapshot, steps: seq<Step>): Snapshot {
    if steps == [] then x else steps[|steps| - 1].after
  }

  /** The event makes, changes or deletes the alarm. */
  predicate Touches(e: Event, id: int) {
    !e.Tick? && !e.Expiry? && e.id == id
  }

  ghost predicate Untouched(steps: seq<Step>, id: int) {
    forall i | 0 <= i < |steps| :: !Touches(steps[i].event, id)
  }

  lemma OthersSame(s: State, e: Event, id: int)
    requires !Touches(e, id)
    ensures Get(Prepared(s, e).alarms, id) == Get(s.alarms, id) && (id in Prepared(s, e).alarms <==> id in s.alarms)
  {
    hide SortAdd, ByExpiry, Without;
  }

  /** What one alarm does in one event that is not about it. */
  lemma StepFires(c: ClockModel.Config, x: Snapshot, st: Step, id: int)
    requires Good(c, x) && StepOk(c, x, st) && !Touches(st.event, id) && id in x.state.alarms
    ensures var a := x.state.alarms[id];
            && a.Sound() && id in st.after.state.alarms
            && if Quiet(c, x, st.event) then Times(st.fired, id) == [] && st.after.state.alarms[id] == a
               else && Rep(st.ref)
                    && Times(st.fired, id) == Due(a, st.ref) && st.after.state.alarms[id] == Settled(a, st.ref)
  {
    OthersSame(x.state, st.event, id);
    hide Prepared, ClockModel.Valid, Armed, Sorted, NoDuplicates, ByExpiry, Touches, Quiet, Possible, Due, Settled;
  }

  lemma {:induction false} FiredInTimes(fired: seq<Firing>, j: nat)
    requires j < |fired|
    ensures fired[j].at in Times(fired, fired[j].id)
    decreases |fired|
  {
    var n := |fired| - 1;
    if j < n {
      FiredInTimes(fired[..n], j);
    }
  }

  /** In time: an alarm goes off no earlier than the threshold before its instant, and, unless the event has
      just made or changed it, no later than min - threshold after it. */
  lemma OnTime(c: ClockModel.Config, x: Snapshot, st: Step, j: nat)
    requires Good(c, x) && StepOk(c, x, st) && j < |st.fired| && !Touches(st.event, st.fired[j].id)
    ensures var now, at := ClockModel.Now(st.after.clock), Value(st.fired[j].at);
            at - c.threshold <= now <= at + (c.min - c.threshold)
  {
    hide *;
    var id, at := st.fired[j].id, st.fired[j].at;
    FiredKnown(c, x, st, j);
    StepFires(c, x, st, id);
    FiredInTimes(st.fired, j);
    DueBetween(x.state.alarms[id], st.ref, at);
    NotOverdue(c, x, id);
  }

  lemma FiredKnown(c: ClockModel.Config, x: Snapshot, st: Step, j: nat)
    requires StepOk(c, x, st) && j < |st.fired| && !Touches(st.event, st.fired[j].id)
    ensures !Quiet(c, x, st.event) && st.fired[j].id in x.state.alarms
    ensures Value(st.ref) == ClockModel.Now(st.after.clock) + c.threshold
    ensures ClockModel.Now(st.after.clock) == ClockModel.Now(x.clock)
  {
    OthersSame(x.state, st.event, st.fired[j].id);
    hide Prepared, Good, Consistent, InOrder, NothingDue, Possible;
  }

  lemma NotOverdue(c: ClockModel.Config, x: Snapshot, id: int)
    requires Good(c, x) && id in x.state.alarms && x.state.alarms[id].active && x.state.alarms[id].Sound()
    ensures ClockModel.Now(x.clock) <= Value(x.state.alarms[id].exp) + (c.min - c.threshold)
  {
    NeverOverdue(x.state, c, x.clock, id);
  }

  /** The latest time, in the order of time_cmp, up to which a run has looked for due alarms. */
  function LastLook(c: ClockModel.Config, x: Snapshot, steps: seq<Step>): Option<Time>
    decreases |steps|
  {
    if steps == [] then None
    else
      var rest := LastLook(c, steps[0].after, steps[1..]);
      if Quiet(c, x, steps[0].event) then rest
      else if rest.None? then Some(steps[0].ref)
      else Some(Later(steps[0].ref, rest.value))
  }

  function Log(steps: seq<Step>): seq<Firing> {
    if steps == [] then [] else steps[0].fired + Log(steps[1..])
  }

  lemma {:induction false} TimesAppend(a: seq<Firing>, b: seq<Firing>, id: int)
    ensures Times(a + b, id) == Times(a, id) + Times(b, id)
    decreases |b|
  {
    if b == [] {
      assert a + b == a;
    } else {
      var n := |b| - 1;
      assert (a + b)[..|a + b| - 1] == a + b[..n];
      TimesAppend(a, b[..n], id);
    }
  }

  /** Once: over every run that does not touch an alarm, it goes off exactly at the instants that are due at the
      latest look, each once and in order, and is left waiting for the next. */
  lemma {:induction false} EachInstantOnce(c: ClockModel.Config, x: Snapshot, steps: seq<Step>, id: int)
    requires Good(c, x) && RunOk(c, x, steps) && Untouched(steps, id)
    requires id in x.state.alarms && x.state.alarms[id].Sound()
    ensures var a, look := x.state.alarms[id], LastLook(c, x, steps);
            && id in Final(x, steps).state.alarms
            && (look.Some? ==> Rep(look.value))
            && Times(Log(steps), id) == (if look.None? then [] else Due(a, look.value))
            && Final(x, steps).state.alarms[id] == if look.None? then a else Settled(a, look.value)
    decreases |steps|
  {
    hide *;
    RunParts(c, x, steps, id);
    if steps != [] {
      var st, rest := steps[0], steps[1..];
      var a, look := x.state.alarms[id], LastLook(c, st.after, rest);
      StepFires(c, x, st, id);
      var a1 := st.after.state.alarms[id];
      if !Quiet(c, x, st.event) {
        SettledWaits(a, st.ref);
      }
      EachInstantOnce(c, st.after, rest, id);
      TimesAppend(st.fired, Log(rest), id);
      if !Quiet(c, x, st.event) {
        if look.Some? {
          LooksCompose(a, st.ref, look.value);
          LaterRep(st.ref, look.value);
        } else {
          assert Due(a, st.ref) + [] == Due(a, st.ref);
        }
      }
    }
  }

  lemma LaterRep(a: Time, b: Time)
    requires Rep(a) && Rep(b)
    ensures Rep(Later(a, b))
  {
  }

  lemma RunParts(c: ClockModel.Config, x: Snapshot, steps: seq<Step>, id: int)
    requires RunOk(c, x, steps) && Untouched(steps, id)
    ensures steps == [] ==> Final(x, steps) == x && LastLook(c, x, steps) == None && Times(Log(steps), id) == []
    ensures steps != [] ==>
              var st, rest := steps[0], steps[1..];
              var look := LastLook(c, st.after, rest);
              && StepOk(c, x, st) && Good(c, st.after) && RunOk(c, st.after, rest)
              && !Touches(st.event, id) && Untouched(rest, id)
              && Final(x, steps) == Final(st.after, rest) && Log(steps) == st.fired + Log(rest)
              && LastLook(c, x, steps) ==
                 if Quiet(c, x, st.event) then look
                 else if look.None? then Some(st.ref) else Some(Later(st.ref, look.value))
  {
    hide Good, Possible, Quiet, Prepared, AllFired, Touches, Later;
  }

  /** Nothing is forgotten: after any run, an instant of a periodic alarm that lies more than min - threshold back has
      gone off, at its place among the others. */
  lemma NoInstantMissed(c: ClockModel.Config, x: Snapshot, steps: seq<Step>, id: int, k: nat)
    requires Good(c, x) && RunOk(c, x, steps) && Untouched(steps, id)
    requires id in x.state.alarms && x.state.alarms[id].Sound()
    requires var a := x.state.alarms[id];
             && a.periodic && a.active
             && Value(Nth(a.exp, a.period, k)) < ClockModel.Now(Final(x, steps).clock) - (c.min - c.threshold)
    ensures var a, times := x.state.alarms[id], Times(Log(steps), id);
            k < |times| && times[k] == Nth(a.exp, a.period, k)
  {
    hide *;
    var a, look, y := x.state.alarms[id], LastLook(c, x, steps), Final(x, steps);
    EachInstantOnce(c, x, steps, id);
    FinalGood(c, x, steps);
    AlarmFields(a);
    if look.Some? {
      EveryInstantOnce(a, look.value);
      SettledWaits(a, look.value);
      var n := |Due(a, look.value)|;
      NotOverdue(c, y, id);
      InstantsGrow(a, k, n);
    } else {
      NotOverdue(c, y, id);
      InstantsGrow(a, k, 0);
      NthZero(a.exp, a.period);
    }
  }

  /** A one-shot alarm goes off at most once in a run, and has once its expiry lies more than min - threshold back. */
  lemma OneShotOnce(c: ClockModel.Config, x: Snapshot, steps: seq<Step>, id: int)
    requires Good(c, x) && RunOk(c, x, steps) && Untouched(steps, id)
    requires id in x.state.alarms && x.state.alarms[id].Sound()
    requires !x.state.alarms[id].periodic && x.state.alarms[id].active
    ensures var exp, times := x.state.alarms[id].exp, Times(Log(steps), id);
            && (times == [] || times == [exp])
            && (Value(exp) < ClockModel.Now(Final(x, steps).clock) - (c.min - c.threshold) ==> times == [exp])
  {
    hide *;
    var a, look, y := x.state.alarms[id], LastLook(c, x, steps), Final(x, steps);
    EachInstantOnce(c, x, steps, id);
    FinalGood(c, x, steps);
    if look.Some? {
      OneShot(a, look.value);
    }
    if Times(Log(steps), id) == [] {
      NotOverdue(c, y, id);
    }
  }

  // ---------------------------------------------------------------- from the setting of an alarm on

  /** k_alarm_new, or k_alarm_set with another expiry. */
  predicate Sets(x: Snapshot, e: Event, id: int, a: Alarm) {
    e == New(id, a) || (e == Set(id, a) && Cmp(Get(x.state.alarms, id).exp, a.exp) != 0)
  }

  lemma SetFires(c: ClockModel.Config, x: Snapshot, st: Step, id: int, a: Alarm)
    requires StepOk(c, x, st) && Sets(x, st.event, id, a)
    ensures var armed := a.(active := a.exp.sec + a.exp.nsec > 0);
            && !Quiet(c, x, st.event) && Went(armed, st.after.state, st.fired, st.ref, id)
            && Value(st.ref) == ClockModel.Now(st.after.clock) + c.threshold
  {
    QueuedRecord(x.state, id, a);
    FiredWent(Prepared(x.state, st.event), st.after.state, st.fired, st.ref, id);
    hide Good, AllFired, Went, Created, Changed, Possible;
  }

  /** Once, from the setting on: an alarm whose expiry is set goes off exactly at the instants that are due at
      the latest look, those that are over at once; one whose expiry is not set never does. */
  lemma SetOnce(c: ClockModel.Config, x: Snapshot, steps: seq<Step>, id: int, a: Alarm)
    requires RunOk(c, x, steps) && steps != [] && Untouched(steps[1..], id) && Sets(x, steps[0].event, id, a)
    ensures var armed := a.(active := a.exp.sec + a.exp.nsec > 0);
            var look := LastLook(c, x, steps);
            && armed.Sound() && look.Some? && Rep(look.value)
            && Times(Log(steps), id) == Due(armed, look.value)
            && id in Final(x, steps).state.alarms && Final(x, steps).state.alarms[id] == Settled(armed, look.value)
            && (a.exp.sec + a.exp.nsec <= 0 ==> Times(Log(steps), id) == [])
  {
    hide *;
    var st, rest := steps[0], steps[1..];
    var armed := a.(active := a.exp.sec + a.exp.nsec > 0);
    FirstStep(c, x, steps);
    SetFires(c, x, st, id, a);
    WentIs(armed, st.after.state, st.fired, st.ref, id);
    SettledWaits(armed, st.ref);
    EachInstantOnce(c, st.after, rest, id);
    TimesAppend(st.fired, Log(rest), id);
    var look := LastLook(c, st.after, rest);
    if look.Some? {
      LooksCompose(armed, st.ref, look.value);
      LaterRep(st.ref, look.value);
    } else {
      assert Due(armed, st.ref) + [] == Due(armed, st.ref);
    }
    InactiveSilent(armed, LastLook(c, x, steps).value);
  }

  lemma WentIs(a: Alarm, s: State, fired: seq<Firing>, ref: Time, id: int)
    requires Went(a, s, fired, ref, id)
    ensures a.Sound() && Rep(ref) && Times(fired, id) == Due(a, ref)
    ensures id in s.alarms && s.alarms[id] == Settled(a, ref)
  {
  }

  lemma InactiveSilent(a: Alarm, ref: Time)
    requires a.Sound() && Rep(ref)
    ensures !a.active ==> Due(a, ref) == []
  {
  }

  lemma FirstStep(c: ClockModel.Config, x: Snapshot, steps: seq<Step>)
    requires RunOk(c, x, steps) && steps != []
    ensures var st, rest := steps[0], steps[1..];
            var look := LastLook(c, st.after, rest);
            && StepOk(c, x, st) && Good(c, st.after) && RunOk(c, st.after, rest)
            && Final(x, steps) == Final(st.after, rest) && Log(steps) == st.fired + Log(rest)
            && LastLook(c, x, steps) ==
               if Quiet(c, x, st.event) then look
               else if look.None? then Some(st.ref) else Some(Later(st.ref, look.value))
  {
    hide Good, Possible, Quiet, Prepared, AllFired, Later;
  }

  function Before(x: Snapshot, steps: seq<Step>, i: nat): Snapshot
    requires i <= |steps|
  {
    if i == 0 then x else steps[i - 1].after
  }

  lemma {:induction false} StepAt(c: ClockModel.Config, x: Snapshot, steps: seq<Step>, i: nat)
    requires RunOk(c, x, steps) && i < |steps|
    ensures StepOk(c, Before(x, steps, i), steps[i]) && Good(c, steps[i].after)
    decreases i
  {
    hide *;
    FirstStep(c, x, steps);
    BeforeIs(x, steps, i);
    if i > 0 {
      StepAt(c, steps[0].after, steps[1..], i - 1);
    }
  }

  lemma BeforeIs(x: Snapshot, steps: seq<Step>, i: nat)
    requires i < |steps|
    ensures Before(x, steps, i) == if i == 0 then x else Before(steps[0].after, steps[1..], i - 1)
  {
  }

  /** In time, from the setting on: whenever the alarm goes off, it is no earlier than the threshold before its
      instant, and no later than min - threshold after it unless that was over when the alarm was set. */
  lemma SetInTime(c: ClockModel.Config, x: Snapshot, steps: seq<Step>, id: int, a: Alarm, i: nat, j: nat)
    requires RunOk(c, x, steps) && steps != [] && Untouched(steps[1..], id) && Sets(x, steps[0].event, id, a)
    requires i < |steps| && j < |steps[i].fired| && steps[i].fired[j].id == id
    ensures var now, at := ClockModel.Now(steps[i].after.clock), Value(steps[i].fired[j].at);
            at - c.threshold <= now && (now <= at + (c.min - c.threshold) || i == 0)
  {
    hide *;
    StepAt(c, x, steps, i);
    if i == 0 {
      BeforeIs(x, steps, 0);
      SetFires(c, x, steps[0], id, a);
      var armed := a.(active := a.exp.sec + a.exp.nsec > 0);
      WentIs(armed, steps[0].after.state, steps[0].fired, steps[0].ref, id);
      FiredInTimes(steps[0].fired, j);
      DueBetween(armed, steps[0].ref, steps[0].fired[j].at);
    } else {
      StepAt(c, x, steps, i - 1);
      LaterStep(x, steps, id, i);
      OnTime(c, Before(x, steps, i), steps[i], j);
    }
  }

  lemma LaterStep(x: Snapshot, steps: seq<Step>, id: int, i: nat)
    requires 0 < i < |steps| && Untouched(steps[1..], id)
    ensures !Touches(steps[i].event, id) && Before(x, steps, i) == steps[i - 1].after
  {
    hide Touches;
    assert steps[1..][i - 1] == steps[i];
  }

  /** Nothing is forgotten, from the setting on: an instant that lies more than min - threshold back has gone
      off, at its place among the others; a one-shot alarm has one instant. */
  lemma SetNoneMissed(c: ClockModel.Config, x: Snapshot, steps: seq<Step>, id: int, a: Alarm, k: nat)
    requires RunOk(c, x, steps) && steps != [] && Untouched(steps[1..], id) && Sets(x, steps[0].event, id, a)
    requires (a.periodic || k == 0) && a.exp.sec + a.exp.nsec > 0
    requires Value(Nth(a.exp, a.period, k)) < ClockModel.Now(Final(x, steps).clock) - (c.min - c.threshold)
    ensures var times := Times(Log(steps), id);
            k < |times| && times[k] == Nth(a.exp, a.period, k)
  {
    hide *;
    SetOnce(c, x, steps, id, a);
    FirstStep(c, x, steps);
    FinalGood(c, steps[0].after, steps[1..]);
    var armed, look, y := a.(active := true), LastLook(c, x, steps).value, Final(x, steps);
    SettledWaits(armed, look);
    if id in y.state.alarms && y.state.alarms[id].active {
      NotOverdue(c, y, id);
    }
    if a.periodic {
      AlarmFields(armed);
      EveryInstantOnce(armed, look);
      InstantsGrow(armed, k, |Due(armed, look)|);
    } else {
      OneShot(armed, look);
      NthZero(a.exp, a.period);
    }
  }

  lemma AlarmFields(a: Alarm)
    requires a.Sound() && a.periodic
    ensures Rep(a.exp) && Rep(a.period) && 0 < Value(a.period)
  {
  }

  lemma NthZero(e: Time, p: Time)
    ensures Nth(e, p, 0) == e
  {
  }

  lemma InstantsGrow(a: Alarm, k: nat, n: nat)
    requires Rep(a.exp) && Rep(a.period) && 0 < Value(a.period)
    ensures n <= k ==> Value(Nth(a.exp, a.period, n)) <= Value(Nth(a.exp, a.period, k))
  {
    NthValue(a.exp, a.period, k);
    NthValue(a.exp, a.period, n);
    if n <= k {
      TimesGrow(n, k, Value(a.period));
    }
  }

  lemma {:induction false} TimesGrow(n: nat, k: nat, p: nat)
    requires n <= k
    ensures n * p <= k * p
    decreases k
  {
    if n < k {
      TimesGrow(n, k - 1, p);
      assert k * p == (k - 1) * p + p;
    }
  }

  lemma {:induction false} FinalGood(c: ClockModel.Config, x: Snapshot, steps: seq<Step>)
    requires Good(c, x) && RunOk(c, x, steps)
    ensures Good(c, Final(x, steps))
    decreases |steps|
  {
    if steps != [] {
      hide Good, Possible, Quiet, Prepared, AllFired;
      FinalGood(c, steps[0].after, steps[1..]);
    }
  }
}
