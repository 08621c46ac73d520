/** The timer of the arch layer (arch/i386/arch/time.c) over a counter device. */
module ArchTimer {
  import opened Time
  import opened ClockModel
  import opened Wrappers

  /** The counter: a loaded interval and the time that has passed since. */
  class Device {
    const minInterval: Time
    const maxInterval: Time
    var interval: Time
    var passed: nat

    ghost predicate Valid()
      reads this
    {
      Rep(interval) && Canonical(minInterval) && Canonical(maxInterval) && passed <= Value(interval)
      && 0 < Value(minInterval) <= Value(maxInterval)
    }

    constructor (min: Time, max: Time)
      requires Canonical(min) && Canonical(max) && 0 < Value(min) <= Value(max)
      ensures Valid() && minInterval == min && maxInterval == max && interval == max && passed == 0
    {
      minInterval, maxInterval, interval, passed := min, max, max, 0;
    }

    method SetInterval(t: Time)
      requires Valid() && Rep(t) && 0 <= Value(t)
      modifies this
      ensures Valid() && interval == t && passed == 0
    {
      interval, passed := t, 0;
    }

    method GetIntervalRemainder() returns (t: Time)
      requires Valid()
      ensures Canonical(t) && Value(t) == Value(interval) - passed
    {
      var left := interval.sec * NS + interval.nsec - passed;
      t := Time(left / NS, left % NS);
    }

    /** The hardware counts on. */
    method Advance(n: nat)
      requires Valid() && passed + n <= Value(interval)
      modifies this
      ensures Valid() && interval == old(interval) && passed == old(passed) + n
    {
      passed := passed + n;
    }
  }

  class Timer {
    const timer: Device
    var clock: Time
    var delay: Time
    var lastLoad: Time
    var threshold: Time
    var alarmHandler: Option<nat>

    ghost function Abs(): State
      reads this, timer
    {
      State(Value(clock), Value(delay), Value(lastLoad), timer.passed, alarmHandler)
    }

    ghost function Conf(): Config
      reads this
    {
      Config(Value(timer.minInterval), Value(timer.maxInterval), Value(threshold))
    }

    ghost predicate Valid()
      reads this, timer
    {
      && timer.Valid() && timer.interval == lastLoad
      && Rep(clock) && Rep(delay) && Rep(lastLoad) && Canonical(threshold)
      && Value(threshold) == Value(timer.minInterval) / 2
      && ClockModel.Valid(Conf(), Abs())
    }

    /** arch_timer_init */
    constructor (device: Device)
      requires device.Valid()
      modifies device
      ensures Valid() && timer == device
      ensures Abs() == Init(Conf())
      ensures Value(clock) == 0 && lastLoad == delay == timer.maxInterval == timer.interval && timer.passed == 0
      ensures alarmHandler == None && Value(threshold) == Value(timer.minInterval) / 2
    {
      timer := device;
      clock := Time(0, 0);
      lastLoad, delay := device.maxInterval, device.maxInterval;
      alarmHandler := None;
      var min := device.minInterval;
      HalfValue(min);
      threshold := Time(min.sec / 2, min.nsec / 2 + if min.sec % 2 != 0 then NS / 2 else 0);
      new;
      timer.SetInterval(lastLoad);
    }

    /** arch_timer_set */
    method Set(time: Time, callback: nat)
      requires Valid() && Rep(time)
      modifies this`clock, this`delay, this`lastLoad, this`alarmHandler, timer
      ensures Valid() && Abs() == ClockModel.Set(Conf(), old(Abs()), Value(time), callback)
    {
      hide Value, Add, Sub, Cmp;
      var remainder := timer.GetIntervalRemainder();
      Exact(lastLoad, remainder);
      Exact(clock, Sub(lastLoad, remainder));
      lastLoad := Sub(lastLoad, remainder);
      clock := Add(clock, lastLoad);
      delay := time;
      CmpExact(delay, timer.minInterval);
      if Cmp(delay, timer.minInterval) < 0 {
        delay := timer.minInterval;
      }
      alarmHandler := Some(callback);
      CmpExact(delay, timer.maxInterval);
      if Cmp(delay, timer.maxInterval) > 0 {
        lastLoad := timer.maxInterval;
      } else {
        lastLoad := delay;
      }
      timer.SetInterval(lastLoad);
    }

    /** arch_get_time */
    method GetTime() returns (time: Time)
      requires Valid()
      ensures Rep(time) && Value(time) == Now(Abs())
    {
      var remainder := timer.GetIntervalRemainder();
      Exact(lastLoad, remainder);
      Exact(Sub(lastLoad, remainder), clock);
      time := Add(Sub(lastLoad, remainder), clock);
    }

    /** arch_timer_handler, called when the loaded interval has passed; the result is the function it calls. */
    method Handler() returns (called: Option<nat>)
      requires Valid() && timer.passed == Value(lastLoad)
      modifies this`clock, this`delay, this`lastLoad, this`alarmHandler, timer
      ensures Valid() && (Abs(), called) == ClockModel.Interrupt(Conf(), old(Abs()))
    {
      hide Value, Add, Sub, Cmp;
      Exact(clock, lastLoad);
      Exact(delay, lastLoad);
      clock := Add(clock, lastLoad);
      delay := Sub(delay, lastLoad);
      lastLoad := timer.maxInterval;
      called := None;
      CmpCanonical(delay, threshold);
      if Cmp(delay, threshold) <= 0 {
        delay := timer.maxInterval;
        timer.SetInterval(lastLoad);
        called := alarmHandler;
        alarmHandler := None;
      } else {
        CmpExact(delay, lastLoad);
        if Cmp(delay, lastLoad) < 0 {
          lastLoad := delay;
        }
        timer.SetInterval(lastLoad);
      }
    }
  }

  /** Halving seconds and nanoseconds separately halves the value. */
  lemma HalfValue(t: Time)
    requires Canonical(t) && 0 < Value(t)
    ensures var half := Time(t.sec / 2, t.nsec / 2 + if t.sec % 2 != 0 then NS / 2 else 0);
            Canonical(half) && Value(half) == Value(t) / 2 && 0 <= Value(half) < Value(t)
  {
  }
}
