/** The system clock and its timer, in nanoseconds (arch/i386/arch/time.c): what the calls in ArchTimer.dfy
    do, and what holds over every interleaving of them. */
module ClockModel {
  import opened Bits
  import opened Wrappers

  /** Bounds of the timer device, and half the least interval. */
  datatype Config = Config(min: int, max: int, threshold: int) {
    predicate Ok() {
      0 < min <= max && 0 <= threshold < min
    }
  }

  /** clock, delay and last_load as the kernel keeps them; how much of the loaded interval has passed; the
      function to call when the delay expires. */
  datatype State = State(clock: int, delay: int, load: int, passed: int, handler: Option<nat>)

  function Min(a: int, b: int): int { if a < b then a else b }

  function Max(a: int, b: int): int { if a < b then b else a }

  /** arch_timer_init */
  function Init(c: Config): State {
    State(0, c.max, c.max, 0, None)
  }

  /** arch_timer_set */
  function Set(c: Config, s: State, d: int, callback: nat): State {
    var delay := Max(d, c.min);
    State(s.clock + s.passed, delay, Min(delay, c.max), 0, Some(callback))
  }

  /** arch_get_time */
  function Now(s: State): int {
    s.clock + s.passed
  }

  /** arch_timer_handler, and the function it calls, if any */
  function Interrupt(c: Config, s: State): (State, Option<nat>) {
    var left := s.delay - s.load;
    if left <= c.threshold then
      (State(s.clock + s.load, c.max, c.max, 0, None), s.handler)
    else
      (State(s.clock + s.load, left, Min(left, c.max), 0, s.handler), None)
  }

  ghost predicate Valid(c: Config, s: State) {
    c.Ok() && 0 <= s.passed <= s.load <= s.delay && 0 < s.load <= c.max
  }

  // ---------------------------------------------------------------- runs

  datatype Event = Advance(n: nat) | Expire | SetTimer(d: int, callback: nat)

  /** Time passes up to the end of the loaded interval; at its end the device interrupts. */
  predicate Possible(s: State, e: Event) {
    match e
    case Advance(n) => s.passed + n <= s.load
    case Expire => s.passed == s.load
    case SetTimer(_, _) => true
  }

  function Step(c: Config, s: State, e: Event): State {
    match e
    case Advance(n) => s.(passed := s.passed + n)
    case Expire => Interrupt(c, s).0
    case SetTimer(d, callback) => Set(c, s, d, callback)
  }

  /** The calls the step makes, with the time they are made. */
  function Calls(c: Config, s: State, e: Event): seq<(nat, int)> {
    if e.Expire? && Interrupt(c, s).1.Some? then [(Interrupt(c, s).1.value, Now(s))] else []
  }

  function Run(c: Config, s: State, events: seq<Event>): State
    decreases |events|
  {
    if events == [] then s else Run(c, Step(c, s, events[0]), events[1..])
  }

  function Log(c: Config, s: State, events: seq<Event>): seq<(nat, int)>
    decreases |events|
  {
    if events == [] then [] else Calls(c, s, events[0]) + Log(c, Step(c, s, events[0]), events[1..])
  }

  predicate AllPossible(c: Config, s: State, events: seq<Event>)
    decreases |events|
  {
    events != [] ==> Possible(s, events[0]) && AllPossible(c, Step(c, s, events[0]), events[1..])
  }

  /** Hardware time that passes in a run. */
  function Elapsed(events: seq<Event>): nat {
    if events == [] then 0
    else (if events[0].Advance? then events[0].n else 0) + Elapsed(events[1..])
  }

  lemma StepKeeps(c: Config, s: State, e: Event)
    requires Valid(c, s) && Possible(s, e)
    ensures Valid(c, Step(c, s, e))
    ensures Now(Step(c, s, e)) == Now(s) + if e.Advance? then e.n else 0
  {
  }

  /** Clock conservation: whatever is set, cut short or re-split, the time read is the time that passed. */
  lemma {:induction false} ClockConserved(c: Config, s: State, events: seq<Event>)
    requires Valid(c, s) && AllPossible(c, s, events)
    ensures Valid(c, Run(c, s, events))
    ensures Now(Run(c, s, events)) == Now(s) + Elapsed(events)
    decreases |events|
  {
    if events != [] {
      StepKeeps(c, s, events[0]);
      ClockConserved(c, Step(c, s, events[0]), events[1..]);
    }
  }

  lemma InitValid(c: Config)
    requires c.Ok()
    ensures Valid(c, Init(c)) && Now(Init(c)) == 0
  {
  }

  // ---------------------------------------------------------------- long delays

  /** The delay that is still ahead. */
  function Ahead(s: State): int {
    s.delay - s.passed
  }

  ghost predicate NoSet(events: seq<Event>) {
    forall i | 0 <= i < |events| :: !events[i].SetTimer?
  }

  /** An interrupt that is not the last one leaves the delay ahead as it is, with a strictly smaller delay. */
  lemma InterruptShrinks(c: Config, s: State)
    requires Valid(c, s) && s.passed == s.load && Interrupt(c, s).1.None? && s.handler.Some?
    ensures var s' := Interrupt(c, s).0;
            && s'.handler == s.handler && Ahead(s') == Ahead(s) && c.threshold < s'.delay < s.delay
  {
  }

  /** With a minimal interval of 10, a maximal one of 20 and a threshold of 5, a delay of 26 is split in 20 and 6. */
  lemma ShortIntervalLoaded()
    ensures var c := Config(10, 20, 5);
            var s := Set(c, Init(c), 26, 1);
            c.Ok() && s.load == 20 && Interrupt(c, s.(passed := 20)).0.load == 6
  {
  }

  /** Without a callback nothing is called until the next arch_timer_set. */
  lemma {:induction false} SilentWithoutHandler(c: Config, s: State, events: seq<Event>)
    requires Valid(c, s) && AllPossible(c, s, events) && NoSet(events) && s.handler.None?
    ensures Log(c, s, events) == []
    decreases |events|
  {
    if events != [] {
      StepKeeps(c, s, events[0]);
      SilentWithoutHandler(c, Step(c, s, events[0]), events[1..]);
    }
  }

  /** A pending callback: over any run without another arch_timer_set it is called at most once, at a time
      between the delay minus the threshold and the delay; as long as it is not, it stays pending. */
  lemma {:induction false} PendingCallback(c: Config, s: State, events: seq<Event>, callback: nat)
    requires Valid(c, s) && AllPossible(c, s, events) && NoSet(events) && s.handler == Some(callback)
    ensures var log := Log(c, s, events);
            if log == [] then
              && Run(c, s, events).handler == Some(callback)
              && Ahead(Run(c, s, events)) == Ahead(s) - Elapsed(events) >= 0
            else
              && |log| == 1 && log[0].0 == callback
              && Now(s) + Ahead(s) - c.threshold <= log[0].1 <= Now(s) + Ahead(s)
    decreases |events|
  {
    if events != [] {
      var s', rest := Step(c, s, events[0]), events[1..];
      StepKeeps(c, s, events[0]);
      if Calls(c, s, events[0]) != [] {
        SilentWithoutHandler(c, s', rest);
      } else {
        assert s'.handler == Some(callback) by { assert !events[0].SetTimer?; }
        PendingCallback(c, s', rest, callback);
      }
    }
  }

  /** arch_timer_set for a delay d, then any run without another set: with D = max(d, min), the callback is
      called once at most, after a time E with D - threshold <= E <= D; and once more than D has passed it has
      been called. */
  lemma DelayKept(c: Config, s: State, d: int, callback: nat, events: seq<Event>)
    requires Valid(c, s)
    requires var s0 := Set(c, s, d, callback); AllPossible(c, s0, events) && NoSet(events)
    ensures var s0, D := Set(c, s, d, callback), Max(d, c.min);
            var log := Log(c, s0, events);
            && |log| <= 1
            && (|log| == 1 ==> log[0].0 == callback && D - c.threshold <= log[0].1 - Now(s) <= D)
            && (Elapsed(events) > D ==> |log| == 1)
  {
    StepKeeps(c, s, SetTimer(d, callback));
    PendingCallback(c, Set(c, s, d, callback), events, callback);
  }

  // ---------------------------------------------------------------- short intervals

  /** The callback has not been called yet, and the interval loaded is below the minimal one. */
  ghost predicate LoadsShort(c: Config, s: State, events: seq<Event>) {
    AllPossible(c, s, events) && NoSet(events) && Log(c, s, events) == [] && Run(c, s, events).load < c.min
  }

  lemma SmallRest(a: int, m: int)
    requires 0 < m && 0 <= a
    ensures a < m ==> a % m == a
    ensures a == m ==> a % m == 0
  {
  }

  lemma RestOfLess(a: nat, m: nat)
    requires 0 < m <= a
    ensures (a - m) % m == a % m
  {
    var q, r := a / m, a % m;
    assert a == q * m + r && r < m;
    assert q > 0;
    assert a - m == (q - 1) * m + r;
    DivUnique(a - m, m, q - 1, r);
  }

  /** While a callback is pending, the rest of the delay differs from it by whole maximal intervals. */
  lemma {:induction false} PendingLoads(c: Config, s: State, events: seq<Event>)
    requires Valid(c, s) && s.handler.Some? && s.load == Min(s.delay, c.max)
    requires AllPossible(c, s, events) && NoSet(events) && Log(c, s, events) == []
    ensures var s' := Run(c, s, events);
            && s'.load == Min(s'.delay, c.max) && s'.delay % c.max == s.delay % c.max
            && 0 < s'.delay && (s'.delay == s.delay || c.threshold < s'.delay)
    decreases |events|
  {
    if events != [] {
      var e := events[0];
      StepKeeps(c, s, e);
      assert !e.SetTimer?;
      assert Calls(c, s, e) == [];
      PendingStep(c, s, e);
      hide Step, Calls, Valid;
      PendingLoads(c, Step(c, s, e), events[1..]);
    }
  }

  lemma PendingStep(c: Config, s: State, e: Event)
    requires Valid(c, s) && s.handler.Some? && s.load == Min(s.delay, c.max)
    requires Possible(s, e) && !e.SetTimer? && Calls(c, s, e) == []
    ensures var s' := Step(c, s, e);
            && s'.handler.Some? && s'.load == Min(s'.delay, c.max) && s'.delay % c.max == s.delay % c.max
            && (s'.delay == s.delay || c.threshold < s'.delay)
  {
    if e.Expire? {
      RestOfLess(s.delay, c.max);
    }
  }

  /** Letting every interval run out comes to the rest. */
  lemma {:induction false} ReachRest(c: Config, s: State) returns (events: seq<Event>)
    requires Valid(c, s) && s.handler.Some? && s.passed == 0 && s.load == Min(s.delay, c.max)
    requires c.min <= s.delay && c.threshold < s.delay % c.max < c.min
    ensures LoadsShort(c, s, events)
    decreases s.delay
  {
    RestLeft(c, s);
    var s1 := Step(c, s, Advance(s.load));
    var s2 := Step(c, s1, Expire);
    if s2.delay < c.min {
      events := [];
    } else {
      events := ReachRest(c, s2);
    }
    hide Step, Calls, Possible, Valid;
    TwoSteps(c, s, Advance(s.load), Expire, events);
    events := [Advance(s.load), Expire] + events;
  }

  /** Letting one interval run out takes a maximal interval off. */
  lemma RestLeft(c: Config, s: State)
    requires Valid(c, s) && s.handler.Some? && s.passed == 0 && s.load == Min(s.delay, c.max)
    requires c.min <= s.delay && c.threshold < s.delay % c.max < c.min
    ensures var s1 := Step(c, s, Advance(s.load));
            var s2 := Step(c, s1, Expire);
            && Possible(s, Advance(s.load)) && Possible(s1, Expire)
            && Calls(c, s, Advance(s.load)) == [] && Calls(c, s1, Expire) == []
            && Valid(c, s2) && s2.handler == s.handler && s2.passed == 0 && s2.load == Min(s2.delay, c.max)
            && s2.delay == s.delay - c.max && s2.delay % c.max == s.delay % c.max
            && (s2.delay < c.min ==> LoadsShort(c, s2, []))
  {
    SmallRest(s.delay, c.max);
    RestOfLess(s.delay, c.max);
    SmallRest(s.delay - c.max, c.max);
  }

  lemma OneStep(c: Config, s: State, e: Event, rest: seq<Event>)
    requires Possible(s, e) && !e.SetTimer? && Calls(c, s, e) == [] && LoadsShort(c, Step(c, s, e), rest)
    ensures LoadsShort(c, s, [e] + rest)
  {
    assert ([e] + rest)[1..] == rest;
    hide Step, Calls, Possible;
  }

  lemma TwoSteps(c: Config, s: State, e1: Event, e2: Event, rest: seq<Event>)
    requires Possible(s, e1) && Possible(Step(c, s, e1), e2) && !e1.SetTimer? && !e2.SetTimer?
    requires Calls(c, s, e1) == [] && Calls(c, Step(c, s, e1), e2) == []
    requires LoadsShort(c, Step(c, Step(c, s, e1), e2), rest)
    ensures LoadsShort(c, s, [e1, e2] + rest)
  {
    OneStep(c, Step(c, s, e1), e2, rest);
    OneStep(c, s, e1, [e2] + rest);
    assert [e1] + ([e2] + rest) == [e1, e2] + rest;
  }

  /** After arch_timer_set for a delay d, D = max(d, min): some run comes to an interval below the minimal one
      before the callback exactly when what D leaves over whole maximal intervals is above the threshold and
      below the minimal one. */
  lemma ShortIntervalIff(c: Config, s: State, d: int, callback: nat)
    requires Valid(c, s)
    ensures (exists events :: LoadsShort(c, Set(c, s, d, callback), events)) <==>
            c.threshold < Max(d, c.min) % c.max < c.min
  {
    var s0, D := Set(c, s, d, callback), Max(d, c.min);
    StepKeeps(c, s, SetTimer(d, callback));
    if exists events :: LoadsShort(c, s0, events) {
      var events :| LoadsShort(c, s0, events);
      PendingLoads(c, s0, events);
      SmallRest(Run(c, s0, events).delay, c.max);
    }
    if c.threshold < D % c.max < c.min {
      var events := ReachRest(c, s0);
    }
  }
}
