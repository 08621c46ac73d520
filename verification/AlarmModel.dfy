/** Alarms and the loop that fires them (kernel/time.c:46-126), on values: when each alarm goes off, and what is
    left of it. */
module AlarmModel {
  import opened Sequences
  import opened Time
  import opened SortedInsert

  /** kalarm_t: expiry, period, whether the flags say periodic, whether the alarm is waiting. */
  datatype Alarm = Alarm(exp: Time, period: Time, periodic: bool, active: bool) {
    /** A periodic alarm has a positive period. */
    predicate Sound() {
      Rep(exp) && Rep(period) && (periodic ==> 0 < Value(period))
    }
  }

  type Alarms = map<int, Alarm>

  /** An action: which alarm went off, and for which expiry. */
  datatype Firing = Firing(id: int, at: Time)

  const NO_ALARM := Alarm(Time(0, 0), Time(0, 0), false, false)

  function Get(alarms: Alarms, id: int): Alarm {
    if id in alarms then alarms[id] else NO_ALARM
  }

  /** alarm_cmp */
  function ByExpiry(alarms: Alarms): Compare<int> {
    (a: int, b: int) => Cmp(Get(alarms, a).exp, Get(alarms, b).exp)
  }

  lemma ByExpiryOrders(alarms: Alarms)
    ensures TotalPreorder(ByExpiry(alarms))
  {
    var cmp := ByExpiry(alarms);
    forall a, b ensures cmp(a, b) == -cmp(b, a) {
      CmpOrder(Get(alarms, a).exp, Get(alarms, b).exp, Get(alarms, a).exp);
    }
    forall a, b, c | cmp(a, b) >= 0 && cmp(b, c) >= 0 ensures cmp(a, c) >= 0 {
      CmpOrder(Get(alarms, a).exp, Get(alarms, b).exp, Get(alarms, c).exp);
    }
  }

  // ---------------------------------------------------------------- one alarm

  predicate IsDue(a: Alarm, ref: Time) {
    a.active && Cmp(a.exp, ref) <= 0
  }

  /** What firing does to the alarm. */
  function Next(a: Alarm): Alarm {
    if a.periodic then a.(exp := Add(a.exp, a.period)) else a.(active := false)
  }

  /** An upper bound on the times the alarm can still go off. */
  function Work(a: Alarm, ref: Time): nat {
    if !IsDue(a, ref) then 0
    else if a.periodic && Value(a.exp) <= Value(ref) then 1 + Value(ref) - Value(a.exp)
    else 1
  }

  lemma NextShrinks(a: Alarm, ref: Time)
    requires a.Sound() && Rep(ref) && IsDue(a, ref)
    ensures Next(a).Sound() && Work(Next(a), ref) < Work(a, ref)
  {
    CmpExact(a.exp, ref);
    Exact(a.exp, a.period);
    CmpExact(Add(a.exp, a.period), ref);
  }

  /** The instants up to ref at which the alarm goes off. */
  ghost function Due(a: Alarm, ref: Time): seq<Time>
    requires a.Sound() && Rep(ref)
    decreases Work(a, ref)
  {
    if !IsDue(a, ref) then []
    else
      NextShrinks(a, ref);
      [a.exp] + Due(Next(a), ref)
  }

  /** The alarm once none of these instants is left. */
  ghost function Settled(a: Alarm, ref: Time): Alarm
    requires a.Sound() && Rep(ref)
    decreases Work(a, ref)
  {
    if !IsDue(a, ref) then a
    else
      NextShrinks(a, ref);
      Settled(Next(a), ref)
  }

  /** The k-th instant e, e + p, e + 2p, ... */
  ghost function Nth(e: Time, p: Time, k: nat): Time
    decreases k
  {
    if k == 0 then e else Nth(Add(e, p), p, k - 1)
  }

  lemma {:induction false} NthValue(e: Time, p: Time, k: nat)
    requires Rep(e) && Rep(p)
    ensures Rep(Nth(e, p, k)) && Value(Nth(e, p, k)) == Value(e) + k * Value(p)
    decreases k
  {
    if k > 0 {
      Exact(e, p);
      NthValue(Add(e, p), p, k - 1);
    }
  }

  /** A one-shot alarm goes off once and is then inactive. */
  lemma OneShot(a: Alarm, ref: Time)
    requires a.Sound() && Rep(ref) && !a.periodic
    ensures Due(a, ref) == if IsDue(a, ref) then [a.exp] else []
    ensures Settled(a, ref) == if IsDue(a, ref) then a.(active := false) else a
  {
    if IsDue(a, ref) {
      assert Due(Next(a), ref) == [];
      assert Settled(Next(a), ref) == Next(a);
    }
  }

  /** A periodic alarm goes off at exactly those of the instants e, e + p, e + 2p, ... that ref has reached,
      and is left waiting for the first one that ref has not. */
  lemma {:induction false} EveryInstantOnce(a: Alarm, ref: Time)
    requires a.Sound() && Rep(ref) && a.periodic && a.active
    ensures var due := Due(a, ref);
            && (forall k: nat :: k < |due| <==> Cmp(Nth(a.exp, a.period, k), ref) <= 0)
            && (forall k | 0 <= k < |due| :: due[k] == Nth(a.exp, a.period, k))
            && Settled(a, ref) == a.(exp := Nth(a.exp, a.period, |due|))
    decreases Work(a, ref)
  {
    var e, p, due := a.exp, a.period, Due(a, ref);
    if IsDue(a, ref) {
      NextShrinks(a, ref);
      EveryInstantOnce(Next(a), ref);
      forall k: nat ensures k < |due| <==> Cmp(Nth(e, p, k), ref) <= 0 {
        if k > 0 {
          assert k - 1 < |Due(Next(a), ref)| <==> Cmp(Nth(Add(e, p), p, k - 1), ref) <= 0;
        }
      }
      forall k | 0 <= k < |due| ensures due[k] == Nth(e, p, k) {
        if k > 0 {
          assert due[k] == Due(Next(a), ref)[k - 1];
        }
      }
    } else {
      forall k: nat ensures Cmp(Nth(e, p, k), ref) > 0 {
        LaterStaysLater(e, p, k, ref);
      }
    }
  }

  lemma LaterStaysLater(e: Time, p: Time, k: nat, ref: Time)
    requires Rep(e) && Rep(p) && Rep(ref) && 0 < Value(p) && Cmp(e, ref) > 0
    ensures Cmp(Nth(e, p, k), ref) > 0
  {
    if k > 0 {
      NthValue(e, p, k);
      CmpExact(e, ref);
      Grows(k, Value(p));
      CmpExact(Nth(e, p, k), ref);
    }
  }

  lemma Grows(k: nat, p: int)
    requires 0 < k && 0 < p
    ensures k <= k * p && p <= k * p
  {
  }

  /** The later of two times, in the order of time_cmp. */
  function Later(a: Time, b: Time): Time {
    if Cmp(a, b) > 0 then a else b
  }

  /** Over a run it makes no difference how often, and when, the loop looks: what goes off up to ref1 and then up to
      ref2 is what goes off up to the later of them at once. */
  lemma LooksCompose(a: Alarm, ref1: Time, ref2: Time)
    requires a.Sound() && Rep(ref1) && Rep(ref2)
    ensures Settled(a, ref1).Sound()
    ensures Due(a, Later(ref1, ref2)) == Due(a, ref1) + Due(Settled(a, ref1), ref2)
    ensures Settled(a, Later(ref1, ref2)) == Settled(Settled(a, ref1), ref2)
  {
    hide *;
    LaterIs(ref1, ref2);
    if Cmp(ref1, ref2) <= 0 {
      LaterLook(a, ref1, ref2);
    } else {
      SettledWaits(a, ref1);
      EarlierLook(Settled(a, ref1), ref1, ref2);
      assert Due(a, ref1) + [] == Due(a, ref1);
    }
  }

  lemma LaterIs(a: Time, b: Time)
    ensures Later(a, b) == if Cmp(a, b) <= 0 then b else a
  {
  }

  lemma {:induction false} SettledWaits(a: Alarm, ref: Time)
    requires a.Sound() && Rep(ref)
    ensures Settled(a, ref).Sound() && !IsDue(Settled(a, ref), ref)
    decreases Work(a, ref)
  {
    if IsDue(a, ref) {
      NextShrinks(a, ref);
      SettledWaits(Next(a), ref);
    }
  }

  lemma EarlierLook(a: Alarm, ref1: Time, ref2: Time)
    requires a.Sound() && Rep(ref2) && !IsDue(a, ref1) && Cmp(ref1, ref2) > 0
    ensures Due(a, ref2) == [] && Settled(a, ref2) == a
  {
    CmpOrder(a.exp, ref1, ref2);
  }

  lemma {:induction false} LaterLook(a: Alarm, ref1: Time, ref2: Time)
    requires a.Sound() && Rep(ref1) && Rep(ref2) && Cmp(ref1, ref2) <= 0
    ensures Settled(a, ref1).Sound()
    ensures Due(a, ref2) == Due(a, ref1) + Due(Settled(a, ref1), ref2)
    ensures Settled(a, ref2) == Settled(Settled(a, ref1), ref2)
    decreases Work(a, ref1)
  {
    hide *;
    NotDueIs(a, ref1);
    if IsDue(a, ref1) {
      DueLater(a, ref1, ref2);
      DueIs(a, ref1);
      DueIs(a, ref2);
      LaterLook(Next(a), ref1, ref2);
      assert [a.exp] + (Due(Next(a), ref1) + Due(Settled(a, ref1), ref2))
          == ([a.exp] + Due(Next(a), ref1)) + Due(Settled(a, ref1), ref2);
    } else {
      assert [] + Due(a, ref2) == Due(a, ref2);
    }
  }

  lemma DueLater(a: Alarm, ref1: Time, ref2: Time)
    requires IsDue(a, ref1) && Cmp(ref1, ref2) <= 0
    ensures IsDue(a, ref2)
  {
    CmpOrder(ref2, ref1, a.exp);
    CmpOrder(ref1, a.exp, a.exp);
    CmpOrder(ref2, a.exp, a.exp);
    CmpOrder(ref1, ref2, ref2);
  }

  lemma NotDueIs(a: Alarm, ref: Time)
    requires a.Sound() && Rep(ref)
    ensures !IsDue(a, ref) ==> Due(a, ref) == [] && Settled(a, ref) == a
  {
  }

  /** What goes off is not after ref and not before the alarm's expiry. */
  lemma {:induction false} DueBetween(a: Alarm, ref: Time, t: Time)
    requires a.Sound() && Rep(ref) && t in Due(a, ref)
    ensures a.active && Value(a.exp) <= Value(t) <= Value(ref)
    decreases Work(a, ref)
  {
    if IsDue(a, ref) {
      NextShrinks(a, ref);
      DueIs(a, ref);
      CmpExact(a.exp, ref);
      if t != a.exp {
        assert t in Due(Next(a), ref);
        DueBetween(Next(a), ref, t);
        Exact(a.exp, a.period);
      }
    }
  }

  lemma DueIs(a: Alarm, ref: Time)
    requires a.Sound() && Rep(ref) && IsDue(a, ref)
    ensures Next(a).Sound()
    ensures Due(a, ref) == [a.exp] + Due(Next(a), ref) && Settled(a, ref) == Settled(Next(a), ref)
    ensures Work(Next(a), ref) < Work(a, ref)
  {
    NextShrinks(a, ref);
    hide IsDue, Next, Work;
  }

  /** Why the period has to be positive: the instants leave ref behind exactly when it is, or when the first one
      already has. With any other period the loop that fires a due alarm would not end. */
  lemma InstantsPass(e: Time, p: Time, ref: Time)
    requires Rep(e) && Rep(p) && Rep(ref)
    ensures (exists k: nat :: Cmp(Nth(e, p, k), ref) > 0) <==> 0 < Value(p) || Cmp(e, ref) > 0
  {
    if Cmp(e, ref) > 0 {
      assert Nth(e, p, 0) == e;
    } else if 0 < Value(p) {
      CmpExact(e, ref);
      var k := Value(ref) - Value(e) + 1;
      NthValue(e, p, k);
      Grows(k, Value(p));
      CmpExact(Nth(e, p, k), ref);
    } else {
      forall k: nat ensures Cmp(Nth(e, p, k), ref) <= 0 {
        NeverPasses(e, p, k, ref);
      }
    }
  }

  /** An alarm with period zero that is due stays due. */
  lemma ZeroPeriod(ref: Time)
    requires Rep(ref) && Cmp(Time(1, 0), ref) <= 0
    ensures forall k: nat :: Cmp(Nth(Time(1, 0), Time(0, 0), k), ref) <= 0
  {
    InstantsPass(Time(1, 0), Time(0, 0), ref);
  }

  lemma {:induction false} NeverPasses(e: Time, p: Time, k: nat, ref: Time)
    requires Rep(e) && Rep(p) && Rep(ref) && Value(p) <= 0 && Cmp(e, ref) <= 0
    ensures Cmp(Nth(e, p, k), ref) <= 0
    decreases k
  {
    if k > 0 {
      Exact(e, p);
      CmpExact(e, ref);
      CmpExact(Add(e, p), ref);
      NeverPasses(Add(e, p), p, k - 1, ref);
    }
  }

  // ---------------------------------------------------------------- all alarms

  datatype State = State(alarms: Alarms, queue: seq<int>)

  ghost predicate AllSound(alarms: Alarms) {
    forall id | id in alarms :: alarms[id].Sound()
  }

  /** The queue is sorted by expiry and holds an alarm, once, exactly when its active flag is set. */
  ghost predicate Consistent(s: State) {
    && AllSound(s.alarms) && NoDuplicates(s.queue)
    && (forall id :: id in s.queue <==> Get(s.alarms, id).active)
    && Sorted(s.queue, ByExpiry(s.alarms))
  }

  ghost predicate NothingDue(s: State, ref: Time) {
    forall id | id in s.alarms :: !IsDue(s.alarms[id], ref)
  }

  /** One turn of the loop: the first alarm leaves the queue, and a periodic one comes back for its next instant. */
  function Fire(s: State): State
    requires s.queue != []
  {
    var id := s.queue[0];
    var alarms := s.alarms[id := Next(Get(s.alarms, id))];
    State(alarms, if Get(s.alarms, id).periodic then SortAdd(s.queue[1..], id, ByExpiry(alarms)) else s.queue[1..])
  }

  /** The instants at which one alarm went off, in order. */
  ghost function Times(fired: seq<Firing>, id: int): seq<Time> {
    if fired == [] then []
    else
      var last := fired[|fired| - 1];
      Times(fired[..|fired| - 1], id) + if last.id == id then [last.at] else []
  }

  ghost predicate InOrder(fired: seq<Firing>) {
    forall i, j | 0 <= i < j < |fired| :: Cmp(fired[j].at, fired[i].at) >= 0
  }

  /** Every alarm has gone off at its due instants up to ref, once each, in order of time over all alarms; each is
      left as it should be, and the queue agrees. */
  ghost predicate AllFired(s: State, s': State, fired: seq<Firing>, ref: Time) {
    && AllSound(s.alarms) && Rep(ref)
    && s'.alarms.Keys == s.alarms.Keys
    && (forall id | id in s.alarms ::
          s'.alarms[id] == Settled(s.alarms[id], ref) && Times(fired, id) == Due(s.alarms[id], ref))
    && (forall i | 0 <= i < |fired| :: fired[i].id in s.alarms)
    && InOrder(fired) && Consistent(s') && NothingDue(s', ref)
  }

  /** Part of the way through the loop. */
  ghost predicate SomeFired(s: State, s': State, fired: seq<Firing>, ref: Time) {
    && AllSound(s.alarms) && Rep(ref)
    && s'.alarms.Keys == s.alarms.Keys && Consistent(s')
    && (forall id | id in s.alarms ::
          && Settled(s.alarms[id], ref) == Settled(s'.alarms[id], ref)
          && Due(s.alarms[id], ref) == Times(fired, id) + Due(s'.alarms[id], ref))
    && (forall i | 0 <= i < |fired| :: fired[i].id in s.alarms)
    && InOrder(fired)
    && (forall i, j | 0 <= i < |fired| && 0 <= j < |s'.queue| ::
          Cmp(Get(s'.alarms, s'.queue[j]).exp, fired[i].at) >= 0)
  }

  /** Sortedness depends only on the alarms that are in the queue. */
  lemma SortedFrame(queue: seq<int>, alarms: Alarms, alarms': Alarms)
    requires Sorted(queue, ByExpiry(alarms))
    requires forall i | 0 <= i < |queue| :: Get(alarms', queue[i]) == Get(alarms, queue[i])
    ensures Sorted(queue, ByExpiry(alarms'))
  {
    forall i, j | 0 <= i < j < |queue| ensures ByExpiry(alarms')(queue[j], queue[i]) >= 0 {
      assert ByExpiry(alarms)(queue[j], queue[i]) >= 0;
    }
  }

  lemma InsertNoDuplicates(queue: seq<int>, k: nat, id: int)
    requires NoDuplicates(queue) && id !in queue && k <= |queue|
    ensures NoDuplicates(InsertAt(queue, k, id))
    ensures forall q :: q in InsertAt(queue, k, id) <==> q in queue || q == id
  {
    var r := InsertAt(queue, k, id);
    forall i, j | 0 <= i < j < |r| ensures r[i] != r[j] {
      assert i < k ==> r[i] == queue[i];
      assert i > k ==> r[i] == queue[i - 1];
      assert j < k ==> r[j] == queue[j];
      assert j > k ==> r[j] == queue[j - 1];
    }
    forall q ensures q in r <==> q in queue || q == id {
      assert queue[..k] + queue[k..] == queue;
      assert q in queue <==> q in queue[..k] || q in queue[k..];
    }
  }

  /** Sorted insertion of an alarm that has just become active. */
  lemma SortAddKeeps(alarms: Alarms, queue: seq<int>, id: int)
    requires AllSound(alarms) && NoDuplicates(queue) && Sorted(queue, ByExpiry(alarms))
    requires id !in queue && Get(alarms, id).active
    requires forall q :: q in queue <==> q != id && Get(alarms, q).active
    ensures Consistent(State(alarms, SortAdd(queue, id, ByExpiry(alarms))))
  {
    hide Sorted, NoDuplicates, AllSound, ByExpiry, InsertAt, Position, TotalPreorder;
    var cmp := ByExpiry(alarms);
    ByExpiryOrders(alarms);
    SortAddSorted(queue, id, cmp);
    InsertNoDuplicates(queue, Position(queue, id, cmp), id);
  }

  /** The first alarm is the earliest, so when it is not due none is. */
  lemma FirstIsEarliest(s: State, ref: Time)
    requires Consistent(s) && (s.queue != [] ==> !IsDue(Get(s.alarms, s.queue[0]), ref))
    ensures NothingDue(s, ref)
  {
    forall id | id in s.alarms ensures !IsDue(s.alarms[id], ref) {
      if s.alarms[id].active {
        assert Get(s.alarms, id).active && id in s.queue;
        var j :| 0 <= j < |s.queue| && s.queue[j] == id;
        assert j > 0 ==> ByExpiry(s.alarms)(s.queue[j], s.queue[0]) >= 0;
        CmpOrder(s.alarms[id].exp, Get(s.alarms, s.queue[0]).exp, ref);
        CmpOrder(ref, ref, ref);
        CmpOrder(s.alarms[id].exp, ref, ref);
      }
    }
  }

  /** The queue without its first alarm. */
  lemma RestOfQueue(s: State)
    requires Consistent(s) && s.queue != []
    ensures var id, rest := s.queue[0], s.queue[1..];
            && id in s.alarms && Get(s.alarms, id).active && s.alarms[id].Sound()
            && id !in rest && NoDuplicates(rest) && Sorted(rest, ByExpiry(s.alarms))
            && (forall q :: q in rest <==> q != id && Get(s.alarms, q).active)
            && (forall j | 0 <= j < |s.queue| :: Cmp(Get(s.alarms, s.queue[j]).exp, s.alarms[id].exp) >= 0)
  {
    var id, rest, cmp := s.queue[0], s.queue[1..], ByExpiry(s.alarms);
    assert id in s.queue;
    forall q ensures q in s.queue <==> q in rest || q == id {
      assert s.queue == [id] + rest;
    }
    forall i, j | 0 <= i < j < |rest| ensures cmp(rest[j], rest[i]) >= 0 {
      assert cmp(s.queue[j + 1], s.queue[i + 1]) >= 0;
    }
    forall j | 0 <= j < |s.queue| ensures Cmp(Get(s.alarms, s.queue[j]).exp, s.alarms[id].exp) >= 0 {
      assert j > 0 ==> cmp(s.queue[j], s.queue[0]) >= 0;
    }
  }

  lemma FireKeeps(s: State, ref: Time)
    requires Consistent(s) && Rep(ref) && s.queue != [] && IsDue(Get(s.alarms, s.queue[0]), ref)
    ensures Consistent(Fire(s)) && Fire(s).alarms.Keys == s.alarms.Keys
  {
    hide Sorted, NoDuplicates, ByExpiry, IsDue, Cmp, Add, SortAdd;
    RestOfQueue(s);
    var id, rest := s.queue[0], s.queue[1..];
    var alarms := s.alarms[id := Next(Get(s.alarms, id))];
    NextShrinks(s.alarms[id], ref);
    SortedFrame(rest, s.alarms, alarms);
    if s.alarms[id].periodic {
      SortAddKeeps(alarms, rest, id);
    }
  }

  /** Firing moves one instant of one alarm from those that are due to those that have been. */
  lemma FireOne(s: State, fired: seq<Firing>, q: int, ref: Time)
    requires Consistent(s) && Rep(ref) && s.queue != [] && IsDue(Get(s.alarms, s.queue[0]), ref)
    requires q in s.alarms
    ensures Consistent(Fire(s)) && q in Fire(s).alarms
    ensures Settled(s.alarms[q], ref) == Settled(Fire(s).alarms[q], ref)
    ensures var fired' := fired + [Firing(s.queue[0], Get(s.alarms, s.queue[0]).exp)];
            Times(fired, q) + Due(s.alarms[q], ref) == Times(fired', q) + Due(Fire(s).alarms[q], ref)
  {
    hide Sorted, NoDuplicates, ByExpiry, IsDue, Cmp, Add, SortAdd;
    FireKeeps(s, ref);
    var last := Firing(s.queue[0], Get(s.alarms, s.queue[0]).exp);
    assert (fired + [last])[..|fired|] == fired;
    if q == s.queue[0] {
      var a := s.alarms[q];
      assert Due(a, ref) == [a.exp] + Due(Next(a), ref);
      assert Times(fired, q) + ([a.exp] + Due(Next(a), ref)) == (Times(fired, q) + [a.exp]) + Due(Next(a), ref);
    }
  }

  lemma FireProgress(s0: State, s: State, fired: seq<Firing>, ref: Time)
    requires AllSound(s0.alarms) && Rep(ref) && SomeFired(s0, s, fired, ref)
    requires s.queue != [] && IsDue(Get(s.alarms, s.queue[0]), ref)
    ensures SomeFired(s0, Fire(s), fired + [Firing(s.queue[0], Get(s.alarms, s.queue[0]).exp)], ref)
  {
    hide Sorted, NoDuplicates, ByExpiry, IsDue, Cmp, Add, SortAdd, Times, Due, Settled, Fire, Next, InOrder;
    FireKeeps(s, ref);
    var fired' := fired + [Firing(s.queue[0], Get(s.alarms, s.queue[0]).exp)];
    RestOfQueue(s);
    forall q | q in s0.alarms
      ensures Settled(s0.alarms[q], ref) == Settled(Fire(s).alarms[q], ref)
      ensures Due(s0.alarms[q], ref) == Times(fired', q) + Due(Fire(s).alarms[q], ref)
    {
      FireOne(s, fired, q, ref);
    }
    LaterThanFired(s, fired, ref);
    FiredInOrder(s, fired);
  }

  lemma FiredInOrder(s: State, fired: seq<Firing>)
    requires InOrder(fired) && s.queue != []
    requires forall i, j | 0 <= i < |fired| && 0 <= j < |s.queue| ::
               Cmp(Get(s.alarms, s.queue[j]).exp, fired[i].at) >= 0
    ensures InOrder(fired + [Firing(s.queue[0], Get(s.alarms, s.queue[0]).exp)])
  {
  }

  /** What is left in the queue is not before anything that has been fired. */
  lemma LaterThanFired(s: State, fired: seq<Firing>, ref: Time)
    requires Consistent(s) && Rep(ref) && s.queue != [] && IsDue(Get(s.alarms, s.queue[0]), ref)
    requires forall i, j | 0 <= i < |fired| && 0 <= j < |s.queue| ::
               Cmp(Get(s.alarms, s.queue[j]).exp, fired[i].at) >= 0
    ensures var s', fired' := Fire(s), fired + [Firing(s.queue[0], Get(s.alarms, s.queue[0]).exp)];
            forall i, j | 0 <= i < |fired'| && 0 <= j < |s'.queue| ::
              Cmp(Get(s'.alarms, s'.queue[j]).exp, fired'[i].at) >= 0
  {
    hide Sorted, NoDuplicates, ByExpiry, Cmp, Add, Position, InsertAt;
    var id, s' := s.queue[0], Fire(s);
    var a := Get(s.alarms, id);
    var fired' := fired + [Firing(id, a.exp)];
    RestOfQueue(s);
    NextNotBefore(a, ref);
    forall i, j | 0 <= i < |fired'| && 0 <= j < |s'.queue|
      ensures Cmp(Get(s'.alarms, s'.queue[j]).exp, fired'[i].at) >= 0
    {
      var q, t := s'.queue[j], fired'[i].at;
      QueueAfterFire(s, j);
      assert Cmp(a.exp, t) >= 0 by { CmpOrder(t, t, t); }
      CmpOrder(Get(s'.alarms, q).exp, a.exp, t);
    }
  }

  lemma NextNotBefore(a: Alarm, ref: Time)
    requires a.Sound() && Rep(ref) && IsDue(a, ref)
    ensures Cmp(Next(a).exp, a.exp) >= 0
  {
    if a.periodic {
      Exact(a.exp, a.period);
      CmpExact(Add(a.exp, a.period), a.exp);
    }
  }

  lemma QueueAfterFire(s: State, j: nat)
    requires s.queue != [] && j < |Fire(s).queue|
    ensures Fire(s).queue[j] in s.queue
    ensures Get(Fire(s).alarms, Fire(s).queue[j]) == Get(s.alarms, Fire(s).queue[j])
            || (Fire(s).queue[j] == s.queue[0]
                && Get(Fire(s).alarms, s.queue[0]) == Next(Get(s.alarms, s.queue[0])))
  {
    hide ByExpiry, Position;
  }

  // ---------------------------------------------------------------- the loop ends

  ghost function Total(alarms: Alarms, queue: seq<int>, ref: Time): nat {
    if queue == [] then 0 else Work(Get(alarms, queue[0]), ref) + Total(alarms, queue[1..], ref)
  }

  lemma {:induction false} TotalInsert(alarms: Alarms, queue: seq<int>, k: nat, id: int, ref: Time)
    requires k <= |queue|
    ensures Total(alarms, InsertAt(queue, k, id), ref) == Total(alarms, queue, ref) + Work(Get(alarms, id), ref)
    decreases |queue|
  {
    var r := InsertAt(queue, k, id);
    if k > 0 {
      TotalInsert(alarms, queue[1..], k - 1, id, ref);
      assert r[1..] == InsertAt(queue[1..], k - 1, id);
    } else {
      assert r[1..] == queue;
    }
  }

  lemma {:induction false} TotalFrame(alarms: Alarms, alarms': Alarms, queue: seq<int>, ref: Time)
    requires forall i | 0 <= i < |queue| :: Get(alarms', queue[i]) == Get(alarms, queue[i])
    ensures Total(alarms', queue, ref) == Total(alarms, queue, ref)
  {
    if queue != [] {
      assert queue[0] in queue;
      TotalFrame(alarms, alarms', queue[1..], ref);
    }
  }

  /** The loop ends: the due instants that remain get fewer. */
  lemma FireShrinks(s: State, ref: Time)
    requires Consistent(s) && Rep(ref) && s.queue != [] && IsDue(Get(s.alarms, s.queue[0]), ref)
    ensures Total(Fire(s).alarms, Fire(s).queue, ref) < Total(s.alarms, s.queue, ref)
  {
    hide Sorted, NoDuplicates, ByExpiry, IsDue, Cmp, Add, Position, InsertAt;
    RestOfQueue(s);
    var id, rest, s' := s.queue[0], s.queue[1..], Fire(s);
    NextShrinks(s.alarms[id], ref);
    TotalFrame(s.alarms, s'.alarms, rest, ref);
    if s.alarms[id].periodic {
      TotalInsert(s'.alarms, rest, Position(rest, id, ByExpiry(s'.alarms)), id, ref);
    }
  }

  /** The loop starts with nothing fired. */
  lemma LoopStart(s: State, ref: Time)
    requires Consistent(s) && Rep(ref)
    ensures SomeFired(s, s, [], ref)
  {
  }

  /** When the first alarm is not due, or there is none, the loop has done all there is to do. */
  lemma LoopEnd(s0: State, s: State, fired: seq<Firing>, ref: Time)
    requires AllSound(s0.alarms) && Rep(ref) && SomeFired(s0, s, fired, ref)
    requires s.queue == [] || !IsDue(Get(s.alarms, s.queue[0]), ref)
    ensures AllFired(s0, s, fired, ref) && NothingDue(s, ref)
  {
    FirstIsEarliest(s, ref);
    forall id | id in s0.alarms
      ensures s.alarms[id] == Settled(s0.alarms[id], ref) && Times(fired, id) == Due(s0.alarms[id], ref)
    {
      assert !IsDue(s.alarms[id], ref);
    }
  }

  // ---------------------------------------------------------------- new, changed and removed alarms

  /** Removing an alarm by reference leaves the queue sorted. */
  lemma WithoutSorted(queue: seq<int>, id: int, cmp: Compare<int>)
    requires Sorted(queue, cmp)
    ensures Sorted(Without(queue, id), cmp)
  {
    if id in queue {
      RemoveSorted(queue, IndexOf(queue, id), cmp);
    }
  }

  /** k_alarm_add, up to the firing of what has expired: an alarm whose expiry is set joins the queue. */
  function Enqueue(s: State, id: int): State {
    var a := Get(s.alarms, id);
    if a.exp.sec + a.exp.nsec > 0 then
      var alarms := s.alarms[id := a.(active := true)];
      State(alarms, SortAdd(s.queue, id, ByExpiry(alarms)))
    else
      State(s.alarms[id := a.(active := false)], s.queue)
  }

  /** k_alarm_new */
  function Created(s: State, id: int, a: Alarm): State {
    Enqueue(State(s.alarms[id := a], s.queue), id)
  }

  /** k_alarm_set: the queue is touched only when the expiry changes. */
  function Changed(s: State, id: int, a: Alarm): State {
    var was := Get(s.alarms, id);
    if Cmp(was.exp, a.exp) == 0 then State(s.alarms[id := a.(exp := was.exp, active := was.active)], s.queue)
    else
      Enqueue(State(s.alarms[id := a.(active := was.active)],
                    if was.active then Without(s.queue, id) else s.queue), id)
  }

  /** k_alarm_remove */
  function Deleted(s: State, id: int): State {
    State(s.alarms - {id}, if Get(s.alarms, id).active then Without(s.queue, id) else s.queue)
  }

  /** What one alarm has done: it went off at every instant up to ref, once, and is left waiting for the next. */
  ghost predicate Went(a: Alarm, s: State, fired: seq<Firing>, ref: Time, id: int) {
    && a.Sound() && Rep(ref)
    && Times(fired, id) == Due(a, ref)
    && id in s.alarms && s.alarms[id] == Settled(a, ref)
  }

  lemma FiredWent(s: State, s': State, fired: seq<Firing>, ref: Time, id: int)
    requires AllFired(s, s', fired, ref) && id in s.alarms
    ensures Went(s.alarms[id], s', fired, ref, id)
  {
    hide Consistent, NothingDue, InOrder, Due, Settled, Times;
  }

  /** What is queued is the alarm asked for, waiting exactly when its expiry is set; other records stay. */
  lemma QueuedRecord(s: State, id: int, a: Alarm)
    ensures var armed := a.(active := a.exp.sec + a.exp.nsec > 0);
            && Created(s, id, a).alarms == s.alarms[id := armed]
            && (Cmp(Get(s.alarms, id).exp, a.exp) != 0 ==> Changed(s, id, a).alarms == s.alarms[id := armed])
  {
    hide SortAdd, ByExpiry, Without, Cmp;
  }

  /** A removed alarm does not go off. */
  lemma RemovedSilent(s: State, s': State, fired: seq<Firing>, ref: Time, id: int)
    requires Consistent(s) && AllFired(Deleted(s, id), s', fired, ref)
    ensures id !in s'.alarms && id !in s'.queue && Times(fired, id) == []
  {
    hide Sorted, NoDuplicates, ByExpiry, Without, Due, Settled, InOrder, NothingDue;
    assert !Get(s'.alarms, id).active;
    NoTimes(fired, id);
  }

  lemma {:induction false} NoTimes(fired: seq<Firing>, id: int)
    requires forall i | 0 <= i < |fired| :: fired[i].id != id
    ensures Times(fired, id) == []
    decreases |fired|
  {
    if fired != [] {
      NoTimes(fired[..|fired| - 1], id);
    }
  }

  /** Everything but one alarm is in order. */
  ghost predicate ConsistentBut(s: State, id: int) {
    && AllSound(s.alarms) && NoDuplicates(s.queue) && Sorted(s.queue, ByExpiry(s.alarms)) && id !in s.queue
    && (forall q | q != id :: q in s.queue <==> Get(s.alarms, q).active)
  }

  lemma EnqueueKeeps(s: State, id: int)
    requires ConsistentBut(s, id) && id in s.alarms
    ensures Consistent(Enqueue(s, id))
  {
    hide Sorted, NoDuplicates, ByExpiry, SortAdd;
    var a := s.alarms[id];
    var alarms := s.alarms[id := a.(active := a.exp.sec + a.exp.nsec > 0)];
    assert a.Sound();
    SortedFrame(s.queue, s.alarms, alarms);
    if a.exp.sec + a.exp.nsec > 0 {
      SortAddKeeps(alarms, s.queue, id);
    }
  }

  /** A new record joins before it is queued. */
  lemma CreatedBut(s: State, id: int, a: Alarm)
    requires Consistent(s) && id !in s.alarms && a.Sound()
    ensures ConsistentBut(State(s.alarms[id := a], s.queue), id)
  {
    hide Sorted, NoDuplicates, ByExpiry;
    assert !Get(s.alarms, id).active;
    SortedFrame(s.queue, s.alarms, s.alarms[id := a]);
  }

  /** Taking an alarm out of the queue and doing anything sound to its record leaves the others in order. */
  lemma DropKeeps(s: State, id: int, alarms: Alarms)
    requires Consistent(s) && AllSound(alarms)
    requires forall q | q != id :: Get(alarms, q) == Get(s.alarms, q)
    ensures ConsistentBut(State(alarms, if Get(s.alarms, id).active then Without(s.queue, id) else s.queue), id)
  {
    hide Sorted, NoDuplicates, ByExpiry, Without, AllSound;
    WithoutFacts(s.queue, id);
    WithoutSorted(s.queue, id, ByExpiry(s.alarms));
    var queue := if Get(s.alarms, id).active then Without(s.queue, id) else s.queue;
    assert id !in queue;
    SortedFrame(queue, s.alarms, alarms);
  }

  /** New flags and period leave everything in order. */
  lemma ParametersKeep(s: State, id: int, a: Alarm)
    requires Consistent(s) && id in s.alarms && a.Sound()
    requires a.exp == s.alarms[id].exp && a.active == s.alarms[id].active
    ensures Consistent(State(s.alarms[id := a], s.queue))
  {
    hide Sorted, NoDuplicates, ByExpiry;
    SortedSameExpiry(s, id, a);
  }

  /** A changed alarm leaves the queue before it is queued anew. */
  lemma ChangedBut(s: State, id: int, a: Alarm)
    requires Consistent(s) && id in s.alarms && a.Sound()
    ensures ConsistentBut(State(s.alarms[id := a], if s.alarms[id].active then Without(s.queue, id) else s.queue), id)
  {
    hide Sorted, NoDuplicates, ByExpiry, Without, ConsistentBut;
    DropKeeps(s, id, s.alarms[id := a]);
  }

  lemma SortedSameExpiry(s: State, id: int, a: Alarm)
    requires Sorted(s.queue, ByExpiry(s.alarms)) && a.exp == Get(s.alarms, id).exp
    ensures Sorted(s.queue, ByExpiry(s.alarms[id := a]))
  {
    forall i, j | 0 <= i < j < |s.queue| ensures ByExpiry(s.alarms[id := a])(s.queue[j], s.queue[i]) >= 0 {
      assert ByExpiry(s.alarms)(s.queue[j], s.queue[i]) >= 0;
    }
  }

  lemma DeletedKeeps(s: State, id: int)
    requires Consistent(s)
    ensures Consistent(Deleted(s, id))
  {
    hide Sorted, NoDuplicates, ByExpiry, Without;
    DropKeeps(s, id, s.alarms - {id});
  }
}
