/** Arithmetic on time_t (lib/types.h:153-208). */
module Time {

  const NS: int := 1_000_000_000

  datatype Time = Time(sec: int, nsec: int)

  /** What the arithmetic below keeps true of the nanoseconds. */
  predicate Rep(t: Time) {
    0 <= t.nsec <= NS
  }

  /** What a reader would expect of them. */
  predicate Canonical(t: Time) {
    0 <= t.nsec < NS
  }

  function Value(t: Time): int {
    t.sec * NS + t.nsec
  }

  /** time_add */
  function Add(a: Time, b: Time): Time {
    var sec, nsec := a.sec + b.sec, a.nsec + b.nsec;
    if nsec > NS then Time(sec + 1, nsec - NS) else Time(sec, nsec)
  }

  /** time_sub */
  function Sub(a: Time, b: Time): Time {
    if a.nsec >= b.nsec then Time(a.sec - b.sec, a.nsec - b.nsec)
    else Time(a.sec - (b.sec + 1), a.nsec + (NS - b.nsec))
  }

  /** time_cmp */
  function Cmp(a: Time, b: Time): int {
    if a.sec < b.sec then -1
    else if a.sec > b.sec then 1
    else if a.nsec < b.nsec then -1
    else if a.nsec > b.nsec then 1
    else 0
  }

  /** Addition and subtraction are exact and stay in range. */
  lemma Exact(a: Time, b: Time)
    requires Rep(a) && Rep(b)
    ensures Rep(Add(a, b)) && Value(Add(a, b)) == Value(a) + Value(b)
    ensures Rep(Sub(a, b)) && Value(Sub(a, b)) == Value(a) - Value(b)
  {
  }

  /** The carry test is strict, so a sum of exactly one second of nanoseconds is not carried: canonical times
      have a canonical sum exactly when their nanoseconds do not add up to that. */
  lemma CanonicalSum(a: Time, b: Time)
    requires Canonical(a) && Canonical(b)
    ensures Canonical(Add(a, b)) <==> a.nsec + b.nsec != NS
  {
  }

  /** Half a second twice is a time that is equal to one second but compares as less. */
  lemma UncarriedSum(half: Time, second: Time)
    requires half == Time(0, NS / 2) && second == Time(1, 0)
    ensures var sum := Add(half, half);
            sum == Time(0, NS) && Value(sum) == Value(second) && Cmp(sum, second) == -1
  {
  }

  /** Two times of one value that still differ: one second, and 10^9 nanoseconds. */
  predicate Uncarried(a: Time, b: Time) {
    a.sec + 1 == b.sec && a.nsec == NS && b.nsec == 0
  }

  /** The comparison is exact except on an uncarried time and its carried form, which it tells apart. */
  lemma CmpExact(a: Time, b: Time)
    requires Rep(a) && Rep(b)
    ensures Value(a) < Value(b) ==> Cmp(a, b) == -1
    ensures Value(a) > Value(b) ==> Cmp(a, b) == 1
    ensures Cmp(a, b) == 0 <==> a == b
    ensures Value(a) == Value(b) && Cmp(a, b) != 0 <==> Uncarried(a, b) || Uncarried(b, a)
  {
    if a.sec < b.sec {
      ValueGap(a, b);
    } else if b.sec < a.sec {
      ValueGap(b, a);
    }
  }

  lemma ValueGap(a: Time, b: Time)
    requires Rep(a) && Rep(b) && a.sec < b.sec
    ensures Value(a) <= Value(b) && (Value(a) == Value(b) <==> Uncarried(a, b))
  {
  }

  /** Against a canonical time the comparison "not after" is exact. */
  lemma CmpCanonical(a: Time, b: Time)
    requires Rep(a) && Canonical(b)
    ensures Cmp(a, b) <= 0 <==> Value(a) <= Value(b)
  {
    CmpExact(a, b);
  }

  /** The comparison is a total order. */
  lemma CmpOrder(a: Time, b: Time, c: Time)
    ensures Cmp(a, b) == -Cmp(b, a)
    ensures Cmp(a, b) >= 0 && Cmp(b, c) >= 0 ==> Cmp(a, c) >= 0
    ensures Cmp(a, b) > 0 && Cmp(b, c) >= 0 ==> Cmp(a, c) > 0
    ensures Cmp(a, b) >= 0 && Cmp(b, c) > 0 ==> Cmp(a, c) > 0
  {
  }
}
