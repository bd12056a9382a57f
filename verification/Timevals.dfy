/** Times of seconds and microseconds. */
module Timevals {

  const MILLION: int := 1_000_000

  datatype Timeval = Timeval(sec: int, usec: int)

  function Total(t: Timeval): int {
    t.sec * MILLION + t.usec
  }

  predicate Normalised(t: Timeval) {
    0 <= t.usec < MILLION
  }

  // avahi_timeval_compare
  function Compare(a: Timeval, b: Timeval): int {
    if a.sec < b.sec then -1
    else if a.sec > b.sec then 1
    else if a.usec < b.usec then -1
    else if a.usec > b.usec then 1
    else 0
  }

  // On normalised times it is the order of the totals.
  lemma CompareIsOrder(a: Timeval, b: Timeval)
    requires Normalised(a) && Normalised(b)
    ensures Compare(a, b) < 0 <==> Total(a) < Total(b)
    ensures Compare(a, b) == 0 <==> a == b
    ensures Compare(a, b) > 0 <==> Total(a) > Total(b)
  {
    if a.sec < b.sec {
      assert (b.sec - a.sec) * MILLION >= MILLION;
    } else if a.sec > b.sec {
      assert (a.sec - b.sec) * MILLION >= MILLION;
    }
  }

  // On any times it is a strict weak order, lexicographic.
  lemma CompareIsTransitive(a: Timeval, b: Timeval, c: Timeval)
    ensures Compare(a, b) < 0 && Compare(b, c) <= 0 ==> Compare(a, c) < 0
    ensures Compare(a, b) <= 0 && Compare(b, c) < 0 ==> Compare(a, c) < 0
    ensures Compare(a, b) <= 0 && Compare(b, c) <= 0 ==> Compare(a, c) <= 0
    ensures Compare(a, b) == -Compare(b, a)
  {
  }

  // avahi_timeval_diff
  function Diff(a: Timeval, b: Timeval): (d: int)
    ensures d == Total(a) - Total(b)
    decreases Compare(b, a) > 0
  {
    if Compare(a, b) < 0 then -Diff(b, a)
    else (a.sec - b.sec) * MILLION + a.usec - b.usec
  }

  // Division as C does it, towards zero
  function Quotient(u: int): int {
    if u < 0 then -(-u / MILLION) else u / MILLION
  }

  function Remainder(u: int): int {
    u - Quotient(u) * MILLION
  }

  // A time and some microseconds, as avahi_timeval_add computes it
  function Plus(t: Timeval, delta: int): Timeval {
    var u := delta + t.usec;
    if u < 0 then Timeval(t.sec - 1 + Quotient(u), MILLION + Remainder(u))
    else Timeval(t.sec + Quotient(u), Remainder(u))
  }

  // The total is conserved, and the result is normalised unless the microseconds come to a
  // negative multiple of a second.
  lemma PlusConserves(t: Timeval, delta: int)
    ensures Total(Plus(t, delta)) == Total(t) + delta
    ensures Normalised(Plus(t, delta)) <==> !(delta + t.usec < 0 && (delta + t.usec) % MILLION == 0)
  {
    QuotientAndRemainder(delta + t.usec);
  }

  // A second before the epoch is such a case.
  lemma PlusLeavesAMillion()
    ensures Plus(Timeval(0, 0), -1_000_000) == Timeval(-2, 1_000_000)
  {
  }

  // A struct timeval that is updated in place
  class Clock {
    var sec: int
    var usec: int

    constructor (t: Timeval)
      ensures Value() == t
    {
      sec, usec := t.sec, t.usec;
    }

    function Value(): Timeval
      reads this
    {
      Timeval(sec, usec)
    }

    // avahi_timeval_add
    method Add(delta: int)
      modifies this
      ensures Value() == Plus(old(Value()), delta)
      ensures Total(Value()) == old(Total(Value())) + delta
    {
      PlusConserves(Value(), delta);
      var u := delta + usec;
      if u < 0 {
        usec := MILLION + Remainder(u);
        sec := sec + -1 + Quotient(u);
      } else {
        usec := Remainder(u);
        sec := sec + Quotient(u);
      }
    }
  }

  lemma QuotientAndRemainder(u: int)
    ensures u < 0 ==> -MILLION < Remainder(u) <= 0
    ensures u >= 0 ==> 0 <= Remainder(u) < MILLION
    ensures Remainder(u) == 0 <==> u % MILLION == 0
    ensures u == Quotient(u) * MILLION + Remainder(u)
  {
    if u < 0 {
      var v := -u;
      assert v == v / MILLION * MILLION + v % MILLION;
      assert u % MILLION == 0 <==> v % MILLION == 0;
    }
  }
}
