/** Time values in seconds and microseconds. */
module EvTime {
  datatype Time = Time(sec: int, usec: int)

  const MILLION := 1000000

  predicate Normal(t: Time)
  {
    0 <= t.usec < 1000000
  }

  /** The time in microseconds. */
  function Micros(t: Time): int
  {
    t.sec * 1000000 + t.usec
  }

  /** `evutil_timercmp` with `>`. */
  predicate Greater(a: Time, b: Time)
  {
    if a.sec == b.sec then a.usec > b.usec else a.sec > b.sec
  }

  /** `evutil_timeradd`. */
  function Plus(a: Time, b: Time): Time
  {
    var sec, usec := a.sec + b.sec, a.usec + b.usec;
    if usec >= MILLION then Time(sec + 1, usec - MILLION) else Time(sec, usec)
  }

  /** `evutil_timersub`. */
  function Minus(a: Time, b: Time): Time
  {
    var sec, usec := a.sec - b.sec, a.usec - b.usec;
    if usec < 0 then Time(sec - 1, usec + MILLION) else Time(sec, usec)
  }

  /** On normal times, comparison, sum and difference are those of the microseconds. */
  lemma TimesAreNumbers(a: Time, b: Time)
    requires Normal(a) && Normal(b)
    ensures (Greater(a, b) <==> Micros(a) > Micros(b)) && (a == b <==> Micros(a) == Micros(b))
    ensures Normal(Plus(a, b)) && Micros(Plus(a, b)) == Micros(a) + Micros(b)
    ensures Normal(Minus(a, b)) && Micros(Minus(a, b)) == Micros(a) - Micros(b)
  {
  }

  /** A time compares with normal times as the microseconds do if and only if it is normal itself. */
  lemma NormalIff(a: Time)
    ensures Normal(a) <==>
              forall b :: Normal(b) ==>
                (Greater(a, b) <==> Micros(a) > Micros(b)) && (Greater(b, a) <==> Micros(b) > Micros(a))
  {
    if !Normal(a) {
      var b := if a.usec < 0 then Time(a.sec - 1, MILLION - 1) else Time(a.sec + 1, 0);
      assert Normal(b) && !((Greater(a, b) <==> Micros(a) > Micros(b)) && (Greater(b, a) <==> Micros(b) > Micros(a)));
    }
  }

  /** Setting both back by the same time keeps them as they compare. */
  predicate KeepsOrder(a: Time, b: Time, off: Time)
  {
    (Greater(Minus(a, off), Minus(b, off)) <==> Greater(a, b)) &&
    (Greater(Minus(b, off), Minus(a, off)) <==> Greater(b, a))
  }

  /** Setting a time back together with normal ones keeps their order if and only if it is normal itself. */
  lemma ShiftIff(a: Time)
    ensures Normal(a) <==> forall b, off :: Normal(b) && Normal(off) ==> KeepsOrder(a, b, off)
  {
    if !Normal(a) {
      var b := if a.usec < 0 then Time(a.sec - 1, MILLION - 1) else Time(a.sec + 1, 0);
      var off := if a.usec < 0 then Time(0, 0) else Time(0, 1);
      assert Normal(b) && Normal(off) && !KeepsOrder(a, b, off);
    }
  }

  /** One and a half million microseconds come before one second, until both are set back by a microsecond. */
  lemma ShiftReverses()
    ensures var a, b, off := Time(0, 3 * MILLION / 2), Time(1, 0), Time(0, 1);
            Greater(b, a) && Greater(Minus(a, off), Minus(b, off)) && Micros(a) > Micros(b)
  {
  }
}
