/** The program clock of `avctool/util/Util.cc`: a thread that turns readings of the system clock into
    a published time that starts at 0. */
module StampClock {

  const TWO64: nat := 0x1_0000_0000_0000_0000
  const SECOND: nat := 1_000_000

  type U64 = x: nat | x < TWO64

  /** `last` and `microsecond` of the thread; the second is also what is published. */
  datatype Stamp = Stamp(last: U64, microsecond: U64)

  /** `now - last` in uint64_t. */
  function Elapse(now: U64, last: U64): U64 {
    if now >= last then now - last else now - last + TWO64
  }

  function Sum64(a: U64, b: U64): U64 {
    if a + b < TWO64 then a + b else a + b - TWO64
  }

  function Tick(s: Stamp, now: U64): Stamp {
    var elapse := Elapse(now, s.last);
    Stamp(now, if 0 < elapse < SECOND then Sum64(s.microsecond, elapse) else s.microsecond)
  }

  function Run(s: Stamp, readings: seq<U64>): Stamp
    decreases |readings|
  {
    if readings == [] then s else Run(Tick(s, readings[0]), readings[1..])
  }

  /** One tick, exactly: the clock moves if the step of the system clock is forward by less than a second,
      or back by more than 2^64 microseconds less a second, and stands still otherwise; and it goes back
      only by wrapping round. */
  lemma TickAdvancesIff(s: Stamp, now: U64)
    ensures var step := now as int - s.last; var s' := Tick(s, now);
      && s'.last == now
      && (s'.microsecond != s.microsecond <==> 0 < step < SECOND || step < SECOND - TWO64)
      && (s'.microsecond < s.microsecond <==> s.microsecond + Accepted(now, s.last) >= TWO64)
      && (s'.microsecond >= s.microsecond ==> s'.microsecond == s.microsecond + Accepted(now, s.last))
  {
  }

  /** What one reading is worth. */
  function Accepted(now: U64, last: U64): (gain: nat)
    ensures gain < SECOND
  {
    var elapse := Elapse(now, last);
    if elapse < SECOND then elapse else 0
  }

  function Gain(last: U64, readings: seq<U64>): nat
    decreases |readings|
  {
    if readings == [] then 0 else Accepted(readings[0], last) + Gain(readings[0], readings[1..])
  }

  /** No tick turns the published time back. */
  predicate NeverBack(s: Stamp, readings: seq<U64>)
    decreases |readings|
  {
    readings == [] ||
    (s.microsecond <= Tick(s, readings[0]).microsecond && NeverBack(Tick(s, readings[0]), readings[1..]))
  }

  /** Whatever the system clock does, backward jumps included, the program clock never goes back, if and
      only if the steps it accepted do not exhaust 64 bits; and then it has grown by just these steps. */
  lemma {:induction false} ClockIsMonotoneIff(s: Stamp, readings: seq<U64>)
    ensures NeverBack(s, readings) <==> s.microsecond + Gain(s.last, readings) < TWO64
    ensures NeverBack(s, readings) ==> Run(s, readings).microsecond == s.microsecond + Gain(s.last, readings)
    decreases |readings|
  {
    if readings != [] {
      TickAdvancesIff(s, readings[0]);
      ClockIsMonotoneIff(Tick(s, readings[0]), readings[1..]);
    }
  }

  /** It grows by less than one second per reading, so 64 bits last for at least 2^64 / 10^6 readings. */
  lemma {:induction false} GainBound(last: U64, readings: seq<U64>)
    ensures Gain(last, readings) <= |readings| * (SECOND - 1)
    ensures forall s: Stamp :: s.last == last && s.microsecond + |readings| * SECOND <= TWO64 && readings != [] ==>
      s.microsecond + Gain(last, readings) < TWO64
    decreases |readings|
  {
    if readings != [] {
      GainBound(readings[0], readings[1..]);
    }
  }

  predicate Steady(last: U64, readings: seq<U64>)
    decreases |readings|
  {
    readings == [] || (0 <= readings[0] - last < SECOND && Steady(readings[0], readings[1..]))
  }

  function LastOf(last: U64, readings: seq<U64>): U64 {
    if readings == [] then last else readings[|readings| - 1]
  }

  /** The microseconds by which the readings step forward without jumping. */
  function Progress(last: U64, readings: seq<U64>): nat
    decreases |readings|
  {
    if readings == [] then 0
    else (if 0 < readings[0] - last < SECOND then readings[0] - last else 0) + Progress(readings[0], readings[1..])
  }

  /** Some reading goes back by more than 2^64 microseconds less a second. */
  predicate JumpsRound(last: U64, readings: seq<U64>)
    decreases |readings|
  {
    readings != [] && (readings[0] - last < SECOND - TWO64 || JumpsRound(readings[0], readings[1..]))
  }

  /** The accepted steps are the ordinary forward ones, jumps in either direction left out, if and only if
      no reading jumps back through almost all of the 64 bits, which the unsigned difference takes for a
      small step forward. */
  lemma {:induction false} OrdinaryStepsIff(last: U64, readings: seq<U64>)
    ensures Progress(last, readings) <= Gain(last, readings)
    ensures Gain(last, readings) == Progress(last, readings) <==> !JumpsRound(last, readings)
    decreases |readings|
  {
    if readings != [] {
      OrdinaryStepsIff(readings[0], readings[1..]);
    }
  }

  /** While the system clock runs without jumps, the program clock measures the time that passes. */
  lemma {:induction false} SteadyClockIsExact(s: Stamp, readings: seq<U64>)
    requires Steady(s.last, readings) && NeverBack(s, readings)
    ensures Run(s, readings).microsecond - s.microsecond == LastOf(s.last, readings) - s.last
    decreases |readings|
  {
    if readings != [] {
      SteadyClockIsExact(Tick(s, readings[0]), readings[1..]);
      assert LastOf(readings[0], readings[1..]) == LastOf(s.last, readings);
    }
  }

  /** The thread's loop, over a finite number of readings. */
  class StampThread {
    var last: U64
    var microsecond: U64
    var currentMicrosecond: U64
    var currentMillisecond: U64
    var currentMicrosecondSystem: U64
    var currentMillisecondSystem: U64

    ghost predicate Valid()
      reads this
    {
      && currentMicrosecond == microsecond && currentMillisecond == microsecond / 1000
      && currentMicrosecondSystem == last && currentMillisecondSystem == last / 1000
    }

    constructor (now: U64)
      ensures Valid() && last == now && microsecond == 0
    {
      last, microsecond := now, 0;
      currentMicrosecond, currentMillisecond := 0, 0;
      currentMicrosecondSystem, currentMillisecondSystem := now, now / 1000;
    }

    method Loop(readings: seq<U64>)
      requires Valid()
      modifies this
      ensures Valid() && Stamp(last, microsecond) == Run(old(Stamp(last, microsecond)), readings)
    {
      var i := 0;
      while i < |readings|
        invariant Valid() && 0 <= i <= |readings|
        invariant Run(Stamp(last, microsecond), readings[i..]) == Run(old(Stamp(last, microsecond)), readings)
      {
        var now := readings[i];
        currentMicrosecondSystem, currentMillisecondSystem := now, now / 1000;
        assert readings[i..][1..] == readings[i + 1..];
        var elapse := Elapse(now, last);
        last := now;
        if elapse > 0 && elapse < SECOND {
          microsecond := Sum64(microsecond, elapse);
          currentMicrosecond := microsecond;
          currentMillisecond := microsecond / 1000;
        }
        i := i + 1;
      }
    }
  }
}
