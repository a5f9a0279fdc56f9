/** The load counter of `avctool/thread/ThreadLoadCounter.cc`: a bounded list of alternating run and
    sleep samples, and the load computed from a window of them. */
module ThreadLoadCounter {

  const TWO63: int := 0x8000_0000_0000_0000
  const TWO64: int := 0x1_0000_0000_0000_0000

  datatype Sample = Sample(sleep: bool, time: nat)

  datatype Counter = Counter(sleeping: bool, lastSleep: nat, lastWakeup: nat, samples: seq<Sample>)

  /** uint64_t subtraction. */
  function Minus(a: nat, b: nat): int {
    if a >= b then a - b else a - b + TWO64
  }

  /** An int compared with an unsigned value is converted first. */
  function Unsigned(x: int): int {
    if x < 0 then x + TWO64 else x
  }

  function Init(now: nat): Counter {
    Counter(true, now, now, [])
  }

  function Sum(samples: seq<Sample>): nat {
    if samples == [] then 0 else samples[0].time + Sum(samples[1..])
  }

  /** The time in samples of one kind. */
  function Part(samples: seq<Sample>, sleep: bool): nat {
    if samples == [] then 0 else (if samples[0].sleep == sleep then samples[0].time else 0) + Part(samples[1..], sleep)
  }

  /** One more sample; the oldest goes if the list gets too long. */
  function Record(samples: seq<Sample>, s: Sample, maxSize: int): seq<Sample> {
    var longer := samples + [s];
    if |longer| > Unsigned(maxSize) then longer[1..] else longer
  }

  function Elapsed(now: nat, since: nat): nat
    requires now < TWO64 && since < TWO64
  {
    Minus(now, since)
  }

  function AfterSleep(c: Counter, now: nat, maxSize: int): Counter
    requires now < TWO64 && c.lastWakeup < TWO64
  {
    c.(sleeping := true, lastSleep := now,
       samples := if c.sleeping then c.samples else Record(c.samples, Sample(false, Elapsed(now, c.lastWakeup)), maxSize))
  }

  function AfterWakeup(c: Counter, now: nat, maxSize: int): Counter
    requires now < TWO64 && c.lastSleep < TWO64
  {
    c.(sleeping := false, lastWakeup := now,
       samples := if c.sleeping then Record(c.samples, Sample(true, Elapsed(now, c.lastSleep)), maxSize) else c.samples)
  }

  /** uint64_t */
  function Wrap(x: int): nat {
    x % TWO64
  }

  /** Where the interval starts that `load` takes to be still open: at the last wake-up while sleeping, and
      at the last falling asleep while running. */
  function Base(c: Counter): nat {
    if c.sleeping then c.lastWakeup else c.lastSleep
  }

  /** Its length.  `load` reads the clock before it takes the lock, so another thread may have moved the start
      past the reading meanwhile, and then this is negative. */
  function Open(c: Counter, now: nat): int {
    now - Base(c)
  }

  /** The 64-bit total of open interval and samples. */
  function Total(open: int, samples: seq<Sample>): nat {
    Wrap(open + Sum(samples))
  }

  /** The 64-bit total of the time of one kind; the open interval is of the present one. */
  function TimeOf(c: Counter, open: int, samples: seq<Sample>, sleep: bool): nat {
    Wrap((if c.sleeping == sleep then open else 0) + Part(samples, sleep))
  }

  /** Samples are dropped from the front until the total of what is left fits the window. */
  function Kept(samples: seq<Sample>, open: int, max: int): seq<Sample> {
    if Total(open, samples) > max && samples != [] then Kept(samples[1..], open, max) else samples
  }

  function AfterLoad(c: Counter, now: nat, maxUsec: int): Counter {
    c.(samples := Kept(c.samples, Open(c, now), Unsigned(maxUsec)))
  }

  /** What `load` returns. */
  function LoadResult(c: Counter, now: nat, maxUsec: int): int {
    var open, kept := Open(c, now), AfterLoad(c, now, maxUsec).samples;
    var total := Total(open, kept);
    if total == 0 then 0 else TimeOf(c, open, kept, false) * 100 / total
  }

  // ---- the window --------------------------------------------------------------------------------

  lemma {:induction false} PartsMakeSum(samples: seq<Sample>)
    ensures Part(samples, true) + Part(samples, false) == Sum(samples)
  {
    if samples != [] {
      PartsMakeSum(samples[1..]);
    }
  }

  /** `load` keeps exactly the longest suffix of the samples whose 64-bit total with the open interval fits the
      window, or nothing if none does, for any samples and any reading of the clock. */
  lemma {:induction false} KeepsLongestFit(samples: seq<Sample>, open: int, max: int)
    ensures var kept := Kept(samples, open, max); var k := |samples| - |kept|;
      && k >= 0 && kept == samples[k..]
      && (Total(open, kept) <= max || kept == [])
      && (forall j | 0 <= j < k :: Total(open, samples[j..]) > max)
  {
    assert samples[0..] == samples;
    if Total(open, samples) > max && samples != [] {
      KeepsLongestFit(samples[1..], open, max);
      var k := |samples| - |Kept(samples[1..], open, max)|;
      assert samples[1..][k - 1..] == samples[k..];
      forall j | 0 <= j < k ensures Total(open, samples[j..]) > max {
        if j > 0 {
          assert samples[j..] == samples[1..][j - 1..];
        }
      }
    }
  }

  lemma WrapSmall(x: nat)
    requires x < TWO64
    ensures Wrap(x) == x
  {
  }

  lemma WrapNegative(x: int)
    requires -TWO64 <= x < 0
    ensures Wrap(x) == x + TWO64
  {
  }

  lemma WrapSum(a: int, b: int)
    ensures Wrap(Wrap(a) + b) == Wrap(a + b)
  {
    assert a == TWO64 * (a / TWO64) + Wrap(a);
    WrapShift(Wrap(a) + b, a / TWO64);
  }

  lemma WrapShift(x: int, k: int)
    ensures Wrap(x + TWO64 * k) == Wrap(x)
  {
    var q := x / TWO64;
    assert x + TWO64 * k == TWO64 * (q + k) + Wrap(x);
    Remainder(x + TWO64 * k, q + k, Wrap(x));
  }

  lemma Remainder(x: int, q: int, r: nat)
    requires x == TWO64 * q + r && r < TWO64
    ensures Wrap(x) == r
  {
  }

  lemma MulMonotone(a: nat, b: nat, c: nat)
    requires a <= b
    ensures a * c <= b * c
  {
  }

  lemma QuotientBelow(x: nat, d: nat, k: nat)
    requires d > 0
    ensures x / d <= k <==> x < (k + 1) * d
  {
    var q := x / d;
    assert x == q * d + x % d;
    if q <= k {
      MulMonotone(q, k, d);
      assert (k + 1) * d == k * d + d;
    } else {
      MulMonotone(k + 1, q, d);
    }
  }

  // ---- the result ----------------------------------------------------------------------------------

  /** The longest suffix with no more than `max` in it. */
  function Within(samples: seq<Sample>, max: int): seq<Sample> {
    if Sum(samples) > max && samples != [] then Within(samples[1..], max) else samples
  }

  /** Whether a call of `load` returns a percentage.  It does if its reading is no older than the start of the
      open interval.  If it is `late` microseconds older, what counts is the samples that fit a window longer
      by that much: they must not outlast `late`, or hold that much of the present kind, or, while sleeping,
      the time run in them must not stand out. */
  predicate InRange(c: Counter, now: nat, maxUsec: int) {
    var late := -Open(c, now);
    var fit := Within(c.samples, Unsigned(maxUsec) + late);
    || late <= 0
    || Sum(fit) <= late
    || Part(fit, c.sleeping) >= late
    || (c.sleeping && Part(fit, false) * 100 < 101 * (Sum(fit) - late))
  }

  lemma {:induction false} SuffixIsLess(samples: seq<Sample>, k: nat)
    requires k <= |samples|
    ensures Sum(samples[k..]) <= Sum(samples)
  {
    if k > 0 {
      assert samples[k..] == samples[1..][k - 1..];
      SuffixIsLess(samples[1..], k - 1);
    } else {
      assert samples[k..] == samples;
    }
  }

  lemma KeptIsLess(samples: seq<Sample>, open: int, max: int)
    ensures Sum(Kept(samples, open, max)) <= Sum(samples)
  {
    KeepsLongestFit(samples, open, max);
    SuffixIsLess(samples, |samples| - |Kept(samples, open, max)|);
  }

  /** With a late reading, the samples kept are those that fit the longer window, unless those do not outlast
      the lateness, and then those kept do not either. */
  lemma {:induction false} KeptWhenLate(samples: seq<Sample>, late: int, max: nat)
    requires 0 <= late < TWO63 && Sum(samples) < TWO63
    ensures var fit, kept := Within(samples, max + late), Kept(samples, -late, max);
      && Sum(fit) <= Sum(samples)
      && if Sum(fit) >= late then kept == fit else Sum(kept) < late
  {
    if Sum(samples) < late {
      KeptIsLess(samples, -late, max);
    } else {
      WrapSmall(Sum(samples) - late);
      if samples != [] {
        KeptWhenLate(samples[1..], late, max);
      }
    }
  }

  /** Sums of a kept list, in range or not: total time and time run. */
  predicate Percentage(run: nat, total: nat) {
    0 <= (if total == 0 then 0 else run * 100 / total) <= 100
  }

  lemma PercentageIff(run: nat, total: nat)
    ensures Percentage(run, total) <==> total == 0 || run * 100 < 101 * total
  {
    if total > 0 {
      QuotientBelow(run * 100, total, 100);
    }
  }

  lemma ResultIsRatio(c: Counter, now: nat, maxUsec: int)
    ensures var open, kept := Open(c, now), AfterLoad(c, now, maxUsec).samples;
      0 <= LoadResult(c, now, maxUsec) <= 100 <==> Percentage(TimeOf(c, open, kept, false), Total(open, kept))
  {
  }

  lemma PromptInRange(c: Counter, open: nat, kept: seq<Sample>)
    requires open < TWO63 && Sum(kept) < TWO63
    ensures Percentage(TimeOf(c, open, kept, false), Total(open, kept))
  {
    PartsMakeSum(kept);
    WrapSmall(open + Sum(kept));
    WrapSmall((if c.sleeping then 0 else open) + Part(kept, false));
    PercentageIff(TimeOf(c, open, kept, false), Total(open, kept));
  }

  lemma ShortInRange(c: Counter, late: int, kept: seq<Sample>)
    requires 0 < late < TWO63 && Sum(kept) < late
    ensures Percentage(TimeOf(c, -late, kept, false), Total(-late, kept))
  {
    PartsMakeSum(kept);
    WrapNegative(-late + Sum(kept));
    if c.sleeping {
      WrapSmall(Part(kept, false));
    } else {
      WrapNegative(-late + Part(kept, false));
    }
    PercentageIff(TimeOf(c, -late, kept, false), Total(-late, kept));
  }

  lemma LongInRangeIff(c: Counter, late: int, kept: seq<Sample>)
    requires 0 < late < TWO63 && late <= Sum(kept) < TWO63
    ensures Percentage(TimeOf(c, -late, kept, false), Total(-late, kept)) <==>
      || Sum(kept) == late
      || Part(kept, c.sleeping) >= late
      || (c.sleeping && Part(kept, false) * 100 < 101 * (Sum(kept) - late))
  {
    PartsMakeSum(kept);
    WrapSmall(Sum(kept) - late);
    if c.sleeping {
      WrapSmall(Part(kept, false));
    } else if Part(kept, false) >= late {
      WrapSmall(Part(kept, false) - late);
    } else {
      WrapNegative(-late + Part(kept, false));
    }
    PercentageIff(TimeOf(c, -late, kept, false), Total(-late, kept));
  }

  /** Exactly when `load` returns a percentage, for times below 2^63 and any reading of the clock. */
  lemma LoadInRangeIff(c: Counter, now: nat, maxUsec: int)
    requires now < TWO63 && c.lastSleep < TWO63 && c.lastWakeup < TWO63 && Sum(c.samples) < TWO63
    requires Unsigned(maxUsec) >= 0
    ensures 0 <= LoadResult(c, now, maxUsec) <= 100 <==> InRange(c, now, maxUsec)
  {
    var open, max := Open(c, now), Unsigned(maxUsec);
    var kept := Kept(c.samples, open, max);
    ResultIsRatio(c, now, maxUsec);
    KeptIsLess(c.samples, open, max);
    if open >= 0 {
      PromptInRange(c, open, kept);
    } else {
      KeptWhenLate(c.samples, -open, max);
      if Sum(kept) < -open {
        ShortInRange(c, -open, kept);
      } else {
        LongInRangeIff(c, -open, kept);
      }
    }
  }

  // ---- histories ---------------------------------------------------------------------------------

  datatype Event = Sleep(now: nat) | Wakeup(now: nat) | Load(now: nat)

  /** What was measured: the stretch of time behind a sample. */
  datatype Span = Span(from: nat, to: nat)

  function Apply(c: Counter, ev: Event, maxSize: int, maxUsec: int): Counter
    requires ev.now < TWO64 && c.lastSleep < TWO64 && c.lastWakeup < TWO64
  {
    match ev
    case Sleep(now) => AfterSleep(c, now, maxSize)
    case Wakeup(now) => AfterWakeup(c, now, maxSize)
    case Load(now) => AfterLoad(c, now, maxUsec)
  }

  /** The thread's own calls move the clock on; `load`, which other threads call, may carry any reading. */
  function Later(clock: nat, ev: Event): nat {
    if ev.Load? then clock else ev.now
  }

  /** The clock does not run backwards from one transition to the next. */
  predicate Ticking(clock: nat, events: seq<Event>)
    decreases |events|
  {
    || events == []
    || (clock <= Later(clock, events[0]) && events[0].now < TWO64 && Ticking(Later(clock, events[0]), events[1..]))
  }

  function Final(clock: nat, events: seq<Event>): nat
    decreases |events|
  {
    if events == [] then clock else Final(Later(clock, events[0]), events[1..])
  }

  function Run(c: Counter, clock: nat, events: seq<Event>, maxSize: int, maxUsec: int): Counter
    requires Ticking(clock, events) && c.lastSleep <= clock < TWO64 && c.lastWakeup <= clock
    decreases |events|
  {
    if events == [] then c
    else Run(Apply(c, events[0], maxSize, maxUsec), Later(clock, events[0]), events[1..], maxSize, maxUsec)
  }

  /** When the state last changed, or was last said to have changed. */
  function Since(c: Counter): nat {
    if c.sleeping then c.lastSleep else c.lastWakeup
  }

  /** Each sample is the length of its stretch. */
  ghost predicate Lengths(samples: seq<Sample>, spans: seq<Span>) {
    && |spans| == |samples|
    && (forall i | 0 <= i < |spans| :: spans[i].from + samples[i].time == spans[i].to)
  }

  /** The stretches lie one behind the other, from `start` on. */
  ghost predicate Apart(spans: seq<Span>, start: nat) {
    && (forall i | 0 <= i < |spans| :: start <= spans[i].from <= spans[i].to)
    && (forall i, j | 0 <= i < j < |spans| :: spans[i].to <= spans[j].from)
  }

  /** The samples are the lengths of stretches of time that lie one behind the other between `start` and
      the clock; the last one began at the transition before the last. */
  ghost predicate Measured(c: Counter, spans: seq<Span>, start: nat, clock: nat) {
    && Lengths(c.samples, spans) && Apart(spans, start)
    && (spans != [] ==> spans[|spans| - 1].to <= Since(c)
                        && spans[|spans| - 1].from == Base(c))
    && start <= c.lastSleep <= clock && start <= c.lastWakeup <= clock
  }

  ghost predicate TakeTurns(samples: seq<Sample>) {
    forall i | 0 < i < |samples| :: samples[i].sleep != samples[i - 1].sleep
  }

  /** Run and sleep samples take turns, and the last is of the kind that is over. */
  ghost predicate Alternating(c: Counter) {
    && TakeTurns(c.samples)
    && (c.samples != [] ==> c.samples[|c.samples| - 1].sleep == !c.sleeping)
  }

  ghost predicate Butting(spans: seq<Span>) {
    forall i | 0 < i < |spans| :: spans[i - 1].to == spans[i].from
  }

  /** The stretches leave no gap, and the last one ends at the last transition. */
  ghost predicate Tiled(c: Counter, spans: seq<Span>) {
    Butting(spans) && (spans != [] ==> spans[|spans| - 1].to == Since(c))
  }

  ghost predicate Bounded(c: Counter, maxSize: int) {
    |c.samples| <= Unsigned(maxSize)
  }

  lemma MinusExact(now: nat, since: nat)
    requires since <= now < TWO64
    ensures Elapsed(now, since) == now - since
  {
  }

  /** What a new sample does to the list of stretches. */
  function Extend(spans: seq<Span>, s: Span, maxSize: int): seq<Span> {
    if |spans| + 1 > Unsigned(maxSize) then (spans + [s])[1..] else spans + [s]
  }

  /** The stretches after one event. */
  function Spans(c: Counter, spans: seq<Span>, ev: Event, maxSize: int, maxUsec: int): seq<Span>
    requires ev.now < TWO64 && c.lastSleep < TWO64 && c.lastWakeup < TWO64 && |spans| == |c.samples|
  {
    match ev
    case Sleep(now) => if c.sleeping then spans else Extend(spans, Span(c.lastWakeup, now), maxSize)
    case Wakeup(now) => if c.sleeping then Extend(spans, Span(c.lastSleep, now), maxSize) else spans
    case Load(now) =>
      var left := |AfterLoad(c, now, maxUsec).samples|;
      if left <= |spans| then spans[|spans| - left..] else spans
  }

  lemma AppendMeasured(samples: seq<Sample>, spans: seq<Span>, sample: Sample, span: Span, start: nat)
    requires Lengths(samples, spans) && Apart(spans, start)
    requires start <= span.from && span.from + sample.time == span.to
    requires spans != [] ==> spans[|spans| - 1].to <= span.from
    ensures Lengths(samples + [sample], spans + [span]) && Apart(spans + [span], start)
  {
    forall i, j | 0 <= i < j < |spans + [span]| ensures (spans + [span])[i].to <= (spans + [span])[j].from {
      if j == |spans| {
        assert spans[i].to <= spans[|spans| - 1].to;
      }
    }
  }

  /** A stretch behind all others, with its sample. */
  lemma ExtendMeasured(samples: seq<Sample>, spans: seq<Span>, sample: Sample, span: Span, start: nat, maxSize: int)
    requires Lengths(samples, spans) && Apart(spans, start)
    requires start <= span.from && span.from + sample.time == span.to
    requires spans != [] ==> spans[|spans| - 1].to <= span.from
    ensures Lengths(Record(samples, sample, maxSize), Extend(spans, span, maxSize))
    ensures Apart(Extend(spans, span, maxSize), start)
    ensures Extend(spans, span, maxSize) != [] ==> Extend(spans, span, maxSize)[|Extend(spans, span, maxSize)| - 1] == span
  {
    AppendMeasured(samples, spans, sample, span, start);
    SuffixMeasured(samples + [sample], spans + [span], 1, start);
  }

  /** The last `k` stretches, with their samples. */
  lemma SuffixMeasured(samples: seq<Sample>, spans: seq<Span>, k: nat, start: nat)
    requires Lengths(samples, spans) && Apart(spans, start) && k <= |spans|
    ensures Lengths(samples[k..], spans[k..]) && Apart(spans[k..], start)
    ensures k < |spans| ==> spans[k..][|spans| - k - 1] == spans[|spans| - 1]
    ensures Butting(spans) ==> Butting(spans[k..])
    ensures TakeTurns(samples) ==> TakeTurns(samples[k..])
  {
  }

  lemma SleepMeasures(c: Counter, spans: seq<Span>, start: nat, clock: nat, now: nat, maxSize: int)
    requires Measured(c, spans, start, clock) && clock <= now < TWO64
    ensures Measured(AfterSleep(c, now, maxSize), Spans(c, spans, Sleep(now), maxSize, 0), start, now)
  {
    MinusExact(now, c.lastWakeup);
    if !c.sleeping {
      ExtendMeasured(c.samples, spans, Sample(false, now - c.lastWakeup), Span(c.lastWakeup, now), start, maxSize);
    }
  }

  lemma WakeupMeasures(c: Counter, spans: seq<Span>, start: nat, clock: nat, now: nat, maxSize: int)
    requires Measured(c, spans, start, clock) && clock <= now < TWO64
    ensures Measured(AfterWakeup(c, now, maxSize), Spans(c, spans, Wakeup(now), maxSize, 0), start, now)
  {
    MinusExact(now, c.lastSleep);
    if c.sleeping {
      ExtendMeasured(c.samples, spans, Sample(true, now - c.lastSleep), Span(c.lastSleep, now), start, maxSize);
    }
  }

  /** `load` leaves a suffix of the samples. */
  lemma LoadSuffix(c: Counter, spans: seq<Span>, now: nat, maxSize: int, maxUsec: int) returns (k: nat)
    requires now < TWO64 && c.lastSleep < TWO64 && c.lastWakeup < TWO64 && |spans| == |c.samples|
    ensures k <= |spans| && AfterLoad(c, now, maxUsec) == c.(samples := c.samples[k..])
    ensures Spans(c, spans, Load(now), maxSize, maxUsec) == spans[k..]
  {
    KeepsLongestFit(c.samples, Open(c, now), Unsigned(maxUsec));
    k := |c.samples| - |AfterLoad(c, now, maxUsec).samples|;
  }

  lemma LoadMeasures(c: Counter, spans: seq<Span>, start: nat, clock: nat, now: nat, maxSize: int, maxUsec: int)
    requires Measured(c, spans, start, clock) && clock < TWO64 && now < TWO64
    ensures Measured(AfterLoad(c, now, maxUsec), Spans(c, spans, Load(now), maxSize, maxUsec), start, clock)
  {
    var k := LoadSuffix(c, spans, now, maxSize, maxUsec);
    KeepSuffix(c, spans, start, clock, clock, k);
  }

  lemma KeepSuffix(c: Counter, spans: seq<Span>, start: nat, clock: nat, now: nat, k: nat)
    requires Measured(c, spans, start, clock) && clock <= now && k <= |spans|
    ensures Measured(c.(samples := c.samples[k..]), spans[k..], start, now)
  {
    SuffixMeasured(c.samples, spans, k, start);
  }

  lemma StepMeasures(c: Counter, spans: seq<Span>, start: nat, clock: nat, ev: Event, maxSize: int, maxUsec: int)
    requires Measured(c, spans, start, clock) && clock <= Later(clock, ev) < TWO64 && ev.now < TWO64
    ensures Measured(Apply(c, ev, maxSize, maxUsec), Spans(c, spans, ev, maxSize, maxUsec), start, Later(clock, ev))
  {
    match ev
    case Sleep(now) => SleepMeasures(c, spans, start, clock, now, maxSize);
    case Wakeup(now) => WakeupMeasures(c, spans, start, clock, now, maxSize);
    case Load(now) => LoadMeasures(c, spans, start, clock, now, maxSize, maxUsec);
  }

  lemma RecordAlternates(samples: seq<Sample>, s: Sample, maxSize: int)
    requires TakeTurns(samples) && (samples != [] ==> samples[|samples| - 1].sleep != s.sleep)
    requires |samples| <= Unsigned(maxSize)
    ensures var r := Record(samples, s, maxSize);
      TakeTurns(r) && |r| <= Unsigned(maxSize) && (r != [] ==> r[|r| - 1] == s)
  {
    assert TakeTurns(samples + [s]);
  }

  lemma StepAlternates(c: Counter, spans: seq<Span>, start: nat, clock: nat, ev: Event, maxSize: int, maxUsec: int)
    requires Alternating(c) && Bounded(c, maxSize) && Measured(c, spans, start, clock)
    requires clock < TWO64 && ev.now < TWO64
    ensures Alternating(Apply(c, ev, maxSize, maxUsec)) && Bounded(Apply(c, ev, maxSize, maxUsec), maxSize)
  {
    match ev
    case Sleep(now) =>
      if !c.sleeping {
        RecordAlternates(c.samples, Sample(false, Elapsed(now, c.lastWakeup)), maxSize);
      }
    case Wakeup(now) =>
      if c.sleeping {
        RecordAlternates(c.samples, Sample(true, Elapsed(now, c.lastSleep)), maxSize);
      }
    case Load(now) =>
      var k := LoadSuffix(c, spans, now, maxSize, maxUsec);
      SuffixMeasured(c.samples, spans, k, start);
  }

  /** The calls themselves alternate: asleep before every wake-up, awake before every falling asleep. */
  predicate InTurn(sleeping: bool, events: seq<Event>)
    decreases |events|
  {
    events == [] ||
    match events[0]
    case Sleep(_) => !sleeping && InTurn(true, events[1..])
    case Wakeup(_) => sleeping && InTurn(false, events[1..])
    case Load(_) => InTurn(sleeping, events[1..])
  }

  lemma ExtendTiled(spans: seq<Span>, s: Span, maxSize: int)
    requires Butting(spans) && (spans != [] ==> spans[|spans| - 1].to == s.from)
    ensures Butting(Extend(spans, s, maxSize))
    ensures Extend(spans, s, maxSize) != [] ==> Extend(spans, s, maxSize)[|Extend(spans, s, maxSize)| - 1] == s
  {
    assert Butting(spans + [s]);
  }

  lemma StepTiles(c: Counter, spans: seq<Span>, start: nat, clock: nat, ev: Event, maxSize: int, maxUsec: int)
    requires Measured(c, spans, start, clock) && Tiled(c, spans) && clock < TWO64 && ev.now < TWO64
    requires ev.Sleep? ==> !c.sleeping
    requires ev.Wakeup? ==> c.sleeping
    ensures Tiled(Apply(c, ev, maxSize, maxUsec), Spans(c, spans, ev, maxSize, maxUsec))
  {
    match ev
    case Sleep(now) => ExtendTiled(spans, Span(c.lastWakeup, now), maxSize);
    case Wakeup(now) => ExtendTiled(spans, Span(c.lastSleep, now), maxSize);
    case Load(now) =>
      var k := LoadSuffix(c, spans, now, maxSize, maxUsec);
      SuffixMeasured(c.samples, spans, k, start);
  }

  lemma {:induction false} SumOfSpans(c: Counter, spans: seq<Span>, start: nat, clock: nat)
    requires Measured(c, spans, start, clock) && spans != []
    ensures Sum(c.samples) <= Since(c) - spans[0].from
    ensures Tiled(c, spans) ==> Sum(c.samples) == Since(c) - spans[0].from
    decreases |spans|
  {
    assert spans[0].to <= Since(c);
    if |spans| > 1 {
      SumOfSpans(c.(samples := c.samples[1..]), spans[1..], start, clock);
    }
  }

  /** Every history of calls: the list alternates, ends with the kind that is over, keeps to its bound,
      and its samples are the lengths of disjoint stretches between construction and now, so they add up
      to no more than the time that has passed. */
  lemma {:induction false} HistoryInvariant(c: Counter, spans: seq<Span>, start: nat, clock: nat, events: seq<Event>,
                                            maxSize: int, maxUsec: int) returns (spans': seq<Span>)
    requires Measured(c, spans, start, clock) && Alternating(c) && Bounded(c, maxSize)
    requires clock < TWO64 && Ticking(clock, events)
    ensures var r := Run(c, clock, events, maxSize, maxUsec);
      && Measured(r, spans', start, Final(clock, events)) && Alternating(r) && Bounded(r, maxSize)
      && Sum(r.samples) <= Final(clock, events) - start
    ensures Tiled(c, spans) && InTurn(c.sleeping, events) ==> Tiled(Run(c, clock, events, maxSize, maxUsec), spans')
    decreases |events|
  {
    if events == [] {
      spans' := spans;
      if spans != [] {
        SumOfSpans(c, spans, start, clock);
      }
    } else {
      var ev := events[0];
      var c1, spans1 := Apply(c, ev, maxSize, maxUsec), Spans(c, spans, ev, maxSize, maxUsec);
      StepMeasures(c, spans, start, clock, ev, maxSize, maxUsec);
      StepAlternates(c, spans, start, clock, ev, maxSize, maxUsec);
      if Tiled(c, spans) && InTurn(c.sleeping, events) {
        StepTiles(c, spans, start, clock, ev, maxSize, maxUsec);
      }
      spans' := HistoryInvariant(c1, spans1, start, Later(clock, ev), events[1..], maxSize, maxUsec);
    }
  }

  lemma InitMeasured(now: nat, maxSize: int)
    requires Unsigned(maxSize) >= 0
    ensures Measured(Init(now), [], now, now) && Alternating(Init(now)) && Bounded(Init(now), maxSize)
    ensures Tiled(Init(now), [])
  {
  }

  /** When sleep and wake-up calls alternate, the samples tile an interval that ends at the last
      transition: what they add up to is exactly the time since the first of them began. */
  lemma AlternatingCallsTile(t0: nat, events: seq<Event>, maxSize: int, maxUsec: int) returns (spans: seq<Span>)
    requires t0 < TWO64 && Ticking(t0, events) && InTurn(true, events) && Unsigned(maxSize) >= 0
    ensures var r := Run(Init(t0), t0, events, maxSize, maxUsec);
      && Lengths(r.samples, spans) && Tiled(r, spans)
      && (spans != [] ==> t0 <= spans[0].from && Sum(r.samples) == Since(r) - spans[0].from)
  {
    InitMeasured(t0, maxSize);
    spans := HistoryInvariant(Init(t0), [], t0, t0, events, maxSize, maxUsec);
    if spans != [] {
      SumOfSpans(Run(Init(t0), t0, events, maxSize, maxUsec), spans, t0, Final(t0, events));
    }
  }

  /** The open interval of `load` reaches back over the last sample, which is counted a second time, as
      the opposite kind: the window is exact, for any reading, if and only if that sample is empty. */
  lemma OpenCountsLastSampleTwice(c: Counter, spans: seq<Span>, start: nat, clock: nat, now: nat)
    requires Measured(c, spans, start, clock) && Tiled(c, spans) && Alternating(c) && spans != []
    ensures var last := c.samples[|c.samples| - 1];
      && last.sleep == !c.sleeping
      && Open(c, now) + Sum(c.samples) == (now - spans[0].from) + last.time
      && (Open(c, now) + Sum(c.samples) == now - spans[0].from <==> last.time == 0)
  {
    SumOfSpans(c, spans, start, clock);
  }

  lemma SumFits(c: Counter, spans: seq<Span>, start: nat, clock: nat)
    requires Measured(c, spans, start, clock)
    ensures Sum(c.samples) <= clock
  {
    if spans != [] {
      SumOfSpans(c, spans, start, clock);
    }
  }

  /** In every history on a clock below 2^63 the 64-bit totals are exact, whatever is dropped, if and only if
      `load` did not read the clock before the start of the open interval. */
  lemma TotalsAreExactIff(c: Counter, spans: seq<Span>, start: nat, clock: nat, now: nat)
    requires Measured(c, spans, start, clock) && clock < TWO63 && now < TWO63
    ensures (forall k | 0 <= k <= |c.samples| :: Total(Open(c, now), c.samples[k..]) == Open(c, now) + Sum(c.samples[k..]))
            <==> Base(c) <= now
  {
    var n := |c.samples|;
    SumFits(c, spans, start, clock);
    assert c.samples[n..] == [];
    if Base(c) <= now {
      forall k | 0 <= k <= n ensures Total(Open(c, now), c.samples[k..]) == Open(c, now) + Sum(c.samples[k..]) {
        SuffixIsLess(c.samples, k);
        WrapSmall(Open(c, now) + Sum(c.samples[k..]));
      }
    } else {
      WrapNegative(Open(c, now));
      assert Total(Open(c, now), c.samples[n..]) != Open(c, now) + Sum(c.samples[n..]);
    }
  }

  /** And exactly when the result of a `load` is a percentage, after every history from construction, with any
      calls in any order and any reading: never to be out of range is a matter of not reading the clock too
      early. */
  lemma HistoryInRangeIff(t0: nat, events: seq<Event>, now: nat, maxSize: int, maxUsec: int)
    requires t0 < TWO64 && Ticking(t0, events) && Final(t0, events) < TWO63 && now < TWO63
    requires Unsigned(maxSize) >= 0 && Unsigned(maxUsec) >= 0
    ensures var c := Run(Init(t0), t0, events, maxSize, maxUsec);
      0 <= LoadResult(c, now, maxUsec) <= 100 <==> InRange(c, now, maxUsec)
  {
    InitMeasured(t0, maxSize);
    var spans := HistoryInvariant(Init(t0), [], t0, t0, events, maxSize, maxUsec);
    SumFits(Run(Init(t0), t0, events, maxSize, maxUsec), spans, t0, Final(t0, events));
    LoadInRangeIff(Run(Init(t0), t0, events, maxSize, maxUsec), now, maxUsec);
  }

  function LateCounter(): Counter {
    Counter(false, 10, 1000, [Sample(true, 5), Sample(false, 5), Sample(true, 990)])
  }

  lemma LateHistory()
    ensures var events := [Wakeup(5), Sleep(10), Wakeup(1000)];
      Ticking(0, events) && Run(Init(0), 0, events, 32, 2_000_000) == LateCounter()
  {
    var c1 := Counter(false, 0, 5, [Sample(true, 5)]);
    var c2 := Counter(true, 10, 5, [Sample(true, 5), Sample(false, 5)]);
    var events := [Wakeup(5), Sleep(10), Wakeup(1000)];
    assert events[1..] == [Sleep(10), Wakeup(1000)] && events[1..][1..] == [Wakeup(1000)] && events[1..][1..][1..] == [];
    assert AfterWakeup(Init(0), 5, 32) == c1;
    assert AfterSleep(c1, 10, 32) == c2;
    assert Run(c2, 10, [Wakeup(1000)], 32, 2_000_000) == LateCounter();
    assert Run(c1, 5, [Sleep(10), Wakeup(1000)], 32, 2_000_000) == LateCounter();
  }

  /** A history with a `load` that is not: it reads the clock at 3, and the thread wakes up at 5, falls asleep at
      10 and wakes up at 1000 before it gets the lock. */
  lemma LateLoadLeavesRange()
    ensures var events := [Wakeup(5), Sleep(10), Wakeup(1000)];
      && Ticking(0, events)
      && LoadResult(Run(Init(0), 0, events, 32, 2_000_000), 3, 2_000_000) == (TWO64 - 2) * 100 / 993
  {
    var samples := LateCounter().samples;
    LateHistory();
    assert samples[1..] == [Sample(false, 5), Sample(true, 990)] && samples[1..][1..] == [Sample(true, 990)];
    assert samples[1..][1..][1..] == [];
    assert Sum(samples) == 1000 && Part(samples, false) == 5;
    WrapSmall(993);
    WrapNegative(-2);
    assert Kept(samples, -7, 2_000_000) == samples;
  }

  // ---- the code ------------------------------------------------------------------------------------

  class ThreadLoadCounter {
    const maxSize: int
    const maxUsec: int
    var sleeping: bool
    var lastSleep: nat
    var lastWakeup: nat
    var samples: seq<Sample>

    ghost function View(): Counter
      reads this
    {
      Counter(sleeping, lastSleep, lastWakeup, samples)
    }

    ghost predicate Valid()
      reads this
    {
      lastSleep < TWO64 && lastWakeup < TWO64
    }

    constructor (now: nat, maxCount: int := 32, maxUsec: int := 2_000_000)
      requires now < TWO64
      ensures Valid() && View() == Init(now) && this.maxSize == maxCount && this.maxUsec == maxUsec
    {
      sleeping, lastSleep, lastWakeup, samples := true, now, now, [];
      this.maxSize, this.maxUsec := maxCount, maxUsec;
    }

    method OnSleep(now: nat)
      requires Valid() && now < TWO64
      modifies this
      ensures Valid() && View() == AfterSleep(old(View()), now, maxSize)
    {
      if !sleeping {
        samples := samples + [Sample(false, Elapsed(now, lastWakeup))];
        if |samples| > Unsigned(maxSize) {
          samples := samples[1..];
        }
      }
      sleeping := true;
      lastSleep := now;
    }

    method OnWakeup(now: nat)
      requires Valid() && now < TWO64
      modifies this
      ensures Valid() && View() == AfterWakeup(old(View()), now, maxSize)
    {
      if sleeping {
        samples := samples + [Sample(true, Elapsed(now, lastSleep))];
        if |samples| > Unsigned(maxSize) {
          samples := samples[1..];
        }
      }
      sleeping := false;
      lastWakeup := now;
    }

    /** The two running totals over the open interval and the list, in uint64_t. */
    method AddUp(now: nat) returns (run: nat, asleep: nat)
      requires Valid() && now < TWO64
      ensures run == TimeOf(View(), Open(View(), now), samples, false)
      ensures asleep == TimeOf(View(), Open(View(), now), samples, true)
    {
      ghost var c, open := View(), Open(View(), now);
      var elapsed := Elapsed(now, if sleeping then lastWakeup else lastSleep);
      run, asleep := if sleeping then 0 else elapsed, if sleeping then elapsed else 0;
      NothingYet(c, now);
      var i := |samples|;
      assert samples[i..] == [];
      while i > 0
        invariant 0 <= i <= |samples|
        invariant run == TimeOf(c, open, samples[i..], false) && asleep == TimeOf(c, open, samples[i..], true)
      {
        i := i - 1;
        OneMore(c, open, samples, i);
        if samples[i].sleep {
          asleep := Wrap(asleep + samples[i].time);
        } else {
          run := Wrap(run + samples[i].time);
        }
      }
      assert samples[0..] == samples;
    }

    /** Then samples are dropped from the front and subtracted until the rest fits. */
    method Load(now: nat) returns (percent: int)
      requires Valid() && now < TWO64
      modifies this`samples
      ensures Valid() && View() == AfterLoad(old(View()), now, maxUsec)
      ensures percent == LoadResult(old(View()), now, maxUsec)
    {
      ghost var c, open := View(), Open(View(), now);
      var run: nat, asleep: nat := AddUp(now);
      var total: nat := Wrap(run + asleep);
      WholeTotal(c, open);
      while total > Unsigned(maxUsec) && samples != []
        invariant Kept(samples, open, Unsigned(maxUsec)) == Kept(c.samples, open, Unsigned(maxUsec))
        invariant run == TimeOf(c, open, samples, false) && total == Total(open, samples)
        decreases |samples|
      {
        var node := samples[0];
        OneLess(c, open, samples);
        total := Wrap(total - node.time);
        if node.sleep {
          asleep := Wrap(asleep - node.time);
        } else {
          run := Wrap(run - node.time);
        }
        samples := samples[1..];
      }
      percent := if total == 0 then 0 else run * 100 / total;
    }
  }

  lemma NothingYet(c: Counter, now: nat)
    requires now < TWO64 && c.lastSleep < TWO64 && c.lastWakeup < TWO64
    ensures TimeOf(c, Open(c, now), [], c.sleeping) == Elapsed(now, Base(c))
    ensures TimeOf(c, Open(c, now), [], !c.sleeping) == 0
  {
    if now >= Base(c) {
      WrapSmall(now - Base(c));
    } else {
      WrapNegative(now - Base(c));
    }
  }

  /** The sample at `i` joins those behind it. */
  lemma OneMore(c: Counter, open: int, samples: seq<Sample>, i: nat)
    requires i < |samples|
    ensures var s, rest, longer := samples[i], samples[i + 1..], samples[i..];
      && TimeOf(c, open, longer, s.sleep) == Wrap(TimeOf(c, open, rest, s.sleep) + s.time)
      && TimeOf(c, open, longer, !s.sleep) == TimeOf(c, open, rest, !s.sleep)
  {
    var s, rest := samples[i], samples[i + 1..];
    assert samples[i..][1..] == rest;
    WrapSum((if c.sleeping == s.sleep then open else 0) + Part(rest, s.sleep), s.time);
  }

  /** The first sample goes. */
  lemma OneLess(c: Counter, open: int, samples: seq<Sample>)
    requires samples != []
    ensures var s, rest := samples[0], samples[1..];
      && Total(open, rest) == Wrap(Total(open, samples) - s.time)
      && TimeOf(c, open, rest, s.sleep) == Wrap(TimeOf(c, open, samples, s.sleep) - s.time)
      && TimeOf(c, open, rest, !s.sleep) == TimeOf(c, open, samples, !s.sleep)
  {
    var s := samples[0];
    var time: int := s.time;
    WrapSum(open + Sum(samples), -time);
    WrapSum((if c.sleeping == s.sleep then open else 0) + Part(samples, s.sleep), -time);
  }

  lemma WholeTotal(c: Counter, open: int)
    ensures Wrap(TimeOf(c, open, c.samples, false) + TimeOf(c, open, c.samples, true)) == Total(open, c.samples)
  {
    var a := (if c.sleeping then 0 else open) + Part(c.samples, false);
    var b := (if c.sleeping then open else 0) + Part(c.samples, true);
    PartsMakeSum(c.samples);
    WrapSum(a, Wrap(b));
    WrapSum(b, a);
  }
}
