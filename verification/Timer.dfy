/** The repeating timer of `avctool/timer/Timer.cc` on top of the poller's delay tasks: whole runs of
    one Timer that is started and stopped any number of times, from any threads at once and from any
    callback, among any other delay tasks. */
module Timer {
  import opened DelayTasks

  datatype Option<T> = None | Some(value: T)

  /** `scheduleDelayTask` is cut at every callback, so that time can pass and anything can be started,
      stopped, added and cancelled while it runs. */
  datatype State = State(
    clock: U64,                 // the program clock, in ms
    tasks: seq<Entry>,          // delay_tasks_ of the poller
    posted: seq<Entry>,         // the Timer's delay tasks whose insertion is still to come
    passing: bool,              // inside scheduleDelayTask
    copy: seq<Entry>,           // what it has swapped out and not worked through yet
    now: U64,                   // the time it sampled on entry
    calling: Option<Id>,        // the delay task whose callback is running
    cancelled: set<Id>,
    own: map<Id, int>,          // every delay task this Timer has ever created, with its period
    asking: nat,                // calls of start that have found delay_task_ null and not posted yet
    assigning: set<Id>,         // delay tasks that calls of start have posted and not stored yet
    current: Option<Id>,        // delay_task_
    live: Option<Id>,           // the last delay task posted, unless it was stopped
    base: nat,                  // when that was posted, or the time sampled by the pass it last fired in
    sampled: seq<nat>,          // for each onTime call, the time its pass had sampled
    called: seq<nat>)           // and the time at which it was made

  datatype Event =
    | Tick(now: U64)
    | Add(e: Entry)             // somebody else's delay task arrives
    | Cancel(id: Id)            // somebody else's delay task is cancelled
    | Test                      // start: delay_task_ == nullptr
    | Post(id: Id, ms: int)     // start: addDelayTask, up to the posting
    | Assign(id: Id)            // start: delay_task_ = ...
    | Stop
    | Arrive(i: nat)            // an insertion of the Timer runs on the loop
    | Begin                     // scheduleDelayTask samples the time and swaps the map out
    | Next                      // it looks at the first due entry
    | Return(delay: U64)        // the callback returns
    | End                       // nothing due is left: the rest goes back into the map

  const MAX_INT: int := 0x7fff_ffff

  function Init(clock: U64): State {
    State(clock, [], [], false, [], clock, None, {}, map[], 0, {}, None, None, clock, [], [])
  }

  /** A delay task that nobody has seen yet. */
  ghost predicate Fresh(s: State, id: Id) {
    && id !in s.own && id !in s.cancelled && s.calling != Some(id)
    && (forall e | e in s.tasks || e in s.posted || e in s.copy :: e.id != id)
  }

  /** The closure that `start` installs returns its period as a uint64_t, or 0 once the Timer object is gone. */
  ghost predicate Enabled(s: State, ev: Event) {
    match ev
    case Tick(now) => s.clock <= now < TWO63
    case Add(e) => e.id !in s.own
    case Cancel(id) => id !in s.own
    case Test => true
    case Post(id, ms) => s.asking > 0 && Fresh(s, id) && -MAX_INT - 1 <= ms <= MAX_INT
    case Assign(id) => id in s.assigning
    case Stop => true
    case Arrive(i) => i < |s.posted|
    case Begin => !s.passing
    case Next => s.passing && s.calling.None? && s.copy != [] && s.copy[0].deadline <= s.now
    case Return(delay) =>
      s.calling.Some? && (s.calling.value in s.own ==> delay == Wrap(s.own[s.calling.value]) || delay == 0)
    case End => s.passing && s.calling.None? && (s.copy == [] || s.copy[0].deadline > s.now)
  }

  function Apply(s: State, ev: Event): State
    requires Enabled(s, ev) && s.clock < TWO63
  {
    match ev
    case Tick(now) => s.(clock := now)
    case Add(e) => s.(tasks := Emplace(s.tasks, e))
    case Cancel(id) => s.(cancelled := s.cancelled + {id})
    case Test => if s.current.None? then s.(asking := s.asking + 1) else s
    case Post(id, ms) =>
      s.(asking := s.asking - 1, posted := s.posted + [Entry(Wrap(s.clock + ms), id)], own := s.own[id := ms],
         assigning := s.assigning + {id}, live := Some(id), base := s.clock)
    case Assign(id) => s.(assigning := s.assigning - {id}, current := Some(id))
    case Stop =>
      if s.current.None? then s
      else s.(cancelled := s.cancelled + {s.current.value}, current := None,
              live := if s.live == s.current then None else s.live)
    case Arrive(i) =>
      s.(tasks := Emplace(s.tasks, s.posted[i]), posted := s.posted[..i] + s.posted[i + 1..])
    case Begin => s.(copy := s.tasks, tasks := [], passing := true, now := s.clock)
    case Next =>
      var id, s' := s.copy[0].id, s.(copy := s.copy[1..]);
      if id in s.cancelled then s'
      else if id !in s.own then s'.(calling := Some(id))
      else s'.(calling := Some(id), base := s.now, sampled := s.sampled + [s.now], called := s.called + [s.clock])
    case Return(delay) =>
      s.(calling := None, tasks := EmplaceAll(s.tasks, Rearm(s.now, s.calling.value, delay)))
    case End => s.(tasks := EmplaceAll(s.tasks, s.copy), copy := [], passing := false)
  }

  ghost predicate Legal(s: State, events: seq<Event>)
    decreases |events|
  {
    s.clock < TWO63 && (events == [] || (Enabled(s, events[0]) && Legal(Apply(s, events[0]), events[1..])))
  }

  ghost function Run(s: State, events: seq<Event>): State
    requires Legal(s, events)
    decreases |events|
  {
    if events == [] then s else Run(Apply(s, events[0]), events[1..])
  }

  // ---- the entries of one delay task -------------------------------------------------------------

  function One(e: Entry, id: Id, lo: nat): nat {
    if e.id == id && e.deadline < lo then 1 else 0
  }

  /** How many entries a delay task has in a list with a deadline before `lo`. */
  function Count(q: seq<Entry>, id: Id, lo: nat): nat {
    if q == [] then 0 else One(q[0], id, lo) + Count(q[1..], id, lo)
  }

  lemma {:induction false} CountAppend(a: seq<Entry>, b: seq<Entry>, id: Id, lo: nat)
    ensures Count(a + b, id, lo) == Count(a, id, lo) + Count(b, id, lo)
  {
    if a == [] {
      assert a + b == b;
    } else {
      assert (a + b)[1..] == a[1..] + b;
      CountAppend(a[1..], b, id, lo);
    }
  }

  lemma {:induction false} CountAbsent(q: seq<Entry>, id: Id, lo: nat)
    requires forall e | e in q :: e.id != id
    ensures Count(q, id, lo) == 0
  {
    if q != [] {
      CountAbsent(q[1..], id, lo);
    }
  }

  lemma CountOne(e: Entry, id: Id, lo: nat)
    ensures Count([e], id, lo) == One(e, id, lo)
  {
    assert [e][1..] == [];
  }

  lemma {:induction false} CountEmplace(q: seq<Entry>, e: Entry, id: Id, lo: nat)
    ensures Count(Emplace(q, e), id, lo) == Count(q, id, lo) + One(e, id, lo)
  {
    if q != [] && q[0].deadline <= e.deadline {
      CountEmplace(q[1..], e, id, lo);
      assert Emplace(q, e)[1..] == Emplace(q[1..], e);
    } else {
      assert ([e] + q)[1..] == q;
    }
  }

  lemma {:induction false} CountEmplaceAll(q: seq<Entry>, es: seq<Entry>, id: Id, lo: nat)
    ensures Count(EmplaceAll(q, es), id, lo) == Count(q, id, lo) + Count(es, id, lo)
    decreases |es|
  {
    if es != [] {
      CountEmplaceAll(Emplace(q, es[0]), es[1..], id, lo);
      CountEmplace(q, es[0], id, lo);
    }
  }

  lemma CountRemove(q: seq<Entry>, i: nat, id: Id, lo: nat)
    requires i < |q|
    ensures Count(q, id, lo) == Count(q[..i] + q[i + 1..], id, lo) + One(q[i], id, lo)
  {
    assert q == q[..i] + ([q[i]] + q[i + 1..]);
    CountAppend(q[..i], [q[i]] + q[i + 1..], id, lo);
    CountAppend([q[i]], q[i + 1..], id, lo);
    CountAppend(q[..i], q[i + 1..], id, lo);
    CountOne(q[i], id, lo);
  }

  lemma {:induction false} CountMonotone(q: seq<Entry>, id: Id, lo: nat)
    ensures Count(q, id, lo) <= Count(q, id, TWO64)
  {
    if q != [] {
      CountMonotone(q[1..], id, lo);
    }
  }

  // ---- the invariant -----------------------------------------------------------------------------

  /** At least `p` apart, the first at least `p` after `from`. */
  ghost predicate Spaced(times: seq<nat>, from: nat, p: nat) {
    forall i | 0 <= i < |times| :: times[i] >= Before(times, i, from) + p
  }

  function Before(times: seq<nat>, i: nat, from: nat): nat
    requires i <= |times|
  {
    if i == 0 then from else times[i - 1]
  }

  /** At most one of the Timer's delay tasks is not cancelled: `delay_task_`, or one about to become that. */
  ghost predicate OneLive(s: State) {
    && (forall id | id in s.own :: s.live == Some(id) || id in s.cancelled)
    && (forall e | e in s.posted :: e.id in s.own)
    && (s.live.Some? ==> s.live.value in s.own && s.live.value !in s.cancelled)
    && (s.current.Some? ==> s.live == s.current)
    && s.assigning == (if s.current.None? && s.live.Some? then {s.live.value} else {})
  }

  ghost predicate Paced(s: State, from: nat, p: nat) {
    && Before(s.sampled, |s.sampled|, from) <= s.base <= s.clock
    && Spaced(s.sampled, from, p)
    && |s.called| == |s.sampled|
    && (forall i | 0 <= i < |s.called| :: s.sampled[i] <= s.called[i])
  }

  /** The entries of a delay task, wherever they are. */
  function Entries(s: State, id: Id, lo: nat): nat {
    Count(s.tasks, id, lo) + Count(s.posted, id, lo) + Count(s.copy, id, lo)
  }

  /** At most one entry, and none before `lo`. */
  predicate Single(s: State, id: Id, lo: nat) {
    Entries(s, id, TWO64) <= 1 && Entries(s, id, lo) == 0
  }

  /** The live delay task has one entry, a period away from its start or last firing; or it is being
      called, and has none. */
  predicate Ahead(s: State, p: nat) {
    s.live.Some? ==>
      && s.live.value in s.own && p <= s.own[s.live.value] <= MAX_INT
      && Single(s, s.live.value, s.base + s.own[s.live.value])
      && (s.calling == s.live ==> Entries(s, s.live.value, TWO64) == 0 && s.base == s.now)
  }

  predicate Placed(s: State) {
    s.now <= s.clock && (!s.passing ==> s.copy == [] && s.calling.None?)
  }

  ghost predicate Inv(s: State, from: nat, p: nat) {
    OneLive(s) && Paced(s, from, p) && Ahead(s, p) && Placed(s)
  }

  lemma ArriveKeepsEntries(s: State, i: nat, id: Id, lo: nat)
    requires s.clock < TWO63 && Enabled(s, Arrive(i))
    ensures Entries(Apply(s, Arrive(i)), id, lo) == Entries(s, id, lo)
  {
    CountEmplace(s.tasks, s.posted[i], id, lo);
    CountRemove(s.posted, i, id, lo);
  }

  /** Moving entries about changes nothing for a delay task. */
  lemma MovesKeepEntries(s: State, ev: Event, id: Id, lo: nat)
    requires s.clock < TWO63 && Enabled(s, ev) && Placed(s) && id in s.own
    requires ev.Add? || ev.Arrive? || ev.Begin? || ev.End?
    ensures Entries(Apply(s, ev), id, lo) == Entries(s, id, lo)
  {
    match ev
    case Add(e) => CountEmplace(s.tasks, e, id, lo);
    case Arrive(i) => ArriveKeepsEntries(s, i, id, lo);
    case Begin =>
    case End => CountEmplaceAll(s.tasks, s.copy, id, lo);
  }

  lemma MoveKeepsAhead(s: State, ev: Event, p: nat)
    requires OneLive(s) && Ahead(s, p) && Placed(s) && s.clock < TWO63 && Enabled(s, ev)
    requires ev.Add? || ev.Arrive? || ev.Begin? || ev.End?
    ensures Ahead(Apply(s, ev), p) && Placed(Apply(s, ev))
  {
    if s.live.Some? {
      MovesKeepEntries(s, ev, s.live.value, TWO64);
      MovesKeepEntries(s, ev, s.live.value, s.base + s.own[s.live.value]);
    }
  }

  lemma MoveKeepsInv(s: State, ev: Event, from: nat, p: nat)
    requires Inv(s, from, p) && s.clock < TWO63 && Enabled(s, ev)
    requires ev.Add? || ev.Arrive? || ev.Begin? || ev.End?
    ensures Inv(Apply(s, ev), from, p)
  {
    MoveKeepsAhead(s, ev, p);
    assert forall e | e in Apply(s, ev).posted :: e in s.posted;
  }

  lemma SpacedMore(times: seq<nat>, from: nat, p: nat, next: nat)
    requires Spaced(times, from, p) && next >= Before(times, |times|, from) + p
    ensures Spaced(times + [next], from, p)
  {
    assert forall i | 0 <= i <= |times| :: Before(times + [next], i, from) == Before(times, i, from);
  }

  /** The first entry worked on, seen by a delay task. */
  lemma NextEntries(s: State, id: Id, lo: nat)
    requires s.clock < TWO63 && Enabled(s, Next)
    ensures Entries(s, id, lo) == Entries(Apply(s, Next), id, lo) + One(s.copy[0], id, lo)
  {
  }

  /** A due entry of the Timer that is not cancelled is the live one, and a period has gone by. */
  lemma NextKeepsAhead(s: State, p: nat)
    requires OneLive(s) && Ahead(s, p) && Placed(s) && s.clock < TWO63 && Enabled(s, Next)
    ensures Ahead(Apply(s, Next), p)
  {
    if s.live.Some? {
      var id := s.live.value;
      NextEntries(s, id, TWO64);
      NextEntries(s, id, s.base + s.own[s.live.value]);
      if s.copy[0].id == id {
        NoneLeft(Apply(s, Next), id, s.now + s.own[s.live.value]);
      }
    }
  }

  lemma NextKeepsPace(s: State, from: nat, p: nat)
    requires OneLive(s) && Ahead(s, p) && Placed(s) && Paced(s, from, p) && s.clock < TWO63 && Enabled(s, Next)
    ensures Paced(Apply(s, Next), from, p)
  {
    var id := s.copy[0].id;
    if id in s.own && id !in s.cancelled {
      NextEntries(s, id, s.base + s.own[id]);
      assert s.now >= s.base + s.own[id];
      SpacedMore(s.sampled, from, p, s.now);
    }
  }

  lemma NextKeepsInv(s: State, from: nat, p: nat)
    requires Inv(s, from, p) && s.clock < TWO63 && Enabled(s, Next)
    ensures Inv(Apply(s, Next), from, p)
  {
    NextKeepsAhead(s, p);
    NextKeepsPace(s, from, p);
    assert OneLive(Apply(s, Next)) && Placed(Apply(s, Next));
  }

  lemma NoneLeft(s: State, id: Id, lo: nat)
    requires Entries(s, id, TWO64) == 0
    ensures Entries(s, id, lo) == 0
  {
    CountMonotone(s.tasks, id, lo);
    CountMonotone(s.posted, id, lo);
    CountMonotone(s.copy, id, lo);
  }

  lemma ReturnEntries(s: State, delay: U64, id: Id, lo: nat)
    requires s.clock < TWO63 && s.now <= s.clock && Enabled(s, Return(delay))
    requires s.calling == Some(id) ==> delay as int <= MAX_INT
    ensures Entries(Apply(s, Return(delay)), id, lo)
            == Entries(s, id, lo) + if s.calling == Some(id) && delay > 0 && s.now + delay < lo then 1 else 0
  {
    var back := Rearm(s.now, s.calling.value, delay);
    CountEmplaceAll(s.tasks, back, id, lo);
    if s.calling != Some(id) {
      CountAbsent(back, id, lo);
    } else if delay > 0 {
      WrapSmall(s.now + delay);
      CountOne(back[0], id, lo);
    }
  }

  lemma ReturnKeepsAhead(s: State, delay: U64, p: nat)
    requires OneLive(s) && Ahead(s, p) && Placed(s) && s.clock < TWO63 && Enabled(s, Return(delay))
    ensures Ahead(Apply(s, Return(delay)), p)
  {
    if s.live.Some? {
      WrapSmall(s.own[s.live.value]);
      ReturnEntries(s, delay, s.live.value, TWO64);
      ReturnEntries(s, delay, s.live.value, s.base + s.own[s.live.value]);
    }
  }

  lemma ReturnKeepsInv(s: State, delay: U64, from: nat, p: nat)
    requires Inv(s, from, p) && s.clock < TWO63 && Enabled(s, Return(delay))
    ensures Inv(Apply(s, Return(delay)), from, p)
  {
    ReturnKeepsAhead(s, delay, p);
    assert OneLive(Apply(s, Return(delay)));
  }

  /** A start posts although a delay task is there, or about to be stored: it found `delay_task_` null before
      the other was. */
  predicate Crowds(s: State, ev: Event) {
    ev.Post? && (s.current.Some? || s.assigning != {})
  }

  lemma PostKeepsOneLive(s: State, id: Id, ms: int)
    requires OneLive(s) && s.clock < TWO63 && Enabled(s, Post(id, ms)) && !Crowds(s, Post(id, ms))
    ensures OneLive(Apply(s, Post(id, ms)))
  {
  }

  lemma PostEntries(s: State, id: Id, ms: nat, lo: nat)
    requires s.clock < TWO63 && Enabled(s, Post(id, ms))
    ensures Entries(Apply(s, Post(id, ms)), id, lo) == if s.clock + ms < lo then 1 else 0
  {
    var e := Entry(Wrap(s.clock + ms), id);
    WrapSmall(s.clock + ms);
    CountAbsent(s.tasks, id, lo);
    CountAbsent(s.posted, id, lo);
    CountAbsent(s.copy, id, lo);
    CountAppend(s.posted, [e], id, lo);
    CountOne(e, id, lo);
  }

  lemma PostKeepsInv(s: State, id: Id, ms: nat, from: nat, p: nat)
    requires Inv(s, from, p) && s.clock < TWO63 && Enabled(s, Post(id, ms)) && !Crowds(s, Post(id, ms)) && p <= ms
    ensures Inv(Apply(s, Post(id, ms)), from, p)
  {
    PostKeepsOneLive(s, id, ms);
    PostEntries(s, id, ms, TWO64);
    PostEntries(s, id, ms, s.clock + ms);
  }

  predicate Quiet(ev: Event) {
    ev.Tick? || ev.Cancel? || ev.Stop? || ev.Test? || ev.Assign?
  }

  lemma QuietKeepsAhead(s: State, ev: Event, p: nat)
    requires OneLive(s) && Ahead(s, p) && s.clock < TWO63 && Enabled(s, ev) && Quiet(ev)
    ensures Ahead(Apply(s, ev), p)
  {
    var s' := Apply(s, ev);
    assert s'.own == s.own && s'.calling == s.calling && s'.base == s.base && s'.now == s.now;
    if s'.live.Some? {
      var id, lo := s.live.value, s.base + s.own[s.live.value];
      assert Entries(s', id, TWO64) == Entries(s, id, TWO64) && Entries(s', id, lo) == Entries(s, id, lo);
    }
  }

  lemma QuietKeepsInv(s: State, ev: Event, from: nat, p: nat)
    requires Inv(s, from, p) && s.clock < TWO63 && Enabled(s, ev) && Quiet(ev)
    ensures Inv(Apply(s, ev), from, p)
  {
    StepKeepsOneLive(s, ev);
    QuietKeepsAhead(s, ev, p);
  }

  lemma StepKeepsInv(s: State, ev: Event, from: nat, p: nat)
    requires Inv(s, from, p) && s.clock < TWO63 && Enabled(s, ev) && !Crowds(s, ev)
    requires ev.Post? ==> p <= ev.ms
    ensures Inv(Apply(s, ev), from, p)
  {
    if Quiet(ev) {
      QuietKeepsInv(s, ev, from, p);
    } else if ev.Post? {
      PostKeepsInv(s, ev.id, ev.ms, from, p);
    } else if ev.Next? {
      NextKeepsInv(s, from, p);
    } else if ev.Return? {
      ReturnKeepsInv(s, ev.delay, from, p);
    } else {
      MoveKeepsInv(s, ev, from, p);
    }
  }

  /** No period is below `p`. */
  predicate Starts(events: seq<Event>, p: nat) {
    forall i | 0 <= i < |events| :: events[i].Post? ==> p <= events[i].ms
  }

  ghost predicate EverCrowds(s: State, events: seq<Event>)
    requires Legal(s, events)
    decreases |events|
  {
    events != [] && (Crowds(s, events[0]) || EverCrowds(Apply(s, events[0]), events[1..]))
  }

  lemma {:induction false} InvAlways(s: State, events: seq<Event>, from: nat, p: nat)
    requires Inv(s, from, p) && Legal(s, events) && !EverCrowds(s, events)
    requires Starts(events, p)
    ensures Inv(Run(s, events), from, p)
    decreases |events|
  {
    if events != [] {
      StepKeepsInv(s, events[0], from, p);
      InvAlways(Apply(s, events[0]), events[1..], from, p);
    }
  }

  lemma StepKeepsOneLive(s: State, ev: Event)
    requires OneLive(s) && s.clock < TWO63 && Enabled(s, ev) && !Crowds(s, ev)
    ensures OneLive(Apply(s, ev))
  {
    match ev
    case Arrive(i) => assert forall e | e in Apply(s, ev).posted :: e in s.posted;
    case Post(id, ms) => PostKeepsOneLive(s, id, ms);
    case _ =>
  }

  ghost predicate AtMostOne(s: State) {
    forall a, b | a in s.own && b in s.own && a !in s.cancelled && b !in s.cancelled :: a == b
  }

  ghost predicate AtMostOneThroughout(s: State, events: seq<Event>)
    requires Legal(s, events)
    decreases |events|
  {
    AtMostOne(s) && (events == [] || AtMostOneThroughout(Apply(s, events[0]), events[1..]))
  }

  lemma CrowdingMakesTwo(s: State, ev: Event)
    requires OneLive(s) && s.clock < TWO63 && Enabled(s, ev) && Crowds(s, ev)
    ensures !AtMostOne(Apply(s, ev))
  {
    var s' := Apply(s, ev);
    var there := s.live.value;
    assert there in s'.own && there !in s'.cancelled && ev.id in s'.own && ev.id !in s'.cancelled && there != ev.id;
  }

  /** For any periods at all, over every run of any threads: at most one delay task of the Timer is ever live, if
      and only if no start posts one while another is there or about to be stored. */
  lemma {:induction false} OneLiveIff(s: State, events: seq<Event>)
    requires OneLive(s) && Legal(s, events)
    ensures AtMostOneThroughout(s, events) <==> !EverCrowds(s, events)
    decreases |events|
  {
    if events != [] {
      if Crowds(s, events[0]) {
        CrowdingMakesTwo(s, events[0]);
      } else {
        StepKeepsOneLive(s, events[0]);
        OneLiveIff(Apply(s, events[0]), events[1..]);
      }
    }
  }

  lemma MulStep(n: nat, p: nat)
    ensures (n + 1) * p == n * p + p
  {
  }

  lemma SpacedInit(times: seq<nat>, from: nat, p: nat)
    requires Spaced(times, from, p) && times != []
    ensures var last := |times| - 1;
      Spaced(times[..last], from, p) && times[last] >= Before(times[..last], last, from) + p
  {
    var last := |times| - 1;
    assert forall i | 0 <= i <= last :: Before(times[..last], i, from) == Before(times, i, from);
    assert times[last] >= Before(times, last, from) + p;
  }

  lemma {:induction false} SpacedBound(times: seq<nat>, from: nat, p: nat)
    requires Spaced(times, from, p)
    ensures from + |times| * p <= Before(times, |times|, from)
  {
    if times != [] {
      var last := |times| - 1;
      SpacedInit(times, from, p);
      SpacedBound(times[..last], from, p);
      MulStep(last, p);
    }
  }

  /** Over any run in which starts do not crowd each other, whatever else the poller and its callbacks do,
      however late it is, and however often the Timer is stopped and restarted (with periods of at least
      `p`), also by its own callback: the times at which passes that fired it were sampled are at least `p`
      apart, a call comes no earlier than that, so t0 + n * p <= t for the n calls up to time t; and never
      more than one of the delay tasks the Timer created is live. */
  lemma TimerSpacing(t0: U64, events: seq<Event>, p: nat)
    requires Legal(Init(t0), events) && !EverCrowds(Init(t0), events)
    requires Starts(events, p)
    ensures var s := Run(Init(t0), events);
      && Spaced(s.sampled, t0, p)
      && t0 + |s.called| * p <= s.clock
      && AtMostOne(s)
  {
    InvAlways(Init(t0), events, t0, p);
    SpacedBound(Run(Init(t0), events).sampled, t0, p);
  }

  /** A negative period puts the entry that far back each time, so it is due again at once, and
      `scheduleDelayTask` has left a deadline that is not ahead. */
  lemma NegativePeriodGoesBack(now: U64, ms: int, id: Id)
    requires -MAX_INT - 1 <= ms < 0 && -ms <= now
    ensures Rearm(now, id, Wrap(ms)) == [Entry(now + ms, id)] && !AheadOf(now, Reply(Wrap(ms), [], {}))
  {
    assert Wrap(ms) == ms + TWO64;
    assert Wrap(now + Wrap(ms)) == now + ms;
  }

  /** How long after its sample call `i` was made. */
  function Lag(s: State, i: nat): int
    requires i < |s.sampled| && |s.called| == |s.sampled|
  {
    var call: int := s.called[i];
    call - s.sampled[i]
  }

  /** The calls themselves are a period apart, less the time by which the earlier one was late in its
      pass. */
  lemma CallSpacing(t0: U64, events: seq<Event>, p: nat, i: nat)
    requires Legal(Init(t0), events) && !EverCrowds(Init(t0), events)
    requires Starts(events, p)
    ensures var s := Run(Init(t0), events);
      && |s.called| == |s.sampled|
      && (i + 1 < |s.called| ==> s.called[i + 1] - s.called[i] >= p - Lag(s, i) && Lag(s, i) >= 0)
  {
    InvAlways(Init(t0), events, t0, p);
    var s := Run(Init(t0), events);
    if i + 1 < |s.called| {
      assert s.sampled[i + 1] >= Before(s.sampled, i + 1, t0) + p;
    }
  }

  /** And no better bound holds: for every period, and every time that passes between the sample and the
      call, the next call can come that much too early. */
  lemma LateCallShortensTheGap(ms: nat, lag: nat) returns (events: seq<Event>)
    requires 0 < ms <= MAX_INT && lag <= ms
    ensures Legal(Init(0), events) && Starts(events, ms) && !EverCrowds(Init(0), events)
    ensures var s := Run(Init(0), events); s.called == [ms + lag, 2 * ms] && s.sampled == [ms, 2 * ms]
  {
    events := BackAgain(ms, lag);
    events := Then(Init(0), events, Tick(2 * ms), ms);
    events := Then(Init(0), events, Begin, ms);
    events := Then(Init(0), events, Next, ms);
  }

  lemma BackAgain(ms: nat, lag: nat) returns (events: seq<Event>)
    requires 0 < ms <= MAX_INT && lag <= ms
    ensures Legal(Init(0), events) && Starts(events, ms) && !EverCrowds(Init(0), events)
    ensures Run(Init(0), events) == State(ms + lag, [Entry(2 * ms, 1)], [], false, [], ms, None, {}, map[1 := ms],
                                          0, {}, Some(1), Some(1), ms, [ms], [ms + lag])
  {
    WrapSmall(ms);
    WrapSmall(2 * ms);
    events := CalledLate(ms, lag);
    events := Then(Init(0), events, Return(ms), ms);
    EmplaceOne(Entry(2 * ms, 1));
    assert Run(Init(0), events).tasks == [Entry(2 * ms, 1)];
    events := Then(Init(0), events, End, ms);
  }

  lemma EmplaceOne(e: Entry)
    ensures Emplace([], e) == [e] && EmplaceAll([], [e]) == [e]
  {
    assert [e][1..] == [];
  }

  lemma PostedAtZero(ms: nat) returns (events: seq<Event>)
    requires 0 < ms <= MAX_INT
    ensures Legal(Init(0), events) && Starts(events, ms) && !EverCrowds(Init(0), events)
    ensures |events| == 2
    ensures Run(Init(0), events) == Init(0).(posted := [Entry(ms, 1)], own := map[1 := ms],
                                             assigning := {1}, live := Some(1))
  {
    WrapSmall(ms);
    events := Then(Init(0), [], Test, ms);
    assert Run(Init(0), events) == Init(0).(asking := 1);
    events := Then(Init(0), events, Post(1, ms), ms);
    assert Run(Init(0), events).posted == [Entry(ms, 1)];
  }

  lemma StartedAtZero(ms: nat) returns (events: seq<Event>)
    requires 0 < ms <= MAX_INT
    ensures Legal(Init(0), events) && Starts(events, ms) && !EverCrowds(Init(0), events)
    ensures Run(Init(0), events) == State(0, [Entry(ms, 1)], [], false, [], 0, None, {}, map[1 := ms],
                                          0, {}, Some(1), Some(1), 0, [], [])
  {
    events := PostedAtZero(ms);
    events := Then(Init(0), events, Assign(1), ms);
    assert Run(Init(0), events).assigning == {};
    EmplaceOne(Entry(ms, 1));
    events := Then(Init(0), events, Arrive(0), ms);
    assert Run(Init(0), events).posted == [];
  }

  lemma CalledLate(ms: nat, lag: nat) returns (events: seq<Event>)
    requires 0 < ms <= MAX_INT && lag <= ms
    ensures Legal(Init(0), events) && Starts(events, ms) && !EverCrowds(Init(0), events)
    ensures Run(Init(0), events) == State(ms + lag, [], [], true, [], ms, Some(1), {}, map[1 := ms],
                                          0, {}, Some(1), Some(1), ms, [ms], [ms + lag])
  {
    events := StartedAtZero(ms);
    events := Then(Init(0), events, Tick(ms), ms);
    events := Then(Init(0), events, Begin, ms);
    events := Then(Init(0), events, Tick(ms + lag), ms);
    events := Then(Init(0), events, Next, ms);
  }

  /** One more event at the end of a run. */
  lemma {:induction false} Then(s: State, events: seq<Event>, ev: Event, p: nat) returns (longer: seq<Event>)
    requires Legal(s, events) && Enabled(Run(s, events), ev) && (ev.Tick? ==> ev.now < TWO63)
    requires Run(s, events).clock < TWO63
    requires Starts(events, p) && (ev.Post? ==> p <= ev.ms)
    ensures longer == events + [ev] && Starts(longer, p)
    ensures Legal(s, longer) && Run(s, longer) == Apply(Run(s, events), ev)
    ensures !EverCrowds(s, events) && !Crowds(Run(s, events), ev) ==> !EverCrowds(s, longer)
    decreases |events|
  {
    longer := events + [ev];
    if events == [] {
      assert longer[1..] == [];
    } else {
      var tail := Then(Apply(s, events[0]), events[1..], ev, p);
      assert longer[1..] == tail;
    }
  }

  /** Two calls of start that both find `delay_task_` null: the Timer fires twice at the same time, and only one
      of its delay tasks can ever be stopped. */
  lemma CrowdedStartsFireTwice(ms: nat) returns (events: seq<Event>)
    requires 0 < ms <= MAX_INT
    ensures Legal(Init(0), events) && Starts(events, ms)
    ensures var s := Run(Init(0), events); s.called == [ms, ms] && s.current == Some(2) && 1 !in s.cancelled
  {
    events := TwoStarted(ms);
    events := Then(Init(0), events, Tick(ms), ms);
    events := Then(Init(0), events, Begin, ms);
    events := Then(Init(0), events, Next, ms);
    events := Then(Init(0), events, Return(0), ms);
    events := Then(Init(0), events, Next, ms);
  }

  lemma TwoAsking() returns (events: seq<Event>)
    ensures Legal(Init(0), events) && Run(Init(0), events) == Init(0).(asking := 2)
    ensures forall p: nat :: Starts(events, p)
  {
    events := Then(Init(0), [], Test, 0);
    events := Then(Init(0), events, Test, 0);
    assert forall i | 0 <= i < |events| :: events[i] == Test;
  }

  lemma TwoPosted(ms: nat) returns (events: seq<Event>)
    requires 0 < ms <= MAX_INT
    ensures Legal(Init(0), events) && Starts(events, ms)
    ensures Run(Init(0), events) == Init(0).(posted := [Entry(ms, 1), Entry(ms, 2)], own := map[1 := ms, 2 := ms],
                                             assigning := {1, 2}, live := Some(2))
  {
    WrapSmall(ms);
    events := TwoAsking();
    events := Then(Init(0), events, Post(1, ms), ms);
    assert Run(Init(0), events).posted == [Entry(ms, 1)] && Run(Init(0), events).own == map[1 := ms];
    events := Then(Init(0), events, Post(2, ms), ms);
    assert Run(Init(0), events).posted == [Entry(ms, 1), Entry(ms, 2)];
  }

  lemma TwoAssigned(ms: nat) returns (events: seq<Event>)
    requires 0 < ms <= MAX_INT
    ensures Legal(Init(0), events) && Starts(events, ms)
    ensures Run(Init(0), events) == Init(0).(posted := [Entry(ms, 1), Entry(ms, 2)], own := map[1 := ms, 2 := ms],
                                             current := Some(2), live := Some(2))
  {
    events := TwoPosted(ms);
    events := Then(Init(0), events, Assign(1), ms);
    assert Run(Init(0), events).assigning == {2};
    events := Then(Init(0), events, Assign(2), ms);
    assert Run(Init(0), events).assigning == {};
  }

  lemma EmplaceBehind(a: Entry, b: Entry)
    requires a.deadline <= b.deadline
    ensures Emplace([a], b) == [a, b]
  {
    assert [a][1..] == [];
    assert Emplace([], b) == [b];
  }

  lemma TwoStarted(ms: nat) returns (events: seq<Event>)
    requires 0 < ms <= MAX_INT
    ensures Legal(Init(0), events) && Starts(events, ms)
    ensures Run(Init(0), events) == Init(0).(tasks := [Entry(ms, 1), Entry(ms, 2)], own := map[1 := ms, 2 := ms],
                                             current := Some(2), live := Some(2))
  {
    events := TwoAssigned(ms);
    EmplaceOne(Entry(ms, 1));
    EmplaceBehind(Entry(ms, 1), Entry(ms, 2));
    events := Then(Init(0), events, Arrive(0), ms);
    assert Run(Init(0), events).posted == [Entry(ms, 2)];
    events := Then(Init(0), events, Arrive(0), ms);
    assert Run(Init(0), events).posted == [];
  }

  /** Stopping cancels everything the Timer has created if and only if no start is between its posting and its
      assignment: there `delay_task_` is still null, and nothing is cancelled. */
  lemma StopCancelsAllIff(s: State)
    requires OneLive(s) && s.clock < TWO63
    ensures (forall id | id in s.own :: id in Apply(s, Stop).cancelled) <==> s.assigning == {}
  {
    if s.assigning != {} {
      assert s.live.value in s.own && s.live.value !in Apply(s, Stop).cancelled;
    }
  }

  lemma StoppedAtOnce(ms: nat) returns (events: seq<Event>)
    requires 0 < ms <= MAX_INT
    ensures Legal(Init(0), events) && Starts(events, ms) && !EverCrowds(Init(0), events)
    ensures |events| == 5 && events[2] == Stop && !events[3].Post? && !events[4].Post?
    ensures Run(Init(0), events) == Init(0).(tasks := [Entry(ms, 1)], own := map[1 := ms],
                                             current := Some(1), live := Some(1))
  {
    events := PostedAtZero(ms);
    events := Then(Init(0), events, Stop, ms);
    events := Then(Init(0), events, Assign(1), ms);
    assert Run(Init(0), events).assigning == {};
    EmplaceOne(Entry(ms, 1));
    events := Then(Init(0), events, Arrive(0), ms);
    assert Run(Init(0), events).posted == [];
  }

  /** And it matters: stopped in that gap, by a callback, say, the Timer fires all the same. */
  lemma StoppedInTheGapFires(ms: nat) returns (events: seq<Event>)
    requires 0 < ms <= MAX_INT
    ensures Legal(Init(0), events) && Starts(events, ms) && !EverCrowds(Init(0), events)
    ensures |events| == 8 && events[2] == Stop && (forall i | 3 <= i < 8 :: !events[i].Post?)
    ensures Run(Init(0), events).called == [ms]
  {
    events := StoppedAtOnce(ms);
    events := Then(Init(0), events, Tick(ms), ms);
    events := Then(Init(0), events, Begin, ms);
    events := Then(Init(0), events, Next, ms);
  }

  /** Once everything is cancelled, none of the delay tasks fires any more, not even one that a pass has already
      in hand, until a start posts the next. */
  lemma {:induction false} StoppedNeverFires(s: State, events: seq<Event>)
    requires (forall id | id in s.own :: id in s.cancelled) && Legal(s, events)
    requires forall i | 0 <= i < |events| :: !events[i].Post?
    ensures Run(s, events).called == s.called
    decreases |events|
  {
    if events != [] {
      StoppedNeverFires(Apply(s, events[0]), events[1..]);
    }
  }

  // ---- passes that nothing disturbs --------------------------------------------------------------

  /** One run after another. */
  lemma {:induction false} InSequence(s: State, first: seq<Event>, second: seq<Event>)
    requires Legal(s, first) && Legal(Run(s, first), second)
    ensures Legal(s, first + second) && Run(s, first + second) == Run(Run(s, first), second)
    decreases |first|
  {
    if first == [] {
      assert first + second == second;
    } else {
      assert (first + second)[1..] == first[1..] + second;
      InSequence(Apply(s, first[0]), first[1..], second);
    }
  }

  lemma OneEvent(s: State, ev: Event)
    requires s.clock < TWO63 && Enabled(s, ev) && !ev.Tick?
    ensures Legal(s, [ev]) && Run(s, [ev]) == Apply(s, ev)
  {
    var rest := [ev][1..];
    assert rest == [] && Run(Apply(s, ev), rest) == Apply(s, ev);
  }

  /** No Timer is about. */
  predicate Plain(s: State) {
    s.own == map[] && s.clock < TWO63
  }

  lemma {:induction false} AddAll(s: State, es: seq<Entry>) returns (events: seq<Event>)
    requires Plain(s)
    ensures Legal(s, events) && Run(s, events) == s.(tasks := EmplaceAll(s.tasks, es))
    decreases |es|
  {
    if es == [] {
      events := [];
    } else {
      var rest := AddAll(Apply(s, Add(es[0])), es[1..]);
      events := [Add(es[0])] + rest;
      assert events[1..] == rest;
    }
  }

  lemma {:induction false} CancelAll(s: State, ids: set<Id>) returns (events: seq<Event>)
    requires Plain(s)
    ensures Legal(s, events) && Run(s, events) == s.(cancelled := s.cancelled + ids)
    decreases |ids|
  {
    if ids == {} {
      events := [];
      assert s.cancelled + ids == s.cancelled;
    } else {
      var id :| id in ids;
      var rest := CancelAll(Apply(s, Cancel(id)), ids - {id});
      events := [Cancel(id)] + rest;
      assert events[1..] == rest;
      assert s.cancelled + {id} + (ids - {id}) == s.cancelled + ids;
    }
  }

  /** A live due entry: its callback adds and cancels what it wants, and returns. */
  lemma CallOne(s: State, reply: Reply) returns (events: seq<Event>)
    requires Plain(s) && Enabled(s, Next) && s.copy[0].id !in s.cancelled
    ensures Legal(s, events)
    ensures Run(s, events) == s.(copy := s.copy[1..], cancelled := s.cancelled + reply.cancels,
                                 tasks := EmplaceAll(s.tasks, reply.adds + Rearm(s.now, s.copy[0].id, reply.delay)))
  {
    var s1 := Apply(s, Next);
    var adds := AddAll(s1, reply.adds);
    var s2 := Run(s1, adds);
    var cancels := CancelAll(s2, reply.cancels);
    var s3 := Run(s2, cancels);
    var back := [Event.Return(reply.delay)];
    OneEvent(s3, Event.Return(reply.delay));
    InSequence(s2, cancels, back);
    InSequence(s1, adds, cancels + back);
    events := [Next] + (adds + (cancels + back));
    assert events[1..] == adds + (cancels + back);
    EmplaceAllAppend(s.tasks, reply.adds, Rearm(s.now, s.copy[0].id, reply.delay));
  }

  /** The loop over what is due, with callbacks that answer at once. */
  lemma {:induction false} WorkThrough(s: State, cb: Callbacks) returns (events: seq<Event>)
    requires Plain(s) && s.passing && s.calling.None?
    ensures Legal(s, events)
    ensures var pass := PassOver(Due(s.copy, s.now), s.now, s.cancelled, cb);
      Run(s, events) == s.(copy := NotDue(s.copy, s.now), cancelled := pass.cancelled,
                           tasks := EmplaceAll(s.tasks, pass.arrived))
    decreases |s.copy|
  {
    if s.copy == [] || s.copy[0].deadline > s.now {
      events := [];
    } else {
      var id := s.copy[0].id;
      assert Due(s.copy, s.now)[1..] == Due(s.copy[1..], s.now);
      var first: seq<Event>;
      if id in s.cancelled {
        first := [Next];
        OneEvent(s, Next);
      } else {
        first := CallOne(s, cb(id));
        var own := cb(id).adds + Rearm(s.now, id, cb(id).delay);
        EmplaceAllAppend(s.tasks, own, PassOver(Due(s.copy[1..], s.now), s.now, s.cancelled + cb(id).cancels, cb).arrived);
      }
      var rest := WorkThrough(Run(s, first), cb);
      InSequence(s, first, rest);
      events := first + rest;
    }
  }

  /** With no Timer about and callbacks that take no time, a pass cut open at its callbacks has a run that
      does exactly what the specification of `scheduleDelayTask` says. */
  lemma UndisturbedPassIsSchedule(s: State, cb: Callbacks) returns (events: seq<Event>)
    requires Plain(s) && Placed(s) && !s.passing
    ensures Legal(s, events)
    ensures Run(s, events) == s.(now := s.clock, tasks := After(s.tasks, s.clock, s.cancelled, cb),
              cancelled := PassOver(Due(s.tasks, s.clock), s.clock, s.cancelled, cb).cancelled)
  {
    var s1 := Apply(s, Begin);
    var body := WorkThrough(s1, cb);
    var s2, end := Run(s1, body), [End];
    EndsAtFirstNotDue(s.tasks, s.clock);
    OneEvent(s2, End);
    InSequence(s1, body, end);
    events := [Begin] + (body + end);
    assert events[1..] == body + end;
    EmplaceAllAppend([], PassOver(Due(s.tasks, s.clock), s.clock, s.cancelled, cb).arrived, NotDue(s.tasks, s.clock));
  }

  lemma {:induction false} EndsAtFirstNotDue(q: seq<Entry>, now: U64)
    ensures NotDue(q, now) == [] || NotDue(q, now)[0].deadline > now
  {
    if q != [] {
      EndsAtFirstNotDue(q[1..], now);
    }
  }

  // ---- the timer's own code ----------------------------------------------------------------------

  /** The object between two calls that nothing interrupts; `state` is what the poller and the timer look like
      together. */
  class Timer {
    var delayTask: Option<Id>
    ghost var state: State

    ghost predicate Valid()
      reads this
    {
      delayTask == state.current && OneLive(state) && state.assigning == {} && state.clock < TWO63
    }

    constructor (ghost now: U64)
      requires now < TWO63
      ensures Valid() && state == Init(now)
    {
      delayTask := None;
      state := Init(now);
    }

    /** `start`: nothing happens if a delay task is there already; else `task` is the one that the poller
        makes for it. */
    method Start(ms: int, task: Id)
      requires Valid() && Fresh(state, task) && -MAX_INT - 1 <= ms <= MAX_INT
      modifies this
      ensures Valid() && delayTask == if old(delayTask).Some? then old(delayTask) else Some(task)
      ensures var tested := Apply(old(state), Test);
        if old(delayTask).Some? then state == tested
        else Enabled(tested, Post(task, ms)) && state == Apply(Apply(tested, Post(task, ms)), Assign(task))
    {
      StepKeepsOneLive(state, Test);
      if delayTask.Some? {
        return;
      }
      state := Apply(state, Test);
      PostKeepsOneLive(state, task, ms);
      state := Apply(state, Post(task, ms));
      StepKeepsOneLive(state, Assign(task));
      state := Apply(state, Assign(task));
      delayTask := Some(task);
    }

    /** `stop`: afterwards every delay task this timer ever had is cancelled. */
    method Stop() returns (cancelled: Option<Id>)
      requires Valid()
      modifies this
      ensures Valid() && state == Apply(old(state), Event.Stop)
      ensures cancelled == old(delayTask) && delayTask == None && state.own.Keys <= state.cancelled
    {
      StepKeepsOneLive(state, Event.Stop);
      StopCancelsAllIff(state);
      cancelled := delayTask;
      delayTask := None;
      state := Apply(state, Event.Stop);
    }
  }
}
