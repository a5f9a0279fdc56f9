/** The delay tasks of `avctool/poller/EventPoller.cc`: a multimap ordered by deadline, worked
    through by `scheduleDelayTask` with callbacks that may insert and cancel delay tasks. */
module DelayTasks {

  const TWO31: nat := 0x8000_0000
  const TWO32: nat := 0x1_0000_0000
  const TWO63: nat := 0x8000_0000_0000_0000
  const TWO64: nat := 0x1_0000_0000_0000_0000

  /** uint64_t */
  type U64 = x: nat | x < TWO64

  type Id = nat

  datatype Entry = Entry(deadline: U64, id: Id)

  /** What one call of a callback does: the delay it returns (0 ends the task), the delay tasks it
      adds re-entrantly, and the delay tasks it cancels. */
  datatype Reply = Reply(delay: U64, adds: seq<Entry>, cancels: set<Id>)

  type Callbacks = Id -> Reply

  function Wrap(x: int): U64 {
    x % TWO64
  }

  lemma WrapSmall(x: nat)
    requires x < TWO64
    ensures Wrap(x) == x
  {
  }

  /** uint64_t to int64_t */
  function Signed(x: U64): int {
    if x < TWO63 then x else x - TWO64
  }

  // ---- the multimap ----------------------------------------------------------------------------

  ghost predicate Ordered(q: seq<Entry>) {
    forall i, j | 0 <= i < j < |q| :: q[i].deadline <= q[j].deadline
  }

  /** `emplace`: behind every entry with the same deadline. */
  function Emplace(q: seq<Entry>, e: Entry): (r: seq<Entry>) {
    if q == [] || e.deadline < q[0].deadline then [e] + q else [q[0]] + Emplace(q[1..], e)
  }

  function EmplaceAll(q: seq<Entry>, es: seq<Entry>): seq<Entry>
    decreases |es|
  {
    if es == [] then q else EmplaceAll(Emplace(q, es[0]), es[1..])
  }

  lemma {:induction false} EmplaceBag(q: seq<Entry>, e: Entry)
    ensures multiset(Emplace(q, e)) == multiset(q) + multiset{e}
  {
    if q != [] && q[0].deadline <= e.deadline {
      EmplaceBag(q[1..], e);
      assert q == [q[0]] + q[1..];
    }
  }

  lemma {:induction false} EmplaceOrdered(q: seq<Entry>, e: Entry)
    requires Ordered(q)
    ensures Ordered(Emplace(q, e))
    ensures Emplace(q, e)[0].deadline == if q == [] || e.deadline < q[0].deadline then e.deadline else q[0].deadline
  {
    if q != [] && q[0].deadline <= e.deadline {
      var tail := Emplace(q[1..], e);
      EmplaceOrdered(q[1..], e);
      assert q[0].deadline <= tail[0].deadline;
      assert forall i | 0 <= i < |tail| :: tail[0].deadline <= tail[i].deadline;
    }
  }

  lemma EmplaceKeeps(q: seq<Entry>, e: Entry)
    requires Ordered(q)
    ensures Ordered(Emplace(q, e))
    ensures multiset(Emplace(q, e)) == multiset(q) + multiset{e}
  {
    EmplaceBag(q, e);
    EmplaceOrdered(q, e);
  }

  lemma {:induction false} EmplaceAllKeeps(q: seq<Entry>, es: seq<Entry>)
    requires Ordered(q)
    ensures Ordered(EmplaceAll(q, es))
    ensures multiset(EmplaceAll(q, es)) == multiset(q) + multiset(es)
    decreases |es|
  {
    if es != [] {
      EmplaceKeeps(q, es[0]);
      EmplaceAllKeeps(Emplace(q, es[0]), es[1..]);
      assert es == [es[0]] + es[1..];
    }
  }

  lemma {:induction false} EmplaceAllAppend(q: seq<Entry>, a: seq<Entry>, b: seq<Entry>)
    ensures EmplaceAll(q, a + b) == EmplaceAll(EmplaceAll(q, a), b)
    decreases |a|
  {
    if a == [] {
      assert a + b == b;
    } else {
      assert (a + b)[1..] == a[1..] + b;
      EmplaceAllAppend(Emplace(q, a[0]), a[1..], b);
    }
  }

  // ---- one pass --------------------------------------------------------------------------------

  function Due(q: seq<Entry>, now: U64): seq<Entry> {
    if q == [] || q[0].deadline > now then [] else [q[0]] + Due(q[1..], now)
  }

  function NotDue(q: seq<Entry>, now: U64): seq<Entry> {
    if q == [] || q[0].deadline > now then q else NotDue(q[1..], now)
  }

  function Rearm(now: U64, id: Id, delay: U64): seq<Entry> {
    if delay > 0 then [Entry(Wrap(now + delay), id)] else []
  }

  /** What a pass over the due entries did: who ran, what was put into the map in which order, and
      who is cancelled now. */
  datatype Pass = Pass(ran: seq<Id>, arrived: seq<Entry>, cancelled: set<Id>)

  /** The due entries in order; each is looked at when its turn comes, so a callback can still
      cancel a later one. */
  function PassOver(due: seq<Entry>, now: U64, cancelled: set<Id>, cb: Callbacks): Pass {
    if due == [] then Pass([], [], cancelled)
    else
      var id := due[0].id;
      if id in cancelled then PassOver(due[1..], now, cancelled, cb)
      else
        var rest := PassOver(due[1..], now, cancelled + cb(id).cancels, cb);
        Pass([id] + rest.ran, cb(id).adds + Rearm(now, id, cb(id).delay) + rest.arrived, rest.cancelled)
  }

  /** The map after a call of `scheduleDelayTask` at time `now`. */
  function After(q: seq<Entry>, now: U64, cancelled: set<Id>, cb: Callbacks): seq<Entry> {
    EmplaceAll([], PassOver(Due(q, now), now, cancelled, cb).arrived + NotDue(q, now))
  }

  /** The value `scheduleDelayTask` returns for the map it leaves. */
  function Next(q: seq<Entry>, now: U64): int {
    if q == [] then 0 else Signed(Wrap(q[0].deadline - now))
  }

  /** int64_t to the int that `epoll_wait` takes. */
  function ToInt(x: int): int {
    var low := x % TWO32;
    if low < TWO31 then low else low - TWO32
  }

  /** What the loop hands to `epoll_wait`, where a negative timeout blocks without end. */
  function Timeout(next: int): int {
    ToInt(if next > 0 then next else -1)
  }

  /** The waits, in ms from the sampled time to a deadline, on which `epoll_wait` blocks without end. */
  predicate Endless(wait: int) {
    wait <= 0 || wait >= TWO63 || wait % TWO32 >= TWO31
  }

  /** The same for the select build, which takes the wait apart into seconds and microseconds. */
  predicate EndlessSelect(wait: int) {
    wait <= 0 || wait >= TWO63
  }

  ghost predicate AllDue(q: seq<Entry>, now: U64) {
    forall i | 0 <= i < |q| :: q[i].deadline <= now
  }

  ghost predicate NoneDue(q: seq<Entry>, now: U64) {
    forall i | 0 <= i < |q| :: q[i].deadline > now
  }

  lemma {:induction false} DueThenRest(q: seq<Entry>, now: U64)
    ensures q == Due(q, now) + NotDue(q, now)
  {
    if q != [] && q[0].deadline <= now {
      DueThenRest(q[1..], now);
      assert q == [q[0]] + (Due(q[1..], now) + NotDue(q[1..], now));
    }
  }

  lemma {:induction false} DueIsDue(q: seq<Entry>, now: U64)
    ensures AllDue(Due(q, now), now)
  {
    if q != [] {
      DueIsDue(q[1..], now);
    }
  }

  lemma {:induction false} RestIsNotDue(q: seq<Entry>, now: U64)
    requires Ordered(q)
    ensures NoneDue(NotDue(q, now), now)
  {
    if q == [] {
    } else if q[0].deadline > now {
      assert forall i | 0 <= i < |q| :: q[0].deadline <= q[i].deadline;
    } else {
      RestIsNotDue(q[1..], now);
    }
  }

  lemma DueSplits(q: seq<Entry>, now: U64)
    requires Ordered(q)
    ensures q == Due(q, now) + NotDue(q, now)
    ensures AllDue(Due(q, now), now) && NoneDue(NotDue(q, now), now)
  {
    DueThenRest(q, now);
    DueIsDue(q, now);
    RestIsNotDue(q, now);
  }

  // ---- what a pass means -------------------------------------------------------------------------

  /** The cancelled set when the turn of due entry `i` comes. */
  function CancelledAt(due: seq<Entry>, i: nat, cancelled: set<Id>, cb: Callbacks): set<Id>
    requires i <= |due|
  {
    if i == 0 then cancelled
    else
      var before := CancelledAt(due, i - 1, cancelled, cb);
      if due[i - 1].id in before then before else before + cb(due[i - 1].id).cancels
  }

  /** The ids at the positions whose task is live at its turn, in order. */
  function LiveIds(due: seq<Entry>, i: nat, cancelled: set<Id>, cb: Callbacks): seq<Id>
    requires i <= |due|
    decreases |due| - i
  {
    if i == |due| then []
    else (if due[i].id in CancelledAt(due, i, cancelled, cb) then [] else [due[i].id]) + LiveIds(due, i + 1, cancelled, cb)
  }

  function Rearmed(ran: seq<Id>, now: U64, cb: Callbacks): seq<Entry> {
    if ran == [] then [] else Rearm(now, ran[0], cb(ran[0]).delay) + Rearmed(ran[1..], now, cb)
  }

  function Added(ran: seq<Id>, cb: Callbacks): seq<Entry> {
    if ran == [] then [] else cb(ran[0]).adds + Added(ran[1..], cb)
  }

  /** A pass runs exactly the due tasks that are live at their turn, once each, in deadline order. */
  lemma {:induction false} PassRunsTheLive(due: seq<Entry>, i: nat, now: U64, cancelled: set<Id>, cb: Callbacks)
    requires i <= |due|
    ensures PassOver(due[i..], now, CancelledAt(due, i, cancelled, cb), cb).ran == LiveIds(due, i, cancelled, cb)
    decreases |due| - i
  {
    if i < |due| {
      assert due[i..][1..] == due[i + 1..];
      PassRunsTheLive(due, i + 1, now, cancelled, cb);
    }
  }

  /** What a pass puts into the map is what the tasks that ran asked for: their own next deadline
      and the delay tasks they added. */
  lemma {:induction false} PassArrivals(due: seq<Entry>, now: U64, cancelled: set<Id>, cb: Callbacks)
    ensures var p := PassOver(due, now, cancelled, cb);
      multiset(p.arrived) == multiset(Rearmed(p.ran, now, cb)) + multiset(Added(p.ran, cb))
    decreases |due|
  {
    if due != [] {
      var id := due[0].id;
      if id in cancelled {
        PassArrivals(due[1..], now, cancelled, cb);
      } else {
        var rest := PassOver(due[1..], now, cancelled + cb(id).cancels, cb);
        PassArrivals(due[1..], now, cancelled + cb(id).cancels, cb);
        var ran := [id] + rest.ran;
        assert ran[1..] == rest.ran;
        assert Rearmed(ran, now, cb) == Rearm(now, id, cb(id).delay) + Rearmed(rest.ran, now, cb);
        assert Added(ran, cb) == cb(id).adds + Added(rest.ran, cb);
      }
    }
  }

  /** The full specification of one call: the map stays ordered, it holds exactly the entries that
      were not due, the next deadlines of the tasks that ran and wanted one, and the entries that
      callbacks added; and exactly the tasks due and live at their turn ran. */
  lemma ScheduleSpec(q: seq<Entry>, now: U64, cancelled: set<Id>, cb: Callbacks)
    requires Ordered(q)
    ensures var p := PassOver(Due(q, now), now, cancelled, cb);
      && Ordered(After(q, now, cancelled, cb))
      && p.ran == LiveIds(Due(q, now), 0, cancelled, cb)
      && multiset(After(q, now, cancelled, cb))
         == multiset(NotDue(q, now)) + multiset(Rearmed(p.ran, now, cb)) + multiset(Added(p.ran, cb))
  {
    var due := Due(q, now);
    var p := PassOver(due, now, cancelled, cb);
    PassArrivals(due, now, cancelled, cb);
    EmplaceAllKeeps([], p.arrived + NotDue(q, now));
    PassRunsTheLive(due, 0, now, cancelled, cb);
    assert due[0..] == due;
  }

  predicate RearmedBy(ran: seq<Id>, now: U64, cb: Callbacks, e: Entry) {
    e.id in ran && cb(e.id).delay > 0 && e.deadline == Wrap(now + cb(e.id).delay)
  }

  lemma {:induction false} RearmedEntries(ran: seq<Id>, now: U64, cb: Callbacks, e: Entry)
    ensures e in Rearmed(ran, now, cb) <==> RearmedBy(ran, now, cb, e)
  {
    if ran != [] {
      RearmedEntries(ran[1..], now, cb, e);
    }
  }

  ghost predicate AddedBy(ran: seq<Id>, cb: Callbacks, e: Entry) {
    exists id :: id in ran && e in cb(id).adds
  }

  lemma {:induction false} AddedEntries(ran: seq<Id>, cb: Callbacks, e: Entry)
    ensures e in Added(ran, cb) <==> AddedBy(ran, cb, e)
  {
    if ran != [] {
      AddedEntries(ran[1..], cb, e);
      if e in Added(ran[1..], cb) {
        var id :| id in ran[1..] && e in cb(id).adds;
        assert id in ran;
      } else if e in cb(ran[0]).adds {
        assert ran[0] in ran;
      }
    }
  }

  /** What a task that ran may ask for without landing in the past. */
  predicate AheadOf(now: U64, r: Reply) {
    && now + r.delay < TWO64
    && (forall i | 0 <= i < |r.adds| :: r.adds[i].deadline > now)
  }

  /** What is in the map after a call in which the tasks `ran` ran. */
  ghost predicate AskedFor(q: seq<Entry>, now: U64, cb: Callbacks, ran: seq<Id>, e: Entry) {
    || e in NotDue(q, now)
    || RearmedBy(ran, now, cb, e)
    || AddedBy(ran, cb, e)
  }

  /** The entries of the map after a call, one by one. */
  lemma AfterEntries(q: seq<Entry>, now: U64, cancelled: set<Id>, cb: Callbacks, e: Entry)
    requires Ordered(q)
    ensures var ran := PassOver(Due(q, now), now, cancelled, cb).ran;
      e in After(q, now, cancelled, cb) <==> AskedFor(q, now, cb, ran, e)
  {
    var ran := PassOver(Due(q, now), now, cancelled, cb).ran;
    ScheduleSpec(q, now, cancelled, cb);
    InOneOfThree(After(q, now, cancelled, cb), NotDue(q, now), Rearmed(ran, now, cb), Added(ran, cb), e);
    RearmedEntries(ran, now, cb, e);
    AddedEntries(ran, cb, e);
  }

  lemma InOneOfThree(all: seq<Entry>, a: seq<Entry>, b: seq<Entry>, c: seq<Entry>, e: Entry)
    requires multiset(all) == multiset(a) + multiset(b) + multiset(c)
    ensures e in all <==> e in a || e in b || e in c
  {
    assert e in all <==> e in multiset(all);
    assert e in multiset(all) <==> e in multiset(a) || e in multiset(b) || e in multiset(c);
  }

  /** After a call everything left lies ahead of the sampled time, exactly when every task that ran
      kept its requests ahead of it: no overflow of `now + delay`, and only future deadlines added. */
  lemma RemainingAheadIff(q: seq<Entry>, now: U64, cancelled: set<Id>, cb: Callbacks)
    requires Ordered(q)
    ensures var ran := PassOver(Due(q, now), now, cancelled, cb).ran;
      (forall e | e in After(q, now, cancelled, cb) :: e.deadline > now) <==> (forall id | id in ran :: AheadOf(now, cb(id)))
  {
    var ran := PassOver(Due(q, now), now, cancelled, cb).ran;
    if forall id | id in ran :: AheadOf(now, cb(id)) {
      AheadLeavesNone(q, now, cancelled, cb);
    } else {
      var id :| id in ran && !AheadOf(now, cb(id));
      BehindLeavesOne(q, now, cancelled, cb, id);
    }
  }

  lemma AheadLeavesNone(q: seq<Entry>, now: U64, cancelled: set<Id>, cb: Callbacks)
    requires Ordered(q)
    requires forall id | id in PassOver(Due(q, now), now, cancelled, cb).ran :: AheadOf(now, cb(id))
    ensures forall e | e in After(q, now, cancelled, cb) :: e.deadline > now
  {
    DueSplits(q, now);
    forall e | e in After(q, now, cancelled, cb) ensures e.deadline > now {
      AfterEntries(q, now, cancelled, cb, e);
      AskedIsAhead(q, now, cb, PassOver(Due(q, now), now, cancelled, cb).ran, e);
    }
  }

  lemma AskedIsAhead(q: seq<Entry>, now: U64, cb: Callbacks, ran: seq<Id>, e: Entry)
    requires NoneDue(NotDue(q, now), now) && (forall id | id in ran :: AheadOf(now, cb(id)))
    requires AskedFor(q, now, cb, ran, e)
    ensures e.deadline > now
  {
    if RearmedBy(ran, now, cb, e) {
      WrapSmall(now + cb(e.id).delay);
    }
  }

  lemma BehindLeavesOne(q: seq<Entry>, now: U64, cancelled: set<Id>, cb: Callbacks, id: Id)
    requires Ordered(q) && id in PassOver(Due(q, now), now, cancelled, cb).ran && !AheadOf(now, cb(id))
    ensures exists e :: e in After(q, now, cancelled, cb) && e.deadline <= now
  {
    var r := cb(id);
    if now + r.delay >= TWO64 {
      var e := Entry(Wrap(now + r.delay), id);
      assert Wrap(now + r.delay) == now + r.delay - TWO64;
      AfterEntries(q, now, cancelled, cb, e);
    } else {
      var i :| 0 <= i < |r.adds| && r.adds[i].deadline <= now;
      AfterEntries(q, now, cancelled, cb, r.adds[i]);
    }
  }

  /** The returned value: the time to the earliest deadline whenever that lies ahead (by less than
      2^63 ms); otherwise it is not positive, and the loop then blocks without a timeout. */
  lemma NextIsTimeToEarliest(q: seq<Entry>, now: U64)
    requires Ordered(q) && now < TWO63
    ensures Next(q, now) > 0 <==> q != [] && now < q[0].deadline < now + TWO63
    ensures Next(q, now) > 0 ==> now + Next(q, now) == q[0].deadline
    ensures forall e | e in q :: Next(q, now) > 0 ==> now + Next(q, now) <= e.deadline
    ensures Next(q, now) == 0 <==> q == [] || q[0].deadline == now
  {
    if q != [] {
      var d := q[0].deadline - now;
      if d >= 0 {
        assert Wrap(d) == d;
      } else {
        assert Wrap(d) == d + TWO64;
      }
    }
  }

  /** What is in the map after a call, said in terms of the map before it and of the replies of the due tasks
      that are live at their turn. */
  ghost predicate Comes(q: seq<Entry>, now: U64, cancelled: set<Id>, cb: Callbacks, e: Entry) {
    AskedFor(q, now, cb, LiveIds(Due(q, now), 0, cancelled, cb), e)
  }

  lemma WhatRan(q: seq<Entry>, now: U64, cancelled: set<Id>, cb: Callbacks)
    ensures PassOver(Due(q, now), now, cancelled, cb).ran == LiveIds(Due(q, now), 0, cancelled, cb)
  {
    PassRunsTheLive(Due(q, now), 0, now, cancelled, cb);
    assert Due(q, now)[0..] == Due(q, now);
  }

  lemma WhatComes(q: seq<Entry>, now: U64, cancelled: set<Id>, cb: Callbacks, e: Entry)
    requires Ordered(q)
    ensures Comes(q, now, cancelled, cb, e) <==> e in After(q, now, cancelled, cb)
  {
    AfterEntries(q, now, cancelled, cb, e);
    WhatRan(q, now, cancelled, cb);
  }

  /** The earliest entry that comes is one of these waits away. */
  ghost predicate EarliestComes(q: seq<Entry>, now: U64, cancelled: set<Id>, cb: Callbacks, select: bool) {
    exists e :: Comes(q, now, cancelled, cb, e)
      && (forall e' | Comes(q, now, cancelled, cb, e') :: e.deadline <= e'.deadline)
      && (if select then EndlessSelect(e.deadline - now) else Endless(e.deadline - now))
  }

  lemma FirstIsEarliest(q: seq<Entry>, e: Entry)
    requires Ordered(q) && e in q
    ensures q[0].deadline <= e.deadline
  {
    var i :| 0 <= i < |q| && q[i] == e;
  }

  lemma EarliestIsFirst(q: seq<Entry>, now: U64, cancelled: set<Id>, cb: Callbacks, select: bool)
    requires Ordered(q)
    ensures var after := After(q, now, cancelled, cb);
      EarliestComes(q, now, cancelled, cb, select) <==>
        after != [] && if select then EndlessSelect(after[0].deadline - now) else Endless(after[0].deadline - now)
  {
    var after := After(q, now, cancelled, cb);
    assert Ordered(after) by {
      ScheduleSpec(q, now, cancelled, cb);
    }
    forall e ensures Comes(q, now, cancelled, cb, e) <==> e in after {
      WhatComes(q, now, cancelled, cb, e);
    }
    forall e | e in after ensures after[0].deadline <= e.deadline {
      FirstIsEarliest(after, e);
    }
    if after != [] {
      assert Comes(q, now, cancelled, cb, after[0]);
    }
  }

  lemma TimeoutOfNext(q: seq<Entry>, now: U64)
    requires q != [] && now < TWO63
    ensures Timeout(Next(q, now)) < 0 <==> Endless(q[0].deadline - now)
    ensures Next(q, now) <= 0 <==> EndlessSelect(q[0].deadline - now)
  {
    var d := q[0].deadline - now;
    if d >= 0 {
      assert Wrap(d) == d;
    } else {
      assert Wrap(d) == d + TWO64;
    }
  }

  /** The loop goes to sleep for good on a pending delay task if and only if the earliest entry that the map
      and the replies call for is not ahead of the sampled time, is 2^63 ms away, or, for `epoll_wait`, is so
      far away that the low half of the wait is negative as an int: 2^31 ms, not quite 25 days, to begin
      with. */
  lemma SleepsForeverOnPendingIff(q: seq<Entry>, now: U64, cancelled: set<Id>, cb: Callbacks)
    requires Ordered(q) && now < TWO63
    ensures var after := After(q, now, cancelled, cb);
      && (after != [] && Timeout(Next(after, now)) < 0 <==> EarliestComes(q, now, cancelled, cb, false))
      && (after != [] && Next(after, now) <= 0 <==> EarliestComes(q, now, cancelled, cb, true))
  {
    var after := After(q, now, cancelled, cb);
    EarliestIsFirst(q, now, cancelled, cb, false);
    EarliestIsFirst(q, now, cancelled, cb, true);
    if after != [] {
      TimeoutOfNext(after, now);
    }
  }

  /** A timeout that ends never ends after the earliest deadline. */
  lemma NeverWakesLate(next: int)
    requires 0 < next
    ensures Timeout(next) <= next
  {
    assert next % TWO32 <= next;
  }

  /** With deadlines less than 2^31 ms away, the loop sleeps for good on a pending delay task if and only if a
      task that ran left an entry at or before the sampled time. */
  lemma NearDeadlinesSleepIff(q: seq<Entry>, now: U64, cancelled: set<Id>, cb: Callbacks)
    requires Ordered(q) && now < TWO63
    requires forall e | Comes(q, now, cancelled, cb, e) :: e.deadline < now + TWO31
    ensures var after := After(q, now, cancelled, cb);
      after != [] && Timeout(Next(after, now)) < 0 <==>
        exists id :: id in LiveIds(Due(q, now), 0, cancelled, cb) && !AheadOf(now, cb(id))
  {
    var after := After(q, now, cancelled, cb);
    assert Ordered(after) by {
      ScheduleSpec(q, now, cancelled, cb);
    }
    WhatRan(q, now, cancelled, cb);
    RemainingAheadIff(q, now, cancelled, cb);
    if after != [] {
      WhatComes(q, now, cancelled, cb, after[0]);
      TimeoutOfNext(after, now);
      NearIsExact(after[0].deadline - now);
    }
    if e :| e in after && e.deadline <= now {
      FirstIsEarliest(after, e);
    }
  }

  lemma NearIsExact(wait: int)
    requires wait < TWO31
    ensures Endless(wait) <==> wait <= 0
  {
  }

  /** Thirty days, and nothing else pending: the timeout is negative. */
  lemma MonthStallsTheLoop()
    ensures var cb := (id: Id) => Reply(2_592_000_000, [], {});
      var after := After([Entry(5, 1)], 5, {}, cb);
      after == [Entry(2_592_000_005, 1)] && Timeout(Next(after, 5)) == -1_702_967_296
  {
    var cb := (id: Id) => Reply(2_592_000_000, [], {});
    var q, e := [Entry(5, 1)], Entry(2_592_000_005, 1);
    assert q[1..] == [];
    assert Due(q, 5) == q && NotDue(q, 5) == [];
    assert PassOver(q, 5, {}, cb).arrived == [e];
    assert [e][1..] == [];
    assert EmplaceAll([], [e]) == [e];
  }

  /** A cancelled task leaves the map at the first call past its deadline: if no callback adds it anew, no
      entry of it is left that was due. */
  lemma CancelledLeaves(q: seq<Entry>, now: U64, cancelled: set<Id>, cb: Callbacks, e: Entry)
    requires Ordered(q) && e.id in cancelled
    requires forall id | id in LiveIds(Due(q, now), 0, cancelled, cb) :: e !in cb(id).adds
    ensures e in After(q, now, cancelled, cb) <==> e in q && e.deadline > now
  {
    WhatComes(q, now, cancelled, cb, e);
    DueSplits(q, now);
    LiveAreNotCancelled(Due(q, now), 0, cancelled, cb);
  }

  lemma {:induction false} CancelledGrows(due: seq<Entry>, i: nat, cancelled: set<Id>, cb: Callbacks)
    requires i <= |due|
    ensures cancelled <= CancelledAt(due, i, cancelled, cb)
  {
    if i > 0 {
      CancelledGrows(due, i - 1, cancelled, cb);
    }
  }

  lemma {:induction false} LiveAreNotCancelled(due: seq<Entry>, i: nat, cancelled: set<Id>, cb: Callbacks)
    requires i <= |due|
    ensures forall id | id in LiveIds(due, i, cancelled, cb) :: id !in cancelled
    decreases |due| - i
  {
    if i < |due| {
      CancelledGrows(due, i, cancelled, cb);
      LiveAreNotCancelled(due, i + 1, cancelled, cb);
      var rest := LiveIds(due, i + 1, cancelled, cb);
      assert forall id | id in [due[i].id] + rest :: id == due[i].id || id in rest;
    }
  }

  /** It needs no odd numbers: one callback that adds a delay task with delay 0. */
  lemma ZeroDelayStallsTheLoop()
    ensures var cb := (id: Id) => if id == 1 then Reply(0, [Entry(5, 2)], {}) else Reply(0, [], {});
      var after := After([Entry(5, 1)], 5, {}, cb);
      after == [Entry(5, 2)] && Timeout(Next(after, 5)) == -1
  {
    var cb := (id: Id) => if id == 1 then Reply(0, [Entry(5, 2)], {}) else Reply(0, [], {});
    var q := [Entry(5, 1)];
    assert q[1..] == [];
    assert Due(q, 5) == q && NotDue(q, 5) == [];
    assert PassOver(q, 5, {}, cb).arrived == [Entry(5, 2)];
    assert [Entry(5, 2)][1..] == [];
    assert EmplaceAll([], [Entry(5, 2)]) == [Entry(5, 2)];
  }

  // ---- the poller's own code -------------------------------------------------------------------

  class DelayQueue {
    var delayTasks: seq<Entry>
    var posted: seq<Entry>          // insertions in the task queue
    var cancelled: set<Id>

    ghost predicate Valid()
      reads this
    {
      Ordered(delayTasks)
    }

    constructor ()
      ensures Valid() && delayTasks == [] && posted == [] && cancelled == {}
    {
      delayTasks, posted, cancelled := [], [], {};
    }

    /** `addDelayTask`; `delayMs` is an int, added in uint64_t.  On the loop thread the entry is inserted at
        once, from any other it goes to the front of the task queue, with the deadline of now. */
    method AddDelayTask(clock: U64, delayMs: int, id: Id, onLoop: bool)
      requires Valid()
      modifies this`delayTasks, this`posted
      ensures Valid()
      ensures var e := Entry(Wrap(clock + delayMs), id);
        if onLoop then posted == old(posted) && delayTasks == Emplace(old(delayTasks), e)
        else posted == [e] + old(posted) && delayTasks == old(delayTasks)
      ensures multiset(delayTasks) + multiset(posted)
              == multiset(old(delayTasks)) + multiset(old(posted)) + multiset{Entry(Wrap(clock + delayMs), id)}
    {
      var e := Entry(Wrap(clock + delayMs), id);
      if onLoop {
        EmplaceKeeps(delayTasks, e);
        delayTasks := Emplace(delayTasks, e);
      } else {
        posted := [e] + posted;
      }
    }

    /** The loop runs the first posted insertion. */
    method RunPosted()
      requires Valid() && posted != []
      modifies this`delayTasks, this`posted
      ensures Valid() && posted == old(posted)[1..] && delayTasks == Emplace(old(delayTasks), old(posted)[0])
      ensures multiset(delayTasks) + multiset(posted) == multiset(old(delayTasks)) + multiset(old(posted))
    {
      EmplaceKeeps(delayTasks, posted[0]);
      assert posted == [posted[0]] + posted[1..];
      delayTasks := Emplace(delayTasks, posted[0]);
      posted := posted[1..];
    }

    /** One call of a live task: what it adds arrives while it runs, it may cancel, and its own
        entry comes last. */
    method CallAndRearm(id: Id, now: U64, reply: Reply)
      modifies this`delayTasks, this`cancelled
      ensures delayTasks == EmplaceAll(old(delayTasks), reply.adds + Rearm(now, id, reply.delay))
      ensures cancelled == old(cancelled) + reply.cancels
    {
      EmplaceAllAppend(delayTasks, reply.adds, Rearm(now, id, reply.delay));
      delayTasks := EmplaceAll(delayTasks, reply.adds);
      cancelled := cancelled + reply.cancels;
      if reply.delay > 0 {
        delayTasks := Emplace(delayTasks, Entry(Wrap(now + reply.delay), id));
      }
    }

    /** The loop over the swapped-out map; `copy` is what it leaves of it. */
    method RunDue(swapped: seq<Entry>, now: U64, cb: Callbacks) returns (copy: seq<Entry>, ran: seq<Id>)
      requires delayTasks == []
      modifies this`delayTasks, this`cancelled
      ensures copy == NotDue(swapped, now)
      ensures var pass := PassOver(Due(swapped, now), now, old(cancelled), cb);
        ran == pass.ran && delayTasks == EmplaceAll([], pass.arrived) && cancelled == pass.cancelled
    {
      copy, ran := swapped, [];
      ghost var pass := PassOver(Due(copy, now), now, cancelled, cb);
      ghost var rest := pass;
      ghost var arrived := [];
      while copy != [] && copy[0].deadline <= now
        invariant rest == PassOver(Due(copy, now), now, cancelled, cb)
        invariant NotDue(copy, now) == NotDue(swapped, now)
        invariant pass == Pass(ran + rest.ran, arrived + rest.arrived, rest.cancelled)
        invariant delayTasks == EmplaceAll([], arrived)
        decreases |copy|
      {
        var id := copy[0].id;
        rest := PassFirst(copy, now, cancelled, cb, ran, arrived, pass);
        if id !in cancelled {
          arrived := Arrive(arrived, cb(id).adds + Rearm(now, id, cb(id).delay));
          CallAndRearm(id, now, cb(id));
          ran := ran + [id];
        }
        copy := copy[1..];
      }
      assert rest == Pass([], [], cancelled);
      assert ran + [] == ran && arrived + [] == arrived;
    }

    /** `ran` lists the callbacks in the order in which they were called. */
    method ScheduleDelayTask(now: U64, cb: Callbacks) returns (next: int, ran: seq<Id>)
      requires Valid()
      modifies this`delayTasks, this`cancelled
      ensures Valid()
      ensures delayTasks == After(old(delayTasks), now, old(cancelled), cb)
      ensures next == Next(delayTasks, now)
      ensures ran == PassOver(Due(old(delayTasks), now), now, old(cancelled), cb).ran
      ensures cancelled == PassOver(Due(old(delayTasks), now), now, old(cancelled), cb).cancelled
    {
      if delayTasks == [] {
        NothingToDo(now, cancelled, cb);
        return 0, [];
      }
      var copy := delayTasks;
      delayTasks := [];
      ghost var arrived := PassOver(Due(copy, now), now, cancelled, cb).arrived;
      copy, ran := RunDue(copy, now, cb);
      arrived := Arrive(arrived, copy);
      delayTasks := EmplaceAll(delayTasks, copy);
      assert Valid() by {
        EmplaceAllKeeps([], arrived);
      }
      if delayTasks == [] {
        return 0, ran;
      }
      next := Signed(Wrap(delayTasks[0].deadline - now));
    }
  }

  lemma NothingToDo(now: U64, cancelled: set<Id>, cb: Callbacks)
    ensures After([], now, cancelled, cb) == []
    ensures PassOver(Due([], now), now, cancelled, cb) == Pass([], [], cancelled)
  {
  }

  /** The first due entry of a pass, and the pass over what follows it. */
  lemma PassFirst(copy: seq<Entry>, now: U64, cancelled: set<Id>, cb: Callbacks,
                  ran: seq<Id>, arrived: seq<Entry>, whole: Pass) returns (rest: Pass)
    requires copy != [] && copy[0].deadline <= now
    requires var pass := PassOver(Due(copy, now), now, cancelled, cb);
      whole == Pass(ran + pass.ran, arrived + pass.arrived, pass.cancelled)
    ensures NotDue(copy, now) == NotDue(copy[1..], now)
    ensures var id := copy[0].id;
      if id in cancelled then
        && rest == PassOver(Due(copy[1..], now), now, cancelled, cb)
        && whole == Pass(ran + rest.ran, arrived + rest.arrived, rest.cancelled)
      else
        && rest == PassOver(Due(copy[1..], now), now, cancelled + cb(id).cancels, cb)
        && whole == Pass((ran + [id]) + rest.ran,
                         (arrived + (cb(id).adds + Rearm(now, id, cb(id).delay))) + rest.arrived, rest.cancelled)
  {
    var id := copy[0].id;
    assert Due(copy, now)[1..] == Due(copy[1..], now);
    rest := PassOver(Due(copy[1..], now), now, if id in cancelled then cancelled else cancelled + cb(id).cancels, cb);
  }

  lemma Arrive(arrived: seq<Entry>, es: seq<Entry>) returns (more: seq<Entry>)
    ensures more == arrived + es
    ensures EmplaceAll([], more) == EmplaceAll(EmplaceAll([], arrived), es)
  {
    more := arrived + es;
    EmplaceAllAppend([], arrived, es);
  }
}
