/** What becomes of the bytes under the interleavings of `SendProtocol`: their order, which of them are lost,
    and when one store overwrites another. */
module SendOrder {
  import opened SendProtocol

  predicate Holding(u: User) {
    u.UHand? || u.USent? || u.UFlagged? || u.UPosted?
  }

  predicate PollerHolding(p: Poller) {
    p.PHand? || p.PSent?
  }

  /** Whoever has a list in hand has bytes in it, and nobody else has any. */
  predicate Lists(s: State) {
    (s.d.mine != [] <==> Holding(s.c.user)) && (s.d.theirs != [] <==> PollerHolding(s.c.poller))
  }

  lemma StepKeepsLists(s: State, step: Step)
    requires Lists(s) && Enabled(s, step)
    ensures Lists(Apply(s, step))
  {
    UserList(s, step);
    PollerList(s, step);
  }

  predicate ByUser(step: Step) {
    || step.UserCheck? || step.UserSwapTwo? || step.UserTakeOne? || step.UserSend? || step.UserFail?
    || step.UserFlag? || step.UserPost? || step.UserStore?
  }

  predicate ByPoller(step: Step) {
    || step.PollEvent? || step.PollSwapTwo? || step.PollTakeOne? || step.PollSend? || step.PollFail?
    || step.PollStore? || step.PollStop?
  }

  lemma OthersLeaveUser(s: State, step: Step)
    requires !ByUser(step)
    ensures Move(s.d, step).mine == s.d.mine && Turn(s.c, s.d, step).user == s.c.user
  {
  }

  lemma OthersLeavePoller(s: State, step: Step)
    requires !ByPoller(step)
    ensures Move(s.d, step).theirs == s.d.theirs && Turn(s.c, s.d, step).poller == s.c.poller
  {
  }

  lemma UserList(s: State, step: Step)
    requires Lists(s) && Enabled(s, step)
    ensures Move(s.d, step).mine != [] <==> Holding(Turn(s.c, s.d, step).user)
  {
    if !ByUser(step) {
      OthersLeaveUser(s, step);
    }
  }

  lemma PollerList(s: State, step: Step)
    requires Lists(s) && Enabled(s, step)
    ensures Move(s.d, step).theirs != [] <==> PollerHolding(Turn(s.c, s.d, step).poller)
  {
    if !ByPoller(step) {
      OthersLeavePoller(s, step);
    }
  }

  // ---- order -------------------------------------------------------------------------------------

  /** Everything that is not lost, by age. */
  function Line(d: Data): Bytes {
    d.wire + (d.mine + (d.two + (d.theirs + d.one)))
  }

  ghost predicate Rising(q: Bytes, below: nat) {
    && (forall i, j | 0 <= i < j < |q| :: q[i] < q[j])
    && (forall i | 0 <= i < |q| :: q[i] < below)
  }

  /** No byte is repeated or out of place, whoever holds it: the wire rises, and everything held is newer
      than the wire and in order. */
  ghost predicate InOrder(d: Data) {
    Rising(Line(d), d.next)
  }

  /** A byte passes an older one: the poller sends while a user holds, or has stored, an older rest; or a
      user takes the first level while the second is not empty or the poller holds older bytes. */
  predicate Passes(d: Data, step: Step) {
    || (step.PollSend? && (d.mine != [] || d.two != []))
    || (step.UserTakeOne? && d.one != [] && (d.two != [] || d.theirs != []))
  }

  predicate Stores(step: Step) {
    step.UserStore? || step.PollStore?
  }

  /** What a step takes out of the line: the list in hand when a send fails, and what a store finds in the
      second level. */
  function Lost(d: Data, step: Step): Bytes {
    if step.UserFail? then d.mine else if step.PollFail? then d.theirs else if Stores(step) then d.two else []
  }

  lemma Empty(a: Bytes)
    ensures [] + a == a && a + [] == a
  {
  }

  lemma Nest(a: Bytes, b: Bytes, c: Bytes, e: Bytes)
    ensures a + (b + (c + e)) == (a + (b + c)) + e
    ensures a + (b + (c + e)) == (a + b) + (c + e)
  {
  }

  lemma Regroup(a: Bytes, b: Bytes, n: nat, c: Bytes)
    requires n <= |b|
    ensures (a + b[..n]) + (b[n..] + c) == a + (b + c)
  {
    assert b == b[..n] + b[n..];
  }

  lemma RangeRises(q: Bytes, next: nat, n: nat)
    requires Rising(q, next)
    ensures Rising(q + Range(next, next + n), next + n)
  {
  }

  lemma WithoutRises(a: Bytes, b: Bytes, c: Bytes, next: nat)
    requires Rising(a + (b + c), next)
    ensures Rising(a + c, next)
  {
    var q := a + (b + c);
    assert forall i | 0 <= i < |c| :: c[i] == q[|a| + |b| + i];
    assert forall i | 0 <= i < |a| :: a[i] == q[i];
  }

  lemma AcceptLine(d: Data, n: nat, tryFlush: bool)
    ensures Line(Move(d, Accept(n, tryFlush))) == Line(d) + Range(d.next, d.next + n)
  {
    var added := Range(d.next, d.next + n);
    var held := d.mine + (d.two + d.theirs);
    assert d.mine + (d.two + (d.theirs + d.one)) == held + d.one;
    assert d.mine + (d.two + (d.theirs + (d.one + added))) == held + (d.one + added);
    assert d.wire + (held + (d.one + added)) == (d.wire + (held + d.one)) + added;
  }

  /** Bytes that only go from one place to the next in the line. */
  lemma QuietLine(s: State, step: Step)
    requires Lists(s) && Enabled(s, step) && !Passes(s.d, step) && !step.Accept? && Lost(s.d, step) == []
    ensures Line(Move(s.d, step)) == Line(s.d)
  {
    var d := s.d;
    match step
    case UserSend(n) => Regroup(d.wire, d.mine, n, d.two + (d.theirs + d.one));
    case PollSend(n) =>
      Regroup(d.wire, d.theirs, n, d.one);
      Empty(d.theirs + d.one);
      Empty(d.theirs[n..] + d.one);
    case UserSwapTwo => Empty(d.theirs + d.one);
      Empty(d.two + (d.theirs + d.one));
    case UserTakeOne =>
      Empty(d.one);
      Empty([]);
    case PollSwapTwo =>
      Empty(d.one);
      Empty(d.two + d.one);
    case PollTakeOne => Empty(d.one);
    case UserStore =>
      Empty(d.mine + (d.theirs + d.one));
      Empty(d.theirs + d.one);
    case PollStore =>
      Empty(d.one);
      Empty(d.theirs + d.one);
    case _ =>
  }

  predicate MayLose(step: Step) {
    step.UserFail? || step.PollFail? || Stores(step)
  }

  /** The line before and after a step that may lose something. */
  lemma Removed(d: Data, step: Step) returns (a: Bytes, c: Bytes)
    requires MayLose(step)
    ensures Line(d) == a + (Lost(d, step) + c) && Line(Move(d, step)) == a + c
  {
    match step
    case UserFail =>
      a, c := d.wire, d.two + (d.theirs + d.one);
      Empty(c);
    case PollFail => a, c := WithoutTheirs(d);
    case UserStore => a, c := UserStored(d);
    case PollStore => a, c := PollStored(d);
  }

  lemma WithoutTheirs(d: Data) returns (a: Bytes, c: Bytes)
    ensures Line(d) == a + (d.theirs + c) && Line(Move(d, PollFail)) == a + c
  {
    a, c := d.wire + (d.mine + d.two), d.one;
    Empty(c);
    Nest(d.wire, d.mine, d.two, d.theirs + c);
    Nest(d.wire, d.mine, d.two, c);
  }

  lemma UserStored(d: Data) returns (a: Bytes, c: Bytes)
    ensures Line(d) == a + (d.two + c) && Line(Move(d, UserStore)) == a + c
  {
    a, c := d.wire + d.mine, d.theirs + d.one;
    Empty(d.mine + c);
    Nest(d.wire, d.mine, d.two, c);
    Pair(d.wire, d.mine, c);
  }

  lemma PollStored(d: Data) returns (a: Bytes, c: Bytes)
    ensures Line(d) == a + (d.two + c) && Line(Move(d, PollStore)) == a + c
  {
    a, c := d.wire + d.mine, d.theirs + d.one;
    Empty(d.one);
    Nest(d.wire, d.mine, d.two, c);
    Pair(d.wire, d.mine, c);
  }

  lemma Pair(a: Bytes, b: Bytes, c: Bytes)
    ensures a + (b + c) == (a + b) + c
  {
  }

  lemma StepKeepsOrder(s: State, step: Step)
    requires Lists(s) && InOrder(s.d) && Enabled(s, step) && !Passes(s.d, step)
    ensures InOrder(Move(s.d, step))
  {
    if step.Accept? {
      AcceptLine(s.d, step.n, step.tryFlush);
      RangeRises(Line(s.d), s.d.next, step.n);
    } else if MayLose(step) {
      var a, c := Removed(s.d, step);
      WithoutRises(a, Lost(s.d, step), c, s.d.next);
    } else {
      QuietLine(s, step);
    }
  }

  lemma Overtaken(wire: Bytes, older: Bytes, h: Bytes, one: Bytes, next: nat)
    requires older != [] && h != [] && Rising(wire + older + (h + one), next)
    ensures older[0] < h[0]
  {
    var q := wire + older + (h + one);
    assert q[|wire|] == older[0] && q[|wire| + |older|] == h[0];
  }

  lemma OvertakenNow(wire: Bytes, older: Bytes, h: Bytes, n: nat, rest: Bytes, next: nat)
    requires 0 < n <= |h| && older != [] && older[0] < h[0]
    ensures !Rising(wire + h[..n] + older + rest, next)
  {
    var q := wire + h[..n] + older + rest;
    assert q[|wire|] == h[0] && q[|wire| + n] == older[0];
  }

  lemma PollSendBreaksOrder(d: Data, n: nat)
    requires InOrder(d) && 0 < n <= |d.theirs| && (d.mine != [] || d.two != [])
    ensures !InOrder(Move(d, PollSend(n)))
  {
    var older, rest := d.mine + d.two, d.theirs[n..] + d.one;
    assert Line(d) == d.wire + older + (d.theirs + d.one);
    assert Line(Move(d, PollSend(n))) == d.wire + d.theirs[..n] + older + rest;
    Overtaken(d.wire, older, d.theirs, d.one, d.next);
    OvertakenNow(d.wire, older, d.theirs, n, rest, d.next);
  }

  lemma UserTakeBreaksOrder(d: Data)
    requires InOrder(d) && d.mine == [] && d.one != [] && (d.two != [] || d.theirs != [])
    ensures !InOrder(Move(d, UserTakeOne))
  {
    var older := d.two + d.theirs;
    assert Line(d) == d.wire + older + (d.one + []);
    assert Line(Move(d, UserTakeOne)) == d.wire + d.one[..|d.one|] + older + [];
    Overtaken(d.wire, older, d.one, [], d.next);
    OvertakenNow(d.wire, older, d.one, |d.one|, [], d.next);
  }

  lemma PassingBreaksOrder(s: State, step: Step)
    requires Lists(s) && InOrder(s.d) && Enabled(s, step) && Passes(s.d, step)
    ensures !InOrder(Move(s.d, step))
  {
    if step.PollSend? {
      PollSendBreaksOrder(s.d, step.n);
    } else {
      UserTakeBreaksOrder(s.d);
    }
  }

  ghost predicate InOrderThroughout(s: State, steps: seq<Step>)
    requires Legal(s, steps)
    decreases |steps|
  {
    InOrder(s.d) && (steps == [] || InOrderThroughout(Apply(s, steps[0]), steps[1..]))
  }

  predicate EverPasses(s: State, steps: seq<Step>)
    requires Legal(s, steps)
    decreases |steps|
  {
    steps != [] && (Passes(s.d, steps[0]) || EverPasses(Apply(s, steps[0]), steps[1..]))
  }

  /** The order of the bytes, exactly, over every run of any kind, hard errors, binding and closing
      included: the wire rises and is older than everything held, and everything held is in order, in every
      state, if and only if no step lets a byte pass an older one. */
  lemma {:induction false} OrderKeptIff(s: State, steps: seq<Step>)
    requires Lists(s) && InOrder(s.d) && Legal(s, steps)
    ensures InOrderThroughout(s, steps) <==> !EverPasses(s, steps)
    ensures !EverPasses(s, steps) ==> InOrder(Run(s, steps).d) && Rising(Run(s, steps).d.wire, Run(s, steps).d.next)
    decreases |steps|
  {
    if steps == [] {
      WireRises(s.d);
    } else if Passes(s.d, steps[0]) {
      PassingBreaksOrder(s, steps[0]);
    } else {
      StepKeepsLists(s, steps[0]);
      StepKeepsOrder(s, steps[0]);
      OrderKeptIff(Apply(s, steps[0]), steps[1..]);
    }
  }

  lemma WireRises(d: Data)
    requires InOrder(d)
    ensures Rising(d.wire, d.next)
  {
    assert forall i | 0 <= i < |d.wire| :: d.wire[i] == Line(d)[i];
  }

  /** A user past its look at the second level has found it empty or emptied it. */
  predicate Seen(s: State) {
    s.c.user.UEmpty? || s.c.user.UHand? || s.c.user.USent? || s.c.user.UFlagged? ==> s.d.two == []
  }

  /** The invariants of runs in which the flag is not raised late. */
  predicate Regular(s: State) {
    Flags(s) && Lists(s) && Seen(s)
  }

  lemma StepKeepsRegular(s: State, step: Step)
    requires Regular(s) && Enabled(s, step) && !LateRaise(s, step)
    ensures Regular(Apply(s, step))
  {
    StepKeepsFlags(s, step);
    StepKeepsLists(s, step);
  }

  /** The poller sends between a user's call of modifyEvent and its store, or after that store. */
  predicate InTheWindow(s: State, step: Step) {
    step.PollSend? && (s.c.user.UPosted? || s.d.two != [])
  }

  predicate EverInTheWindow(s: State, steps: seq<Step>)
    requires Legal(s, steps)
    decreases |steps|
  {
    steps != [] && (InTheWindow(s, steps[0]) || EverInTheWindow(Apply(s, steps[0]), steps[1..]))
  }

  /** As long as the flag is not raised late there is only one way to pass: the window that
      startWritableEvent leaves open. */
  lemma {:induction false} OnlyTheWindowPasses(s: State, steps: seq<Step>)
    requires Regular(s) && Legal(s, steps) && !EverLate(s, steps)
    ensures EverPasses(s, steps) <==> EverInTheWindow(s, steps)
    decreases |steps|
  {
    if steps != [] {
      assert Passes(s.d, steps[0]) <==> InTheWindow(s, steps[0]);
      StepKeepsRegular(s, steps[0]);
      OnlyTheWindowPasses(Apply(s, steps[0]), steps[1..]);
    }
  }

  // ---- what is lost ------------------------------------------------------------------------------

  /** How often a byte occurs. */
  function Occ(q: Bytes, x: nat): nat {
    multiset(q)[x]
  }

  /** In how many places it is: on the wire, in a hand, or stored. */
  function Places(d: Data, x: nat): nat {
    Occ(d.wire, x) + Occ(d.mine, x) + Occ(d.two, x) + Occ(d.theirs, x) + Occ(d.one, x)
  }

  function LostOver(s: State, steps: seq<Step>): Bytes
    requires Legal(s, steps)
    decreases |steps|
  {
    if steps == [] then [] else Lost(s.d, steps[0]) + LostOver(Apply(s, steps[0]), steps[1..])
  }

  lemma OccAppend(a: Bytes, b: Bytes, x: nat)
    ensures Occ(a + b, x) == Occ(a, x) + Occ(b, x)
  {
  }

  lemma OccSplit(h: Bytes, n: nat, x: nat)
    requires n <= |h|
    ensures Occ(h, x) == Occ(h[..n], x) + Occ(h[n..], x)
  {
    assert h == h[..n] + h[n..];
    OccAppend(h[..n], h[n..], x);
  }

  lemma {:induction false} OccRange(from: nat, end: nat, x: nat)
    requires from <= end
    ensures Occ(Range(from, end), x) == if from <= x < end then 1 else 0
    decreases end
  {
    if from < end {
      assert Range(from, end) == Range(from, end - 1) + [end - 1];
      OccRange(from, end - 1, x);
    }
  }

  lemma SendConserves(d: Data, step: Step, x: nat)
    requires step.UserSend? || step.PollSend?
    ensures Places(Move(d, step), x) == Places(d, x)
  {
    match step
    case UserSend(n) =>
      if n <= |d.mine| {
        OccSplit(d.mine, n, x);
        OccAppend(d.wire, d.mine[..n], x);
      }
    case PollSend(n) =>
      if n <= |d.theirs| {
        OccSplit(d.theirs, n, x);
        OccAppend(d.wire, d.theirs[..n], x);
      }
  }

  lemma UserMoves(d: Data, step: Step, x: nat)
    requires step.UserSwapTwo? || step.UserTakeOne? ==> d.mine == []
    requires step.UserSwapTwo? || step.UserTakeOne? || step.UserFail? || step.UserStore?
    ensures Places(Move(d, step), x) + Occ(Lost(d, step), x) == Places(d, x)
  {
  }

  lemma PollerMoves(d: Data, step: Step, x: nat)
    requires step.PollSwapTwo? || step.PollTakeOne? ==> d.theirs == []
    requires step.PollSwapTwo? || step.PollTakeOne? || step.PollFail? || step.PollStore?
    ensures Places(Move(d, step), x) + Occ(Lost(d, step), x) == Places(d, x)
  {
  }

  lemma Accepts(d: Data, n: nat, tryFlush: bool, x: nat)
    ensures Places(Move(d, Accept(n, tryFlush)), x) == Places(d, x) + if d.next <= x < d.next + n then 1 else 0
  {
    OccAppend(d.one, Range(d.next, d.next + n), x);
    OccRange(d.next, d.next + n, x);
  }

  lemma UserConserves(s: State, step: Step, x: nat)
    requires Lists(s) && Enabled(s, step) && ByUser(step)
    ensures Places(Move(s.d, step), x) + Occ(Lost(s.d, step), x) == Places(s.d, x)
  {
    if step.UserSend? {
      SendConserves(s.d, step, x);
    } else if step.UserSwapTwo? || step.UserTakeOne? || step.UserFail? || step.UserStore? {
      UserMoves(s.d, step, x);
    }
  }

  lemma PollerConserves(s: State, step: Step, x: nat)
    requires Lists(s) && Enabled(s, step) && ByPoller(step)
    ensures Places(Move(s.d, step), x) + Occ(Lost(s.d, step), x) == Places(s.d, x)
  {
    if step.PollSend? {
      SendConserves(s.d, step, x);
    } else if step.PollSwapTwo? || step.PollTakeOne? || step.PollFail? || step.PollStore? {
      PollerMoves(s.d, step, x);
    }
  }

  lemma OnlyAcceptingIsNew(d: Data, step: Step)
    requires !step.Accept?
    ensures Move(d, step).next == d.next
  {
  }

  /** A byte is where it was, or lost, or new. */
  lemma StepConserves(s: State, step: Step, x: nat)
    requires Lists(s) && Enabled(s, step)
    ensures var d := Move(s.d, step);
      && s.d.next <= d.next
      && Places(d, x) + Occ(Lost(s.d, step), x) == Places(s.d, x) + if s.d.next <= x < d.next then 1 else 0
  {
    if step.Accept? {
      Accepts(s.d, step.n, step.tryFlush, x);
    } else {
      OnlyAcceptingIsNew(s.d, step);
      if ByUser(step) {
        UserConserves(s, step, x);
      } else if ByPoller(step) {
        PollerConserves(s, step, x);
      } else {
        assert Move(s.d, step) == s.d;
      }
    }
  }

  /** Over every run: each byte accepted is in exactly one place, on the wire, in a hand or stored, or it was
      lost exactly once, with the list in hand of a send that failed or by a store that found it in the
      second level. */
  lemma {:induction false} OnlyFailuresAndStoresLose(s: State, steps: seq<Step>, x: nat)
    requires Lists(s) && Legal(s, steps)
    ensures var d := Run(s, steps).d;
      && s.d.next <= d.next
      && Places(d, x) + Occ(LostOver(s, steps), x) == Places(s.d, x) + if s.d.next <= x < d.next then 1 else 0
    decreases |steps|
  {
    if steps != [] {
      var s1 := Apply(s, steps[0]);
      StepKeepsLists(s, steps[0]);
      StepConserves(s, steps[0], x);
      OnlyFailuresAndStoresLose(s1, steps[1..], x);
      OccAppend(Lost(s.d, steps[0]), LostOver(s1, steps[1..]), x);
    }
  }

  // ---- stores that overwrite ---------------------------------------------------------------------

  predicate Overwrites(s: State, steps: seq<Step>)
    requires Legal(s, steps)
    decreases |steps|
  {
    steps != [] && ((Stores(steps[0]) && s.d.two != []) || Overwrites(Apply(s, steps[0]), steps[1..]))
  }

  /** In the schedule alone: a store follows another, or what is stored already, and nobody takes the second
      level in between. */
  predicate StoresMeet(full: bool, steps: seq<Step>)
    decreases |steps|
  {
    steps != [] &&
    if Stores(steps[0]) then full || StoresMeet(true, steps[1..])
    else StoresMeet(full && !steps[0].UserSwapTwo? && !steps[0].PollSwapTwo?, steps[1..])
  }

  lemma SecondLevel(s: State, step: Step)
    requires Lists(s) && Enabled(s, step)
    ensures Move(s.d, step).two != [] <==>
            Stores(step) || (s.d.two != [] && !step.UserSwapTwo? && !step.PollSwapTwo?)
  {
  }

  /** A final swap overwrites data, over every run, if and only if two stores meet in the schedule. */
  lemma {:induction false} OverwritesIff(s: State, steps: seq<Step>)
    requires Lists(s) && Legal(s, steps)
    ensures Overwrites(s, steps) <==> StoresMeet(s.d.two != [], steps)
    decreases |steps|
  {
    if steps != [] {
      StepKeepsLists(s, steps[0]);
      SecondLevel(s, steps[0]);
      OverwritesIff(Apply(s, steps[0]), steps[1..]);
    }
  }

  /** A store is coming that would find something in the second level. */
  predicate AtRisk(s: State) {
    && (s.c.user.UPosted? || s.c.poller.PSent?)
    && (s.d.two != [] || (s.c.user.UPosted? && s.c.poller.PSent?))
  }

  /** In the window the poller sends part of its list only. */
  predicate PartInTheWindow(s: State, step: Step) {
    InTheWindow(s, step) && step.n < |s.d.theirs|
  }

  /** A partial send in the window, and then the stores that are due meet. */
  predicate Collides(s: State, steps: seq<Step>)
    requires Legal(s, steps)
    decreases |steps|
  {
    steps != [] &&
    var s1 := Apply(s, steps[0]);
    ((PartInTheWindow(s, steps[0]) && StoresMeet(s1.d.two != [], steps[1..])) || Collides(s1, steps[1..]))
  }

  lemma UserRisksNothing(s: State, step: Step)
    requires Regular(s) && !AtRisk(s) && Enabled(s, step) && !ByPoller(step)
    ensures !AtRisk(Apply(s, step)) && !(Stores(step) && s.d.two != [])
  {
  }

  lemma PollerRisksNothing(s: State, step: Step)
    requires Regular(s) && !AtRisk(s) && Enabled(s, step) && ByPoller(step) && !PartInTheWindow(s, step)
    ensures !AtRisk(Apply(s, step)) && !(Stores(step) && s.d.two != [])
  {
  }

  lemma OnlyPartialSendsRisk(s: State, step: Step)
    requires Regular(s) && !AtRisk(s) && Enabled(s, step) && !PartInTheWindow(s, step)
    ensures !AtRisk(Apply(s, step)) && !(Stores(step) && s.d.two != [])
  {
    if ByPoller(step) {
      PollerRisksNothing(s, step);
    } else {
      UserRisksNothing(s, step);
    }
  }

  lemma {:induction false} CollisionOverwrites(s: State, steps: seq<Step>)
    requires Lists(s) && Legal(s, steps) && Collides(s, steps)
    ensures Overwrites(s, steps)
    decreases |steps|
  {
    var s1 := Apply(s, steps[0]);
    StepKeepsLists(s, steps[0]);
    if PartInTheWindow(s, steps[0]) && StoresMeet(s1.d.two != [], steps[1..]) {
      OverwritesIff(s1, steps[1..]);
    } else {
      CollisionOverwrites(s1, steps[1..]);
    }
  }

  /** And where that comes from, as long as the flag is not raised late: bytes are overwritten if and only if
      the poller sends part of a list in the window, and the stores that follow from it meet. */
  lemma {:induction false} CollisionIff(s: State, steps: seq<Step>)
    requires Regular(s) && !AtRisk(s) && Legal(s, steps) && !EverLate(s, steps)
    ensures Overwrites(s, steps) <==> Collides(s, steps)
    decreases |steps|
  {
    if Collides(s, steps) {
      CollisionOverwrites(s, steps);
    }
    if steps != [] {
      var s1 := Apply(s, steps[0]);
      StepKeepsRegular(s, steps[0]);
      if PartInTheWindow(s, steps[0]) {
        OverwritesIff(s1, steps[1..]);
      } else {
        OnlyPartialSendsRisk(s, steps[0]);
        CollisionIff(s1, steps[1..]);
      }
    }
  }
}
