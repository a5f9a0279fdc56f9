/** Runs of the machine of `SendProtocol` from a socket that is not bound yet: all of them, some that break
    a promise, and those of the socket as it is wired. */
module SendRuns {
  import opened SendProtocol
  import opened SendOrder

  /** The invariants hold at the start, so for every run from there the equivalences do, and each byte
      accepted is in exactly one place, or was lost exactly once. */
  lemma EveryRun(steps: seq<Step>, x: nat)
    requires Legal(INIT, steps)
    ensures AgreesThroughout(INIT, steps) <==> !EverLate(INIT, steps)
    ensures KeptThroughout(INIT, steps) <==> !EverBad(INIT, steps)
    ensures InOrderThroughout(INIT, steps) <==> !EverPasses(INIT, steps)
    ensures Overwrites(INIT, steps) <==> StoresMeet(false, steps)
    ensures !EverLate(INIT, steps) ==> (Overwrites(INIT, steps) <==> Collides(INIT, steps))
    ensures !EverLate(INIT, steps) ==> (EverPasses(INIT, steps) <==> EverInTheWindow(INIT, steps))
    ensures !EverBad(INIT, steps) ==> Attended(Run(INIT, steps))
    ensures var d := Run(INIT, steps).d;
      Places(d, x) + Occ(LostOver(INIT, steps), x) == if x < d.next then 1 else 0
  {
    InterestAgreesIff(INIT, steps);
    ProtocolIff(INIT, steps);
    OrderKeptIff(INIT, steps);
    OverwritesIff(INIT, steps);
    if !EverLate(INIT, steps) {
      CollisionIff(INIT, steps);
      OnlyTheWindowPasses(INIT, steps);
    }
    if !EverBad(INIT, steps) {
      NothingWaitsUnattended(INIT, steps);
    }
    OnlyFailuresAndStoresLose(INIT, steps, x);
  }

  // ---- runs that break a promise -----------------------------------------------------------------

  predicate NoFailure(steps: seq<Step>) {
    forall i | 0 <= i < |steps| :: !steps[i].UserFail? && !steps[i].PollFail?
  }

  /** One more step at the end of a run. */
  lemma {:induction false} Then(s: State, steps: seq<Step>, step: Step) returns (longer: seq<Step>)
    requires Legal(s, steps) && Enabled(Run(s, steps), step)
    ensures longer == steps + [step]
    ensures Legal(s, longer) && Run(s, longer) == Apply(Run(s, steps), step)
    ensures NoFailure(steps) && !step.UserFail? && !step.PollFail? ==> NoFailure(longer)
    decreases |steps|
  {
    longer := steps + [step];
    if steps == [] {
      assert longer[1..] == [];
    } else {
      var tail := Then(Apply(s, steps[0]), steps[1..], step);
      assert longer[1..] == tail;
    }
  }

  lemma Dropped() returns (steps: seq<Step>)
    ensures Legal(INIT, steps) && NoFailure(steps)
    ensures Run(INIT, steps) == State(INIT.c.(owner := ODropped), INIT.d)
  {
    steps := Then(INIT, [], Lower(false));
    steps := Then(INIT, steps, Drop);
  }

  /** Bound from another thread; the attach is in the poller's queue. */
  lemma Binding() returns (steps: seq<Step>)
    ensures Legal(INIT, steps) && NoFailure(steps)
    ensures Run(INIT, steps) == State(INIT.c.(open := true, attaching := true), INIT.d)
  {
    steps := Dropped();
    steps := Then(INIT, steps, SetFd);
    steps := Then(INIT, steps, Attach);
  }

  lemma Bound() returns (steps: seq<Step>)
    ensures Legal(INIT, steps) && NoFailure(steps)
    ensures Run(INIT, steps) == State(INIT.c.(open := true, attached := true, armed := true), INIT.d)
  {
    steps := Binding();
    steps := Then(INIT, steps, PollAttach);
  }

  /** A write event has come, and the poller has found the second level empty. */
  lemma BoundAndReported() returns (steps: seq<Step>)
    ensures Legal(INIT, steps) && NoFailure(steps)
    ensures Run(INIT, steps) == State(INIT.c.(open := true, attached := true, armed := true, poller := PEmpty), INIT.d)
  {
    steps := Bound();
    steps := Then(INIT, steps, PollReport);
    steps := Then(INIT, steps, PollEvent);
    steps := Then(INIT, steps, PollSwapTwo);
  }

  /** The poller has found nothing to send and handed the socket to the users. */
  lemma ReadyForUsers() returns (steps: seq<Step>)
    ensures Legal(INIT, steps) && NoFailure(steps)
    ensures Run(INIT, steps) == State(INIT.c.(open := true, attached := true, sendable := true), INIT.d)
  {
    steps := BoundAndReported();
    steps := Then(INIT, steps, PollTakeOne);
    steps := Then(INIT, steps, PollStop);
  }

  function HalfSent(): Data {
    Data([0], [1], [], [], [], 2, 2)
  }

  /** A user that has sent byte 0, lowered the flag and posted the write interest, but still holds
      byte 1; the poller has run the posted call. */
  lemma Window() returns (steps: seq<Step>)
    ensures Legal(INIT, steps) && NoFailure(steps)
    ensures Run(INIT, steps)
            == State(INIT.c.(open := true, attached := true, armed := true, user := UPosted), HalfSent())
  {
    steps := UserSendsPart();
    steps := Then(INIT, steps, UserFlag);
    steps := Then(INIT, steps, UserPost);
    steps := Then(INIT, steps, PollModify);
  }

  lemma UserSendsPart() returns (steps: seq<Step>)
    ensures Legal(INIT, steps) && NoFailure(steps)
    ensures Run(INIT, steps)
            == State(INIT.c.(open := true, attached := true, sendable := true, user := USent), HalfSent())
  {
    steps := ReadyForUsers();
    steps := Then(INIT, steps, Accept(2, true));
    assert Run(INIT, steps).d.one == [0, 1];
    steps := Then(INIT, steps, UserCheck(false));
    steps := Then(INIT, steps, UserSwapTwo);
    steps := Then(INIT, steps, UserTakeOne);
    steps := Then(INIT, steps, UserSend(1));
  }

  /** More bytes are accepted then, a write event comes, and the poller finds the second level empty. */
  lemma MoreInTheWindow() returns (steps: seq<Step>)
    ensures Legal(INIT, steps) && NoFailure(steps)
    ensures Run(INIT, steps) == State(
      INIT.c.(open := true, attached := true, armed := true, user := UPosted, poller := PEmpty, flushes := 1),
      HalfSent().(one := [2, 3], next := 4, eager := 4))
  {
    steps := Window();
    steps := Then(INIT, steps, Accept(2, true));
    assert Run(INIT, steps).d.one == [2, 3];
    steps := Then(INIT, steps, PollReport);
    steps := Then(INIT, steps, PollEvent);
    steps := Then(INIT, steps, PollSwapTwo);
  }

  lemma Overtaken() returns (steps: seq<Step>)
    ensures Legal(INIT, steps) && NoFailure(steps)
    ensures Run(INIT, steps) == State(
      INIT.c.(open := true, attached := true, armed := true, user := UPosted, poller := PSent, flushes := 1),
      Data([0, 2], [1], [], [3], [], 4, 4))
  {
    steps := MoreInTheWindow();
    steps := Then(INIT, steps, PollTakeOne);
    steps := Then(INIT, steps, PollSend(1));
  }

  /** The window is real: the poller lets newer bytes overtake, and the two stores that follow overwrite
      each other, so byte 3 is gone although every call reported success. */
  lemma WindowReordersAndLoses() returns (steps: seq<Step>)
    ensures Legal(INIT, steps) && NoFailure(steps)
    ensures var r := Run(INIT, steps);
      r.d == Data([0, 2], [], [1], [], [], 4, 4) && r.c.user.UIdle? && r.c.poller.PIdle?
  {
    steps := Overtaken();
    steps := Then(INIT, steps, PollStore);
    steps := Then(INIT, steps, UserStore);
  }

  lemma EventInTheWindow() returns (steps: seq<Step>)
    ensures Legal(INIT, steps) && NoFailure(steps)
    ensures Run(INIT, steps) == State(
      INIT.c.(open := true, attached := true, armed := true, user := UPosted, poller := PEmpty), HalfSent())
  {
    steps := Window();
    steps := Then(INIT, steps, PollReport);
    steps := Then(INIT, steps, PollEvent);
    steps := Then(INIT, steps, PollSwapTwo);
  }

  /** And if the first level is empty at that moment, the poller hands the socket back to the users and
      switches write events off, and the user's rest is stored where nobody will look for it until
      somebody sends again. */
  lemma WindowStrandsARest() returns (steps: seq<Step>)
    ensures Legal(INIT, steps) && NoFailure(steps)
    ensures var r := Run(INIT, steps);
      && r.c.sendable && !EventualInterest(r) && r.c.flushes == 0 && r.c.user.UIdle? && r.c.poller.PIdle?
      && r.d.two == [1]
  {
    steps := EventInTheWindow();
    steps := Then(INIT, steps, PollTakeOne);
    steps := Then(INIT, steps, PollStop);
    steps := Then(INIT, steps, UserStore);
  }

  lemma DroppedInside() returns (steps: seq<Step>)
    ensures Legal(INIT, steps) && NoFailure(steps)
    ensures Run(INIT, steps) == State(INIT.c.(owner := ODropped, poller := PEmpty), INIT.d)
  {
    steps := BoundAndReported();
    steps := Then(INIT, steps, Lower(false));
    steps := Then(INIT, steps, Drop);
  }

  lemma BoundAgain() returns (steps: seq<Step>)
    ensures Legal(INIT, steps) && NoFailure(steps)
    ensures Run(INIT, steps) == State(INIT.c.(open := true, attaching := true, poller := PEmpty), INIT.d)
  {
    steps := DroppedInside();
    steps := Then(INIT, steps, SetFd);
    steps := Then(INIT, steps, Attach);
  }

  /** Binding again while the poller is inside a flush: it raises the flag for the new descriptor, which is
      then attached with write events on. */
  lemma RebindingRaisesLate() returns (steps: seq<Step>)
    ensures Legal(INIT, steps) && NoFailure(steps)
    ensures var r := Run(INIT, steps); Steady(r) && r.c.sendable && EventualInterest(r) && r.c.poller.PIdle?
  {
    steps := BoundAgain();
    steps := Then(INIT, steps, PollTakeOne);
    steps := Then(INIT, steps, PollStop);
    steps := Then(INIT, steps, PollAttach);
  }

  /** In the schedule alone: stopWritableEvent gets to its descriptor after one has been dropped and before the
      next is set. */
  predicate StopsBetween(open: bool, steps: seq<Step>)
    decreases |steps|
  {
    steps != [] &&
    match steps[0]
    case PollStop => !open || StopsBetween(open, steps[1..])
    case Drop => StopsBetween(false, steps[1..])
    case SetFd => StopsBetween(true, steps[1..])
    case _ => StopsBetween(open, steps[1..])
  }

  lemma Descriptor(s: State, step: Step)
    ensures Turn(s.c, s.d, step).open == if step.Drop? then false else if step.SetFd? then true else s.c.open
  {
  }

  lemma PollerStepFaults(c: Control, d: Data, step: Step)
    requires ByPoller(step)
    ensures Turn(c, d, step).poller.PFault? <==> step.PollStop? && !c.open
  {
  }

  lemma StepFaultsIff(s: State, step: Step)
    requires Enabled(s, step)
    ensures Turn(s.c, s.d, step).poller.PFault? <==> s.c.poller.PFault? || (step.PollStop? && !s.c.open)
  {
    if ByPoller(step) {
      assert !s.c.poller.PFault?;
      PollerStepFaults(s.c, s.d, step);
    } else {
      OthersLeavePoller(s, step);
    }
  }

  /** The poller uses a null descriptor, over every run, if and only if the schedule has such a step. */
  lemma {:induction false} FaultIff(s: State, steps: seq<Step>)
    requires Legal(s, steps)
    ensures Run(s, steps).c.poller.PFault? <==> s.c.poller.PFault? || StopsBetween(s.c.open, steps)
    decreases |steps|
  {
    if steps != [] {
      StepFaultsIff(s, steps[0]);
      Descriptor(s, steps[0]);
      FaultIff(Apply(s, steps[0]), steps[1..]);
    }
  }

  /** Closing there can leave stopWritableEvent without a descriptor. */
  lemma ClosingMeetsStop() returns (steps: seq<Step>)
    ensures Legal(INIT, steps) && Run(INIT, steps).c.poller.PFault?
  {
    steps := BoundAndReported();
    steps := Then(INIT, steps, PollTakeOne);
    steps := Then(INIT, steps, Lower(false));
    steps := Then(INIT, steps, Drop);
    steps := Then(INIT, steps, PollStop);
  }

  // ---- the socket as it is wired -----------------------------------------------------------------

  predicate Unsent(s: State) {
    !s.c.sendable && s.c.user.UIdle? && s.c.poller.PIdle? && s.d.wire == [] && s.d.one == Range(0, s.d.next)
  }

  lemma StepKeepsUnsent(s: State, step: Step)
    requires Unsent(s) && Enabled(s, step) && !ByPoller(step)
    ensures Unsent(Apply(s, step))
  {
    if step.Accept? {
      assert Range(0, s.d.next) + Range(s.d.next, s.d.next + step.n) == Range(0, s.d.next + step.n);
    }
  }

  /** `onWritable` is an empty function, so no write event reaches `flushData`; and then nothing ever
      raises `sendable_`: whatever the users do, and however often the socket is bound, no byte is sent and
      all of them stay queued. */
  lemma {:induction false} NothingSentWithoutWriteEvents(s: State, steps: seq<Step>)
    requires Unsent(s)
    requires Legal(s, steps) && forall i | 0 <= i < |steps| :: !ByPoller(steps[i])
    ensures Unsent(Run(s, steps))
    decreases |steps|
  {
    if steps != [] {
      StepKeepsUnsent(s, steps[0]);
      NothingSentWithoutWriteEvents(Apply(s, steps[0]), steps[1..]);
    }
  }
}
