/** The asynchronous log writer of `avctool/log/Log.h`: any number of threads append log entries
    under a mutex and post a permit; one thread waits for permits, swaps the whole list out and
    hands the entries to the channels.

    The semaphore is the atomic counting semaphore that `Semphore.RefinesCountingSemaphore`
    justifies. */
module AsyncLogWriter {

  type Log = nat

  /** Where the writing thread is in `run`. */
  datatype Place =
    | Testing                       // while (!exit_)
    | Waiting                       // inside semphore_.wait()
    | Holding                       // permit taken, list not swapped yet
    | Writing(rest: seq<Log>)       // handing out the swapped list
    | Left

  datatype State = State(
    pendding: seq<Log>,
    permits: nat,
    pushing: nat,                   // writers between their push and their post
    exit: bool,
    exiting: bool,                  // exit() has set the flag but not posted yet
    at: Place,
    accepted: seq<Log>,             // every entry pushed under the lock, in lock order
    delivered: seq<Log>)            // every entry handed to the channels, in order

  datatype Step =
    | Write(log: Log)               // writeLog, the locked push
    | Post                          // writeLog, the post
    | SetExit                       // exit(): exit_ = true
    | ExitPost                      // exit(): the post
    | Test
    | Wake
    | Swap
    | Deliver
    | Done

  const INIT: State := State([], 0, 0, false, false, Testing, [], [])

  predicate Enabled(s: State, step: Step) {
    match step
    case Write(_) => true
    case Post => s.pushing > 0
    case SetExit => !s.exit
    case ExitPost => s.exiting
    case Test => s.at.Testing?
    case Wake => s.at.Waiting? && s.permits > 0
    case Swap => s.at.Holding?
    case Deliver => s.at.Writing? && s.at.rest != []
    case Done => s.at.Writing? && s.at.rest == []
  }

  function Apply(s: State, step: Step): State
    requires Enabled(s, step)
  {
    match step
    case Write(log) => s.(pendding := s.pendding + [log], pushing := s.pushing + 1, accepted := s.accepted + [log])
    case Post => s.(pushing := s.pushing - 1, permits := s.permits + 1)
    case SetExit => s.(exit := true, exiting := true)
    case ExitPost => s.(exiting := false, permits := s.permits + 1)
    case Test => s.(at := if s.exit then Left else Waiting)
    case Wake => s.(at := Holding, permits := s.permits - 1)
    case Swap => if s.pendding == [] then s.(at := Testing) else s.(at := Writing(s.pendding), pendding := [])
    case Deliver => s.(at := Writing(s.at.rest[1..]), delivered := s.delivered + [s.at.rest[0]])
    case Done => s.(at := Testing)
  }

  predicate Legal(s: State, steps: seq<Step>)
    decreases |steps|
  {
    steps == [] || (Enabled(s, steps[0]) && Legal(Apply(s, steps[0]), steps[1..]))
  }

  function Run(s: State, steps: seq<Step>): State
    requires Legal(s, steps)
    decreases |steps|
  {
    if steps == [] then s else Run(Apply(s, steps[0]), steps[1..])
  }

  function InHand(s: State): seq<Log> {
    if s.at.Writing? then s.at.rest else []
  }

  /** Nothing is lost, repeated or reordered. */
  predicate Kept(s: State) {
    s.accepted == s.delivered + (InHand(s) + s.pendding)
  }

  /** Every waiting entry is covered by a permit: one that is free, one the thread already holds, or
      one a writer is about to post. */
  predicate Covered(s: State) {
    && |s.pendding| <= s.permits + s.pushing + (if s.at.Holding? then 1 else 0)
    && (s.exiting ==> s.exit)
    && (s.at.Left? ==> s.exit)
    && (s.exit && !s.exiting && s.at.Waiting? ==> s.permits > 0)
  }

  predicate Inv(s: State) {
    Kept(s) && Covered(s)
  }

  lemma StepKeeps(s: State, step: Step)
    requires Kept(s) && Enabled(s, step)
    ensures Kept(Apply(s, step))
  {
    match step
    case Write(log) => Regroup(s.delivered, InHand(s), s.pendding, [log]);
    case Swap =>
      assert [] + s.pendding == s.pendding && s.pendding + [] == s.pendding;
    case Deliver => MoveFirst(s.delivered, s.at.rest, s.pendding);
    case _ =>
  }

  lemma Regroup(a: seq<Log>, b: seq<Log>, c: seq<Log>, d: seq<Log>)
    ensures a + (b + c) + d == a + (b + (c + d))
  {
  }

  lemma MoveFirst(a: seq<Log>, b: seq<Log>, c: seq<Log>)
    requires b != []
    ensures a + (b + c) == (a + [b[0]]) + (b[1..] + c)
  {
    assert b == [b[0]] + b[1..];
  }

  lemma StepKeepsInv(s: State, step: Step)
    requires Inv(s) && Enabled(s, step)
    ensures Inv(Apply(s, step))
  {
    StepKeeps(s, step);
  }

  lemma {:induction false} InvAlways(s: State, steps: seq<Step>)
    requires Inv(s) && Legal(s, steps)
    ensures Inv(Run(s, steps))
    decreases |steps|
  {
    if steps != [] {
      StepKeepsInv(s, steps[0]);
      InvAlways(Apply(s, steps[0]), steps[1..]);
    }
  }

  /** The channels always see a prefix of what was accepted, and an entry never sits in the list
      of a thread that waits without a permit free or about to be posted. */
  lemma DeliveredIsPrefix(steps: seq<Step>)
    requires Legal(INIT, steps)
    ensures var s := Run(INIT, steps);
      && s.delivered <= s.accepted
      && (s.at.Waiting? && s.pendding != [] ==> s.permits > 0 || s.pushing > 0)
      && (s.at.Waiting? && s.exit ==> s.permits > 0 || s.exiting)
  {
    InvAlways(INIT, steps);
    var s := Run(INIT, steps);
  }

  /** The thread has passed its test of `exit_` and will still look at the list. */
  predicate WillSwap(s: State) {
    s.at.Waiting? || s.at.Holding?
  }

  /** What `exit` loses, exactly.  Take any state in which `exit_` has just become true, and let
      everything run on without further log calls until the thread has left: every accepted entry
      was delivered if and only if, when the flag was set, the list was empty or the thread was
      between its loop test and its swap. */
  lemma {:induction false} ExitDeliversAllIff(s: State, steps: seq<Step>)
    requires Inv(s) && s.exit && Legal(s, steps) && Run(s, steps).at.Left?
    requires forall i | 0 <= i < |steps| :: !steps[i].Write?
    ensures Run(s, steps).delivered == Run(s, steps).accepted <==> s.pendding == [] || WillSwap(s)
    decreases |steps|
  {
    if steps == [] {
      assert s.accepted == s.delivered + ([] + s.pendding);
    } else {
      StepKeepsInv(s, steps[0]);
      ExitDeliversAllIff(Apply(s, steps[0]), steps[1..]);
    }
  }

  /** And it does happen: an entry accepted while the thread is writing the previous one is dropped
      if `exit` comes before the thread is back at its test. */
  lemma ExitMayDropAnEntry() returns (steps: seq<Step>)
    ensures Legal(INIT, steps)
    ensures var s := Run(INIT, steps); s.at.Left? && s.pushing == 0 && s.accepted == [1, 2] && s.delivered == [1]
  {
    steps := Then(INIT, [], Write(1));
    steps := Then(INIT, steps, Post);
    steps := Then(INIT, steps, Test);
    steps := Then(INIT, steps, Wake);
    steps := Then(INIT, steps, Swap);
    steps := Then(INIT, steps, Write(2));
    steps := Then(INIT, steps, Post);
    steps := Then(INIT, steps, Deliver);
    steps := Then(INIT, steps, SetExit);
    steps := Then(INIT, steps, ExitPost);
    steps := Then(INIT, steps, Done);
    steps := Then(INIT, steps, Test);
  }

  /** One more step at the end of a run. */
  lemma {:induction false} Then(s: State, steps: seq<Step>, step: Step) returns (longer: seq<Step>)
    requires Legal(s, steps) && Enabled(Run(s, steps), step)
    ensures longer == steps + [step]
    ensures Legal(s, longer) && Run(s, longer) == Apply(Run(s, steps), step)
    decreases |steps|
  {
    longer := steps + [step];
    if steps == [] {
      assert longer[1..] == [];
    } else {
      var tail := Then(Apply(s, steps[0]), steps[1..], step);
      assert longer[1..] == tail;
    }
  }

  lemma OneFurther(before: seq<Log>, tmp: seq<Log>, i: nat)
    requires i < |tmp|
    ensures tmp[i..][0] == tmp[i] && tmp[i..][1..] == tmp[i + 1..]
    ensures before + tmp[..i] + [tmp[i]] == before + tmp[..i + 1]
  {
  }

  // ---- the writer's own code ---------------------------------------------------------------------

  /** The members of the writer; every method is one step of the machine, or several that the writing
      thread takes on its own local list. */
  class Writer {
    var pendding: seq<Log>
    var exit: bool
    var permits: nat                // of semphore_
    var channel: seq<Log>           // what writeLogToChannels was called with, in order
    ghost var state: State

    ghost predicate Valid()
      reads this
    {
      && Inv(state)
      && state.pendding == pendding && state.exit == exit && state.permits == permits && state.delivered == channel
    }

    constructor ()
      ensures Valid() && state == INIT
    {
      pendding, exit, permits, channel := [], false, 0, [];
      state := INIT;
    }

    /** `writeLog` of a thread that is not interrupted between its push and its post. */
    method WriteLog(log: Log)
      requires Valid()
      modifies this`pendding, this`permits, this`state
      ensures Valid() && state == Apply(Apply(old(state), Write(log)), Post)
    {
      StepKeepsInv(state, Write(log));
      state := Apply(state, Write(log));
      pendding := pendding + [log];
      StepKeepsInv(state, Post);
      state := Apply(state, Post);
      permits := permits + 1;
    }

    /** The locked block of `run`: `tmp` is the swapped list, and an empty one means `continue`. */
    method SwapOut() returns (tmp: seq<Log>)
      requires Valid() && state.at.Holding?
      modifies this`pendding, this`state
      ensures Valid() && state == Apply(old(state), Swap)
      ensures tmp == old(pendding) && pendding == []
      ensures state.at == if tmp == [] then Testing else Writing(tmp)
    {
      StepKeepsInv(state, Swap);
      state := Apply(state, Swap);
      tmp := pendding;
      pendding := [];
    }

    /** The loop of `run` over the swapped list. */
    method WriteOut(tmp: seq<Log>)
      requires Valid() && state.at == Writing(tmp)
      modifies this`channel, this`state
      ensures Valid() && state.at == Testing && channel == old(channel) + tmp
      ensures state == old(state).(at := Testing, delivered := channel)
    {
      var i := 0;
      while i < |tmp|
        invariant 0 <= i <= |tmp| && Valid()
        invariant channel == old(channel) + tmp[..i]
        invariant state == old(state).(at := Writing(tmp[i..]), delivered := channel)
      {
        OneFurther(old(channel), tmp, i);
        StepKeepsInv(state, Deliver);
        state := Apply(state, Deliver);
        channel := channel + [tmp[i]];
        i := i + 1;
      }
      StepKeepsInv(state, Done);
      state := Apply(state, Done);
    }

    /** `exit`, apart from the join. */
    method Exit()
      requires Valid() && !exit
      modifies this`exit, this`permits, this`state
      ensures Valid() && state == Apply(Apply(old(state), SetExit), ExitPost)
    {
      StepKeepsInv(state, SetExit);
      state := Apply(state, SetExit);
      exit := true;
      StepKeepsInv(state, ExitPost);
      state := Apply(state, ExitPost);
      permits := permits + 1;
    }
  }
}
