/** The task queue of `avctool/poller/EventPoller.cc`: any thread pushes a task under a lock and
    then writes one byte into a pipe; the loop, woken by the pipe, drains it, swaps the queue out
    and runs the batch. */
module PollerTasks {
  import opened Deque

  /** What running a task does to the loop: `Quit` is the task that `shutdown` posts, which throws
      `Exit` unless the loop has already been told to stop; `Throw` is any other exception. */
  datatype Kind = Plain | Throw | Quit

  datatype Task = Task(id: nat, kind: Kind)

  /** Where the loop thread is. */
  datatype Place =
    | Testing                         // while (!exit_)
    | Polling                         // blocked in, or handling the result of, the poll call
    | Draining                        // onPipeEvent, reading the pipe
    | Swapping                        // onPipeEvent, pipe read to the end, queue not locked yet
    | Running(rest: seq<Task>)        // onPipeEvent, working through the swapped batch
    | Stopped                         // runLoop has returned

  datatype State = State(
    tasks: seq<Task>,
    pipe: nat,                        // bytes in the pipe
    pushing: nat,                     // producers between their push and their write
    at: Place,
    exit: bool,
    cancelled: set<Task>,
    done: seq<Task>,                  // tasks the batch loop has passed, in order
    executed: seq<Task>)              // those of them that were live and ran

  datatype Step =
    | Submit(push: Push<Task>)        // async / async_first under tasks_mutex_
    | WritePipe                       // the byte of a producer
    | Cancel(task: Task)
    | Test
    | WakeOther                       // poll returns without the pipe: timeout or another descriptor
    | WakePipe                        // poll reports the pipe as readable
    | ReadPipe                        // read() returns at most 1024 bytes
    | PipeEmpty                       // read() reports EAGAIN
    | PipeBroken(reopened: bool)      // read() reports end of file or another error: re-attach, go on;
                                      // the pipe is made anew unless its descriptors still look valid
    | Swap
    | RunNext
    | BatchDone

  const READ_SIZE: nat := 1024

  const INIT: State := State([], 0, 0, Testing, false, {}, [], [])

  predicate Enabled(s: State, step: Step) {
    match step
    case Submit(_) => true
    case WritePipe => s.pushing > 0
    case Cancel(_) => true
    case Test => s.at.Testing?
    case WakeOther => s.at.Polling?
    case WakePipe => s.at.Polling? && s.pipe > 0
    case ReadPipe => s.at.Draining? && s.pipe > 0
    case PipeEmpty => s.at.Draining? && s.pipe == 0
    case PipeBroken(_) => s.at.Draining?
    case Swap => s.at.Swapping?
    case RunNext => s.at.Running? && s.at.rest != []
    case BatchDone => s.at.Running? && s.at.rest == []
  }

  function Apply(s: State, step: Step): State
    requires Enabled(s, step)
  {
    match step
    case Submit(Back(t)) => s.(tasks := s.tasks + [t], pushing := s.pushing + 1)
    case Submit(Front(t)) => s.(tasks := [t] + s.tasks, pushing := s.pushing + 1)
    case WritePipe => s.(pushing := s.pushing - 1, pipe := s.pipe + 1)
    case Cancel(t) => s.(cancelled := s.cancelled + {t})
    case Test => s.(at := if s.exit then Stopped else Polling)
    case WakeOther => s.(at := Testing)
    case WakePipe => s.(at := Draining)
    case ReadPipe => s.(pipe := if s.pipe > READ_SIZE then s.pipe - READ_SIZE else 0)
    case PipeEmpty => s.(at := Swapping)
    case PipeBroken(reopened) => s.(at := Swapping, pipe := if reopened then 0 else s.pipe)
    case Swap => if s.tasks == [] then s.(at := Testing) else s.(at := Running(s.tasks), tasks := [])
    case RunNext =>
      var t := s.at.rest[0];
      var s' := s.(at := Running(s.at.rest[1..]), done := s.done + [t]);
      if t in s.cancelled then s' else s'.(executed := s.executed + [t], exit := s.exit || t.kind.Quit?)
    case BatchDone => s.(at := Testing)
  }

  predicate Legal(s: State, steps: seq<Step>)
    decreases |steps|
  {
    steps == [] || (Enabled(s, steps[0]) && Legal(Apply(s, steps[0]), steps[1..]))
  }

  function Run(s: State, steps: seq<Step>): State
    requires Legal(s, steps)
    decreases |steps|
  {
    if steps == [] then s else Run(Apply(s, steps[0]), steps[1..])
  }

  // ---- no lost wake-up -------------------------------------------------------------------------

  /** A queued task always has something on the way that will make the loop look. */
  predicate Wakeful(s: State) {
    s.tasks != [] && !s.at.Stopped? ==> s.pipe > 0 || s.pushing > 0 || s.at.Draining? || s.at.Swapping?
  }

  /** For any number of producers and any interleaving with the loop: a task queued while no
      producer is on its way to the pipe means that the poll call is not blocked for good. */
  lemma {:induction false} NoLostWakeup(s: State, steps: seq<Step>)
    requires Wakeful(s) && Legal(s, steps)
    ensures var r := Run(s, steps);
      && Wakeful(r)
      && (r.at.Polling? && r.tasks != [] && r.pushing == 0 ==> Enabled(r, WakePipe))
    decreases |steps|
  {
    if steps != [] {
      NoLostWakeup(Apply(s, steps[0]), steps[1..]);
    }
  }

  /** A step the loop takes on its own towards emptying the queue. */
  predicate Progress(step: Step) {
    step.WakePipe? || step.ReadPipe? || step.PipeEmpty? || step.Swap? || step.RunNext?
  }

  predicate AllProgress(steps: seq<Step>) {
    forall i | 0 <= i < |steps| :: Progress(steps[i])
  }

  /** The wake-up is enough: from a blocked poll call, with tasks queued and no producer left, the
      loop alone passes all of them in queue order, however many bytes wait in the pipe. */
  lemma BlockedLoopDelivers(s: State) returns (steps: seq<Step>)
    requires Wakeful(s) && s.at.Polling? && s.tasks != [] && s.pushing == 0
    ensures Legal(s, steps) && AllProgress(steps)
    ensures Run(s, steps).done == s.done + s.tasks && Run(s, steps).tasks == []
  {
    steps := Then(s, [], WakePipe);
    steps := Drain(s, steps);
    steps := Then(s, steps, Swap);
    steps := FinishBatch(s, steps);
  }

  lemma {:induction false} Drain(s: State, steps: seq<Step>) returns (longer: seq<Step>)
    requires Legal(s, steps) && AllProgress(steps) && Run(s, steps).at.Draining?
    ensures Legal(s, longer) && AllProgress(longer)
    ensures Run(s, longer) == Run(s, steps).(pipe := 0, at := Swapping)
    decreases Run(s, steps).pipe
  {
    if Run(s, steps).pipe == 0 {
      longer := Then(s, steps, PipeEmpty);
    } else {
      longer := Then(s, steps, ReadPipe);
      longer := Drain(s, longer);
    }
  }

  lemma {:induction false} FinishBatch(s: State, steps: seq<Step>) returns (longer: seq<Step>)
    requires Legal(s, steps) && AllProgress(steps) && Run(s, steps).at.Running?
    ensures Legal(s, longer) && AllProgress(longer)
    ensures Run(s, longer).tasks == Run(s, steps).tasks
    ensures Run(s, longer).done == Run(s, steps).done + Run(s, steps).at.rest
    decreases |Run(s, steps).at.rest|
  {
    var r := Run(s, steps);
    if r.at.rest == [] {
      longer := steps;
      assert r.done + [] == r.done;
    } else {
      longer := Then(s, steps, RunNext);
      longer := FinishBatch(s, longer);
      assert r.done + [r.at.rest[0]] + r.at.rest[1..] == r.done + r.at.rest;
    }
  }

  /** One more step at the end of a run. */
  lemma {:induction false} Then(s: State, steps: seq<Step>, step: Step) returns (longer: seq<Step>)
    requires Legal(s, steps) && Enabled(Run(s, steps), step)
    ensures longer == steps + [step]
    ensures Legal(s, longer) && Run(s, longer) == Apply(Run(s, steps), step)
    decreases |steps|
  {
    longer := steps + [step];
    if steps == [] {
      assert longer[1..] == [];
    } else {
      var tail := Then(Apply(s, steps[0]), steps[1..], step);
      assert longer[1..] == tail;
    }
  }

  // ---- conservation and order ------------------------------------------------------------------

  function Batch(s: State): seq<Task> {
    if s.at.Running? then s.at.rest else []
  }

  /** Every task ever posted, in the order in which the loop passes them. */
  function Line(s: State): seq<Task> {
    s.done + Batch(s) + s.tasks
  }

  /** The tasks a run posts, in posting order, and what could not be overtaken by then. */
  function Postings(s: State, steps: seq<Step>): seq<Arrival<Task>>
    requires Legal(s, steps)
    decreases |steps|
  {
    if steps == [] then []
    else
      var rest := Postings(Apply(s, steps[0]), steps[1..]);
      if steps[0].Submit? then [Arrival(|s.done + Batch(s)|, steps[0].push)] + rest else rest
  }

  function Posted(s: State, steps: seq<Step>): seq<Task>
    requires Legal(s, steps)
  {
    Items(Postings(s, steps))
  }

  lemma MoveFirst(a: seq<Task>, b: seq<Task>, c: seq<Task>)
    requires b != []
    ensures a + b + c == (a + [b[0]]) + b[1..] + c
  {
    assert b == [b[0]] + b[1..];
  }

  /** Only posting changes the line.  `async_first` overtakes the tasks still in the queue, never
      one of the batch already swapped out. */
  lemma StepLine(s: State, step: Step)
    requires Enabled(s, step)
    ensures var s' := Apply(s, step);
      && Line(s') == (if step.Submit? then LineUp(Line(s), |s.done + Batch(s)|, step.push) else Line(s))
      && s.done <= s'.done
  {
    match step
    case Submit(push) =>
      var passed := s.done + Batch(s);
      assert passed + (s.tasks + [push.item]) == (passed + s.tasks) + [push.item];
      assert passed + ([push.item] + s.tasks) == passed + [push.item] + s.tasks;
    case Swap =>
      assert s.done + [] + s.tasks == s.done + s.tasks + [];
    case RunNext =>
      MoveFirst(s.done, s.at.rest, s.tasks);
    case _ =>
  }

  /** The order of the tasks is what the postings make of it, and tasks once passed stay passed. */
  lemma {:induction false} LineGrows(s: State, steps: seq<Step>)
    requires Legal(s, steps)
    ensures Fits(|Line(s)|, Postings(s, steps))
    ensures Line(Run(s, steps)) == Grow(Line(s), Postings(s, steps)) && s.done <= Run(s, steps).done
    decreases |steps|
  {
    if steps != [] {
      StepLine(s, steps[0]);
      LineGrows(Apply(s, steps[0]), steps[1..]);
    }
  }

  /** Posted = passed + current batch + queue, with multiplicity. */
  lemma TasksConserved(s: State, steps: seq<Step>)
    requires Legal(s, steps)
    ensures multiset(Line(Run(s, steps))) == multiset(Line(s)) + multiset(Posted(s, steps))
  {
    LineGrows(s, steps);
    GrowKeepsAll(Line(s), Postings(s, steps));
  }

  /** Without `async_first`, tasks are passed in posting order. */
  lemma PostingOrder(s: State, steps: seq<Step>)
    requires Legal(s, steps) && OnlyBack(Postings(s, steps))
    ensures Line(Run(s, steps)) == Line(s) + Posted(s, steps)
  {
    LineGrows(s, steps);
    BackKeepsOrder(Line(s), Postings(s, steps));
  }

  /** The task a step skips because it was cancelled by the time the loop reached it. */
  function SkippedBy(s: State, step: Step): seq<Task>
    requires Enabled(s, step)
  {
    if step.RunNext? && s.at.rest[0] in s.cancelled then [s.at.rest[0]] else []
  }

  function Skipped(s: State, steps: seq<Step>): seq<Task>
    requires Legal(s, steps)
    decreases |steps|
  {
    if steps == [] then [] else SkippedBy(s, steps[0]) + Skipped(Apply(s, steps[0]), steps[1..])
  }

  lemma StepRunsOrSkips(s: State, step: Step)
    requires Enabled(s, step)
    ensures var s' := Apply(s, step);
      multiset(s'.done) + multiset(s.executed)
         == multiset(s.done) + multiset(s'.executed) + multiset(SkippedBy(s, step))
  {
  }

  lemma Chain(d0: multiset<Task>, e0: multiset<Task>, k0: multiset<Task>, d1: multiset<Task>, e1: multiset<Task>,
              k1: multiset<Task>, d2: multiset<Task>, e2: multiset<Task>)
    requires d1 + e0 == d0 + e1 + k0 && d2 + e1 == d1 + e2 + k1
    ensures d2 + e0 == d0 + e2 + (k0 + k1)
  {
    forall t ensures (d2 + e0)[t] == (d0 + e2 + (k0 + k1))[t] {
      assert (d1 + e0)[t] == (d0 + e1 + k0)[t];
      assert (d2 + e1)[t] == (d1 + e2 + k1)[t];
    }
  }

  /** Executed and skipped together are the tasks passed. */
  lemma {:induction false} PassedAreRunOrSkipped(s: State, steps: seq<Step>)
    requires Legal(s, steps)
    ensures var r := Run(s, steps);
      && multiset(r.done) + multiset(s.executed)
         == multiset(s.done) + multiset(r.executed) + multiset(Skipped(s, steps))
    decreases |steps|
  {
    if steps != [] {
      var s1 := Apply(s, steps[0]);
      var r := Run(s, steps);
      StepRunsOrSkips(s, steps[0]);
      PassedAreRunOrSkipped(s1, steps[1..]);
      Chain(multiset(s.done), multiset(s.executed), multiset(SkippedBy(s, steps[0])),
            multiset(s1.done), multiset(s1.executed), multiset(Skipped(s1, steps[1..])),
            multiset(r.done), multiset(r.executed));
    }
  }

  /** Only cancelled tasks are skipped. */
  lemma {:induction false} SkippedWereCancelled(s: State, steps: seq<Step>)
    requires Legal(s, steps)
    ensures s.cancelled <= Run(s, steps).cancelled
    ensures forall t | t in Skipped(s, steps) :: t in Run(s, steps).cancelled
    decreases |steps|
  {
    if steps != [] {
      SkippedWereCancelled(Apply(s, steps[0]), steps[1..]);
    }
  }

  /** Cancelling is final: a task cancelled before the loop reaches it never runs. */
  lemma {:induction false} CancelledNeverRuns(s: State, steps: seq<Step>, t: Task)
    requires Legal(s, steps) && t in s.cancelled
    ensures multiset(Run(s, steps).executed)[t] == multiset(s.executed)[t]
    decreases |steps|
  {
    if steps != [] {
      CancelledNeverRuns(Apply(s, steps[0]), steps[1..], t);
    }
  }

  lemma PassedWerePosted(steps: seq<Step>)
    requires Legal(INIT, steps)
    ensures multiset(Run(INIT, steps).done) <= multiset(Posted(INIT, steps))
  {
    var r := Run(INIT, steps);
    TasksConserved(INIT, steps);
    assert Line(INIT) == [];
    Assoc(r.done, Batch(r), r.tasks);
    Prefix(r.done, Batch(r) + r.tasks);
  }

  /** What ran is part of what was posted. */
  lemma OnlyPostedRuns(steps: seq<Step>)
    requires Legal(INIT, steps)
    ensures multiset(Run(INIT, steps).executed) <= multiset(Posted(INIT, steps))
  {
    var r := Run(INIT, steps);
    PassedWerePosted(steps);
    PassedAreRunOrSkipped(INIT, steps);
    Bags(multiset(r.executed), multiset(Skipped(INIT, steps)), multiset(r.done), multiset(Posted(INIT, steps)));
  }

  lemma Bags(executed: multiset<Task>, skipped: multiset<Task>, done: multiset<Task>, posted: multiset<Task>)
    requires done + multiset{} == multiset{} + executed + skipped && done <= posted
    ensures executed <= posted
  {
    forall t ensures executed[t] <= posted[t] {
      assert (done + multiset{})[t] == (multiset{} + executed + skipped)[t];
    }
  }

  /** No task runs twice if none is posted twice. */
  lemma RunsAtMostOnce(steps: seq<Step>)
    requires Legal(INIT, steps) && NoDuplicates(Posted(INIT, steps))
    ensures NoDuplicates(Run(INIT, steps).executed)
  {
    OnlyPostedRuns(steps);
    PartDistinct(Run(INIT, steps).executed, Posted(INIT, steps));
  }

  // ---- shutdown --------------------------------------------------------------------------------

  /** Once `exit_` is set, the loop finishes the batch it is in and nothing else. */
  predicate Ending(s: State) {
    && (s.exit ==> !s.at.Polling? && !s.at.Draining? && !s.at.Swapping?)
    && (s.at.Stopped? ==> s.exit)
    && (s.exit <==> exists t :: t in s.executed && t.kind.Quit?)
  }

  lemma StepKeepsEnding(s: State, step: Step)
    requires Ending(s) && Enabled(s, step)
    ensures Ending(Apply(s, step))
  {
    var s' := Apply(s, step);
    if step.RunNext? {
      var t := s.at.rest[0];
      assert forall x :: x in s.executed ==> x in s'.executed;
      assert t !in s.cancelled ==> t in s'.executed;
    }
  }

  /** The loop stops only because a live `Quit` ran; and it stops having passed exactly the tasks
      up to the end of the batch that held it.  Whatever is posted after that swap is never run. */
  lemma {:induction false} QuitFinishesItsBatch(s: State, steps: seq<Step>)
    requires Ending(s) && s.exit && Legal(s, steps)
    ensures var r := Run(s, steps);
      && Ending(r) && r.exit
      && r.done + Batch(r) == s.done + Batch(s)
      && (r.at.Stopped? ==> r.done == s.done + Batch(s))
    decreases |steps|
  {
    if steps == [] {
      assert s.done + [] == s.done;
    } else {
      var s1 := Apply(s, steps[0]);
      StepKeepsEnding(s, steps[0]);
      assert s1.done + Batch(s1) == s.done + Batch(s) by {
        if steps[0].RunNext? {
          assert s.at.rest == [s.at.rest[0]] + s.at.rest[1..];
        }
      }
      QuitFinishesItsBatch(s1, steps[1..]);
    }
  }

  lemma {:induction false} EndingAlways(s: State, steps: seq<Step>)
    requires Ending(s) && Legal(s, steps)
    ensures Ending(Run(s, steps))
    decreases |steps|
  {
    if steps != [] {
      StepKeepsEnding(s, steps[0]);
      EndingAlways(Apply(s, steps[0]), steps[1..]);
    }
  }

  /** The loop returns only after a live `Quit` has run, and then nothing in its hands is left. */
  lemma StoppedMeansQuitRan(steps: seq<Step>)
    requires Legal(INIT, steps)
    ensures var r := Run(INIT, steps);
      r.at.Stopped? ==> r.exit && (exists t :: t in r.executed && t.kind.Quit?) && Line(r) == r.done + r.tasks
  {
    EndingAlways(INIT, steps);
  }

  // ---- the poller's own code -------------------------------------------------------------------

  /** What a task does to the queue while it runs: the tasks it cancels and, with `may_sync` false, posts.
      What it runs at once belongs to the task itself. */
  datatype Effect = Effect(cancels: set<Task>, posts: seq<Push<Task>>)

  /** What working through a batch comes to. */
  datatype Outcome = Outcome(executed: seq<Task>, cancelled: set<Task>, posts: seq<Push<Task>>)

  /** Each task is looked at when its turn comes, so one can still cancel a later one. */
  function Work(batch: seq<Task>, cancelled: set<Task>, effects: Task -> Effect): Outcome {
    if batch == [] then Outcome([], cancelled, [])
    else if batch[0] in cancelled then Work(batch[1..], cancelled, effects)
    else
      var e := effects(batch[0]);
      var rest := Work(batch[1..], cancelled + e.cancels, effects);
      Outcome([batch[0]] + rest.executed, rest.cancelled, e.posts + rest.posts)
  }

  function PushOne(q: seq<Task>, push: Push<Task>): seq<Task> {
    match push
    case Back(t) => q + [t]
    case Front(t) => [t] + q
  }

  function PushAll(q: seq<Task>, pushes: seq<Push<Task>>): seq<Task>
    decreases |pushes|
  {
    if pushes == [] then q else PushAll(PushOne(q, pushes[0]), pushes[1..])
  }

  lemma {:induction false} PushAllAppend(q: seq<Task>, a: seq<Push<Task>>, b: seq<Push<Task>>)
    ensures PushAll(q, a + b) == PushAll(PushAll(q, a), b)
    decreases |a|
  {
    if a == [] {
      assert a + b == b;
    } else {
      assert (a + b)[1..] == a[1..] + b;
      PushAllAppend(PushOne(q, a[0]), a[1..], b);
    }
  }

  predicate Quits(batch: seq<Task>) {
    exists t :: t in batch && t.kind.Quit?
  }

  lemma QuitsFirst(t: Task, rest: seq<Task>)
    ensures Quits([t] + rest) <==> t.kind.Quit? || Quits(rest)
  {
    if u :| u in rest && u.kind.Quit? {
      assert u in [t] + rest;
    }
    assert t in [t] + rest;
  }

  /** How a read of the pipe ends; `Fine` is what there is, or EAGAIN. */
  datatype Read = Fine | Broken(reopened: bool)

  /** The bytes left when the loop over the results is over; results not listed are fine. */
  function Drained(pipe: nat, results: seq<Read>): nat
    decreases pipe
  {
    if results != [] && results[0].Broken? then if results[0].reopened then 0 else pipe
    else if pipe == 0 then 0
    else Drained(if pipe > READ_SIZE then pipe - READ_SIZE else 0, if results == [] then [] else results[1..])
  }

  /** One run after another. */
  lemma {:induction false} InSequence(s: State, first: seq<Step>, second: seq<Step>)
    requires Legal(s, first) && Legal(Run(s, first), second)
    ensures Legal(s, first + second) && Run(s, first + second) == Run(Run(s, first), second)
    decreases |first|
  {
    if first == [] {
      assert first + second == second;
    } else {
      assert (first + second)[1..] == first[1..] + second;
      InSequence(Apply(s, first[0]), first[1..], second);
    }
  }

  lemma {:induction false} CancelAll(s: State, tasks: set<Task>) returns (steps: seq<Step>)
    ensures Legal(s, steps) && Run(s, steps) == s.(cancelled := s.cancelled + tasks)
    decreases |tasks|
  {
    if tasks == {} {
      steps := [];
      assert s.cancelled + tasks == s.cancelled;
    } else {
      var t :| t in tasks;
      var rest := CancelAll(Apply(s, Cancel(t)), tasks - {t});
      steps := [Cancel(t)] + rest;
      assert steps[1..] == rest;
      assert s.cancelled + {t} + (tasks - {t}) == s.cancelled + tasks;
    }
  }

  lemma PostOne(s: State, push: Push<Task>) returns (steps: seq<Step>)
    ensures Legal(s, steps) && Run(s, steps) == s.(tasks := PushOne(s.tasks, push), pipe := s.pipe + 1)
  {
    var s1 := Apply(s, Submit(push));
    var write := [WritePipe];
    assert write[1..] == [];
    assert Legal(s1, write) && Run(s1, write) == Run(Apply(s1, WritePipe), []);
    steps := [Submit(push)] + write;
    assert steps[1..] == write;
  }

  lemma {:induction false} PostAll(s: State, pushes: seq<Push<Task>>) returns (steps: seq<Step>)
    ensures Legal(s, steps)
    ensures Run(s, steps) == s.(tasks := PushAll(s.tasks, pushes), pipe := s.pipe + |pushes|)
    decreases |pushes|
  {
    if pushes == [] {
      steps := [];
    } else {
      var first := PostOne(s, pushes[0]);
      var rest := PostAll(Run(s, first), pushes[1..]);
      steps := first + rest;
      InSequence(s, first, rest);
    }
  }

  /** One live task of the batch, with what it does to the queue. */
  lemma RunOne(s: State, e: Effect) returns (steps: seq<Step>)
    requires Enabled(s, RunNext) && s.at.rest[0] !in s.cancelled
    ensures Legal(s, steps)
    ensures var t := s.at.rest[0];
      Run(s, steps) == s.(at := Running(s.at.rest[1..]), done := s.done + [t], executed := s.executed + [t],
                          exit := s.exit || t.kind.Quit?, cancelled := s.cancelled + e.cancels,
                          tasks := PushAll(s.tasks, e.posts), pipe := s.pipe + |e.posts|)
  {
    var s1 := Apply(s, RunNext);
    var cancels := CancelAll(s1, e.cancels);
    var s2 := Run(s1, cancels);
    var posts := PostAll(s2, e.posts);
    InSequence(s1, cancels, posts);
    steps := [RunNext] + (cancels + posts);
    assert steps[1..] == cancels + posts;
  }

  /** The state when a batch is over, by what its work came to. */
  function AfterWork(s: State, w: Outcome): State
    requires s.at.Running?
  {
    s.(at := Testing, done := s.done + s.at.rest, executed := s.executed + w.executed, exit := s.exit || Quits(w.executed),
       cancelled := w.cancelled, tasks := PushAll(s.tasks, w.posts), pipe := s.pipe + |w.posts|)
  }

  lemma SkipFirst(s: State, w: Outcome)
    requires Enabled(s, RunNext) && s.at.rest[0] in s.cancelled
    ensures AfterWork(Apply(s, RunNext), w) == AfterWork(s, w)
  {
    assert s.done + [s.at.rest[0]] + s.at.rest[1..] == s.done + s.at.rest;
  }

  lemma RunFirst(s: State, s1: State, e: Effect, rest: Outcome)
    requires Enabled(s, RunNext)
    requires var t := s.at.rest[0];
      s1 == s.(at := Running(s.at.rest[1..]), done := s.done + [t], executed := s.executed + [t],
               exit := s.exit || t.kind.Quit?, cancelled := s.cancelled + e.cancels,
               tasks := PushAll(s.tasks, e.posts), pipe := s.pipe + |e.posts|)
    ensures var w := Outcome([s.at.rest[0]] + rest.executed, rest.cancelled, e.posts + rest.posts);
      AfterWork(s1, rest) == AfterWork(s, w)
  {
    var t := s.at.rest[0];
    assert s.done + [t] + s.at.rest[1..] == s.done + s.at.rest;
    assert s.executed + [t] + rest.executed == s.executed + ([t] + rest.executed);
    QuitsFirst(t, rest.executed);
    PushAllAppend(s.tasks, e.posts, rest.posts);
  }

  /** Between its swap and its return, with no other thread about, the batch loop has a run of the machine
      that comes to exactly `Work`. */
  lemma {:induction false} BatchIsWork(s: State, effects: Task -> Effect) returns (steps: seq<Step>)
    requires s.at.Running?
    ensures Legal(s, steps) && Run(s, steps) == AfterWork(s, Work(s.at.rest, s.cancelled, effects))
    decreases |s.at.rest|
  {
    if s.at.rest == [] {
      steps := [BatchDone];
      assert steps[1..] == [];
      assert s.done + [] == s.done && s.executed + [] == s.executed;
    } else {
      var t, first := s.at.rest[0], [RunNext];
      if t in s.cancelled {
        assert first[1..] == [];
        SkipFirst(s, Work(s.at.rest[1..], s.cancelled, effects));
      } else {
        first := RunOne(s, effects(t));
        RunFirst(s, Run(s, first), effects(t), Work(s.at.rest[1..], s.cancelled + effects(t).cancels, effects));
      }
      var rest := BatchIsWork(Run(s, first), effects);
      InSequence(s, first, rest);
      steps := first + rest;
    }
  }

  /** The members that one thread at a time works on; between two calls any number of producers may
      have run `Async`. */
  class TaskQueue {
    var tasks: seq<Task>
    var pipe: nat
    var exit: bool
    var cancelled: set<Task>
    ghost var done: seq<Task>
    ghost var executed: seq<Task>

    constructor ()
      ensures tasks == [] && pipe == 0 && !exit && cancelled == {} && done == [] && executed == []
    {
      tasks, pipe, exit, cancelled := [], 0, false, {};
      done, executed := [], [];
    }

    /** `async` and `async_first`, of a producer that is not interrupted between its push and its write.  On
        the loop thread, and with `maySync`, the caller runs the task itself, and nothing is queued. */
    method Async(push: Push<Task>, maySync: bool, onLoop: bool) returns (queued: bool)
      modifies this`tasks, this`pipe, this`executed
      ensures queued == !(maySync && onLoop)
      ensures if queued then tasks == PushOne(old(tasks), push) && pipe == old(pipe) + 1 && executed == old(executed)
              else tasks == old(tasks) && pipe == old(pipe) && executed == old(executed) + [push.item]
    {
      if maySync && onLoop {
        executed := executed + [push.item];
        return false;
      }
      match push {
        case Back(t) => tasks := tasks + [t];
        case Front(t) => tasks := [t] + tasks;
      }
      pipe := pipe + 1;
      return true;
    }

    /** The first loop of `onPipeEvent`. */
    method Drain(results: seq<Read>)
      modifies this`pipe
      ensures pipe == Drained(old(pipe), results)
    {
      var i := 0;
      while true
        invariant 0 <= i <= |results| && Drained(pipe, results[i..]) == Drained(old(pipe), results)
        decreases pipe
      {
        if i < |results| && results[i].Broken? {
          if results[i].reopened {
            pipe := 0;
          }
          break;
        }
        if pipe == 0 {
          break;
        }
        pipe := if pipe > READ_SIZE then pipe - READ_SIZE else 0;
        if i < |results| {
          assert results[i..][1..] == results[i + 1..];
          i := i + 1;
        }
      }
    }

    /** Drains the pipe, takes the whole queue and works through it: every task that is not cancelled when its
        turn comes runs, in order; an exception ends only the task that threw it, and `Exit` does not cut
        the batch short; what tasks post meanwhile waits for the next time. */
    method OnPipeEvent(results: seq<Read>, effects: Task -> Effect)
      modifies this
      ensures done == old(done) + old(tasks)
      ensures var w := Work(old(tasks), old(cancelled), effects);
        && executed == old(executed) + w.executed && cancelled == w.cancelled
        && exit == (old(exit) || Quits(w.executed))
        && tasks == PushAll([], w.posts) && pipe == Drained(old(pipe), results) + |w.posts|
    {
      Drain(results);
      if tasks == [] {
        return;
      }
      var tmp := tasks;
      tasks := [];
      ghost var left := pipe;
      ghost var w := Work(tmp, cancelled, effects);
      ghost var rest, ran, posted := w, [], [];
      assert tmp[0..] == tmp;
      for i := 0 to |tmp|
        invariant rest == Work(tmp[i..], cancelled, effects)
        invariant w == Outcome(ran + rest.executed, rest.cancelled, posted + rest.posts)
        invariant done == old(done) + tmp[..i] && executed == old(executed) + ran
        invariant exit == (old(exit) || Quits(ran))
        invariant tasks == PushAll([], posted) && pipe == left + |posted|
      {
        var t := tmp[i];
        TakeFirst(tmp, i);
        rest := Work(tmp[i + 1..], if t in cancelled then cancelled else cancelled + effects(t).cancels, effects);
        done := done + [t];
        if t !in cancelled {
          MoreRan(ran, t, rest.executed);
          MorePosted(posted, effects(t).posts, rest.posts);
          QuitsLast(ran, t);
          assert old(executed) + ran + [t] == old(executed) + (ran + [t]);
          ran, posted := ran + [t], posted + effects(t).posts;
          Execute(t, effects(t));
        }
      }
      assert tmp[..|tmp|] == tmp && ran + [] == ran && posted + [] == posted;
    }

    /** One live task, with what it does to the queue. */
    method Execute(t: Task, effect: Effect)
      modifies this`executed, this`exit, this`cancelled, this`tasks, this`pipe
      ensures executed == old(executed) + [t] && exit == (old(exit) || t.kind.Quit?)
      ensures cancelled == old(cancelled) + effect.cancels
      ensures tasks == PushAll(old(tasks), effect.posts) && pipe == old(pipe) + |effect.posts|
    {
      executed := executed + [t];
      if t.kind.Quit? {
        exit := true;
      }
      cancelled := cancelled + effect.cancels;
      Post(effect.posts);
    }

    /** The posts of one running task. */
    method Post(posts: seq<Push<Task>>)
      modifies this`tasks, this`pipe
      ensures tasks == PushAll(old(tasks), posts) && pipe == old(pipe) + |posts|
    {
      var i := 0;
      while i < |posts|
        invariant 0 <= i <= |posts|
        invariant PushAll(tasks, posts[i..]) == PushAll(old(tasks), posts) && pipe == old(pipe) + i
      {
        assert posts[i..][1..] == posts[i + 1..];
        tasks := PushOne(tasks, posts[i]);
        pipe := pipe + 1;
        i := i + 1;
      }
    }
  }

  lemma TakeFirst(batch: seq<Task>, i: nat)
    requires i < |batch|
    ensures batch[i..][0] == batch[i] && batch[i..][1..] == batch[i + 1..] && batch[..i + 1] == batch[..i] + [batch[i]]
  {
  }

  lemma MoreRan(ran: seq<Task>, t: Task, rest: seq<Task>)
    ensures ran + ([t] + rest) == (ran + [t]) + rest
  {
  }

  lemma MorePosted(posted: seq<Push<Task>>, more: seq<Push<Task>>, rest: seq<Push<Task>>)
    ensures posted + (more + rest) == (posted + more) + rest
    ensures PushAll([], posted + more) == PushAll(PushAll([], posted), more)
  {
    PushAllAppend([], posted, more);
  }

  lemma QuitsLast(ran: seq<Task>, t: Task)
    ensures Quits(ran + [t]) <==> Quits(ran) || t.kind.Quit?
  {
    if u :| u in ran && u.kind.Quit? {
      assert u in ran + [t];
    }
    assert t in ran + [t];
  }
}
