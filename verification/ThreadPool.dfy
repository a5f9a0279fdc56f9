/** The worker pool of `avctool/thread/ThreadPool.h` over the semaphore of `Semphore.h`.

    A state says where every worker stands in `run`, what is queued, and how far `shutdown` has
    come; the condition variable inside the semaphore is kept, so the results hold under barging
    and spurious wake-ups. */
module ThreadPool {
  import opened Deque
  import Sem = Semphore

  type Task = nat
  type Wid = Sem.Tid

  /** Where the thread that destroys the pool is: not there yet, `exit_` set, or permits posted. */
  datatype Shutdown = Open | Flagged | Released

  datatype State = State(
    pedding: seq<Task>,
    sem: Sem.State,
    shut: Shutdown,
    workers: set<Wid>,
    testing: set<Wid>,    // about to test exit_
    entering: set<Wid>,   // about to call sem_.wait(); those inside it are in sem
    popping: set<Wid>,    // back from wait, pedding_ not looked at yet
    running: set<Wid>,    // popped, running the job if there was one
    left: set<Wid>,       // returned from run
    pushing: nat,         // producers between their push and their post
    taken: seq<Task>,     // jobs popped so far, in order
    spare: nat)           // shutdown permits that no empty pop has used up yet

  datatype Step =
    | Submit(push: Push<Task>)            // async / async_first under mutex_
    | Posted(woken: set<Wid>)             // sem_.post() of a producer
    | Test(w: Wid)                        // while (!exit_)
    | Wait(w: Wid)                        // sem_.wait(), first look at the count
    | Wake(w: Wid)                        // sem_.wait(), another look after a notification
    | Spurious(w: Wid)
    | Pop(w: Wid)                         // the locked block that takes the front job
    | Finish(w: Wid)                      // job done, back to the loop test
    | SetExit                             // shutdown: exit_ = true
    | Release(woken: set<Wid>)            // shutdown: sem_.post(threads_.size())

  function Init(workers: set<Wid>): State {
    State([], Sem.Init(0), Open, workers, workers, {}, {}, {}, {}, 0, [], 0)
  }

  /** Every job ever queued, in the order in which the pool hands them out. */
  function Line(s: State): seq<Task> {
    s.taken + s.pedding
  }

  /** The semaphore operation inside a step, if it has one. */
  function SemStep(s: State, step: Step): Sem.Step
    requires step.Posted? || step.Release? || step.Wait? || step.Wake? || step.Spurious?
  {
    match step
    case Posted(woken) => Sem.Post(1, woken)
    case Release(woken) => Sem.Post(|s.workers|, woken)
    case Wait(w) => Sem.Enter(w)
    case Wake(w) => Sem.Resume(w)
    case Spurious(w) => Sem.Spurious(w)
  }

  predicate Enabled(s: State, step: Step) {
    match step
    case Submit(_) => true
    case Posted(_) => s.pushing > 0 && Sem.Enabled(s.sem, SemStep(s, step))
    case Test(w) => w in s.testing
    case Wait(w) => w in s.entering && Sem.Enabled(s.sem, SemStep(s, step))
    case Wake(_) => Sem.Enabled(s.sem, SemStep(s, step))
    case Spurious(_) => Sem.Enabled(s.sem, SemStep(s, step))
    case Pop(w) => w in s.popping
    case Finish(w) => w in s.running
    case SetExit => s.shut.Open?
    case Release(_) => s.shut.Flagged? && Sem.Enabled(s.sem, SemStep(s, step))
  }

  function Apply(s: State, step: Step): State
    requires Enabled(s, step)
  {
    match step
    case Submit(Back(t)) => s.(pedding := s.pedding + [t], pushing := s.pushing + 1)
    case Submit(Front(t)) => s.(pedding := [t] + s.pedding, pushing := s.pushing + 1)
    case Posted(_) => s.(sem := Sem.Apply(s.sem, SemStep(s, step)), pushing := s.pushing - 1)
    case Test(w) =>
      if s.shut.Open? then s.(testing := s.testing - {w}, entering := s.entering + {w})
      else s.(testing := s.testing - {w}, left := s.left + {w})
    case Wait(w) =>
      s.(sem := Sem.Apply(s.sem, SemStep(s, step)), entering := s.entering - {w},
         popping := if s.sem.nn == 0 then s.popping else s.popping + {w})
    case Wake(w) =>
      s.(sem := Sem.Apply(s.sem, SemStep(s, step)),
         popping := if s.sem.nn == 0 then s.popping else s.popping + {w})
    case Spurious(_) => s.(sem := Sem.Apply(s.sem, SemStep(s, step)))
    case Pop(w) =>
      if s.pedding == [] then
        s.(popping := s.popping - {w}, running := s.running + {w}, spare := if s.spare > 0 then s.spare - 1 else 0)
      else
        s.(popping := s.popping - {w}, running := s.running + {w},
           taken := s.taken + [s.pedding[0]], pedding := s.pedding[1..])
    case Finish(w) => s.(running := s.running - {w}, testing := s.testing + {w})
    case SetExit => s.(shut := Flagged)
    case Release(_) => s.(sem := Sem.Apply(s.sem, SemStep(s, step)), shut := Released, spare := |s.workers|)
  }

  predicate ByWorker(step: Step) {
    step.Test? || step.Wait? || step.Wake? || step.Spurious? || step.Pop? || step.Finish?
  }

  predicate Legal(s: State, steps: seq<Step>)
    decreases |steps|
  {
    steps == [] || (Enabled(s, steps[0]) && Legal(Apply(s, steps[0]), steps[1..]))
  }

  function Run(s: State, steps: seq<Step>): State
    requires Legal(s, steps)
    decreases |steps|
  {
    if steps == [] then s else Run(Apply(s, steps[0]), steps[1..])
  }

  /** In how many places a thread is. */
  function Places(s: State, w: Wid): nat {
    (if w in s.testing then 1 else 0) + (if w in s.entering then 1 else 0) +
    (if w in s.sem.asleep then 1 else 0) + (if w in s.sem.notified then 1 else 0) +
    (if w in s.popping then 1 else 0) + (if w in s.running then 1 else 0) + (if w in s.left then 1 else 0)
  }

  /** Every worker is at exactly one place, and nobody else is anywhere. */
  ghost predicate Placed(s: State) {
    forall w: Wid :: Places(s, w) == if w in s.workers then 1 else 0
  }

  /** Queued jobs against permits: free ones, those in the hands of workers that have not popped
      yet, and those that producers still owe. */
  predicate Accounted(s: State) {
    && |s.pedding| + s.spare == s.sem.nn + |s.popping| + s.pushing
    && (!s.shut.Released? ==> s.spare == 0)
  }

  /** Once shutdown has posted, there is a permit for every worker that will still ask for one,
      and nobody sleeps. */
  predicate Freed(s: State) {
    s.shut.Released? ==> s.sem.asleep == {} && s.sem.nn >= |s.entering| + |s.sem.notified|
  }

  ghost predicate Inv(s: State) {
    Placed(s) && Sem.Inv(s.sem) && s.sem.nn >= 0 && Accounted(s) && Freed(s)
  }

  lemma Moved(w: Wid, a: set<Wid>, b: set<Wid>)
    requires w in a && w !in b
    ensures |a - {w}| == |a| - 1 && |b + {w}| == |b| + 1
  {
  }

  lemma SubsetSmaller(a: set<Wid>, b: set<Wid>)
    requires a <= b
    ensures |a| <= |b|
  {
    assert b == a + (b - a);
  }

  /** Wherever a thread is, it is nowhere else. */
  lemma Alone(s: State, w: Wid)
    requires Placed(s)
    ensures Places(s, w) <= 1
    ensures w in s.entering || w in s.sem.asleep || w in s.sem.notified ==> w in s.workers
  {
    assert Places(s, w) == if w in s.workers then 1 else 0;
  }

  lemma SleepersAreWorkers(s: State)
    requires Placed(s)
    ensures s.sem.asleep + s.sem.notified + s.entering <= s.workers
    ensures s.entering !! s.sem.asleep + s.sem.notified
  {
    forall w | w in s.sem.asleep + s.sem.notified + s.entering
      ensures w in s.workers && (w in s.entering ==> w !in s.sem.asleep + s.sem.notified)
    {
      Alone(s, w);
    }
  }

  lemma ReleaseWakesAll(workers: set<Wid>, asleep: set<Wid>, woken: set<Wid>)
    requires asleep <= workers && Sem.Reaches(|workers|, asleep, woken)
    ensures asleep - woken == {}
  {
    if |workers| == 1 && asleep != {} {
      SubsetSmaller(asleep - woken, workers - woken);
      assert |workers - woken| == 0;
    }
  }

  lemma ReleaseFrees(s: State, woken: set<Wid>)
    requires Placed(s) && Sem.Inv(s.sem) && s.sem.nn >= 0 && Enabled(s, Release(woken))
    ensures s.sem.asleep - woken == {}
    ensures |s.workers| >= |s.entering| + |s.sem.notified + woken|
  {
    SleepersAreWorkers(s);
    ReleaseWakesAll(s.workers, s.sem.asleep, woken);
    var awake := s.sem.notified + woken;
    SubsetSmaller(awake + s.entering, s.workers);
    assert |awake + s.entering| == |awake| + |s.entering|;
  }

  lemma StepKeepsPlaced(s: State, step: Step)
    requires Placed(s) && Enabled(s, step)
    ensures Placed(Apply(s, step))
  {
    var s' := Apply(s, step);
    forall w: Wid ensures Places(s', w) == if w in s'.workers then 1 else 0 {
      assert Places(s, w) == if w in s.workers then 1 else 0;
    }
  }

  lemma WorkerKeepsAccount(s: State, step: Step)
    requires Placed(s) && Accounted(s) && s.sem.nn >= 0 && ByWorker(step) && Enabled(s, step)
    ensures Accounted(Apply(s, step)) && Apply(s, step).sem.nn >= 0
  {
    Alone(s, step.w);
    match step
    case Wait(w) => Moved(w, s.entering, s.popping);
    case Wake(w) => Moved(w, s.sem.notified, s.popping);
    case Pop(w) => Moved(w, s.popping, s.running);
    case _ =>
  }

  lemma WorkerKeepsFreed(s: State, step: Step)
    requires Placed(s) && Freed(s) && ByWorker(step) && Enabled(s, step)
    ensures Freed(Apply(s, step))
  {
    if s.shut.Released? && (step.Wait? || step.Wake?) {
      WaitKeepsFreed(s, step);
    }
  }

  /** With a permit for everybody who will ask, a wait always returns, and takes one permit with it. */
  lemma WaitKeepsFreed(s: State, step: Step)
    requires Placed(s) && Freed(s) && s.shut.Released? && (step.Wait? || step.Wake?) && Enabled(s, step)
    ensures Freed(Apply(s, step)) && s.sem.nn > 0
  {
    Alone(s, step.w);
    if step.Wait? {
      Moved(step.w, s.entering, s.popping);
    } else {
      Moved(step.w, s.sem.notified, s.popping);
    }
  }

  lemma OtherKeepsAccount(s: State, step: Step)
    requires Inv(s) && !ByWorker(step) && Enabled(s, step)
    ensures Accounted(Apply(s, step)) && Apply(s, step).sem.nn >= 0 && Freed(Apply(s, step))
  {
    if step.Release? {
      ReleaseFrees(s, step.woken);
    }
  }

  lemma StepKeepsInv(s: State, step: Step)
    requires Inv(s) && Enabled(s, step)
    ensures Inv(Apply(s, step))
  {
    StepKeepsPlaced(s, step);
    if ByWorker(step) {
      WorkerKeepsAccount(s, step);
      WorkerKeepsFreed(s, step);
    } else {
      OtherKeepsAccount(s, step);
    }
    if step.Posted? || step.Release? || step.Wait? || step.Wake? || step.Spurious? {
      Sem.StepKeepsInv(s.sem, SemStep(s, step));
    }
  }

  /** Permit accounting, placement of the workers and the shutdown guarantee, in every reachable
      state of every interleaving. */
  lemma {:induction false} InvAlways(s: State, steps: seq<Step>)
    requires Inv(s) && Legal(s, steps)
    ensures Inv(Run(s, steps))
    decreases |steps|
  {
    if steps != [] {
      StepKeepsInv(s, steps[0]);
      InvAlways(Apply(s, steps[0]), steps[1..]);
    }
  }

  /** Before shutdown has posted its permits, a worker back from `wait` always finds a job, and
      the jobs in the queue are exactly the permits not yet used plus those still owed. */
  lemma WokenWorkerFindsTask(workers: set<Wid>, steps: seq<Step>)
    requires Legal(Init(workers), steps)
    ensures var s := Run(Init(workers), steps);
      !s.shut.Released? ==>
        && |s.pedding| == s.sem.nn + |s.popping| + s.pushing
        && (s.popping != {} ==> s.pedding != [])
  {
    InvAlways(Init(workers), steps);
  }

  /** No worker sleeps beside a job that is ready: when no producer and no notified worker is on
      its way, a sleeping worker means that nobody is owed anything but workers about to pop. */
  lemma NoJobBesideSleepers(workers: set<Wid>, steps: seq<Step>)
    requires Legal(Init(workers), steps)
    ensures var s := Run(Init(workers), steps);
      s.sem.asleep != {} && s.sem.notified == {} && s.pushing == 0 ==> |s.pedding| == |s.popping|
  {
    InvAlways(Init(workers), steps);
  }

  // ---- order and conservation of jobs --------------------------------------------------------

  /** The jobs a run submits, in submission order, and what had been taken by then. */
  function Submissions(s: State, steps: seq<Step>): seq<Arrival<Task>>
    requires Legal(s, steps)
    decreases |steps|
  {
    if steps == [] then []
    else
      var rest := Submissions(Apply(s, steps[0]), steps[1..]);
      if steps[0].Submit? then [Arrival(|s.taken|, steps[0].push)] + rest else rest
  }

  function Submitted(s: State, steps: seq<Step>): seq<Task>
    requires Legal(s, steps)
  {
    Items(Submissions(s, steps))
  }

  /** Only submitting changes the line, and it never overtakes a job that was already taken. */
  lemma StepLine(s: State, step: Step)
    requires Enabled(s, step)
    ensures var s' := Apply(s, step);
      && Line(s') == (if step.Submit? then LineUp(Line(s), |s.taken|, step.push) else Line(s))
      && s.taken <= s'.taken
  {
    var s' := Apply(s, step);
    match step
    case Submit(Back(t)) =>
      assert Line(s') == Line(s) + [t];
    case Submit(Front(t)) =>
      assert Line(s) == s.taken + s.pedding;
      assert Line(s') == s.taken + [t] + s.pedding;
    case Pop(w) =>
      if s.pedding != [] {
        assert s.pedding == [s.pedding[0]] + s.pedding[1..];
        assert Line(s') == Line(s);
      }
    case _ =>
  }

  /** The hand-out order is what the submissions make of it, and jobs once taken stay taken. */
  lemma {:induction false} LineGrows(s: State, steps: seq<Step>)
    requires Legal(s, steps)
    ensures Fits(|Line(s)|, Submissions(s, steps))
    ensures Line(Run(s, steps)) == Grow(Line(s), Submissions(s, steps)) && s.taken <= Run(s, steps).taken
    decreases |steps|
  {
    if steps != [] {
      StepLine(s, steps[0]);
      LineGrows(Apply(s, steps[0]), steps[1..]);
    }
  }

  /** Nothing is lost or run twice: jobs taken and jobs queued are, with multiplicity, the jobs
      there were plus the jobs submitted. */
  lemma JobsConserved(s: State, steps: seq<Step>)
    requires Legal(s, steps)
    ensures multiset(Line(Run(s, steps))) == multiset(Line(s)) + multiset(Submitted(s, steps))
  {
    LineGrows(s, steps);
    GrowKeepsAll(Line(s), Submissions(s, steps));
  }

  /** Without `async_first`, the hand-out order is the submission order. */
  lemma SubmissionOrder(s: State, steps: seq<Step>)
    requires Legal(s, steps) && OnlyBack(Submissions(s, steps))
    ensures Line(Run(s, steps)) == Line(s) + Submitted(s, steps)
  {
    LineGrows(s, steps);
    BackKeepsOrder(Line(s), Submissions(s, steps));
  }

  /** If every job is submitted once, no job is handed to two workers. */
  lemma EachJobTakenOnce(workers: set<Wid>, steps: seq<Step>)
    requires Legal(Init(workers), steps) && NoDuplicates(Submitted(Init(workers), steps))
    ensures NoDuplicates(Run(Init(workers), steps).taken)
  {
    var r := Run(Init(workers), steps);
    JobsConserved(Init(workers), steps);
    assert Line(Init(workers)) == [];
    Prefix(r.taken, r.pedding);
    PartDistinct(r.taken, Submitted(Init(workers), steps));
  }

  // ---- shutdown --------------------------------------------------------------------------------

  function WorkerSteps(steps: seq<Step>): nat {
    if steps == [] then 0 else (if ByWorker(steps[0]) then 1 else 0) + WorkerSteps(steps[1..])
  }

  function Coming(s: State): nat {
    |s.entering| + |s.sem.notified|
  }

  /** How many steps the workers still have to take once shutdown has posted. */
  function Remaining(s: State): nat {
    4 * Coming(s) + 3 * |s.popping| + 2 * |s.running| + |s.testing|
  }

  lemma WaitStepCounts(s: State, step: Step)
    requires Placed(s) && Freed(s) && s.shut.Released? && (step.Wait? || step.Wake?) && Enabled(s, step)
    ensures Remaining(Apply(s, step)) == Remaining(s) - 1
  {
    Alone(s, step.w);
    if step.Wait? {
      Moved(step.w, s.entering, s.popping);
    } else {
      Moved(step.w, s.sem.notified, s.popping);
    }
  }

  lemma PlainStepCounts(s: State, step: Step)
    requires Placed(s) && s.shut.Released? && (step.Test? || step.Pop? || step.Finish?) && Enabled(s, step)
    ensures Remaining(Apply(s, step)) == Remaining(s) - 1
  {
    Alone(s, step.w);
    match step
    case Test(w) => Moved(w, s.testing, s.left);
    case Pop(w) => Moved(w, s.popping, s.running);
    case Finish(w) => Moved(w, s.running, s.testing);
  }

  lemma WorkerStepCounts(s: State, step: Step)
    requires Placed(s) && Freed(s) && s.shut.Released? && ByWorker(step) && Enabled(s, step)
    ensures Remaining(Apply(s, step)) == Remaining(s) - 1
  {
    if step.Wait? || step.Wake? {
      WaitStepCounts(s, step);
    } else if !step.Spurious? {
      PlainStepCounts(s, step);
    }
  }

  lemma AllLeft(s: State)
    requires Placed(s) && s.left == s.workers
    ensures s.testing == s.entering == s.sem.asleep == s.sem.notified == s.popping == s.running == {}
  {
    forall w: Wid ensures w !in s.testing && w !in s.entering && w !in s.sem.asleep && w !in s.sem.notified
                          && w !in s.popping && w !in s.running {
      assert Places(s, w) == if w in s.workers then 1 else 0;
    }
  }

  /** Shutdown cannot hang: after its permits are out, every worker step uses up one of a fixed
      number, whatever producers and the scheduler do, and as long as a worker has not left there
      is a worker step to take. */
  lemma {:induction false} ShutdownTerminates(s: State, steps: seq<Step>)
    requires Inv(s) && s.shut.Released? && Legal(s, steps)
    ensures var r := Run(s, steps);
      && r.shut.Released?
      && WorkerSteps(steps) + Remaining(r) == Remaining(s)
      && (Remaining(r) == 0 <==> r.left == r.workers)
      && (r.left != r.workers ==> exists step :: ByWorker(step) && Enabled(r, step))
    decreases |steps|
  {
    if steps == [] {
      WorkerCanMove(s);
    } else {
      StepKeepsInv(s, steps[0]);
      if ByWorker(steps[0]) {
        WorkerStepCounts(s, steps[0]);
      }
      ShutdownTerminates(Apply(s, steps[0]), steps[1..]);
    }
  }

  lemma WorkerCanMove(s: State)
    requires Inv(s) && s.shut.Released?
    ensures Remaining(s) == 0 <==> s.left == s.workers
    ensures s.left != s.workers ==> exists step :: ByWorker(step) && Enabled(s, step)
  {
    if s.left == s.workers {
      AllLeft(s);
    } else {
      var w :| w in s.workers && w !in s.left;
      assert Places(s, w) == 1;
      var step := if w in s.testing then Test(w) else if w in s.entering then Wait(w)
                  else if w in s.sem.notified then Wake(w) else if w in s.popping then Pop(w) else Finish(w);
      assert ByWorker(step) && Enabled(s, step);
    }
  }

  /** The workers that are past their test of `exit_` and have not popped: each of them will still
      take one job if there is one. */
  function Committed(s: State): nat {
    |s.entering| + |s.sem.asleep| + |s.sem.notified| + |s.popping|
  }

  function Surplus(s: State): nat {
    if |s.pedding| > Committed(s) then |s.pedding| - Committed(s) else 0
  }

  lemma CommittedInWait(s: State, step: Step)
    requires Placed(s) && (step.Wait? || step.Wake? || step.Spurious?) && Enabled(s, step)
    ensures Committed(Apply(s, step)) == Committed(s)
  {
    Alone(s, step.w);
    match step
    case Wait(w) =>
      if s.sem.nn == 0 { Moved(w, s.entering, s.sem.asleep); } else { Moved(w, s.entering, s.popping); }
    case Wake(w) =>
      if s.sem.nn == 0 { Moved(w, s.sem.notified, s.sem.asleep); } else { Moved(w, s.sem.notified, s.popping); }
    case Spurious(w) => Moved(w, s.sem.asleep, s.sem.notified);
  }

  lemma CommittedByWorker(s: State, step: Step)
    requires Placed(s) && !s.shut.Open? && ByWorker(step) && Enabled(s, step)
    ensures Committed(Apply(s, step)) == Committed(s) - (if step.Pop? then 1 else 0)
  {
    match step
    case Pop(w) =>
      Alone(s, w);
      Moved(w, s.popping, s.running);
    case Test(w) =>
    case Finish(w) =>
    case _ => CommittedInWait(s, step);
  }

  lemma WokenMoved(sem: Sem.State, n: nat, woken: set<Wid>)
    requires sem.asleep !! sem.notified && Sem.Enabled(sem, Sem.Post(n, woken))
    ensures var sem' := Sem.Apply(sem, Sem.Post(n, woken));
      |sem'.asleep| + |sem'.notified| == |sem.asleep| + |sem.notified|
  {
    assert sem.asleep == (sem.asleep - woken) + woken;
  }

  lemma CommittedByOther(s: State, step: Step)
    requires s.sem.asleep !! s.sem.notified && !ByWorker(step) && Enabled(s, step)
    ensures Committed(Apply(s, step)) == Committed(s)
  {
    match step
    case Posted(woken) => WokenMoved(s.sem, 1, woken);
    case Release(woken) => WokenMoved(s.sem, |s.workers|, woken);
    case Submit(_) =>
    case SetExit =>
  }

  /** What shutdown drops, exactly: from the moment `exit_` is set (and if nothing more is
      submitted), the jobs still queued when all workers have left are those beyond the number of
      workers that had already passed their loop test. */
  lemma {:induction false} ShutdownDropsSurplus(s: State, steps: seq<Step>)
    requires Inv(s) && !s.shut.Open? && Legal(s, steps)
    requires forall i | 0 <= i < |steps| :: !steps[i].Submit?
    ensures var r := Run(s, steps);
      && Surplus(r) == Surplus(s)
      && (r.left == r.workers ==> |r.pedding| == Surplus(s) && Line(r) == Line(s))
    decreases |steps|
  {
    if steps == [] {
      if s.left == s.workers {
        AllLeft(s);
      }
    } else {
      StepKeepsInv(s, steps[0]);
      if ByWorker(steps[0]) {
        CommittedByWorker(s, steps[0]);
      } else {
        CommittedByOther(s, steps[0]);
      }
      StepLine(s, steps[0]);
      ShutdownDropsSurplus(Apply(s, steps[0]), steps[1..]);
    }
  }

  /** One more step at the end of a run. */
  lemma {:induction false} Then(s: State, steps: seq<Step>, step: Step) returns (longer: seq<Step>)
    requires Legal(s, steps) && Enabled(Run(s, steps), step)
    ensures longer == steps + [step]
    ensures Legal(s, longer) && Run(s, longer) == Apply(Run(s, steps), step)
    decreases |steps|
  {
    longer := steps + [step];
    if steps == [] {
      assert longer[1..] == [];
    } else {
      var tail := Then(Apply(s, steps[0]), steps[1..], step);
      assert longer[1..] == tail;
    }
  }

  /** A pool of one worker, nowhere in particular. */
  function LoneWorker(): State {
    Init({0}).(testing := {})
  }

  lemma JobQueued() returns (steps: seq<Step>)
    ensures Legal(Init({0}), steps)
    ensures Run(Init({0}), steps) == LoneWorker().(testing := {0}, pedding := [1], pushing := 1)
  {
    steps := [];
    assert Run(Init({0}), steps) == Init({0});
    steps := Then(Init({0}), steps, Submit(Back(1)));
  }

  lemma JobReady() returns (steps: seq<Step>)
    ensures Legal(Init({0}), steps)
    ensures Run(Init({0}), steps) == LoneWorker().(testing := {0}, pedding := [1], sem := Sem.State(1, {}, {}, 1, 0))
  {
    steps := JobQueued();
    NobodyToWake(Sem.Init(0));
    steps := Then(Init({0}), steps, Posted({}));
  }

  lemma NobodyToWake(s: Sem.State)
    requires s.asleep == {}
    ensures Sem.Enabled(s, Sem.Post(1, {})) && Sem.Apply(s, Sem.Post(1, {})) == s.(nn := s.nn + 1, posted := s.posted + 1)
  {
    assert {} - {} == s.asleep && s.notified + {} == s.notified;
  }

  lemma JobAwaited() returns (steps: seq<Step>)
    ensures Legal(Init({0}), steps)
    ensures Run(Init({0}), steps) == LoneWorker().(entering := {0}, pedding := [1], sem := Sem.State(1, {}, {}, 1, 0))
  {
    steps := JobReady();
    steps := Then(Init({0}), steps, Test(0));
  }

  lemma PermitTaken() returns (steps: seq<Step>)
    ensures Legal(Init({0}), steps)
    ensures Run(Init({0}), steps) == LoneWorker().(popping := {0}, pedding := [1], sem := Sem.State(0, {}, {}, 1, 1))
  {
    steps := JobAwaited();
    steps := Then(Init({0}), steps, Wait(0));
  }

  /** The only worker is running job 1. */
  lemma OneRunning() returns (steps: seq<Step>)
    ensures Legal(Init({0}), steps)
    ensures Run(Init({0}), steps) == LoneWorker().(running := {0}, taken := [1], sem := Sem.State(0, {}, {}, 1, 1))
  {
    steps := PermitTaken();
    steps := Then(Init({0}), steps, Pop(0));
  }

  /** And shutdown does drop jobs: one that was submitted, with its permit posted, while the worker was
      running another. */
  lemma ShutdownMayDropAJob() returns (steps: seq<Step>)
    ensures Legal(Init({0}), steps)
    ensures var s := Run(Init({0}), steps);
      s.left == s.workers && s.pushing == 0 && s.pedding == [2] && s.taken == [1]
  {
    var start := Init({0});
    steps := OneRunning();
    steps := Then(start, steps, Submit(Back(2)));
    steps := Then(start, steps, Posted({}));
    steps := Then(start, steps, SetExit);
    steps := Then(start, steps, Finish(0));
    steps := Then(start, steps, Test(0));
  }

  // ---- the pool's own code -----------------------------------------------------------------------

  datatype Option<T> = None | Some(value: T)

  /** The members of the pool; each method is what one thread does without being interrupted, and says
      which step of the machine that is.  Between two calls any other thread may make one. */
  class Pool {
    var pedding: seq<Task>
    var exit: bool
    const sem: Sem.Semphore
    ghost var state: State

    ghost predicate Valid()
      reads this, sem
    {
      && Inv(state)
      && state.pedding == pedding && state.sem == sem.View() && (exit <==> !state.shut.Open?)
    }

    constructor (ghost workers: set<Wid>)
      ensures Valid() && fresh(sem) && state == Init(workers)
    {
      pedding, exit := [], false;
      state := Init(workers);
      sem := new Sem.Semphore(0);
    }

    /** The locked block of `async` and of `async_first`. */
    method Push(t: Task, first: bool)
      requires Valid()
      modifies this`pedding, this`state
      ensures Valid() && state == Apply(old(state), Submit(if first then Front(t) else Back(t)))
    {
      StepKeepsInv(state, Submit(if first then Front(t) else Back(t)));
      state := Apply(state, Submit(if first then Front(t) else Back(t)));
      pedding := if first then [t] + pedding else pedding + [t];
    }

    /** Their `sem_.post()`. */
    method PostOne() returns (woken: set<Wid>)
      requires Valid() && state.pushing > 0
      modifies this`state, sem
      ensures Enabled(old(state), Posted(woken)) && Valid() && state == Apply(old(state), Posted(woken))
    {
      woken := sem.Post();
      StepKeepsInv(state, Posted(woken));
      state := Apply(state, Posted(woken));
    }

    /** `while (!exit_)` */
    method LoopTest(w: Wid) returns (again: bool)
      requires Valid() && w in state.testing
      modifies this`state
      ensures Valid() && state == Apply(old(state), Test(w)) && again == (w in state.entering)
    {
      Alone(state, w);
      assert w !in state.entering by {
        assert Places(state, w) <= 1;
      }
      StepKeepsInv(state, Test(w));
      state := Apply(state, Test(w));
      again := !exit;
    }

    /** `sem_.wait()`, up to its return or the next time it sleeps. */
    method Wait(w: Wid) returns (returned: bool)
      requires Valid() && (w in state.entering || w in state.sem.notified)
      modifies this`state, sem
      ensures var step := if old(w in state.entering) then Step.Wait(w) else Wake(w);
        Enabled(old(state), step) && Valid() && state == Apply(old(state), step)
      ensures returned == (w in state.popping)
    {
      Alone(state, w);
      ghost var step := if w in state.entering then Step.Wait(w) else Wake(w);
      returned := sem.Wait(w);
      StepKeepsInv(state, step);
      state := Apply(state, step);
    }

    /** The locked block that takes the front job.  There is one as long as `shutdown` has not posted. */
    method Take(w: Wid) returns (job: Option<Task>)
      requires Valid() && w in state.popping
      modifies this`pedding, this`state
      ensures Valid() && state == Apply(old(state), Pop(w))
      ensures state.taken == old(state.taken) + (if job.Some? then [job.value] else [])
      ensures job.None? ==> state.shut.Released? && old(pedding) == []
    {
      StepKeepsInv(state, Pop(w));
      state := Apply(state, Pop(w));
      job := None;
      if pedding != [] {
        job := Some(pedding[0]);
        pedding := pedding[1..];
      }
    }

    /** `shutdown`: the flag. */
    method SetExitFlag()
      requires Valid() && state.shut.Open?
      modifies this`exit, this`state
      ensures Valid() && state == Apply(old(state), SetExit)
    {
      StepKeepsInv(state, SetExit);
      state := Apply(state, SetExit);
      exit := true;
    }

    /** `shutdown`: the permits, one for every worker; joining the workers changes nothing here. */
    method PostAll(threads: nat) returns (woken: set<Wid>)
      requires Valid() && state.shut.Flagged? && threads == |state.workers|
      modifies this`state, sem
      ensures Enabled(old(state), Release(woken)) && Valid() && state == Apply(old(state), Release(woken))
    {
      woken := sem.Post(threads);
      StepKeepsInv(state, Release(woken));
      state := Apply(state, Release(woken));
    }
  }
}
