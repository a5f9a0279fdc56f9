/** Waiting for a task, `sync` and `sync_first` of `avctool/thread/TaskExecutor.h`: the caller posts a task
    that gives a permit of the caller's own semaphore when it is left, by return or by exception, and
    then waits for that permit. */
module TaskSync {
  import Sem = Semphore

  /** Where the caller is; `CWaiting` is inside `sem.wait()`, `CThrew` outside of `sync`, by the exception of
      a task that it ran itself. */
  datatype Caller = CPosting | CEntering | CWaiting | CReturned | CThrew

  /** Where the task is: not posted, queued, its body running, left but the permit not posted, over. */
  datatype Body = BNew | BQueued | BRunning | BLeaving(threw: bool) | BOver(threw: bool)

  /** `inline`: the caller is a thread of the executor, so `async` runs the task at once. */
  datatype State = State(inline: bool, caller: Caller, body: Body, sem: Sem.State)

  const CALLER: Sem.Tid := 0

  datatype Step =
    | Queue                            // async pushes the task
    | RunInline                        // async runs the body itself
    | Take                             // a thread of the executor starts the body
    | Leave(threw: bool)               // the body returns or throws
    | Post(woken: set<Sem.Tid>)        // the scope-exit action: sem.post()
    | Enter                            // sem.wait(), first look
    | Resume                           // sem.wait(), another look
    | Spurious

  function Init(inline: bool): State {
    State(inline, CPosting, BNew, Sem.Init(0))
  }

  predicate Enabled(s: State, step: Step) {
    match step
    case Queue => s.caller.CPosting? && !s.inline && s.body.BNew?
    case RunInline => s.caller.CPosting? && s.inline && s.body.BNew?
    case Take => s.body.BQueued?
    case Leave(_) => s.body.BRunning?
    case Post(woken) => s.body.BLeaving? && Sem.Enabled(s.sem, Sem.Post(1, woken))
    case Enter => s.caller.CEntering? && Sem.Enabled(s.sem, Sem.Enter(CALLER))
    case Resume => s.caller.CWaiting? && Sem.Enabled(s.sem, Sem.Resume(CALLER))
    case Spurious => s.caller.CWaiting? && Sem.Enabled(s.sem, Sem.Spurious(CALLER))
  }

  /** A wait that finds a permit returns, any other sleeps. */
  function Waited(s: State, sem: Sem.State): State {
    s.(sem := sem, caller := if CALLER in sem.asleep then CWaiting else CReturned)
  }

  function Apply(s: State, step: Step): State
    requires Enabled(s, step)
  {
    match step
    case Queue => s.(caller := CEntering, body := BQueued)
    case RunInline => s.(body := BRunning)
    case Take => s.(body := BRunning)
    case Leave(threw) => s.(body := BLeaving(threw))
    case Post(woken) =>
      s.(body := BOver(s.body.threw), sem := Sem.Apply(s.sem, Sem.Post(1, woken)),
         caller := if !s.inline then s.caller else if s.body.threw then CThrew else CEntering)
    case Enter => Waited(s, Sem.Apply(s.sem, Sem.Enter(CALLER)))
    case Resume => Waited(s, Sem.Apply(s.sem, Sem.Resume(CALLER)))
    case Spurious => s.(sem := Sem.Apply(s.sem, Sem.Spurious(CALLER)))
  }

  predicate Legal(s: State, steps: seq<Step>)
    decreases |steps|
  {
    steps == [] || (Enabled(s, steps[0]) && Legal(Apply(s, steps[0]), steps[1..]))
  }

  function Run(s: State, steps: seq<Step>): State
    requires Legal(s, steps)
    decreases |steps|
  {
    if steps == [] then s else Run(Apply(s, steps[0]), steps[1..])
  }

  predicate Inv(s: State) {
    && Sem.Inv(s.sem)
    && s.sem.asleep <= {CALLER} && s.sem.notified <= {CALLER}
    && (s.caller.CWaiting? <==> CALLER in s.sem.asleep || CALLER in s.sem.notified)
    && s.sem.nn == (if s.body.BOver? && !s.caller.CReturned? then 1 else 0)
    && (s.caller.CReturned? ==> s.body.BOver?)
    && (s.caller.CPosting? <==> s.body.BNew? || (s.inline && !s.body.BOver?))
    && (s.inline ==> !s.body.BQueued? && !s.caller.CWaiting?)
    && (s.caller.CThrew? <==> s.inline && s.body.BOver? && s.body.threw)
  }

  lemma WaitKeepsInv(s: State, step: Step)
    requires Inv(s) && Enabled(s, step) && (step.Enter? || step.Resume? || step.Spurious?)
    ensures Inv(Apply(s, step))
  {
    match step
    case Enter => Sem.StepKeepsInv(s.sem, Sem.Enter(CALLER));
    case Resume => Sem.StepKeepsInv(s.sem, Sem.Resume(CALLER));
    case Spurious => Sem.StepKeepsInv(s.sem, Sem.Spurious(CALLER));
  }

  lemma StepKeepsInv(s: State, step: Step)
    requires Inv(s) && Enabled(s, step)
    ensures Inv(Apply(s, step)) && Apply(s, step).inline == s.inline
  {
    match step
    case Post(woken) => Sem.StepKeepsInv(s.sem, Sem.Post(1, woken));
    case Enter => WaitKeepsInv(s, step);
    case Resume => WaitKeepsInv(s, step);
    case Spurious => WaitKeepsInv(s, step);
    case _ =>
  }

  lemma {:induction false} InvAlways(s: State, steps: seq<Step>)
    requires Inv(s) && Legal(s, steps)
    ensures Inv(Run(s, steps)) && Run(s, steps).inline == s.inline
    decreases |steps|
  {
    if steps != [] {
      StepKeepsInv(s, steps[0]);
      InvAlways(Apply(s, steps[0]), steps[1..]);
    }
  }

  /** A sleeping caller and a free permit cannot be together: the notification is already out. */
  lemma SleeperIsNotified(s: State)
    requires Inv(s) && s.caller.CWaiting? && s.body.BOver?
    ensures CALLER in s.sem.notified
  {
    assert s.sem.notified == {} || CALLER in s.sem.notified;
  }

  /** `sync` returns only after its task is over, and nobody sleeps on the semaphore then; a caller on the
      executor's own thread never sleeps, and leaves by the exception of its task if and only if that threw;
      and a caller in `wait` can go on if and only if its task is over, thrown or not. */
  lemma SyncWaitsForItsTask(inline: bool, steps: seq<Step>)
    requires Legal(Init(inline), steps)
    ensures var s := Run(Init(inline), steps);
      && (s.caller.CReturned? ==> s.body.BOver? && s.sem.nn == 0 && s.sem.asleep == s.sem.notified == {})
      && (inline ==> !s.caller.CWaiting?)
      && (s.caller.CThrew? <==> inline && s.body.BOver? && s.body.threw)
      && (s.caller.CReturned? && inline ==> !s.body.threw)
      && (s.caller.CWaiting? ==> (s.body.BOver? <==> Enabled(s, Resume) && Apply(s, Resume).caller.CReturned?))
      && (s.caller.CEntering? ==> Enabled(s, Enter) && (s.body.BOver? <==> Apply(s, Enter).caller.CReturned?))
  {
    InvAlways(Init(inline), steps);
    var s := Run(Init(inline), steps);
    if s.caller.CWaiting? && s.body.BOver? {
      SleeperIsNotified(s);
    }
  }
}
