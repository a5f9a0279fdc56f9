/** A cancellable task, `avctool/thread/TaskCancelable.h`: the function is owned through one strong
    pointer, calls go through a weak one and keep the function alive while it runs. */
module TaskCancelable {

  /** `strong`: strongTask_ is set; `callable`: the function it was made from is not empty; `running`:
      calls that have locked the weak pointer and not returned. */
  datatype State = State(strong: bool, callable: bool, running: nat)

  datatype Step =
    | Cancel        // cancel(), operator=(nullptr), the destructor
    | Call          // operator() is entered
    | Return        // a call that started the body leaves

  /** `operator bool`: what every caller in the library asks before it calls. */
  predicate Valid(s: State) {
    s.strong && s.callable
  }

  /** Whether entering operator() now runs the body; otherwise it returns the default value, 0. */
  predicate Starts(s: State) {
    (s.strong || s.running > 0) && s.callable
  }

  predicate Enabled(s: State, step: Step) {
    step.Return? ==> s.running > 0
  }

  function Apply(s: State, step: Step): State
    requires Enabled(s, step)
  {
    match step
    case Cancel => s.(strong := false)
    case Call => if Starts(s) then s.(running := s.running + 1) else s
    case Return => s.(running := s.running - 1)
  }

  predicate Legal(s: State, steps: seq<Step>)
    decreases |steps|
  {
    steps == [] || (Enabled(s, steps[0]) && Legal(Apply(s, steps[0]), steps[1..]))
  }

  function Run(s: State, steps: seq<Step>): State
    requires Legal(s, steps)
    decreases |steps|
  {
    if steps == [] then s else Run(Apply(s, steps[0]), steps[1..])
  }

  /** How often the body is started. */
  function Started(s: State, steps: seq<Step>): nat
    requires Legal(s, steps)
    decreases |steps|
  {
    if steps == [] then 0
    else (if steps[0].Call? && Starts(s) then 1 else 0) + Started(Apply(s, steps[0]), steps[1..])
  }

  /** A call is made while an earlier one is still running. */
  predicate CalledWhileRunning(s: State, steps: seq<Step>)
    requires Legal(s, steps)
    decreases |steps|
  {
    steps != [] && ((steps[0].Call? && s.running > 0) || CalledWhileRunning(Apply(s, steps[0]), steps[1..]))
  }

  /** Cancelling is for good: the guard every caller tests stays false, and the body is started again
      if and only if somebody calls without asking while a call begun before is still running, because
      that call keeps the function alive. */
  lemma {:induction false} CancelIsFinalIff(s: State, steps: seq<Step>)
    requires !s.strong && s.callable && Legal(s, steps)
    ensures !Valid(Run(s, steps))
    ensures Started(s, steps) == 0 <==> !CalledWhileRunning(s, steps)
    decreases |steps|
  {
    if steps != [] {
      CancelIsFinalIff(Apply(s, steps[0]), steps[1..]);
    }
  }

  /** In particular a task that is idle when it is cancelled never runs again. */
  lemma {:induction false} IdleCancelIsFinal(s: State, steps: seq<Step>)
    requires !s.strong && s.running == 0 && Legal(s, steps)
    ensures Started(s, steps) == 0 && Run(s, steps).running == 0
    decreases |steps|
  {
    if steps != [] {
      IdleCancelIsFinal(Apply(s, steps[0]), steps[1..]);
    }
  }

  /** The case in which it does: cancel from inside the body, then a second call before it returns. */
  lemma CallAfterCancelCanStart()
    ensures var steps := [Call, Cancel, Call];
      Legal(State(true, true, 0), steps) && Started(State(true, true, 0), steps) == 2
  {
    var s := State(true, true, 0);
    assert [Call, Cancel, Call][1..] == [Cancel, Call];
    assert [Cancel, Call][1..] == [Call];
    assert [Call][1..] == [];
    var s2 := State(false, true, 1);
    assert Started(s2, [Call]) == 1;
    assert Started(State(true, true, 1), [Cancel, Call]) == 1;
  }

  /** The class, with a delay returned by the body. */
  class TaskCancelable {
    var strong: bool
    const callable: bool
    var running: nat

    ghost function View(): State
      reads this
    {
      State(strong, callable, running)
    }

    constructor (callable: bool)
      ensures View() == State(true, callable, 0)
    {
      strong := true;
      this.callable := callable;
      running := 0;
    }

    method Cancel()
      modifies this`strong
      ensures View() == Apply(old(View()), Step.Cancel)
    {
      strong := false;
    }

    /** Entering operator(): the result says whether the body runs. */
    method Enter() returns (started: bool)
      modifies this`running
      ensures started == Starts(old(View())) && View() == Apply(old(View()), Call)
    {
      if (strong || running > 0) && callable {
        running := running + 1;
        return true;
      }
      return false;
    }

    method Leave()
      requires running > 0
      modifies this`running
      ensures View() == Apply(old(View()), Return)
    {
      running := running - 1;
    }
  }
}
