/** The counting semaphore of `avctool/util/Semphore.h`, at the level of its mutex and its
    condition variable.

    Every step is what one thread does while it holds the mutex: from taking it to releasing
    it, either by leaving the function or by going to sleep in `cond_.wait`.  A thread that was
    notified (or woke up spuriously) still has to get the mutex back, and any other thread may
    overtake it meanwhile. */
module Semphore {

  type Tid = nat

  /** `nn` is the field `nn_`.  `asleep` are the threads inside `cond_.wait` that nobody has
      notified, `notified` those on their way out of it.  The last two fields only record the
      permits ever posted and the calls of `wait` that have returned. */
  datatype State = State(nn: int, asleep: set<Tid>, notified: set<Tid>, posted: nat, completed: nat)

  datatype Step =
    | Enter(t: Tid)                     // wait(): take the mutex, test nn_ for the first time
    | Resume(t: Tid)                    // wait(): back from cond_.wait with the mutex, test again
    | Spurious(t: Tid)                  // the condition variable wakes a thread unasked
    | Post(n: nat, woken: set<Tid>)     // post(n), where the notification reached `woken`

  function Init(n: int): State {
    State(n, {}, {}, 0, 0)
  }

  /** Who a notification reaches: one sleeper if there is one when `n == 1`, otherwise all. */
  predicate Reaches(n: nat, asleep: set<Tid>, woken: set<Tid>) {
    if n == 1 then woken <= asleep && (if asleep == {} then woken == {} else |woken| == 1)
    else woken == asleep
  }

  predicate Enabled(s: State, step: Step) {
    match step
    case Enter(t) => t !in s.asleep && t !in s.notified
    case Resume(t) => t in s.notified
    case Spurious(t) => t in s.asleep
    case Post(n, woken) => Reaches(n, s.asleep, woken)
  }

  function Apply(s: State, step: Step): State
    requires Enabled(s, step)
  {
    match step
    case Enter(t) =>
      if s.nn == 0 then s.(asleep := s.asleep + {t})
      else s.(nn := s.nn - 1, completed := s.completed + 1)
    case Resume(t) =>
      if s.nn == 0 then s.(notified := s.notified - {t}, asleep := s.asleep + {t})
      else s.(nn := s.nn - 1, notified := s.notified - {t}, completed := s.completed + 1)
    case Spurious(t) =>
      s.(asleep := s.asleep - {t}, notified := s.notified + {t})
    case Post(n, woken) =>
      s.(nn := s.nn + n, asleep := s.asleep - woken, notified := s.notified + woken, posted := s.posted + n)
  }

  predicate Legal(s: State, steps: seq<Step>)
    decreases |steps|
  {
    steps == [] || (Enabled(s, steps[0]) && Legal(Apply(s, steps[0]), steps[1..]))
  }

  function Run(s: State, steps: seq<Step>): State
    requires Legal(s, steps)
    decreases |steps|
  {
    if steps == [] then s else Run(Apply(s, steps[0]), steps[1..])
  }

  /** The wake-up invariant: while somebody sleeps un-notified, every free permit already has a
      notified thread coming for it. */
  predicate Inv(s: State) {
    && s.asleep !! s.notified
    && (s.asleep != {} ==> s.nn <= |s.notified|)
  }

  /** Permits handed out and permits left, compared with those posted. */
  function Balance(s: State): int {
    s.nn + s.completed - s.posted
  }

  lemma StepKeepsInv(s: State, step: Step)
    requires Inv(s) && Enabled(s, step)
    ensures Inv(Apply(s, step))
  {
    var s' := Apply(s, step);
    match step
    case Enter(t) =>
    case Resume(t) =>
      assert s.notified == (s.notified - {t}) + {t};
    case Spurious(t) =>
      assert |s'.notified| == |s.notified| + 1;
    case Post(n, woken) =>
      assert |s'.notified| == |s.notified| + |woken|;
  }

  lemma StepKeepsBalance(s: State, step: Step)
    requires Enabled(s, step)
    ensures Balance(Apply(s, step)) == Balance(s)
    ensures s.nn >= 0 ==> Apply(s, step).nn >= 0
  {
  }

  /** No lost wake-up and exact permit accounting, for every initial count and every interleaving
      of any number of threads, with barging and spurious wake-ups. */
  lemma {:induction false} WakeupInvariant(s: State, steps: seq<Step>)
    requires Inv(s) && Legal(s, steps)
    ensures Inv(Run(s, steps))
    ensures Balance(Run(s, steps)) == Balance(s)
    ensures s.nn >= 0 ==> Run(s, steps).nn >= 0
    decreases |steps|
  {
    if steps != [] {
      var s1 := Apply(s, steps[0]);
      StepKeepsInv(s, steps[0]);
      StepKeepsBalance(s, steps[0]);
      WakeupInvariant(s1, steps[1..]);
      assert Run(s, steps) == Run(s1, steps[1..]);
    }
  }

  /** A thread that sleeps while nobody is being woken has no permit to take. */
  lemma QuietMeansNoPermit(n: nat, steps: seq<Step>)
    requires Legal(Init(n), steps)
    ensures var r := Run(Init(n), steps);
      r.notified == {} && r.asleep != {} ==> r.nn == 0 && r.completed == n + r.posted
  {
    WakeupInvariant(Init(n), steps);
  }

  /** Waits that return never outnumber the permits handed in, exactly when the semaphore is
      built with a non-negative count: `wait` blocks on `nn_ == 0`, so a negative count lets a
      thread straight through. */
  lemma NeverOverdrawnIff(n: int)
    ensures n >= 0 <==>
            forall steps | Legal(Init(n), steps) :: Run(Init(n), steps).completed <= n + Run(Init(n), steps).posted
  {
    if n >= 0 {
      forall steps | Legal(Init(n), steps)
        ensures Run(Init(n), steps).completed <= n + Run(Init(n), steps).posted
      {
        WakeupInvariant(Init(n), steps);
      }
    } else {
      var steps := [Enter(0)];
      assert steps[1..] == [];
      assert Legal(Init(n), steps);
      assert Run(Init(n), steps) == Apply(Init(n), Enter(0));
    }
  }

  function Min(a: int, b: int): int {
    if a < b then a else b
  }

  predicate OnlyResumes(steps: seq<Step>) {
    forall i | 0 <= i < |steps| :: steps[i].Resume?
  }

  /** No wake-up is wasted: in whatever order the notified threads get the mutex, once they all
      have, exactly min(permits, notified) of them have returned from `wait`, and a permit is
      left over only if nobody is left asleep. */
  lemma {:induction false} NotifiedThreadsClaimPermits(s: State, steps: seq<Step>)
    requires Inv(s) && s.nn >= 0 && Legal(s, steps) && OnlyResumes(steps)
    ensures var r := Run(s, steps);
      && r.completed + Min(r.nn, |r.notified|) == s.completed + Min(s.nn, |s.notified|)
      && (r.notified == {} ==>
            && r.completed - s.completed == Min(s.nn, |s.notified|)
            && (r.asleep != {} ==> r.nn == 0))
    decreases |steps|
  {
    if steps != [] {
      var t := steps[0].t;
      assert s.notified == (s.notified - {t}) + {t};
      StepKeepsInv(s, steps[0]);
      NotifiedThreadsClaimPermits(Apply(s, steps[0]), steps[1..]);
    }
  }

  /** Seen from outside, a semaphore built with `n >= 0` is the atomic counting semaphore: every
      step either adds what was posted, or takes one permit that was there, or is invisible. */
  lemma RefinesCountingSemaphore(n: nat, steps: seq<Step>, step: Step)
    requires Legal(Init(n), steps) && Enabled(Run(Init(n), steps), step)
    ensures var s := Run(Init(n), steps); var s' := Apply(s, step);
      || (s'.nn == s.nn && s'.completed == s.completed && s'.posted == s.posted)
      || (s.nn > 0 && s'.nn == s.nn - 1 && s'.completed == s.completed + 1 && s'.posted == s.posted)
      || (step.Post? && s'.nn == s.nn + step.n && s'.completed == s.completed && s'.posted == s.posted + step.n)
  {
    WakeupInvariant(Init(n), steps);
  }

  /** The class itself: `Wait` is cut where `cond_.wait` gives the mutex away. */
  class Semphore {
    var nn: int
    var asleep: set<Tid>
    var notified: set<Tid>
    ghost var posted: nat
    ghost var completed: nat

    ghost function View(): State
      reads this
    {
      State(nn, asleep, notified, posted, completed)
    }

    constructor (n: int := 0)
      ensures View() == Init(n)
    {
      nn, asleep, notified := n, {}, {};
      posted, completed := 0, 0;
    }

    /** The loop test of `wait`, first time round or after a wake-up; `returned` says that the
        call went through, otherwise the thread now sleeps. */
    method Wait(t: Tid) returns (returned: bool)
      requires t !in asleep
      modifies this
      ensures old(t in notified) ==> View() == Apply(old(View()), Resume(t))
      ensures old(t !in notified) ==> View() == Apply(old(View()), Enter(t))
      ensures returned == (t !in asleep) && t !in notified
    {
      notified := notified - {t};
      if nn == 0 {
        asleep := asleep + {t};
        returned := false;
      } else {
        nn := nn - 1;
        completed := completed + 1;
        returned := true;
      }
    }

    method Post(n: nat := 1) returns (woken: set<Tid>)
      modifies this
      ensures Reaches(n, old(asleep), woken)
      ensures View() == Apply(old(View()), Step.Post(n, woken))
    {
      nn := nn + n;
      posted := posted + n;
      if n == 1 {
        woken := {};
        if asleep != {} {
          var t :| t in asleep;
          woken := {t};
        }
      } else {
        woken := asleep;
      }
      asleep := asleep - woken;
      notified := notified + woken;
    }
  }
}
