/** Event registration in `avctool/poller/EventPoller.cc`: the map from descriptors to event records and
    the kernel's interest set, changed at once on the poller thread and through the task queue from any
    other; and the closing of descriptors, which takes them out of the interest set by itself. */
module Registration {

  type Fd = int

  datatype Record = Record(events: bv3, callback: nat)

  datatype Op =
    | Attach(fd: Fd, rec: Record)
    | Modify(fd: Fd, events: bv3)
    | Detach(fd: Fd)

  /** `refused`: the kernel turned the ADD or the MOD down for a reason of its own. */
  datatype Done = Done(op: Op, refused: bool)

  datatype State = State(
    records: map<Fd, Record>,     // event_records_
    kernel: set<Fd>,              // descriptors in the epoll set
    queue: seq<Op>,               // deferred operations in tasks_
    log: seq<Done>)               // operations carried out so far, in order

  datatype Step =
    | Inline(op: Op, refused: bool)   // called on the poller thread
    | Defer(op: Op)                   // called on any other thread
    | RunNext(refused: bool)          // the loop reaches the next deferred operation
    | Close(fd: Fd)                   // the owner closes the descriptor

  const INIT: State := State(map[], {}, [], [])

  /** ADD fails for a descriptor that is there already, and then nothing is recorded; MOD changes the
      record whether or not it succeeds; DEL drops the record whether or not it succeeds. */
  function Execute(s: State, op: Op, refused: bool): State {
    var s' := s.(log := s.log + [Done(op, refused)]);
    match op
    case Attach(fd, rec) =>
      if fd in s.kernel || refused then s'
      else s'.(kernel := s.kernel + {fd}, records := s.records[fd := rec])
    case Modify(fd, events) =>
      if fd in s.records then s'.(records := s.records[fd := s.records[fd].(events := events)]) else s'
    case Detach(fd) =>
      s'.(kernel := s.kernel - {fd}, records := s.records - {fd})
  }

  predicate Enabled(s: State, step: Step) {
    step.RunNext? ==> s.queue != []
  }

  function Apply(s: State, step: Step): State
    requires Enabled(s, step)
  {
    match step
    case Inline(op, refused) => Execute(s, op, refused)
    case Defer(op) => s.(queue := s.queue + [op])
    case RunNext(refused) => Execute(s.(queue := s.queue[1..]), s.queue[0], refused)
    case Close(fd) => s.(kernel := s.kernel - {fd})
  }

  predicate Legal(s: State, steps: seq<Step>)
    decreases |steps|
  {
    steps == [] || (Enabled(s, steps[0]) && Legal(Apply(s, steps[0]), steps[1..]))
  }

  function Run(s: State, steps: seq<Step>): State
    requires Legal(s, steps)
    decreases |steps|
  {
    if steps == [] then s else Run(Apply(s, steps[0]), steps[1..])
  }

  lemma OneMore(s: State, step: Step, rest: seq<Step>)
    requires Enabled(s, step) && Legal(Apply(s, step), rest)
    ensures Legal(s, [step] + rest) && Run(s, [step] + rest) == Run(Apply(s, step), rest)
  {
    assert ([step] + rest)[1..] == rest;
  }

  // ---- refinement ----------------------------------------------------------------------------------

  /** The plain map that a user of the poller has in mind: the first registration stays until it is
      detached. */
  function Plain(m: map<Fd, Record>, d: Done): map<Fd, Record> {
    match d.op
    case Attach(fd, rec) => if fd in m || d.refused then m else m[fd := rec]
    case Modify(fd, events) => if fd in m then m[fd := m[fd].(events := events)] else m
    case Detach(fd) => m - {fd}
  }

  function Fold(log: seq<Done>): map<Fd, Record> {
    if log == [] then map[] else Plain(Fold(log[..|log| - 1]), log[|log| - 1])
  }

  lemma FoldMore(log: seq<Done>, d: Done)
    ensures Fold(log + [d]) == Plain(Fold(log), d)
  {
    assert (log + [d])[..|log|] == log;
  }

  /** Descriptors are closed only when they are not registered. */
  predicate ClosesDetached(s: State, steps: seq<Step>)
    requires Legal(s, steps)
    decreases |steps|
  {
    steps == [] ||
    ((steps[0].Close? ==> steps[0].fd !in s.records) && ClosesDetached(Apply(s, steps[0]), steps[1..]))
  }

  predicate Refined(s: State) {
    s.records == Fold(s.log) && s.kernel == s.records.Keys
  }

  lemma ExecuteRefines(s: State, op: Op, refused: bool)
    requires Refined(s)
    ensures Refined(Execute(s, op, refused))
  {
    FoldMore(s.log, Done(op, refused));
  }

  lemma StepRefines(s: State, step: Step)
    requires Refined(s) && Enabled(s, step) && (step.Close? ==> step.fd !in s.records)
    ensures Refined(Apply(s, step))
  {
    match step
    case Inline(op, refused) => ExecuteRefines(s, op, refused);
    case RunNext(refused) => ExecuteRefines(s.(queue := s.queue[1..]), s.queue[0], refused);
    case Defer(_) =>
    case Close(_) =>
  }

  /** Any mix of calls from any threads leaves the event records equal to the plain map folded over the
      operations in the order in which they were carried out, and the interest set equal to its keys, as
      long as descriptors are closed after they have been detached. */
  lemma {:induction false} RefinesPlainMap(s: State, steps: seq<Step>)
    requires Refined(s) && Legal(s, steps) && ClosesDetached(s, steps)
    ensures Refined(Run(s, steps))
    decreases |steps|
  {
    if steps != [] {
      StepRefines(s, steps[0]);
      RefinesPlainMap(Apply(s, steps[0]), steps[1..]);
    }
  }

  // ---- closing too early ---------------------------------------------------------------------------

  /** Descriptors closed while registered, until they are detached or registered anew. */
  function Stale(s: State, stale: set<Fd>, step: Step): set<Fd>
    requires Enabled(s, step)
  {
    match step
    case Close(fd) => if fd in s.records then stale + {fd} else stale
    case Inline(op, refused) => Cleaned(op, refused, stale)
    case RunNext(refused) => Cleaned(s.queue[0], refused, stale)
    case Defer(_) => stale
  }

  function Cleaned(op: Op, refused: bool, stale: set<Fd>): set<Fd> {
    if op.Detach? || (op.Attach? && !refused) then stale - {op.fd} else stale
  }

  function StaleAfter(s: State, stale: set<Fd>, steps: seq<Step>): set<Fd>
    requires Legal(s, steps)
    decreases |steps|
  {
    if steps == [] then stale else StaleAfter(Apply(s, steps[0]), Stale(s, stale, steps[0]), steps[1..])
  }

  lemma StepKeepsKeys(s: State, stale: set<Fd>, step: Step)
    requires Enabled(s, step) && stale <= s.records.Keys && s.kernel == s.records.Keys - stale
    ensures var s' := Apply(s, step); var left := Stale(s, stale, step);
      left <= s'.records.Keys && s'.kernel == s'.records.Keys - left
  {
    match step
    case Inline(op, refused) => ExecuteKeepsKeys(s, stale, op, refused);
    case RunNext(refused) => ExecuteKeepsKeys(s.(queue := s.queue[1..]), stale, s.queue[0], refused);
    case Defer(_) =>
    case Close(_) =>
  }

  lemma ExecuteKeepsKeys(s: State, stale: set<Fd>, op: Op, refused: bool)
    requires stale <= s.records.Keys && s.kernel == s.records.Keys - stale
    ensures var s' := Execute(s, op, refused); var left := Cleaned(op, refused, stale);
      left <= s'.records.Keys && s'.kernel == s'.records.Keys - left
  {
  }

  /** With any closing at all: the interest set is the set of recorded descriptors without those that were
      closed while registered, so the two agree exactly when there is no such descriptor. */
  lemma {:induction false} KeysAgreeIff(s: State, stale: set<Fd>, steps: seq<Step>)
    requires stale <= s.records.Keys && s.kernel == s.records.Keys - stale && Legal(s, steps)
    ensures var r := Run(s, steps); var left := StaleAfter(s, stale, steps);
      && left <= r.records.Keys && r.kernel == r.records.Keys - left
      && (r.kernel == r.records.Keys <==> left == {})
    decreases |steps|
  {
    if steps != [] {
      StepKeepsKeys(s, stale, steps[0]);
      KeysAgreeIff(Apply(s, steps[0]), Stale(s, stale, steps[0]), steps[1..]);
    } else {
      SubsetLeft(s.records.Keys, stale);
    }
  }

  lemma SubsetLeft(keys: set<Fd>, stale: set<Fd>)
    requires stale <= keys
    ensures keys - stale == keys <==> stale == {}
  {
    if fd :| fd in stale {
      assert fd in keys && fd !in keys - stale;
    }
  }

  /** The step is somebody's call about `fd`. */
  predicate About(fd: Fd, step: Step) {
    match step
    case Inline(op, _) => op.fd == fd
    case Defer(op) => op.fd == fd
    case Close(other) => other == fd
    case RunNext(_) => false
  }

  predicate Untouched(fd: Fd, steps: seq<Step>) {
    forall i | 0 <= i < |steps| :: !About(fd, steps[i])
  }

  /** The operation settles whether `fd` is registered: a detach, or an attach that the kernel did not refuse. */
  predicate Decides(d: Done, fd: Fd) {
    d.op.fd == fd && (d.op.Detach? || (d.op.Attach? && !d.refused))
  }

  /** What operations in this order make of it. */
  function Fate(present: bool, done: seq<Done>, fd: Fd): bool
    decreases |done|
  {
    if done == [] then present
    else Fate(if Decides(done[0], fd) then done[0].op.Attach? else present, done[1..], fd)
  }

  predicate NoneDecides(done: seq<Done>, fd: Fd) {
    forall i | 0 <= i < |done| :: !Decides(done[i], fd)
  }

  lemma {:induction false} NothingDecided(present: bool, done: seq<Done>, fd: Fd)
    requires NoneDecides(done, fd)
    ensures Fate(present, done, fd) == present
    decreases |done|
  {
    if done != [] {
      assert !Decides(done[0], fd);
      NothingDecided(present, done[1..], fd);
    }
  }

  /** The last operation that decides is the one that counts. */
  lemma {:induction false} LastDecides(present: bool, done: seq<Done>, fd: Fd, i: nat)
    requires i < |done| && Decides(done[i], fd) && NoneDecides(done[i + 1..], fd)
    ensures Fate(present, done, fd) == done[i].op.Attach?
    decreases i
  {
    if i == 0 {
      NothingDecided(done[0].op.Attach?, done[1..], fd);
    } else {
      assert done[1..][i..] == done[i + 1..];
      LastDecides(if Decides(done[0], fd) then done[0].op.Attach? else present, done[1..], fd, i - 1);
    }
  }

  /** The operations on `fd` in a queue, and among those carried out. */
  function Queued(queue: seq<Op>, fd: Fd): seq<Op> {
    if queue == [] then [] else (if queue[0].fd == fd then [queue[0]] else []) + Queued(queue[1..], fd)
  }

  function Carried(done: seq<Done>, fd: Fd): seq<Op> {
    if done == [] then [] else (if done[0].op.fd == fd then [done[0].op] else []) + Carried(done[1..], fd)
  }

  lemma Assoc(a: seq<Op>, b: seq<Op>, c: seq<Op>)
    ensures a + b + c == a + (b + c)
  {
  }

  lemma {:induction false} QueuedMore(queue: seq<Op>, op: Op, fd: Fd)
    ensures Queued(queue + [op], fd) == Queued(queue, fd) + if op.fd == fd then [op] else []
  {
    if queue == [] {
      assert (queue + [op])[1..] == [];
    } else {
      assert (queue + [op])[1..] == queue[1..] + [op];
      QueuedMore(queue[1..], op, fd);
      Assoc(if queue[0].fd == fd then [queue[0]] else [], Queued(queue[1..], fd), if op.fd == fd then [op] else []);
    }
  }

  /** What one step carries out. */
  function DoneBy(s: State, step: Step): seq<Done>
    requires Enabled(s, step)
  {
    match step
    case Inline(op, refused) => [Done(op, refused)]
    case RunNext(refused) => [Done(s.queue[0], refused)]
    case Defer(_) => []
    case Close(_) => []
  }

  predicate InStep(s: State, fd: Fd) {
    fd in s.records <==> fd in s.kernel
  }

  lemma StepDecides(s: State, step: Step, fd: Fd)
    requires Enabled(s, step) && step != Close(fd) && InStep(s, fd)
    ensures var s' := Apply(s, step);
      && InStep(s', fd) && s'.log == s.log + DoneBy(s, step)
      && (fd in s'.kernel <==> Fate(fd in s.kernel, DoneBy(s, step), fd))
  {
    if step.Inline? || step.RunNext? {
      assert DoneBy(s, step)[1..] == [];
    }
  }

  lemma StepQueue(s: State, step: Step, fd: Fd)
    requires Enabled(s, step) && !About(fd, step)
    ensures Carried(DoneBy(s, step), fd) + Queued(Apply(s, step).queue, fd) == Queued(s.queue, fd)
  {
    match step
    case Inline(op, refused) => assert DoneBy(s, step)[1..] == [];
    case RunNext(refused) => assert DoneBy(s, step)[1..] == [];
    case Defer(op) => QueuedMore(s.queue, op, fd);
    case Close(_) =>
  }

  lemma FateAppend(present: bool, a: seq<Done>, b: seq<Done>, fd: Fd)
    requires |a| <= 1
    ensures Fate(present, a + b, fd) == Fate(Fate(present, a, fd), b, fd)
    ensures Carried(a + b, fd) == Carried(a, fd) + Carried(b, fd)
  {
    if a == [] {
      assert a + b == b;
    } else {
      assert (a + b)[1..] == b && a[1..] == [];
    }
  }

  lemma AssocDone(a: seq<Done>, b: seq<Done>, c: seq<Done>)
    ensures a + b + c == a + (b + c)
  {
  }

  /** What becomes of a registration, over any run in which its descriptor is not closed: the last detach, or
      attach that was not refused, of those carried out decides; and if everybody leaves the descriptor alone
      meanwhile, those carried out on it are the ones that were waiting in the queue when it was made, in
      order, as far as the queue has been worked off. */
  lemma {:induction false} RegistrationSurvivesIff(s: State, steps: seq<Step>, fd: Fd) returns (done: seq<Done>)
    requires Legal(s, steps) && InStep(s, fd)
    requires forall i | 0 <= i < |steps| :: steps[i] != Close(fd)
    ensures var r := Run(s, steps);
      && r.log == s.log + done && InStep(r, fd)
      && (fd in r.kernel <==> Fate(fd in s.kernel, done, fd))
      && (Untouched(fd, steps) ==> Carried(done, fd) + Queued(r.queue, fd) == Queued(s.queue, fd))
    decreases |steps|
  {
    if steps == [] {
      done := [];
    } else {
      var first := DoneBy(s, steps[0]);
      StepDecides(s, steps[0], fd);
      var rest := RegistrationSurvivesIff(Apply(s, steps[0]), steps[1..], fd);
      done := first + rest;
      FateAppend(fd in s.kernel, first, rest, fd);
      if Untouched(fd, steps) {
        assert Untouched(fd, steps[1..]);
        StepQueue(s, steps[0], fd);
        Assoc(Carried(first, fd), Carried(rest, fd), Queued(Run(s, steps).queue, fd));
      }
      AssocDone(s.log, first, rest);
    }
  }

  /** The destructor of a socket's descriptor on a thread other than the poller's defers the detach and
      then closes; if the number is reused for a registration made on the poller thread before the detach
      runs, that registration is taken away, although its attach succeeded. */
  lemma ReusedNumberLosesRegistration(first: Record, second: Record)
    ensures var steps := [Inline(Attach(5, first), false), Defer(Detach(5)), Close(5), Inline(Attach(5, second), false)];
      && Legal(INIT, steps)
      && var r := Run(INIT, steps);
      && r.records == map[5 := second] && r.kernel == {5} && r.queue == [Detach(5)]
      && var r' := Apply(r, RunNext(false));
      && r'.records == map[] && r'.kernel == {}
  {
    var open, again := Inline(Attach(5, first), false), Inline(Attach(5, second), false);
    var s0 := State(map[5 := first], {5}, [], [Done(Attach(5, first), false)]);
    var s1 := s0.(queue := [Detach(5)]);
    var s2 := s1.(kernel := {});
    var s3 := Apply(s2, again);
    assert Apply(INIT, open) == s0;
    assert Apply(s0, Defer(Detach(5))) == s1;
    assert Apply(s1, Close(5)) == s2;
    assert s3.records == map[5 := second] && s3.kernel == {5} && s3.queue == [Detach(5)];
    assert s3.records - {5} == map[] && s3.kernel - {5} == {};
    OneMore(s2, again, []);
    assert [again] + [] == [again];
    OneMore(s1, Close(5), [again]);
    assert [Close(5)] + [again] == [Close(5), again];
    OneMore(s0, Defer(Detach(5)), [Close(5), again]);
    assert [Defer(Detach(5))] + [Close(5), again] == [Defer(Detach(5)), Close(5), again];
    OneMore(INIT, open, [Defer(Detach(5)), Close(5), again]);
    assert [open] + [Defer(Detach(5)), Close(5), again] == [open, Defer(Detach(5)), Close(5), again];
  }

  // ---- the code ------------------------------------------------------------------------------------

  class EventRecords {
    var records: map<Fd, Record>
    var kernel: set<Fd>
    var queue: seq<Op>
    ghost var log: seq<Done>

    ghost function View(): State
      reads this
    {
      State(records, kernel, queue, log)
    }

    constructor ()
      ensures View() == INIT
    {
      records, kernel, queue, log := map[], {}, [], [];
    }

    /** `attachEvent` and `attachEvent_l`; `current` says that the caller is the poller thread. */
    method AttachEvent(fd: Fd, rec: Record, current: bool, refused: bool) returns (ret: int)
      modifies this
      ensures View() == if fd < 0 then old(View())
                        else if current then Execute(old(View()), Attach(fd, rec), refused)
                        else old(View()).(queue := old(queue) + [Attach(fd, rec)])
      ensures ret == if fd < 0 || (current && (fd in old(kernel) || refused)) then -1 else 0
    {
      if fd < 0 {
        return -1;
      }
      if !current {
        queue := queue + [Attach(fd, rec)];
        return 0;
      }
      log := log + [Done(Attach(fd, rec), refused)];
      if fd in kernel || refused {
        return -1;
      }
      kernel := kernel + {fd};
      records := records[fd := rec];
      return 0;
    }

    method ModifyEvent(fd: Fd, events: bv3, current: bool, refused: bool) returns (ret: int)
      modifies this
      ensures View() == if current then Execute(old(View()), Modify(fd, events), refused)
                        else old(View()).(queue := old(queue) + [Modify(fd, events)])
      ensures ret == if current && (fd !in old(kernel) || refused) then -1 else 0
    {
      if !current {
        queue := queue + [Modify(fd, events)];
        return 0;
      }
      log := log + [Done(Modify(fd, events), refused)];
      ret := if fd in kernel && !refused then 0 else -1;
      if fd in records {
        records := records[fd := records[fd].(events := events)];
      }
    }

    method DetachEvent(fd: Fd, current: bool) returns (ret: int)
      modifies this
      ensures View() == if current then Execute(old(View()), Detach(fd), false)
                        else old(View()).(queue := old(queue) + [Detach(fd)])
      ensures ret == if current && fd !in old(kernel) then -1 else 0
    {
      if !current {
        queue := queue + [Detach(fd)];
        return 0;
      }
      log := log + [Done(Detach(fd), false)];
      ret := if fd in kernel then 0 else -1;
      kernel := kernel - {fd};
      records := records - {fd};
    }
  }
}
