/** The send side of `avctool/network/Socket.cc` under interleaving: any number of threads calling
    `send_l`, the one of them that holds `mtx_fd_` inside `flushData(..., false)`, the thread that binds and
    closes the socket, and the poller thread, which runs deferred attach and modify calls and, on write
    events, `flushData(..., true)` as `avctool/network/Socket.h` lines 149-175 describe it.  The sender
    and the binder may be the poller thread itself.

    A step is one atomic access to shared state.  Accepted bytes are named by their position in the
    accepted stream, 0, 1, 2, ..., so "in order" can be read off the wire. */
module SendProtocol {

  type Bytes = seq<nat>

  /** Where the thread inside flushAll is, between taking and releasing `mtx_fd_`. */
  datatype User =
    | UIdle
    | UChecked                 // saw a descriptor and sendable_ set
    | UEmpty                   // found the second level empty
    | UHand                    // has a list in hand
    | USent                    // part of it went out
    | UFlagged                 // startWritableEvent: sendable_ = false
    | UPosted                  // startWritableEvent: modifyEvent called; the rest not stored yet

  /** Where the poller thread is, as far as its own work for this socket is concerned. */
  datatype Poller =
    | PIdle
    | PEvent                   // flushData entered
    | PEmpty                   // found the second level empty
    | PHand                    // has a list in hand
    | PSent                    // part of it went out, the rest not stored yet
    | PStopping                // stopWritableEvent: sendable_ = true, still holding the first level's lock
    | PFault                   // stopWritableEvent: used sock_fd_ while it was null

  /** Where the thread inside fromSockFd or closeSocket is. */
  datatype Owner =
    | OIdle
    | OLowered                 // closeSocket: sendable_ = false
    | ODropped                 // closeSocket: sock_fd_ = nullptr, the old descriptor detached and closed
    | OSet                     // setSocketFD

  /** Deferred calls for a descriptor that was given up have no effect and are left out of the queue. */
  datatype Control = Control(
    sendable: bool,
    open: bool,                // sock_fd_ is set
    attached: bool,            // there is an event record for it
    armed: bool,               // which asks for write events
    attaching: bool,           // its attachEvent is in the poller's task queue
    posted: nat,               // modifyEvent calls (for write events) behind that in the queue
    reported: bool,            // a poll call has reported it as writable, not handled yet
    owner: Owner,
    ownerHere: bool,           // the owner is the poller thread
    user: User,
    userHere: bool,            // the user is the poller thread
    poller: Poller,
    flushes: nat)              // send_l calls that have queued their buffer and not flushed yet

  datatype Data = Data(
    wire: Bytes,
    mine: Bytes,               // the list in the user's hand, or what is left of it
    two: Bytes,                // second level
    theirs: Bytes,             // the list in the poller's hand
    one: Bytes,                // first level
    next: nat,                 // bytes accepted so far
    eager: nat)                // bytes accepted up to the last send_l that asked for a flush

  datatype State = State(c: Control, d: Data)

  datatype Step =
    | Accept(n: nat, tryFlush: bool)   // send_l queues n bytes
    | UserCheck(here: bool)            // flushAll reads sock_fd_ and sendable_
    | UserSwapTwo
    | UserTakeOne
    | UserSend(n: nat)                 // BufferList::send, n > 0 bytes taken
    | UserFail                         // BufferList::send returned -1
    | UserFlag
    | UserPost                         // modifyEvent: inline on the poller thread, else deferred
    | UserStore                        // the final swap
    | PollAttach                       // a deferred attachEvent runs
    | PollModify                       // a deferred modifyEvent runs
    | PollReport                       // a poll call reports the socket as writable
    | PollEvent                        // the report is handled
    | PollSwapTwo
    | PollTakeOne
    | PollSend(n: nat)
    | PollFail
    | PollStore
    | PollStop                         // stopWritableEvent: the inline modifyEvent
    | Lower(here: bool)                // closeSocket begins
    | Drop
    | Closed                           // closeSocket was all
    | SetFd
    | Attach                           // attachEvent: inline on the poller thread, else deferred

  /** A socket that is not bound yet. */
  const INIT: State := State(
    Control(false, false, false, false, false, 0, false, OIdle, false, UIdle, false, PIdle, 0),
    Data([], [], [], [], [], 0, 0))

  function Range(from: nat, to: nat): Bytes
    requires from <= to
  {
    seq(to - from, i => from + i)
  }

  /** The poller thread is in its loop. */
  predicate PollerFree(c: Control) {
    c.poller.PIdle? && !(c.userHere && !c.user.UIdle?) && !(c.ownerHere && !c.owner.OIdle?)
  }

  predicate Enabled(s: State, step: Step) {
    match step
    case Accept(n, _) => n > 0 && !s.c.poller.PStopping?
    case UserCheck(here) => s.c.user.UIdle? && s.c.flushes > 0 && (here ==> PollerFree(s.c))
    case UserSwapTwo => s.c.user.UChecked?
    case UserTakeOne => s.c.user.UEmpty? && !s.c.poller.PStopping?
    case UserSend(n) => s.c.user.UHand? && 0 < n <= |s.d.mine|
    case UserFail => s.c.user.UHand?
    case UserFlag => s.c.user.USent?
    case UserPost => s.c.user.UFlagged?
    case UserStore => s.c.user.UPosted?
    case PollAttach => PollerFree(s.c) && s.c.attaching
    case PollModify => PollerFree(s.c) && !s.c.attaching && s.c.posted > 0
    case PollReport => PollerFree(s.c) && s.c.armed
    case PollEvent => PollerFree(s.c) && s.c.reported
    case PollSwapTwo => s.c.poller.PEvent?
    case PollTakeOne => s.c.poller.PEmpty?
    case PollSend(n) => s.c.poller.PHand? && 0 < n <= |s.d.theirs|
    case PollFail => s.c.poller.PHand?
    case PollStore => s.c.poller.PSent?
    case PollStop => s.c.poller.PStopping?
    case Lower(here) => s.c.owner.OIdle? && (here ==> PollerFree(s.c))
    case Drop => s.c.owner.OLowered? && s.c.user.UIdle?
    case Closed => s.c.owner.ODropped?
    case SetFd => s.c.owner.ODropped? && s.c.user.UIdle?
    case Attach => s.c.owner.OSet?
  }

  /** What a step does to the bytes. */
  function Move(d: Data, step: Step): Data {
    match step
    case Accept(n, tryFlush) =>
      d.(one := d.one + Range(d.next, d.next + n), next := d.next + n, eager := if tryFlush then d.next + n else d.eager)
    case UserSwapTwo => d.(mine := d.two, two := [])
    case UserTakeOne => d.(mine := d.one, one := [])
    case UserSend(n) => if n <= |d.mine| then d.(wire := d.wire + d.mine[..n], mine := d.mine[n..]) else d
    case UserFail => d.(mine := [])
    case UserStore => d.(two := d.mine, mine := [])
    case PollSwapTwo => d.(theirs := d.two, two := [])
    case PollTakeOne => d.(theirs := d.one, one := [])
    case PollSend(n) => if n <= |d.theirs| then d.(wire := d.wire + d.theirs[..n], theirs := d.theirs[n..]) else d
    case PollFail => d.(theirs := [])
    case PollStore => d.(two := d.theirs, theirs := [])
    case _ => d
  }

  /** What a step does to flags, records and positions; which way it goes may depend on the bytes. */
  function Turn(c: Control, d: Data, step: Step): Control {
    match step
    case Accept(_, tryFlush) => if tryFlush then c.(flushes := c.flushes + 1) else c
    case UserCheck(here) =>
      c.(flushes := if c.flushes > 0 then c.flushes - 1 else 0, userHere := here,
         user := if c.open && c.sendable then UChecked else UIdle)
    case UserSwapTwo => c.(user := if d.two == [] then UEmpty else UHand)
    case UserTakeOne => c.(user := if d.one == [] then UIdle else UHand)
    case UserSend(n) => c.(user := if n == |d.mine| then UIdle else USent)
    case UserFail => c.(user := UIdle)
    case UserFlag => c.(user := UFlagged, sendable := false)
    case UserPost =>
      if c.userHere then c.(user := UPosted, armed := c.attached) else c.(user := UPosted, posted := c.posted + 1)
    case UserStore => c.(user := UIdle)
    case PollAttach => c.(attaching := false, attached := true, armed := true)
    case PollModify => c.(posted := if c.posted > 0 then c.posted - 1 else 0, armed := c.attached)
    case PollReport => c.(reported := true)
    case PollEvent => c.(reported := false, poller := PEvent)
    case PollSwapTwo => c.(poller := if d.two == [] then PEmpty else PHand)
    case PollTakeOne => if d.one == [] then c.(poller := PStopping, sendable := true) else c.(poller := PHand)
    case PollSend(n) => c.(poller := if n == |d.theirs| then PEvent else PSent)
    case PollFail => c.(poller := PIdle)
    case PollStore => c.(poller := PIdle)
    case PollStop => if c.open then c.(poller := PIdle, armed := false) else c.(poller := PFault)
    case Lower(here) => c.(owner := OLowered, ownerHere := here, sendable := false)
    case Drop =>
      c.(owner := ODropped, open := false, attached := false, armed := false, attaching := false, posted := 0)
    case Closed => c.(owner := OIdle)
    case SetFd => c.(owner := OSet, open := true)
    case Attach =>
      if c.ownerHere then c.(owner := OIdle, attached := true, armed := true) else c.(owner := OIdle, attaching := true)
  }

  function Apply(s: State, step: Step): State
    requires Enabled(s, step)
  {
    State(Turn(s.c, s.d, step), Move(s.d, step))
  }

  predicate Legal(s: State, steps: seq<Step>)
    decreases |steps|
  {
    steps == [] || (Enabled(s, steps[0]) && Legal(Apply(s, steps[0]), steps[1..]))
  }

  function Run(s: State, steps: seq<Step>): State
    requires Legal(s, steps)
    decreases |steps|
  {
    if steps == [] then s else Run(Apply(s, steps[0]), steps[1..])
  }

  // ---- the flag and the write interest -----------------------------------------------------------

  /** A user flush that has not given the flag up yet. */
  predicate UserFlushing(u: User) {
    u.UChecked? || u.UEmpty? || u.UHand? || u.USent?
  }

  predicate PollerFlushing(p: Poller) {
    p.PEvent? || p.PEmpty? || p.PHand? || p.PSent?
  }

  /** The poller is flushing or about to. */
  predicate Polling(s: State) {
    s.c.reported || PollerFlushing(s.c.poller)
  }

  /** The descriptor is in full use: nobody is binding or closing, and the poller knows it. */
  predicate Steady(s: State) {
    s.c.open && s.c.owner.OIdle? && !s.c.attaching
  }

  /** The write interest once the poller has done what is under way and what is queued, in order. */
  predicate EventualInterest(s: State) {
    s.c.attaching || (s.c.attached && (s.c.posted > 0 || (s.c.armed && !s.c.poller.PStopping?)))
  }

  /** The write interest that results from the calls under way and queued is the negation of `sendable_`,
      except in the one step where a user has lowered the flag and is about to make the call; and the flag
      is down while the socket is closed or being bound. */
  predicate Agrees(s: State) {
    if Steady(s) then s.c.user.UFlagged? || EventualInterest(s) == !s.c.sendable else !s.c.sendable
  }

  /** The poller raises the flag although the socket is closed, or being closed or bound. */
  predicate LateRaise(s: State, step: Step) {
    step.PollTakeOne? && s.d.one == [] && !Steady(s)
  }

  predicate Threads(s: State) {
    && (s.c.userHere && !s.c.user.UIdle? ==> s.c.poller.PIdle?)
    && (s.c.ownerHere && !s.c.owner.OIdle? ==> s.c.poller.PIdle?)
    && (s.c.reported ==> s.c.poller.PIdle?)
    && (!s.c.user.UIdle? ==> s.c.open && (s.c.owner.OIdle? || s.c.owner.OLowered?))
    && (s.c.owner.ODropped? ==> !s.c.open)
    && (s.c.owner.OSet? ==> s.c.open)
  }

  /** What the event record and the queue look like. */
  predicate Records(s: State) {
    && (!s.c.open || s.c.owner.OSet? ==> !s.c.attached && !s.c.attaching)
    && (s.c.open && !s.c.owner.OSet? ==> s.c.attached == !s.c.attaching)
    && (!s.c.attached ==> !s.c.armed && s.c.posted == 0)
    && s.c.posted <= 1
    && (s.c.posted == 1 ==> (s.c.armed ==> s.c.poller.PStopping?) && !Polling(s))
  }

  predicate Flags(s: State) {
    && Threads(s) && Records(s)
    && (UserFlushing(s.c.user) || s.c.user.UFlagged? ==>
          s.c.attached && s.c.posted == 0 && !Polling(s) && (s.c.armed ==> s.c.poller.PStopping?))
    && (UserFlushing(s.c.user) && s.c.owner.OIdle? ==> s.c.sendable)
    && (s.c.user.UFlagged? ==> !s.c.sendable)
    && (s.c.sendable ==> Steady(s) && s.c.posted == 0 && !Polling(s) && (s.c.armed ==> s.c.poller.PStopping?))
    && (Steady(s) && !s.c.sendable && !s.c.user.UFlagged? ==> s.c.posted == 1 || (s.c.armed && !s.c.poller.PStopping?))
  }

  lemma CheckKeepsFlags(s: State, here: bool)
    requires Flags(s) && Enabled(s, UserCheck(here))
    ensures Flags(Apply(s, UserCheck(here)))
  {
  }

  lemma UserTakesKeepsFlags(s: State, step: Step)
    requires Flags(s) && Enabled(s, step) && (step.Accept? || step.UserSwapTwo? || step.UserTakeOne?)
    ensures Flags(Apply(s, step))
  {
  }

  lemma UserSendsKeepsFlags(s: State, step: Step)
    requires Flags(s) && Enabled(s, step)
    requires step.UserSend? || step.UserFail? || step.UserFlag? || step.UserPost? || step.UserStore?
    ensures Flags(Apply(s, step))
  {
  }

  lemma LoopKeepsFlags(s: State, step: Step)
    requires Flags(s) && Enabled(s, step) && (step.PollAttach? || step.PollModify? || step.PollReport? || step.PollEvent?)
    ensures Flags(Apply(s, step))
  {
  }

  lemma PollerFlushKeepsFlags(s: State, step: Step)
    requires Flags(s) && Enabled(s, step) && !LateRaise(s, step)
    requires step.PollSwapTwo? || step.PollTakeOne? || step.PollSend? || step.PollFail? || step.PollStore? || step.PollStop?
    ensures Flags(Apply(s, step))
  {
  }

  lemma OwnerKeepsFlags(s: State, step: Step)
    requires Flags(s) && Enabled(s, step)
    requires step.Lower? || step.Drop? || step.Closed? || step.SetFd? || step.Attach?
    ensures Flags(Apply(s, step))
  {
  }

  lemma StepKeepsFlags(s: State, step: Step)
    requires Flags(s) && Enabled(s, step) && !LateRaise(s, step)
    ensures Flags(Apply(s, step))
  {
    if step.Lower? || step.Drop? || step.Closed? || step.SetFd? || step.Attach? {
      OwnerKeepsFlags(s, step);
    } else if step.UserCheck? {
      CheckKeepsFlags(s, step.here);
    } else if step.Accept? || step.UserSwapTwo? || step.UserTakeOne? {
      UserTakesKeepsFlags(s, step);
    } else if step.UserSend? || step.UserFail? || step.UserFlag? || step.UserPost? || step.UserStore? {
      UserSendsKeepsFlags(s, step);
    } else if step.PollAttach? || step.PollModify? || step.PollReport? || step.PollEvent? {
      LoopKeepsFlags(s, step);
    } else {
      PollerFlushKeepsFlags(s, step);
    }
  }

  predicate AgreesThroughout(s: State, steps: seq<Step>)
    requires Legal(s, steps)
    decreases |steps|
  {
    Agrees(s) && (steps == [] || AgreesThroughout(Apply(s, steps[0]), steps[1..]))
  }

  predicate EverLate(s: State, steps: seq<Step>)
    requires Legal(s, steps)
    decreases |steps|
  {
    steps != [] && (LateRaise(s, steps[0]) || EverLate(Apply(s, steps[0]), steps[1..]))
  }

  /** In every interleaving, with binding and closing at any time and from any thread: flag and write
      interest agree in every state if and only if the poller never raises the flag while the socket is
      closed, or being closed or bound.  As long as it does not, the user and the poller are never sending
      at the same time, and at most one deferred modifyEvent is pending. */
  lemma {:induction false} InterestAgreesIff(s: State, steps: seq<Step>)
    requires Flags(s) && Legal(s, steps)
    ensures AgreesThroughout(s, steps) <==> !EverLate(s, steps)
    ensures var r := Run(s, steps);
      !EverLate(s, steps) ==> Flags(r) && r.c.posted <= 1 && !(UserFlushing(r.c.user) && PollerFlushing(r.c.poller))
    decreases |steps|
  {
    if steps != [] {
      var s1 := Apply(s, steps[0]);
      if LateRaise(s, steps[0]) {
        assert !Agrees(s1);
      } else {
        StepKeepsFlags(s, steps[0]);
        InterestAgreesIff(s1, steps[1..]);
      }
    }
  }

  // ---- the protocol that the flag is meant to enforce --------------------------------------------

  /** When users may flush, nothing is stored in the second level, and nobody is about to store there. */
  predicate Clean(s: State) {
    s.c.sendable ==> s.d.two == [] && !s.c.user.UPosted?
  }

  /** The poller raises the flag late, or although a rest is stored or still being stored. */
  predicate BadRaise(s: State, step: Step) {
    step.PollTakeOne? && s.d.one == [] && (!Steady(s) || s.d.two != [] || s.c.user.UPosted?)
  }

  predicate KeptThroughout(s: State, steps: seq<Step>)
    requires Legal(s, steps)
    decreases |steps|
  {
    Agrees(s) && Clean(s) && (steps == [] || KeptThroughout(Apply(s, steps[0]), steps[1..]))
  }

  predicate EverBad(s: State, steps: seq<Step>)
    requires Legal(s, steps)
    decreases |steps|
  {
    steps != [] && (BadRaise(s, steps[0]) || EverBad(Apply(s, steps[0]), steps[1..]))
  }

  predicate Protocol(s: State) {
    Flags(s) && Clean(s) && (UserFlushing(s.c.user) || s.c.user.UFlagged? ==> s.d.two == [])
  }

  lemma StepKeepsProtocol(s: State, step: Step)
    requires Protocol(s) && Enabled(s, step) && !BadRaise(s, step)
    ensures Protocol(Apply(s, step))
  {
    StepKeepsFlags(s, step);
  }

  /** The send-flag protocol, exactly, over every run: interest and flag agree and a raised flag means an
      empty second level, in every state, if and only if the poller never raises the flag late or over a
      rest.  And then a user's flush always starts from an empty second level. */
  lemma {:induction false} ProtocolIff(s: State, steps: seq<Step>)
    requires Protocol(s) && Legal(s, steps)
    ensures KeptThroughout(s, steps) <==> !EverBad(s, steps)
    ensures var r := Run(s, steps);
      !EverBad(s, steps) ==> Protocol(r) && (r.d.two != [] ==> !r.c.sendable) && (UserFlushing(r.c.user) ==> r.d.two == [])
    decreases |steps|
  {
    if steps != [] {
      var s1 := Apply(s, steps[0]);
      if BadRaise(s, steps[0]) {
        assert !Agrees(s1) || !Clean(s1);
      } else {
        StepKeepsProtocol(s, steps[0]);
        ProtocolIff(s1, steps[1..]);
      }
    }
  }

  // ---- what waits --------------------------------------------------------------------------------

  /** A byte waits in the first level that was accepted no later than the last send that asked for a flush. */
  predicate EagerWaits(s: State) {
    exists i :: 0 <= i < |s.d.one| && s.d.one[i] < s.d.eager
  }

  /** While users may flush, such a byte has a flush coming for it. */
  predicate Attended(s: State) {
    && s.d.eager <= s.d.next
    && (s.c.sendable && EagerWaits(s) ==> s.c.flushes > 0 || s.c.user.UChecked? || s.c.user.UEmpty?)
  }

  lemma StepKeepsAttended(s: State, step: Step)
    requires Protocol(s) && Attended(s) && Enabled(s, step)
    ensures Attended(Apply(s, step))
  {
    var s' := Apply(s, step);
    match step
    case Accept(n, tryFlush) =>
      if !tryFlush && EagerWaits(s') {
        var i :| 0 <= i < |s'.d.one| && s'.d.one[i] < s'.d.eager;
        assert i < |s.d.one| && s.d.one[i] == s'.d.one[i];
      }
    case UserSwapTwo =>
    case UserCheck(_) =>
    case _ =>
  }

  /** As long as the flag is never raised badly, in every run and for sends of both kinds: when no flush is
      on its way and the socket is bound, whatever waits in the second level, and whatever waits in the
      first that was accepted no later than the last send that asked for a flush, is the poller's: the flag
      is down and write events are on or about to be.  So the only bytes that may wait with nobody coming
      are those behind the last such send. */
  lemma {:induction false} NothingWaitsUnattended(s: State, steps: seq<Step>)
    requires Protocol(s) && Attended(s) && Legal(s, steps) && !EverBad(s, steps)
    ensures var r := Run(s, steps);
      && Attended(r)
      && (r.c.user.UIdle? && r.c.flushes == 0 && Steady(r) && (r.d.two != [] || EagerWaits(r)) ==>
            !r.c.sendable && EventualInterest(r))
    decreases |steps|
  {
    if steps != [] {
      StepKeepsProtocol(s, steps[0]);
      StepKeepsAttended(s, steps[0]);
      NothingWaitsUnattended(Apply(s, steps[0]), steps[1..]);
    }
  }
}
