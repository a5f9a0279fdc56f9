/** The send side of `avctool/network/Socket.cc` for UDP, one call at a time: a first-level cache of
    buffers, a second-level cache holding the list that a flush could not finish, and the flag
    `sendable_` that says who may flush.  What happens when two threads interleave inside a flush
    is the subject of `SendProtocol`. */
module Socket {
  import opened BufferSock

  /** How a flush ends: everything it tried went out, it stopped part-way, or it failed without
      getting a byte of the list in hand out. */
  datatype Outcome =
    | Flushed(total: nat, net: Net)
    | Stalled(total: nat, net: Net, left: seq<nat>)
    | Failed(total: nat, net: Net)

  function Levels(two: seq<nat>, one: seq<nat>): nat {
    (if two == [] then 0 else 1) + (if one == [] then 0 else 1)
  }

  /** The list in hand, and what stays behind in the first level. */
  function HandOf(two: seq<nat>, one: seq<nat>): seq<nat> {
    if two == [] then one else two
  }

  function RestOf(two: seq<nat>, one: seq<nat>): seq<nat> {
    if two == [] then [] else one
  }

  /** One pass over a non-empty list in hand. */
  function Once(hand: seq<nat>, net: Net, poller: bool): Outcome {
    var s := Push(hand, net);
    if s.total == 0 then
      if s.net.errno == Again && !poller then Stalled(0, s.net, s.left) else Failed(0, s.net)
    else if s.total < Sum(hand) then Stalled(s.total, s.net, s.left)
    else Flushed(s.total, s.net)
  }

  /** The flush of buffers with the given sizes.  The second level goes first; a user's flush sends
      one level only, the poller's goes on with what the first level holds by then. */
  function Flush(two: seq<nat>, one: seq<nat>, net: Net, poller: bool): Outcome
    decreases Levels(two, one)
  {
    var hand, rest := HandOf(two, one), RestOf(two, one);
    if hand == [] then Flushed(0, net)
    else
      var o := Once(hand, net, poller);
      if o.Flushed? && poller then Later(o.total, Flush([], rest, o.net, poller)) else o
  }

  function Later(sent: nat, o: Outcome): Outcome {
    o.(total := sent + o.total)
  }

  predicate Positive(sizes: seq<nat>) {
    forall i | 0 <= i < |sizes| :: sizes[i] > 0
  }

  lemma PositiveSum(sizes: seq<nat>)
    requires Positive(sizes) && sizes != []
    ensures Sum(sizes) > 0
  {
    assert sizes[0] > 0;
  }

  /** The poller's flush sends everything unless the kernel reports a hard error.  A hard error is
      reported as a failure only if it comes before the first byte of the list in hand: after that
      the call still counts as a partial success, and the error is forgotten. */
  lemma {:induction false} PollerFlushOutcome(two: seq<nat>, one: seq<nat>, net: Net)
    requires Positive(two) && Positive(one)
    ensures var o := Flush(two, one, net, true);
      && o.total <= Sum(two) + Sum(one)
      && (o.Flushed? <==> o.total == Sum(two) + Sum(one))
      && (o.Failed? <==> o.total < Sum(two) + Sum(one) && (o.total == 0 || o.total == Sum(two)))
      && (!o.Flushed? ==> o.net.errno == Hard)
      && |o.net.script| <= |net.script|
    decreases Levels(two, one)
  {
    var hand, rest := HandOf(two, one), RestOf(two, one);
    if hand != [] {
      var s := Push(hand, net);
      PushBounds(hand, net);
      PositiveSum(hand);
      if s.total == Sum(hand) {
        PollerFlushOutcome([], rest, s.net);
      }
    }
  }

  /** A user's flush sends one level and fails only if nothing at all went out; and it never stalls without
      having sent something, so its EAGAIN branch is dead. */
  lemma UserFlushOutcome(two: seq<nat>, one: seq<nat>, net: Net)
    requires Positive(two) && Positive(one)
    ensures var o := Flush(two, one, net, false); var hand := HandOf(two, one);
      && (o.Flushed? <==> o.total == Sum(hand))
      && (o.Stalled? <==> 0 < o.total < Sum(hand))
      && (!o.Flushed? ==> o.net.errno == Hard)
  {
    var hand := HandOf(two, one);
    PushBounds(hand, net);
    if hand != [] {
      PositiveSum(hand);
    }
  }

  // ---- the code ------------------------------------------------------------------------------------

  lemma {:induction false} SizesOfWhole(data: seq<Bytes>)
    requires NonEmpty(data)
    ensures Positive(Sizes(data, 0)) && Sum(Sizes(data, 0)) == |Flatten(data)|
    ensures Sizes(data, 0) == [] <==> data == []
  {
    if data != [] {
      SizesOfWhole(data[1..]);
    }
  }

  /** What the send side looks like between two calls: the sizes pending in the second level, the
      buffers of the first, the kernel, the bytes on the wire, and those in the two levels; the flag, whether
      the descriptor is attached, and the write interest that the calls made so far lead to. */
  datatype Snap = Snap(two: seq<nat>, waiting: seq<Bytes>, net: Net, wire: Bytes, bytes: Bytes,
                       sendable: bool, attached: bool, interest: bool)

  /** Bytes in the second level mean that the poller is in charge, and write events are asked for exactly when
      it is. */
  predicate Agrees(s: Snap) {
    (s.two != [] ==> !s.sendable) && (s.attached ==> s.interest == !s.sendable)
  }

  /** A buffer behind everything else. */
  function Queue(s: Snap, buffer: Bytes): Snap {
    s.(waiting := s.waiting + [buffer], bytes := s.bytes + buffer)
  }

  function OneSizes(s: Snap): seq<nat> {
    Sizes(s.waiting, 0)
  }

  /** The first `total` bytes left; unless the flush failed, the others are still there, and if it
      failed, the only loss is the unsent rest of the list in hand. */
  ghost predicate Moved(o: Outcome, wire: Bytes, bytes: Bytes, wire': Bytes, bytes': Bytes) {
    && o.total <= |bytes|
    && wire' == wire + bytes[..o.total]
    && (if o.Failed? then IsSuffix(bytes', bytes[o.total..]) else bytes' == bytes[o.total..])
  }

  ghost predicate IsSuffix(a: Bytes, b: Bytes) {
    |a| <= |b| && b[|b| - |a|..] == a
  }

  /** `flushData` up to its last line. */
  ghost predicate OnceRel(pre: Snap, post: Snap, poller: bool, ret: int, again: bool) {
    && post.waiting == (if pre.two == [] then [] else pre.waiting)
    && (if pre.two == [] && pre.waiting == [] then
          && ret == 0 && !again && post == (if poller then pre.(sendable := true, interest := false) else pre)
        else
          var o := Once(HandOf(pre.two, OneSizes(pre)), pre.net, poller);
          && post.net == o.net
          && Moved(o, pre.wire, pre.bytes, post.wire, post.bytes)
          && again == o.Flushed?
          && ret == (if o.Failed? then -1 else 0)
          && post.sendable == (if o.Stalled? then pre.sendable && poller else pre.sendable)
          && post.interest == (if o.Stalled? && !poller then pre.attached else pre.interest)
          && post.attached == pre.attached
          && post.two == (if o.Stalled? then o.left else [])
          && (post.two != [] <==> o.Stalled?)
          && (post.two == [] ==> post.bytes == Flatten(post.waiting)))
  }

  lemma OncePassed(pre: Snap, post: Snap, o: Outcome, poller: bool, ret: int, again: bool)
    requires pre.two != [] || pre.waiting != []
    requires o == Once(HandOf(pre.two, OneSizes(pre)), pre.net, poller) && post.net == o.net
    requires Moved(o, pre.wire, pre.bytes, post.wire, post.bytes)
    requires post.waiting == (if pre.two == [] then [] else pre.waiting)
    requires again == o.Flushed? && ret == (if o.Failed? then -1 else 0)
    requires post.sendable == (if o.Stalled? then pre.sendable && poller else pre.sendable)
    requires post.interest == (if o.Stalled? && !poller then pre.attached else pre.interest)
    requires post.attached == pre.attached && post.two == (if o.Stalled? then o.left else [])
    requires (post.two != [] <==> o.Stalled?) && (post.two == [] ==> post.bytes == Flatten(post.waiting))
    ensures OnceRel(pre, post, poller, ret, again)
  {
  }

  lemma NothingTaken(pre: Snap, post: Snap, poller: bool)
    requires pre.two == [] && pre.waiting == []
    requires post == (if poller then pre.(sendable := true, interest := false) else pre)
    ensures OnceRel(pre, post, poller, 0, false)
  {
  }

  /** All of `flushData`: the outcome, the wire, and what either level holds are those of `Flush`.  The first
      level is taken when the second is empty, or has gone out and the poller goes on. */
  ghost predicate FlushRel(pre: Snap, post: Snap, poller: bool, ret: int) {
    var o := Flush(pre.two, OneSizes(pre), pre.net, poller);
    && post.net == o.net
    && Moved(o, pre.wire, pre.bytes, post.wire, post.bytes)
    && post.waiting == (if pre.two == [] || (poller && o.total >= Sum(pre.two)) then [] else pre.waiting)
    && (post.two == [] ==> post.bytes == Flatten(post.waiting))
    && post.attached == pre.attached
    && match o
       case Flushed(_, _) =>
         && ret == 0 && post.two == []
         && post.sendable == (pre.sendable || poller) && post.interest == (pre.interest && !poller)
       case Stalled(_, _, left) =>
         && ret == 0 && post.two == left && left != []
         && post.sendable == (pre.sendable && poller) && post.interest == (if poller then pre.interest else pre.attached)
       case Failed(_, _) =>
         && ret == -1 && post.two == []
         && post.sendable == pre.sendable && post.interest == pre.interest
  }

  /** So a flush is determined by what was before, and any number of them by what was before the first. */
  lemma FlushIsDetermined(pre: Snap, one: Snap, two: Snap, poller: bool, ret1: int, ret2: int)
    requires FlushRel(pre, one, poller, ret1) && FlushRel(pre, two, poller, ret2)
    ensures one == two && ret1 == ret2
  {
  }

  /** A flush, by whomever and for either value of the flag, keeps flag, interest and second level in
      agreement if and only if it is not a flush of the poller's with the flag up that the kernel stalls. */
  lemma FlushAgreesIff(pre: Snap, post: Snap, poller: bool, ret: int)
    requires FlushRel(pre, post, poller, ret) && Agrees(pre)
    ensures Agrees(post) <==> !(poller && pre.sendable && Flush(pre.two, OneSizes(pre), pre.net, true).Stalled?)
  {
  }

  /** The byte stream survives a flush that returns 0, and on -1 what is lost is what lay between the
      wire and the bytes still in the caches. */
  lemma FlushKeepsStream(pre: Snap, post: Snap, poller: bool, ret: int)
    requires FlushRel(pre, post, poller, ret)
    ensures ret == 0 ==> post.wire + post.bytes == pre.wire + pre.bytes
    ensures ret == -1 ==> post.wire <= pre.wire + pre.bytes && IsSuffix(post.bytes, pre.wire + pre.bytes)
    ensures |post.wire| + |post.bytes| <= |pre.wire| + |pre.bytes|
    ensures pre.wire <= post.wire
  {
    var k := Flush(pre.two, OneSizes(pre), pre.net, poller).total;
    Split(pre.wire, pre.bytes, k);
    if ret == -1 {
      SuffixOf(post.bytes, pre.bytes[k..], pre.wire + pre.bytes[..k]);
    }
  }

  lemma Split(wire: Bytes, bytes: Bytes, k: nat)
    requires k <= |bytes|
    ensures wire + bytes == (wire + bytes[..k]) + bytes[k..]
  {
    assert bytes == bytes[..k] + bytes[k..];
  }

  lemma SuffixOf(a: Bytes, b: Bytes, front: Bytes)
    requires IsSuffix(a, b)
    ensures IsSuffix(a, front + b)
  {
  }

  lemma OnceShrinks(pre: Snap, mid: Snap, poller: bool, ret: int, again: bool)
    requires OnceRel(pre, mid, poller, ret, again) && again
    requires pre.two == [] ==> NonEmpty(pre.waiting)
    ensures mid.two == []
    ensures Once(HandOf(pre.two, OneSizes(pre)), pre.net, poller).total >= Sum(HandOf(pre.two, OneSizes(pre)))
    ensures Levels(mid.two, OneSizes(mid)) < Levels(pre.two, OneSizes(pre))
  {
  }

  lemma OnceIsFlush(pre: Snap, post: Snap, poller: bool, ret: int, again: bool)
    requires OnceRel(pre, post, poller, ret, again) && !(again && poller)
    requires OneSizes(pre) == [] <==> pre.waiting == []
    requires pre.two == [] && pre.waiting == [] ==> pre.bytes == []
    requires pre.two != [] ==> Sum(pre.two) > 0
    ensures FlushRel(pre, post, poller, ret)
  {
    if pre.two == [] && pre.waiting == [] {
      assert pre.wire + [] == pre.wire;
    }
  }

  lemma OnceThenFlush(pre: Snap, mid: Snap, post: Snap, ret: int)
    requires OnceRel(pre, mid, true, 0, true) && FlushRel(mid, post, true, ret)
    requires OneSizes(pre) == [] <==> pre.waiting == []
    requires mid.two == []
    requires Once(HandOf(pre.two, OneSizes(pre)), pre.net, true).total >= Sum(HandOf(pre.two, OneSizes(pre)))
    ensures FlushRel(pre, post, true, ret)
  {
    var o := Flush(mid.two, OneSizes(mid), mid.net, true);
    var k := Once(HandOf(pre.two, OneSizes(pre)), pre.net, true).total;
    assert Flush(pre.two, OneSizes(pre), pre.net, true) == Later(k, o);
    MovedThen(o, k, pre.wire, pre.bytes, mid.wire, mid.bytes, post.wire, post.bytes);
  }

  class Socket {
    const kernel: Kernel
    var isOpen: bool                   // sock_fd_ is set
    var attached: bool                 // and the poller has a record for it
    var sendable: bool
    var interest: bool                 // the record asks for write events, once the calls made so far have run
    var waiting: seq<Bytes>            // send_buffer_waiting_, the first level
    var sending: seq<BufferSendTo>     // send_buffer_sending_, the second level

    /** The second level holds at most one list, with bytes to send. */
    ghost predicate Valid()
      reads this, sending
    {
      && |sending| <= 1
      && (forall p | p in sending :: p.Valid() && p.data != [])
      && NonEmpty(waiting)
    }

    ghost function Two(): Bytes
      requires Valid()
      reads this, sending
    {
      if sending == [] then [] else sending[0].Pending()
    }

    ghost function One(): Bytes
      reads this
    {
      Flatten(waiting)
    }

    /** Every accepted byte in order: on the wire, in the second level, in the first level. */
    ghost function Stream(): Bytes
      requires Valid()
      reads this, sending, kernel
    {
      kernel.wire + (Two() + One())
    }

    ghost function TwoSizes(): seq<nat>
      requires Valid()
      reads this, sending
    {
      if sending == [] then [] else Sizes(sending[0].data, sending[0].offset)
    }

    ghost function Snapshot(): Snap
      requires Valid()
      reads this, sending, kernel
    {
      Snap(TwoSizes(), waiting, kernel.View(), kernel.wire, Two() + One(), sendable, attached, interest)
    }

    constructor (kernel: Kernel)
      ensures Valid() && this.kernel == kernel && !isOpen && !attached && !sendable && waiting == [] && sending == []
    {
      this.kernel := kernel;
      isOpen, attached, sendable, interest := false, false, false, false;
      waiting, sending := [], [];
    }

    /** `closeSocket`: both levels keep what they hold, but nobody may flush it. */
    method CloseSocket()
      requires Valid()
      modifies this`isOpen, this`attached, this`sendable, this`interest
      ensures Valid() && !isOpen
      ensures Snapshot() == old(Snapshot()).(sendable := false, attached := false, interest := false)
      ensures Agrees(Snapshot())
    {
      sendable := false;
      isOpen, attached, interest := false, false, false;
    }

    /** `fromSockFd`: the descriptor is attached with write events on, and `sendable_` is false; if the kernel
        refuses, it stays set without a record. */
    method FromSockFd(refused: bool) returns (ret: int)
      requires Valid()
      modifies this`isOpen, this`attached, this`sendable, this`interest
      ensures Valid() && isOpen && ret == (if refused then -1 else 0)
      ensures Snapshot() == old(Snapshot()).(sendable := false, attached := !refused, interest := !refused)
      ensures Agrees(Snapshot())
    {
      CloseSocket();
      isOpen := true;
      if refused {
        return -1;
      }
      attached, interest := true, true;
      return 0;
    }

    method StartWritableEvent()
      modifies this`sendable, this`interest
      ensures !sendable && interest == attached
    {
      sendable := false;
      interest := attached;
    }

    method StopWritableEvent()
      modifies this`sendable, this`interest
      ensures sendable && !interest
    {
      sendable := true;
      interest := false;
    }

    /** The sending loop of `flushData` over the list in hand. */
    method SendHand(hand: seq<BufferSendTo>, poller: bool) returns (ret: int, tmp: seq<BufferSendTo>)
      requires |hand| == 1 && hand[0].Valid() && hand[0].data != []
      modifies this`sendable, this`interest, kernel, hand
      ensures var packet := hand[0];
              var s := Push(Sizes(old(packet.data), old(packet.offset)), old(kernel.View()));
              var all := old(packet.Pending());
        && packet.Valid()
        && kernel.View() == s.net
        && s.total <= |all|
        && kernel.wire == old(kernel.wire) + all[..s.total]
        && packet.Pending() == all[s.total..] && Sizes(packet.data, packet.offset) == s.left
        && (packet.data == [] <==> s.total == |all|)
        && (if s.total == 0 && (poller || s.net.errno != Again) then
              ret == -1 && sendable == old(sendable) && interest == old(interest)
            else if s.total == |all| then
              ret == 0 && tmp == [] && sendable == old(sendable) && interest == old(interest)
            else
              ret == 0 && tmp == hand && sendable == (old(sendable) && poller)
              && interest == (if poller then old(interest) else attached))
    {
      tmp := hand;
      var packet := tmp[0];
      packet.PendingIffData();
      var n := packet.Send(kernel);
      if n > 0 {
        if packet.Empty() {
          // Nothing but this list was in hand, so the loop ends here.
          tmp := tmp[1..];
          return 0, tmp;
        }
        if !poller {
          StartWritableEvent();
        }
        return 0, tmp;
      }
      if kernel.errno == Again {
        if !poller {
          StartWritableEvent();
          return 0, tmp;
        }
      }
      return -1, tmp;
    }

    /** The head of `flushData`: the second level if it holds anything, else a new list made of the
        whole first level. */
    method TakeHand() returns (tmp: seq<BufferSendTo>)
      requires Valid()
      modifies this`waiting, this`sending
      ensures sending == [] && (forall p | p in tmp :: p in old(sending) || fresh(p))
      ensures old(TwoSizes()) == [] <==> old(sending) == []
      ensures if old(sending) != [] then tmp == old(sending) && waiting == old(waiting)
              else if old(waiting) == [] then tmp == [] && waiting == []
              else waiting == [] && |tmp| == 1 && fresh(tmp[0]) && tmp[0].Valid()
                   && tmp[0].data == old(waiting) && tmp[0].offset == 0
      ensures tmp != [] ==>
        && |tmp| == 1 && tmp[0].Valid() && tmp[0].data != []
        && Sizes(tmp[0].data, tmp[0].offset) == HandOf(old(TwoSizes()), old(Sizes(waiting, 0)))
        && tmp[0].Pending() + One() == old(Two() + One())
    {
      HandSizes();
      tmp := sending;
      sending := [];
      if tmp == [] {
        if waiting == [] {
          return;
        }
        var list := new BufferSendTo(waiting);
        waiting := [];
        tmp := [list];
        assert list.Pending() + [] == [] + list.Pending();
      }
    }

    /** The loop of `flushData` and the store of what it leaves. */
    method SendAndStore(hand: seq<BufferSendTo>, poller: bool) returns (ret: int, again: bool)
      requires Valid() && isOpen && sending == []
      requires |hand| == 1 && hand[0].Valid() && hand[0].data != []
      modifies this`sending, this`sendable, this`interest, kernel, hand
      ensures Valid()
      ensures sending == [] || sending == hand
      ensures var o := Once(old(Sizes(hand[0].data, hand[0].offset)), old(kernel.View()), poller);
        && kernel.View() == o.net
        && Moved(o, old(kernel.wire), old(hand[0].Pending() + One()), kernel.wire, Two() + One())
        && again == o.Flushed?
        && ret == (if o.Failed? then -1 else 0)
        && sendable == (if o.Stalled? then old(sendable) && poller else old(sendable))
        && interest == (if o.Stalled? && !poller then attached else old(interest))
        && (sending != [] <==> o.Stalled?) && (o.Stalled? ==> TwoSizes() == o.left)
    {
      ghost var start, bytes, rest := kernel.wire, hand[0].Pending(), One();
      ghost var s := Push(Sizes(hand[0].data, hand[0].offset), kernel.View());
      ghost var o := Once(Sizes(hand[0].data, hand[0].offset), kernel.View(), poller);
      SumOfSizes(hand[0].data, hand[0].offset);
      var tmp;
      ret, tmp := SendHand(hand, poller);
      assert One() == rest;
      if ret == -1 {
        assert o == Failed(0, s.net);
        FailedBytes(start, bytes, rest, s.net);
        return -1, false;
      }
      if tmp != [] {
        assert o == Stalled(s.total, s.net, s.left);
        StalledBytes(start, bytes, rest, s);
        sending := tmp;
        return 0, false;
      }
      assert o == Flushed(s.total, s.net);
      DoneBytes(start, bytes, rest, s);
      return 0, true;
    }

    /** `flushData` from where the list is in hand to its last line; `pre` is what was before. */
    method SendTaken(hand: seq<BufferSendTo>, poller: bool, ghost pre: Snap) returns (ret: int, again: bool)
      requires Valid() && isOpen && sending == []
      requires |hand| == 1 && hand[0].Valid() && hand[0].data != []
      requires pre.two != [] || pre.waiting != []
      requires Sizes(hand[0].data, hand[0].offset) == HandOf(pre.two, OneSizes(pre))
      requires hand[0].Pending() + One() == pre.bytes && kernel.View() == pre.net && kernel.wire == pre.wire
      requires waiting == (if pre.two == [] then [] else pre.waiting)
      requires sendable == pre.sendable && interest == pre.interest && attached == pre.attached
      modifies this`sending, this`sendable, this`interest, kernel, hand
      ensures Valid() && (sending == [] || sending == hand)
      ensures OnceRel(pre, Snapshot(), poller, ret, again)
    {
      ghost var o := Once(HandOf(pre.two, OneSizes(pre)), pre.net, poller);
      ret, again := SendAndStore(hand, poller);
      HandSizes();
      OncePassed(pre, Snapshot(), o, poller, ret, again);
    }

    /** `flushData` up to its last line; `again` says that a list was in hand and went out whole. */
    method FlushOnce(poller: bool) returns (ret: int, again: bool)
      requires Valid() && isOpen
      modifies this`waiting, this`sending, this`sendable, this`interest, kernel, sending
      ensures Valid()
      ensures forall p | p in sending :: p in old(sending) || fresh(p)
      ensures OnceRel(old(Snapshot()), Snapshot(), poller, ret, again)
    {
      ghost var pre := Snapshot();
      var tmp := TakeHand();
      if tmp == [] {
        if poller {
          StopWritableEvent();
        }
        NothingTaken(pre, Snapshot(), poller);
        return 0, false;
      }
      ret, again := SendTaken(tmp, poller, pre);
      assert forall p | p in sending :: p in tmp;
    }

    /** `flushData`, for both callers and either value of `sendable_`.  The outcome, the bytes on the wire and
        what is left in which level are those of `Flush`; the byte stream is preserved when 0 is returned, and
        otherwise loses exactly the unsent rest of the list in hand. */
    method FlushData(poller: bool) returns (ret: int)
      requires Valid() && isOpen
      modifies this`waiting, this`sending, this`sendable, this`interest, kernel, sending
      ensures Valid()
      ensures forall p | p in sending :: p in old(sending) || fresh(p)
      ensures FlushRel(old(Snapshot()), Snapshot(), poller, ret)
      decreases Levels(TwoSizes(), Sizes(waiting, 0))
    {
      ghost var pre := Snapshot();
      var again: bool;
      HandSizes();
      assert TwoSizes() != [] ==> Sum(TwoSizes()) > 0 by {
        if TwoSizes() != [] {
          PositiveSum(TwoSizes());
        }
      }
      ret, again := FlushOnce(poller);
      ghost var mid := Snapshot();
      HandSizes();
      if again && poller {
        OnceShrinks(pre, mid, poller, ret, again);
        ret := FlushData(poller);
        HandSizes();
        OnceThenFlush(pre, mid, Snapshot(), ret);
      } else {
        OnceIsFlush(pre, mid, poller, ret, again);
      }
    }

    /** `flushAll`: nothing happens, and -1 is returned, while the socket is closed or the poller is in
        charge. */
    method FlushAll() returns (ret: int)
      requires Valid()
      modifies this`waiting, this`sending, this`sendable, this`interest, kernel, sending
      ensures Valid()
      ensures forall p | p in sending :: p in old(sending) || fresh(p)
      ensures if isOpen && old(sendable) then FlushRel(old(Snapshot()), Snapshot(), false, ret)
              else ret == -1 && Snapshot() == old(Snapshot())
    {
      if !isOpen {
        return -1;
      }
      if sendable {
        ret := FlushData(false);
        return ret;
      }
      return -1;
    }

    /** `send_l`.  An empty buffer is ignored; any other is queued behind everything accepted so far,
        and then, if asked, flushed.  The result -1 does not say that the buffer was dropped: when
        the poller is in charge it stays queued and goes out later. */
    method SendL(buffer: Bytes, tryFlush: bool) returns (ret: int)
      requires Valid()
      modifies this`waiting, this`sending, this`sendable, this`interest, kernel, sending
      ensures Valid()
      ensures forall p | p in sending :: p in old(sending) || fresh(p)
      ensures buffer == [] ==> ret == 0 && Snapshot() == old(Snapshot())
      ensures buffer != [] ==>
        var queued := Queue(old(Snapshot()), buffer);
        if tryFlush && isOpen && old(sendable) then
          FlushRel(queued, Snapshot(), false, if ret == -1 then -1 else 0) && (ret == -1 || ret == |buffer|)
        else
          Snapshot() == queued && ret == (if tryFlush then -1 else |buffer|)
    {
      if buffer == [] {
        return 0;
      }
      FlattenPush(waiting, buffer);
      Assoc(Two(), One(), buffer);
      waiting := waiting + [buffer];
      assert Snapshot() == Queue(old(Snapshot()), buffer);
      if tryFlush {
        var r := FlushAll();
        if r == -1 {
          return -1;
        }
      }
      ret := |buffer|;
    }

    lemma HandSizes()
      requires Valid()
      ensures Positive(TwoSizes()) && Sum(TwoSizes()) == |Two()|
      ensures Positive(Sizes(waiting, 0)) && Sum(Sizes(waiting, 0)) == |One()|
      ensures TwoSizes() == [] <==> sending == []
      ensures Sizes(waiting, 0) == [] <==> waiting == []
    {
      SizesOfWhole(waiting);
      if sending != [] {
        SumOfSizes(sending[0].data, sending[0].offset);
        SizesOfWhole(sending[0].data[1..]);
      }
    }
  }

  lemma FailedBytes(start: Bytes, hand: Bytes, rest: Bytes, net: Net)
    ensures Moved(Failed(0, net), start, hand + rest, start, rest)
  {
    assert start + (hand + rest)[..0] == start;
    assert (hand + rest)[0..] == hand + rest;
  }

  lemma StalledBytes(start: Bytes, hand: Bytes, rest: Bytes, s: Sent)
    requires s.total <= |hand|
    ensures Moved(Stalled(s.total, s.net, s.left), start, hand + rest, start + hand[..s.total], hand[s.total..] + rest)
  {
    assert (hand + rest)[..s.total] == hand[..s.total];
  }

  lemma DoneBytes(start: Bytes, hand: Bytes, rest: Bytes, s: Sent)
    requires s.total == |hand|
    ensures Moved(Flushed(s.total, s.net), start, hand + rest, start + hand[..s.total], rest)
    ensures hand[..s.total] == hand
  {
    assert (hand + rest)[..s.total] == hand;
  }

  lemma TakeTwice(all: Bytes, k: nat, m: nat)
    requires k + m <= |all|
    ensures all[..k + m] == all[..k] + all[k..][..m]
    ensures all[k + m..] == all[k..][m..]
  {
  }

  /** A list that went out whole, and then the rest of the poller's flush. */
  lemma MovedThen(o: Outcome, k: nat, start: Bytes, all: Bytes, middle: Bytes, left: Bytes, wire: Bytes, left': Bytes)
    requires k <= |all| && middle == start + all[..k] && left == all[k..]
    requires Moved(o, middle, left, wire, left')
    ensures Moved(Later(k, o), start, all, wire, left')
  {
    TakeTwice(all, k, o.total);
    Assoc(start, all[..k], left[..o.total]);
  }
}
