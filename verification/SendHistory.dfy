/** Whole histories of a socket's send side: any sequence of accepted buffers, user flushes, poller
    flushes, openings and closings, against any kernel, with the byte stream followed throughout. */
module SendHistory {
  import opened BufferSock
  import opened Socket

  /** What happens to the send side; a call of `send_l` is an `Accept` and, if it asks for one and may,
      a flush. */
  datatype Event =
    | Accept(buffer: Bytes)
    | Flushing(poller: bool, ret: int)
    | Switch                           // fromSockFd or closeSocket

  ghost predicate Happens(pre: Snap, event: Event, post: Snap) {
    match event
    case Accept(buffer) => post == Queue(pre, buffer)
    case Flushing(poller, ret) => FlushRel(pre, post, poller, ret)
    case Switch => post == pre.(sendable := post.sendable, attached := post.attached, interest := post.interest)
  }

  /** `snaps` are the states before, between and after the events. */
  ghost predicate History(snaps: seq<Snap>, events: seq<Event>) {
    && |snaps| == |events| + 1
    && forall i | 0 <= i < |events| :: Happens(snaps[i], events[i], snaps[i + 1])
  }

  function BytesOf(event: Event): Bytes {
    if event.Accept? then event.buffer else []
  }

  function Accepted(events: seq<Event>): Bytes {
    if events == [] then [] else BytesOf(events[0]) + Accepted(events[1..])
  }

  /** Every accepted byte that is on the wire or still in a cache, in that order. */
  function Stream(s: Snap): Bytes {
    s.wire + s.bytes
  }

  /** `a` is `b` with some bytes taken out: nothing added, repeated or reordered. */
  predicate Thinned(a: Bytes, b: Bytes)
    decreases |b|
  {
    if b == [] then a == []
    else (a != [] && a[0] == b[0] && Thinned(a[1..], b[1..])) || Thinned(a, b[1..])
  }

  lemma {:induction false} ThinnedSelf(a: Bytes)
    ensures Thinned(a, a)
  {
    if a != [] {
      ThinnedSelf(a[1..]);
    }
  }

  lemma {:induction false} ThinnedLength(a: Bytes, b: Bytes)
    requires Thinned(a, b)
    ensures |a| <= |b| && (|a| == |b| ==> a == b)
    decreases |b|
  {
    if b != [] {
      if a != [] && a[0] == b[0] && Thinned(a[1..], b[1..]) {
        ThinnedLength(a[1..], b[1..]);
      } else {
        ThinnedLength(a, b[1..]);
      }
    }
  }

  lemma {:induction false} ThinnedTwice(a: Bytes, b: Bytes, c: Bytes)
    requires Thinned(a, b) && Thinned(b, c)
    ensures Thinned(a, c)
    decreases |c|
  {
    if c != [] {
      if b != [] && b[0] == c[0] && Thinned(b[1..], c[1..]) {
        if a != [] && a[0] == b[0] && Thinned(a[1..], b[1..]) {
          ThinnedTwice(a[1..], b[1..], c[1..]);
        } else {
          ThinnedTwice(a, b[1..], c[1..]);
        }
      } else {
        ThinnedTwice(a, b, c[1..]);
      }
    }
  }

  lemma {:induction false} ThinnedBefore(a: Bytes, b: Bytes, more: Bytes)
    requires Thinned(a, b)
    ensures Thinned(a + more, b + more)
    decreases |b|
  {
    if b == [] {
      ThinnedSelf(more);
      assert a + more == more && b + more == more;
    } else {
      assert (b + more)[1..] == b[1..] + more;
      if a != [] && a[0] == b[0] && Thinned(a[1..], b[1..]) {
        assert (a + more)[1..] == a[1..] + more;
        ThinnedBefore(a[1..], b[1..], more);
      } else {
        ThinnedBefore(a, b[1..], more);
      }
    }
  }

  lemma {:induction false} ThinnedAfter(front: Bytes, a: Bytes, b: Bytes)
    requires Thinned(a, b)
    ensures Thinned(front + a, front + b)
    decreases |front|
  {
    if front == [] {
      assert front + a == a && front + b == b;
    } else {
      assert (front + a)[1..] == front[1..] + a && (front + b)[1..] == front[1..] + b;
      ThinnedAfter(front[1..], a, b);
    }
  }

  lemma {:induction false} ThinnedSuffix(a: Bytes, b: Bytes)
    requires IsSuffix(a, b)
    ensures Thinned(a, b)
    decreases |b|
  {
    if |a| == |b| {
      ThinnedSelf(a);
    } else {
      assert b[1..][|b| - 1 - |a|..] == b[|b| - |a|..];
      ThinnedSuffix(a, b[1..]);
    }
  }

  /** One event: the stream takes in what was accepted, and loses at most what a failing flush drops. */
  lemma EventKeepsStream(pre: Snap, event: Event, post: Snap)
    requires Happens(pre, event, post)
    ensures pre.wire <= post.wire
    ensures Thinned(Stream(post), Stream(pre) + BytesOf(event))
    ensures !(event.Flushing? && event.ret == -1) ==> Stream(post) == Stream(pre) + BytesOf(event)
  {
    assert Stream(pre) + [] == Stream(pre);
    match event
    case Accept(buffer) =>
      Assoc(pre.wire, pre.bytes, buffer);
      ThinnedSelf(Stream(post));
    case Switch =>
      ThinnedSelf(Stream(post));
    case Flushing(poller, ret) =>
      FlushThins(pre, post, poller, ret);
  }

  lemma FlushThins(pre: Snap, post: Snap, poller: bool, ret: int)
    requires FlushRel(pre, post, poller, ret)
    ensures pre.wire <= post.wire
    ensures Thinned(Stream(post), Stream(pre))
    ensures ret != -1 ==> Stream(post) == Stream(pre)
  {
    var k := Flush(pre.two, OneSizes(pre), pre.net, poller).total;
    FlushKeepsStream(pre, post, poller, ret);
    Split(pre.wire, pre.bytes, k);
    assert IsSuffix(post.bytes, pre.bytes[k..]);
    ThinnedSuffix(post.bytes, pre.bytes[k..]);
    ThinnedAfter(post.wire, post.bytes, pre.bytes[k..]);
  }

  lemma ThinnedChain(first: Bytes, middle: Bytes, last: Bytes, x: Bytes, y: Bytes)
    requires Thinned(middle, first + x) && Thinned(last, middle + y)
    ensures Thinned(last, first + (x + y))
  {
    ThinnedBefore(middle, first + x, y);
    Assoc(first, x, y);
    ThinnedTwice(last, middle + y, first + (x + y));
  }

  ghost predicate NoneFails(events: seq<Event>) {
    forall i | 0 <= i < |events| :: !(events[i].Flushing? && events[i].ret == -1)
  }

  lemma HistoryTail(snaps: seq<Snap>, events: seq<Event>)
    requires History(snaps, events) && events != []
    ensures History(snaps[1..], events[1..]) && Happens(snaps[0], events[0], snaps[1])
    ensures NoneFails(events) ==> NoneFails(events[1..]) && !(events[0].Flushing? && events[0].ret == -1)
  {
    forall i | 0 <= i < |events| - 1 ensures Happens(snaps[1..][i], events[1..][i], snaps[1..][i + 1]) {
      assert Happens(snaps[i + 1], events[i + 1], snaps[i + 2]);
    }
  }

  /** The byte stream over any history: the wire only grows; wire and caches together hold accepted
      bytes in the order in which they were accepted, each at most once; and none is missing if and only if
      the lengths agree, in particular if no flush returned -1. */
  lemma {:induction false} StreamOverHistory(snaps: seq<Snap>, events: seq<Event>)
    requires History(snaps, events)
    ensures var first, last := snaps[0], snaps[|events|]; var all := Stream(first) + Accepted(events);
      && first.wire <= last.wire
      && Thinned(Stream(last), all)
      && (|Stream(last)| == |all| ==> Stream(last) == all)
      && (NoneFails(events) ==> Stream(last) == all)
    decreases |events|
  {
    var first, last := snaps[0], snaps[|events|];
    if events == [] {
      assert Stream(first) + [] == Stream(first);
      ThinnedSelf(Stream(first));
    } else {
      HistoryTail(snaps, events);
      EventKeepsStream(first, events[0], snaps[1]);
      StreamOverHistory(snaps[1..], events[1..]);
      ThinnedChain(Stream(first), Stream(snaps[1]), Stream(last), BytesOf(events[0]), Accepted(events[1..]));
      Assoc(Stream(first), BytesOf(events[0]), Accepted(events[1..]));
    }
    ThinnedLength(Stream(last), Stream(first) + Accepted(events));
  }
}
