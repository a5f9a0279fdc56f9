/** The list of buffers that one flush sends, `BufferSendTo` of `avctool/network/BufferSock.cc`, and the
    kernel it sends to.

    The kernel is a script of replies to the successive `sendto` calls; after the end of the script
    every call fails with a hard error. */
module BufferSock {

  type byte = bv8
  type Bytes = seq<byte>

  datatype Errno = Again | Hard

  /** `Accept(room)`: the call takes what fits, possibly nothing; `Refuse(e)`: it returns -1. */
  datatype Reply = Accept(room: nat) | Refuse(error: Errno)

  /** What is still to come from the kernel, and what get_uv_error() reports now. */
  datatype Net = Net(script: seq<Reply>, errno: Errno)

  datatype Answer = Answer(n: int, net: Net)

  /** One sendto of `len` bytes; a call that does not fail leaves the error number as it was. */
  function Ask(net: Net, len: nat): (a: Answer)
    ensures -1 <= a.n <= len
  {
    if net.script == [] then Answer(-1, Net([], Hard))
    else
      match net.script[0]
      case Accept(room) => Answer(if room < len then room else len, Net(net.script[1..], net.errno))
      case Refuse(e) => Answer(-1, Net(net.script[1..], e))
  }

  lemma AskUsesScript(net: Net, len: nat)
    ensures var a := Ask(net, len);
      a.n > 0 || a.net.errno == Again ==> |a.net.script| < |net.script|
  {
  }

  // ---- byte streams ------------------------------------------------------------------------------

  function Flatten(buffers: seq<Bytes>): Bytes {
    if buffers == [] then [] else buffers[0] + Flatten(buffers[1..])
  }

  lemma {:induction false} FlattenAppend(a: seq<Bytes>, b: seq<Bytes>)
    ensures Flatten(a + b) == Flatten(a) + Flatten(b)
  {
    if a == [] {
      assert a + b == b;
    } else {
      assert (a + b)[1..] == a[1..] + b;
      FlattenAppend(a[1..], b);
    }
  }

  lemma FlattenPush(a: seq<Bytes>, b: Bytes)
    ensures Flatten(a + [b]) == Flatten(a) + b
  {
    FlattenAppend(a, [b]);
    assert [b][1..] == [];
    assert Flatten([b]) == b;
  }

  lemma Assoc(a: Bytes, b: Bytes, c: Bytes)
    ensures a + b + c == a + (b + c)
  {
  }

  predicate NonEmpty(buffers: seq<Bytes>) {
    forall i | 0 <= i < |buffers| :: buffers[i] != []
  }

  // ---- how much a list gets out ------------------------------------------------------------------

  /** The sizes that are still to be sent: the front buffer counts from the offset on. */
  function Sizes(data: seq<Bytes>, offset: nat): seq<nat>
    requires data != [] ==> offset <= |data[0]|
  {
    if data == [] then [] else [|data[0]| - offset] + Sizes(data[1..], 0)
  }

  function Sum(sizes: seq<nat>): nat {
    if sizes == [] then 0 else sizes[0] + Sum(sizes[1..])
  }

  /** `left`: the sizes that are still to be sent. */
  datatype Sent = Sent(total: nat, net: Net, left: seq<nat>)

  /** How many bytes the kernel takes from buffers of the given sizes, sent one call at a time: a
      call never spans two buffers, "try again" is tried again at once, anything else that takes
      nothing ends the attempt. */
  function Push(sizes: seq<nat>, net: Net): Sent
    decreases |net.script|
  {
    if sizes == [] then Sent(0, net, [])
    else
      var a := Ask(net, sizes[0]);
      if a.n <= 0 then
        if a.net.errno == Again then Push(sizes, a.net) else Sent(0, a.net, sizes)
      else
        var rest := Push(Taken(sizes, a.n), a.net);
        Sent(a.n + rest.total, rest.net, rest.left)
  }

  function Taken(sizes: seq<nat>, n: nat): seq<nat>
    requires sizes != [] && n <= sizes[0]
  {
    if n == sizes[0] then sizes[1..] else [sizes[0] - n] + sizes[1..]
  }

  /** An attempt never takes more than there is, uses up replies in order, and stops short only
      because the kernel reported something other than "try again". */
  lemma {:induction false} PushBounds(sizes: seq<nat>, net: Net)
    ensures var s := Push(sizes, net);
      && s.total + Sum(s.left) == Sum(sizes)
      && |s.net.script| <= |net.script|
      && s.net.script == net.script[|net.script| - |s.net.script|..]
      && (s.total < Sum(sizes) ==> s.net.errno == Hard)
    decreases |net.script|
  {
    if sizes != [] {
      var a := Ask(net, sizes[0]);
      if a.n <= 0 {
        if a.net.errno == Again {
          PushBounds(sizes, a.net);
        }
      } else {
        PushBounds(Taken(sizes, a.n), a.net);
        assert Sum(sizes) == a.n + Sum(Taken(sizes, a.n));
      }
    }
  }

  /** Therefore a send that reports failure never leaves EAGAIN behind: the branches of `flushData`
      for it cannot be taken with this kind of list. */
  lemma AgainNeverEscapes(sizes: seq<nat>, net: Net)
    requires Sum(sizes) > 0 && Push(sizes, net).total == 0
    ensures Push(sizes, net).net.errno == Hard
  {
    PushBounds(sizes, net);
  }

  /** A non-empty list costs the kernel at least one reply, if it has one left. */
  lemma {:induction false} PushUsesScript(sizes: seq<nat>, net: Net)
    requires sizes != [] && net.script != []
    ensures |Push(sizes, net).net.script| < |net.script|
  {
    var a := Ask(net, sizes[0]);
    PushBounds(sizes, a.net);
    if a.n > 0 {
      PushBounds(Taken(sizes, a.n), a.net);
    }
  }

  lemma {:induction false} SumOfSizes(data: seq<Bytes>, offset: nat)
    requires data != [] ==> offset <= |data[0]|
    ensures Sum(Sizes(data, offset)) == |Flatten(data)| - (if data == [] then 0 else offset)
  {
    if data != [] {
      SumOfSizes(data[1..], 0);
    }
  }

  // ---- the code ------------------------------------------------------------------------------------

  class Kernel {
    var script: seq<Reply>
    var errno: Errno
    var wire: Bytes               // everything the kernel has accepted, in order

    function View(): Net
      reads this
    {
      Net(script, errno)
    }

    constructor (script: seq<Reply>)
      ensures this.script == script && wire == []
    {
      this.script := script;
      errno := Hard;
      wire := [];
    }

    method SendTo(data: Bytes) returns (n: int)
      modifies this
      ensures n == Ask(old(View()), |data|).n && View() == Ask(old(View()), |data|).net
      ensures n <= 0 ==> wire == old(wire)
      ensures n > 0 ==> wire == old(wire) + data[..n]
    {
      if script == [] {
        errno := Hard;
        return -1;
      }
      var reply := script[0];
      script := script[1..];
      match reply
      case Accept(room) =>
        n := if room < |data| then room else |data|;
        wire := wire + data[..n];
      case Refuse(e) =>
        errno := e;
        n := -1;
    }
  }

  class BufferSendTo {
    var data: seq<Bytes>
    var offset: nat

    ghost predicate Valid()
      reads this
    {
      && NonEmpty(data)
      && (if data == [] then offset == 0 else offset < |data[0]|)
    }

    /** The bytes that are still to be sent. */
    ghost function Pending(): Bytes
      requires Valid()
      reads this
    {
      Flatten(data)[offset..]
    }

    constructor (data: seq<Bytes>)
      requires NonEmpty(data)
      ensures Valid() && this.data == data && offset == 0 && Pending() == Flatten(data)
    {
      this.data := data;
      offset := 0;
    }

    predicate Empty()
      reads this
    {
      data == []
    }

    /** `n` bytes of the front buffer are gone: move the offset, or on to the next buffer. */
    method Advance(n: nat)
      requires Valid() && data != [] && 0 < n <= |data[0]| - offset
      modifies this
      ensures Valid()
      ensures Pending() == old(Pending())[n..]
      ensures Sizes(data, offset) == Taken(old(Sizes(data, offset)), n)
    {
      SizesAfter(data, offset, n);
      FrontPending(data, offset);
      assert Pending()[n..] == Flatten(data)[offset + n..];
      offset := offset + n;
      if offset == |data[0]| {
        assert Flatten(data)[offset..] == Flatten(data[1..]) == Flatten(data[1..])[0..];
        data := data[1..];
        offset := 0;
      }
    }

    /** One sendto for what is left of the front buffer. */
    method SendFront(kernel: Kernel) returns (n: int)
      requires Valid() && data != []
      modifies this, kernel
      ensures Valid()
      ensures var sizes := Sizes(old(data), old(offset)); var a := Ask(old(kernel.View()), sizes[0]);
        && n == a.n && kernel.View() == a.net
        && Sizes(data, offset) == (if n > 0 then Taken(sizes, n) else sizes)
      ensures n <= 0 ==> kernel.wire == old(kernel.wire) && Pending() == old(Pending())
      ensures n > 0 ==>
        && n <= |old(Pending())|
        && kernel.wire == old(kernel.wire) + old(Pending())[..n]
        && Pending() == old(Pending())[n..]
    {
      FrontPending(data, offset);
      n := kernel.SendTo(data[0][offset..]);
      if n > 0 {
        Advance(n);
      }
    }

    /** Sends front to back until the list is empty or the kernel refuses for good.  The bytes the
        kernel took are exactly the first `n` that were pending; -1 stands for none. */
    method Send(kernel: Kernel) returns (n: int)
      requires Valid()
      modifies this, kernel
      ensures Valid()
      ensures var s := Push(Sizes(old(data), old(offset)), old(kernel.View()));
        && n == (if s.total == 0 then -1 else s.total)
        && kernel.View() == s.net
        && s.total <= |old(Pending())|
        && kernel.wire == old(kernel.wire) + old(Pending())[..s.total]
        && Pending() == old(Pending())[s.total..]
        && Sizes(data, offset) == s.left
      ensures data == [] <==> Pending() == []
    {
      ghost var all := Pending();
      ghost var start := kernel.wire;
      ghost var whole := Push(Sizes(data, offset), kernel.View());
      assert all[0..] == all && start + all[..0] == start;
      var sent: nat := 0;
      while data != []
        invariant Valid()
        invariant sent <= |all|
        invariant Pending() == all[sent..]
        invariant kernel.wire == start + all[..sent]
        invariant whole == More(sent, Push(Sizes(data, offset), kernel.View()))
        decreases |kernel.script|
      {
        AskUsesScript(kernel.View(), |data[0]| - offset);
        n := SendFront(kernel);
        if n <= 0 {
          if kernel.errno == Again {
            continue;
          }
          break;
        }
        Took(start, all, sent, n);
        sent := sent + n;
      }
      PendingIffData();
      n := if sent != 0 then sent else -1;
    }

    lemma PendingIffData()
      requires Valid()
      ensures data == [] <==> Pending() == []
    {
      if data != [] {
        FrontPending(data, offset);
      }
    }
  }

  function More(sent: nat, rest: Sent): Sent {
    Sent(sent + rest.total, rest.net, rest.left)
  }

  lemma Took(start: Bytes, all: Bytes, sent: nat, n: nat)
    requires sent + n <= |all|
    ensures start + all[..sent] + all[sent..][..n] == start + all[..sent + n]
    ensures all[sent..][n..] == all[sent + n..]
  {
    assert all[..sent + n] == all[..sent] + all[sent..][..n];
  }

  /** The pending bytes start with the rest of the front buffer. */
  lemma FrontPending(data: seq<Bytes>, offset: nat)
    requires data != [] && offset < |data[0]|
    ensures Flatten(data)[offset..] == data[0][offset..] + Flatten(data[1..])
    ensures Flatten(data)[offset..] != []
  {
  }

  lemma SizesAfter(data: seq<Bytes>, offset: nat, n: nat)
    requires data != [] && offset < |data[0]| && 0 < n <= |data[0]| - offset
    ensures Sizes(data, offset)[0] == |data[0]| - offset
    ensures Taken(Sizes(data, offset), n)
            == if offset + n == |data[0]| then Sizes(data[1..], 0) else Sizes(data, offset + n)
  {
  }
}
