/** What a shared deque does to the order of its elements.

    The thread pool and the event poller both keep a list that producers push at either end and
    that consumers empty from the front.  Written as one line, "already removed, then still
    queued", removing changes nothing, `push_back` adds at the far end, and `push_front` adds
    just behind what was already removed. */
module Deque {

  datatype Push<T> = Back(item: T) | Front(item: T)

  /** The line after one push, when `fixed` elements can no longer be overtaken. */
  function LineUp<T>(line: seq<T>, fixed: nat, push: Push<T>): (r: seq<T>)
    requires fixed <= |line|
    ensures |r| == |line| + 1 && line[..fixed] == r[..fixed]
    ensures multiset(r) == multiset(line) + multiset{push.item}
  {
    match push
    case Back(t) =>
      line + [t]
    case Front(t) =>
      assert line == line[..fixed] + line[fixed..];
      line[..fixed] + [t] + line[fixed..]
  }

  /** One push, and how many elements could no longer be overtaken then. */
  datatype Arrival<T> = Arrival(fixed: nat, push: Push<T>)

  predicate Fits<T>(length: nat, arrivals: seq<Arrival<T>>)
    decreases |arrivals|
  {
    arrivals == [] || (arrivals[0].fixed <= length && Fits(length + 1, arrivals[1..]))
  }

  /** The line after any number of pushes. */
  function Grow<T>(line: seq<T>, arrivals: seq<Arrival<T>>): seq<T>
    requires Fits(|line|, arrivals)
    decreases |arrivals|
  {
    if arrivals == [] then line else Grow(LineUp(line, arrivals[0].fixed, arrivals[0].push), arrivals[1..])
  }

  function Items<T>(arrivals: seq<Arrival<T>>): seq<T> {
    if arrivals == [] then [] else [arrivals[0].push.item] + Items(arrivals[1..])
  }

  /** Every element pushed is in the line once for each push, beside those that were there. */
  lemma {:induction false} GrowKeepsAll<T>(line: seq<T>, arrivals: seq<Arrival<T>>)
    requires Fits(|line|, arrivals)
    ensures multiset(Grow(line, arrivals)) == multiset(line) + multiset(Items(arrivals))
    decreases |arrivals|
  {
    if arrivals != [] {
      GrowKeepsAll(LineUp(line, arrivals[0].fixed, arrivals[0].push), arrivals[1..]);
    }
  }

  predicate OnlyBack<T>(arrivals: seq<Arrival<T>>) {
    forall i | 0 <= i < |arrivals| :: arrivals[i].push.Back?
  }

  /** Without pushes at the front the line is in the order of the pushes. */
  lemma {:induction false} BackKeepsOrder<T>(line: seq<T>, arrivals: seq<Arrival<T>>)
    requires Fits(|line|, arrivals) && OnlyBack(arrivals)
    ensures Grow(line, arrivals) == line + Items(arrivals)
    decreases |arrivals|
  {
    if arrivals == [] {
      assert line + [] == line;
    } else {
      var item := arrivals[0].push.item;
      BackKeepsOrder(line + [item], arrivals[1..]);
      Assoc(line, [item], Items(arrivals[1..]));
    }
  }

  ghost predicate NoDuplicates<T>(s: seq<T>) {
    forall i, j | 0 <= i < j < |s| :: s[i] != s[j]
  }

  /** Equal multisets have the same repetitions. */
  lemma DistinctIsMultiset<T>(s: seq<T>)
    ensures NoDuplicates(s) <==> forall x :: multiset(s)[x] <= 1
  {
    if NoDuplicates(s) {
      forall x ensures multiset(s)[x] <= 1 {
        DistinctCount(s, x);
      }
    } else {
      var i, j :| 0 <= i < j < |s| && s[i] == s[j];
      assert s == s[..i] + [s[i]] + s[i + 1..j] + [s[j]] + s[j + 1..];
      assert multiset(s)[s[i]] >= 2;
    }
  }

  lemma {:induction false} DistinctCount<T>(s: seq<T>, x: T)
    requires NoDuplicates(s)
    ensures multiset(s)[x] <= 1
  {
    if s != [] {
      assert s == [s[0]] + s[1..];
      DistinctCount(s[1..], x);
      assert s[0] !in s[1..];
    }
  }

  lemma PartDistinct<T>(part: seq<T>, whole: seq<T>)
    requires multiset(part) <= multiset(whole) && NoDuplicates(whole)
    ensures NoDuplicates(part)
  {
    DistinctIsMultiset(part);
    DistinctIsMultiset(whole);
  }

  lemma Prefix<T>(a: seq<T>, b: seq<T>)
    ensures multiset(a) <= multiset(a + b)
  {
  }

  lemma Assoc<T>(a: seq<T>, b: seq<T>, c: seq<T>)
    ensures a + b + c == a + (b + c)
  {
  }
}
