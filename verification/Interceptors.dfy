/** twins/interceptors.go: the delay queue. */
module Interceptors {
  import opened Types

  /** `releaseAt` counts intercepted messages; destination -1 is a broadcast. */
  datatype Delayed<M> = Delayed(message: M, releaseAt: int, destination: int)

  datatype Outgoing<M> = Outgoing(to: int, message: M)

  /** One InterceptOutgoing call: its message and the delay drawn for it. */
  datatype Call<M> = Call(message: M, delay: nat)

  // ---- The batch specification ----

  /** The queue entries of the calls after the first `from`; call k has number k + 1. */
  function Entries<M>(calls: seq<Call<M>>, from: nat): seq<Delayed<M>> {
    if |calls| <= from then []
    else Entries(calls[..|calls| - 1], from) + [Delayed(calls[|calls| - 1].message, |calls| + calls[|calls| - 1].delay, -1)]
  }

  /** The entries not due by call n, in order. */
  function NotDue<M>(entries: seq<Delayed<M>>, n: int): seq<Delayed<M>> {
    if entries == [] then []
    else
      var front, last := NotDue(entries[..|entries| - 1], n), entries[|entries| - 1];
      if n >= last.releaseAt then front else front + [last]
  }

  /** The entries due by call n, in order. */
  function Due<M>(entries: seq<Delayed<M>>, n: int): seq<Delayed<M>> {
    if entries == [] then []
    else
      var front, last := Due(entries[..|entries| - 1], n), entries[|entries| - 1];
      if n >= last.releaseAt then front + [last] else front
  }

  function Delivered<M>(entries: seq<Delayed<M>>): seq<Outgoing<M>> {
    seq(|entries|, i requires 0 <= i < |entries| => Outgoing(entries[i].destination, entries[i].message))
  }

  /** The entries of the calls whose time is exactly call n. */
  function DueAt<M>(calls: seq<Call<M>>, from: nat, n: int): seq<Delayed<M>> {
    NotDue(Due(Entries(calls, from), n), n - 1)
  }

  /** What is delivered is the messages of the entries, in their order and to their destinations. */
  lemma DeliveredAt<M>(entries: seq<Delayed<M>>)
    ensures |Delivered(entries)| == |entries|
    ensures forall i :: 0 <= i < |entries| ==>
              Delivered(entries)[i].message == entries[i].message && Delivered(entries)[i].to == entries[i].destination
  {}

  lemma {:induction false} Multiplicity<M>(entries: seq<Delayed<M>>, n: int, x: Delayed<M>)
    ensures multiset(NotDue(entries, n))[x] == if n >= x.releaseAt then 0 else multiset(entries)[x]
    ensures multiset(Due(entries, n))[x] == if n >= x.releaseAt then multiset(entries)[x] else 0
  {
    if entries != [] {
      var front, last := entries[..|entries| - 1], entries[|entries| - 1];
      assert entries == front + [last];
      Multiplicity(front, n, x);
    }
  }

  /** Both loops keep the queue's order: each entry goes to one side, behind those before it. */
  lemma {:induction false} InQueueOrder<M>(a: seq<Delayed<M>>, b: seq<Delayed<M>>, n: int)
    ensures Due(a + b, n) == Due(a, n) + Due(b, n) && NotDue(a + b, n) == NotDue(a, n) + NotDue(b, n)
  {
    if b == [] {
      assert a + b == a;
    } else {
      var front, last := b[..|b| - 1], b[|b| - 1];
      InQueueOrder(a, front, n);
      var whole := a + b;
      assert whole[..|whole| - 1] == a + front && whole[|whole| - 1] == last;
      hide NotDue, Due;
      Unrolled(whole, n);
      Unrolled(b, n);
    }
  }

  lemma Unrolled<M>(s: seq<Delayed<M>>, n: int)
    requires s != []
    ensures var front, last := s[..|s| - 1], s[|s| - 1];
      && Due(s, n) == Due(front, n) + (if n >= last.releaseAt then [last] else [])
      && NotDue(s, n) == NotDue(front, n) + (if n >= last.releaseAt then [] else [last])
  {}

  lemma OneEntry<M>(x: Delayed<M>, n: int)
    ensures Due([x], n) == (if x.releaseAt <= n then [x] else [])
    ensures NotDue([x], n) == (if x.releaseAt <= n then [] else [x])
  {}

  lemma Snoc<T>(s: seq<T>, x: T)
    ensures multiset(s + [x]) == multiset(s) + multiset{x}
  {}

  /** The queue entry of call number n. */
  function EntryAt<M>(c: Call<M>, n: int): Delayed<M> { Delayed(c.message, n + c.delay, -1) }

  lemma EntriesAppend<M>(calls: seq<Call<M>>, c: Call<M>, from: nat)
    requires from <= |calls|
    ensures Entries(calls + [c], from) == Entries(calls, from) + [EntryAt(c, |calls| + 1)]
    ensures multiset(Entries(calls + [c], from)) == multiset(Entries(calls, from)) + multiset{EntryAt(c, |calls| + 1)}
  {
    assert (calls + [c])[..|calls|] == calls;
    Snoc(Entries(calls, from), EntryAt(c, |calls| + 1));
  }

  /** Of the first j calls, those still waiting at call n with delays up to `most` number at most
      j + most - n. */
  lemma {:induction false} FewWaiting<M>(calls: seq<Call<M>>, from: nat, n: int, most: nat)
    requires forall k :: 0 <= k < |calls| ==> calls[k].delay <= most
    ensures |NotDue(Entries(calls, from), n)| <= if |calls| + most - n > 0 then |calls| + most - n else 0
  {
    if |calls| > from { FewWaiting(calls[..|calls| - 1], from, n, most); }
  }

  /** Whatever is swapped and released, what stays is what is not due and what goes is exactly due. */
  lemma NextCall<M>(calls: seq<Call<M>>, from: nat, queue: seq<Delayed<M>>, c: Call<M>, shuffled: seq<Delayed<M>>)
    requires multiset(queue) == multiset(NotDue(Entries(calls, from), |calls|)) && from <= |calls|
    requires var n := |calls| + 1; multiset(shuffled) == multiset(queue) + multiset{EntryAt(c, n)}
    ensures var n, more := |calls| + 1, calls + [c];
      && multiset(NotDue(shuffled, n)) == multiset(NotDue(Entries(more, from), n))
      && multiset(Due(shuffled, n)) == multiset(DueAt(more, from, n))
  {
    hide Entries, NotDue, Due;
    var n, more := |calls| + 1, calls + [c];
    EntriesAppend(calls, c, from);
    forall x: Delayed<M>
      ensures multiset(NotDue(shuffled, n))[x] == multiset(NotDue(Entries(more, from), n))[x]
      ensures multiset(Due(shuffled, n))[x] == multiset(DueAt(more, from, n))[x]
    {
      Multiplicity(shuffled, n, x);
      Multiplicity(Entries(more, from), n, x);
      Multiplicity(Due(Entries(more, from), n), n - 1, x);
      Multiplicity(Entries(calls, from), n - 1, x);
    }
    SameCounts(multiset(NotDue(shuffled, n)), multiset(NotDue(Entries(more, from), n)));
    SameCounts(multiset(Due(shuffled, n)), multiset(DueAt(more, from, n)));
  }

  lemma SameCounts<T>(a: multiset<T>, b: multiset<T>)
    requires forall x :: a[x] == b[x]
    ensures a == b
  {}

  function Swap<T>(s: seq<T>, i: nat, j: nat): (r: seq<T>)
    requires i < |s| && j < |s|
    ensures multiset(r) == multiset(s)
  {
    s[i := s[j]][j := s[i]]
  }

  /** One step of the release loop. */
  lemma SplitStep<M>(queue: seq<Delayed<M>>, i: nat, n: int)
    requires i < |queue|
    ensures queue[..i + 1] == queue[..i] + [queue[i]]
    ensures NotDue(queue[..i + 1], n) == NotDue(queue[..i], n) + if n >= queue[i].releaseAt then [] else [queue[i]]
    ensures Due(queue[..i + 1], n) == Due(queue[..i], n) + if n >= queue[i].releaseAt then [queue[i]] else []
  {
    assert queue[..i + 1][..i] == queue[..i];
  }

  // ---- The interceptor ----

  /** The queue holds exactly what is not yet due since the last Flush, at most maxDelay entries, and
      everything intercepted is either in the queue or gone. */
  ghost predicate Fits<M>(calls: seq<Call<M>>, flushed: nat, queue: seq<Delayed<M>>, gone: multiset<Delayed<M>>,
      minDelay: nat, maxDelay: nat) {
    && flushed <= |calls|
    && (forall k :: 0 <= k < |calls| ==> minDelay <= calls[k].delay <= maxDelay)
    && multiset(queue) == multiset(NotDue(Entries(calls, flushed), |calls|))
    && |queue| <= maxDelay
    && gone + multiset(queue) == multiset(Entries(calls, 0))
  }

  /** A call keeps the queue in order and releases exactly what is due. */
  lemma NextFits<M>(calls: seq<Call<M>>, flushed: nat, queue: seq<Delayed<M>>, gone: multiset<Delayed<M>>,
      minDelay: nat, maxDelay: nat,
                    c: Call<M>, shuffled: seq<Delayed<M>>)
    requires Fits(calls, flushed, queue, gone, minDelay, maxDelay) && minDelay <= c.delay <= maxDelay
    requires multiset(shuffled) == multiset(queue) + multiset{EntryAt(c, |calls| + 1)}
    ensures var n, more := |calls| + 1, calls + [c];
      && Fits(more, flushed, NotDue(shuffled, n), gone + multiset(Due(shuffled, n)), minDelay, maxDelay)
      && multiset(Due(shuffled, n)) == multiset(DueAt(more, flushed, n))
  {
    hide NotDue, Due, Entries, DueAt;
    var n, more := |calls| + 1, calls + [c];
    NextCall(calls, flushed, queue, c, shuffled);
    EntriesAppend(calls, c, 0);
    SizeByMultiset(NotDue(shuffled, n), NotDue(Entries(more, flushed), n));
    FewWaiting(more, flushed, n, maxDelay);
    Partition(shuffled, n);
    var out, rest := multiset(Due(shuffled, n)), multiset(NotDue(shuffled, n));
    assert gone + out + rest == gone + (out + rest) == gone + multiset(queue) + multiset{EntryAt(c, n)};
  }

  lemma Partition<M>(queue: seq<Delayed<M>>, n: int)
    ensures multiset(Due(queue, n)) + multiset(NotDue(queue, n)) == multiset(queue)
  {
    forall x: Delayed<M>
      ensures (multiset(Due(queue, n)) + multiset(NotDue(queue, n)))[x] == multiset(queue)[x]
    {
      Multiplicity(queue, n, x);
    }
    SameCounts(multiset(Due(queue, n)) + multiset(NotDue(queue, n)), multiset(queue));
  }

  class DelayInterceptor<M(==)> {
    const minDelay: nat
    const maxDelay: nat
    const reorders: bool
    var delayedQueue: seq<Delayed<M>>
    var messageCount: int
    ghost var calls: seq<Call<M>>
    ghost var flushed: nat
    ghost var gone: multiset<Delayed<M>>

    ghost predicate Valid()
      reads this
    {
      && messageCount == |calls| && minDelay <= maxDelay
      && Fits(calls, flushed, delayedQueue, gone, minDelay, maxDelay)
    }

    constructor (minimum: nat, maximum: nat, reorder: bool)
      requires minimum <= maximum
      ensures Valid() && calls == [] && gone == multiset{}
      ensures minDelay == minimum && maxDelay == maximum && reorders == reorder
    {
      minDelay, maxDelay, reorders := minimum, maximum, reorder;
      delayedQueue, messageCount := [], 0;
      calls, flushed, gone := [], 0, multiset{};
    }

    /** InterceptOutgoing. `draw` is the random part of the delay and `swap` the two positions to
        exchange, if the reordering die says so. What comes out is exactly what this call is the time
        of, and nothing else leaves the queue. */
    method InterceptOutgoing(msg: M, draw: nat, swap: Option<(nat, nat)>)
      returns (result: seq<Outgoing<M>>, ghost out: seq<Delayed<M>>)
      requires Valid() && draw <= maxDelay - minDelay
      requires swap.Some? ==> swap.value.0 <= |delayedQueue| && swap.value.1 <= |delayedQueue|
      modifies this
      ensures Valid() && flushed == old(flushed)
      ensures calls == old(calls) + [Call(msg, minDelay + draw)]
      ensures result == Delivered(out) && multiset(out) == multiset(DueAt(calls, flushed, |calls|))
      ensures |result| == |out| && forall i :: 0 <= i < |out| ==>
                result[i].message == out[i].message && result[i].to == out[i].destination
      ensures gone == old(gone) + multiset(out)
      ensures !reorders || swap.None? ==>
              var queue := old(delayedQueue) + [EntryAt(Call(msg, minDelay + draw), |calls|)];
              out == Due(queue, |calls|) && delayedQueue == NotDue(queue, |calls|)
    {
      hide NotDue, Due, DueAt, Entries, Delivered, Fits, EntryAt;
      messageCount := messageCount + 1;
      var delay := minDelay;
      if maxDelay > minDelay { delay := delay + draw; }
      ghost var before, c := delayedQueue, Call(msg, delay);
      Enqueue(msg, delay, swap);
      NextFits(calls, flushed, before, gone, minDelay, maxDelay, c, delayedQueue);
      var remaining;
      result, remaining, out := Release();
      delayedQueue := remaining;
      calls := calls + [c];
      gone := gone + multiset(out);
      DeliveredAt(out);
    }

    /** Queues the message and perhaps exchanges two entries. */
    method Enqueue(msg: M, delay: nat, swap: Option<(nat, nat)>)
      requires swap.Some? ==> swap.value.0 <= |delayedQueue| && swap.value.1 <= |delayedQueue|
      modifies `delayedQueue
      ensures multiset(delayedQueue) == multiset(old(delayedQueue)) + multiset{EntryAt(Call(msg, delay), messageCount)}
      ensures !reorders || swap.None? ==> delayedQueue == old(delayedQueue) + [EntryAt(Call(msg, delay), messageCount)]
    {
      var queue := delayedQueue + [Delayed(msg, messageCount + delay, -1)];
      Snoc(delayedQueue, EntryAt(Call(msg, delay), messageCount));
      if reorders && |queue| > 1 && swap.Some? { queue := Swap(queue, swap.value.0, swap.value.1); }
      delayedQueue := queue;
    }

    /** The release loop: due entries go out, the others remain, both in queue order. */
    method Release() returns (result: seq<Outgoing<M>>, remaining: seq<Delayed<M>>, ghost out: seq<Delayed<M>>)
      ensures remaining == NotDue(delayedQueue, messageCount) && out == Due(delayedQueue, messageCount)
      ensures result == Delivered(out)
    {
      hide NotDue, Due;
      var queue, n := delayedQueue, messageCount;
      result, remaining, out := [], [], [];
      var i := 0;
      NothingYet(queue, n);
      while i < |queue|
        invariant 0 <= i <= |queue|
        invariant remaining == NotDue(queue[..i], n) && out == Due(queue[..i], n)
        invariant result == Delivered(out)
      {
        var dm := queue[i];
        SplitStep(queue, i, n);
        if n >= dm.releaseAt {
          result := result + [Outgoing(dm.destination, dm.message)];
          out := out + [dm];
        } else {
          remaining := remaining + [dm];
        }
        i := i + 1;
      }
      assert queue[..i] == queue;
    }

    /** Flush releases everything still delayed, in queue order, and empties the queue. */
    method Flush() returns (result: seq<Outgoing<M>>)
      requires Valid()
      modifies this
      ensures Valid() && delayedQueue == [] && result == Delivered(old(delayedQueue))
      ensures gone == old(gone) + multiset(old(delayedQueue)) == multiset(Entries(calls, 0)) && calls == old(calls)
    {
      result := [];
      var i := 0;
      while i < |delayedQueue|
        invariant 0 <= i <= |delayedQueue| && result == Delivered(delayedQueue[..i])
      {
        result := result + [Outgoing(delayedQueue[i].destination, delayedQueue[i].message)];
        i := i + 1;
      }
      assert delayedQueue[..i] == delayedQueue;
      gone := gone + multiset(delayedQueue);
      delayedQueue := [];
      flushed := |calls|;
    }
  }

  lemma NothingYet<M>(queue: seq<Delayed<M>>, n: int)
    ensures NotDue(queue[..0], n) == [] && Due(queue[..0], n) == []
  {}

  lemma SizeByMultiset<T>(s: seq<T>, t: seq<T>)
    requires multiset(s) == multiset(t)
    ensures |s| == |t|
  {
    assert |s| == |multiset(s)| && |t| == |multiset(t)|;
  }

  /** The message of every call leaves on call number arrival + delay, if no Flush took it before and
      that many calls were made: it is among what that call releases, and no other call's. */
  lemma LeavesExactlyOnTime<M>(calls: seq<Call<M>>, from: nat, k: nat, n: int)
    requires from <= k < |calls|
    ensures EntryAt(calls[k], k + 1) in DueAt(calls, from, n) <==> n == k + 1 + calls[k].delay
  {
    hide Entries, NotDue, Due;
    var x := EntryAt(calls[k], k + 1);
    EntryOf(calls, from, k);
    Multiplicity(Entries(calls, from), n, x);
    Multiplicity(Due(Entries(calls, from), n), n - 1, x);
    assert x in DueAt(calls, from, n) <==> multiset(DueAt(calls, from, n))[x] > 0;
  }

  lemma {:induction false} EntryOf<M>(calls: seq<Call<M>>, from: nat, k: nat)
    requires from <= k < |calls|
    ensures EntryAt(calls[k], k + 1) in multiset(Entries(calls, from))
  {
    var n := |calls| - 1;
    assert calls == calls[..n] + [calls[n]];
    EntriesAppend(calls[..n], calls[n], from);
    if k < n { EntryOf(calls[..n], from, k); }
  }

  /** What call n releases depends only on the first n calls, so later calls cannot add to it. */
  lemma {:induction false} LaterCallsDoNotMatter<M>(calls: seq<Call<M>>, from: nat, n: nat)
    requires n <= |calls|
    ensures DueAt(calls, from, n) == DueAt(calls[..n], from, n)
  {
    if |calls| == n {
      assert calls[..n] == calls;
    } else {
      var front := calls[..|calls| - 1];
      LaterCallsDoNotMatter(front, from, n);
      assert front[..n] == calls[..n];
      if |calls| > from {
        var entries := Entries(calls, from);
        assert entries[..|entries| - 1] == Entries(front, from);
      } else {
        assert Entries(calls, from) == Entries(front, from) == [];
      }
    }
  }
}
