/** The SoapySDR stream's queue: the library's thread appends buffers or a final error,
    the reader takes them apart. The two meet only under the queue lock, so the reader's
    view is a list of arrivals before each time it takes the lock. */
module ReadQueue {
  import opened Wrappers

  type Sample = int

  datatype Item = Buffer(timestamp: nat, samples: seq<Sample>) | Failure(code: int)

  datatype Pending = Pending(item: Item, offset: nat)

  // A sample with its own timestamp.
  datatype Stamped = Stamped(timestamp: nat, sample: Sample)

  datatype ReadResult = Samples(timestamp: nat, data: seq<Sample>) | Timeout | StreamError

  function Size(i: Item): nat { if i.Buffer? then |i.samples| else 0 }

  function SizeSum(items: seq<Item>): nat {
    if items == [] then 0 else SizeSum(items[..|items| - 1]) + Size(items[|items| - 1])
  }

  function Stamps(timestamp: nat, data: seq<Sample>): (r: seq<Stamped>)
    ensures |r| == |data|
  {
    seq(|data|, k requires 0 <= k < |data| => Stamped(timestamp + k, data[k]))
  }

  function Content(i: Item): seq<Stamped> {
    if i.Buffer? then Stamps(i.timestamp, i.samples) else []
  }

  // Every sample of the items, in order.
  function Flat(items: seq<Item>): seq<Stamped> {
    if items == [] then [] else Flat(items[..|items| - 1]) + Content(items[|items| - 1])
  }

  lemma SizeAppend(items: seq<Item>, i: Item)
    ensures SizeSum(items + [i]) == SizeSum(items) + Size(i)
  {
    assert (items + [i])[..|items|] == items;
  }

  lemma {:induction false} SizePop(items: seq<Item>)
    requires items != []
    ensures SizeSum(items) == Size(items[0]) + SizeSum(items[1..])
    decreases |items|
  {
    if |items| == 1 {
      assert items[..0] == [] && items[1..] == [];
    } else {
      SizePop(items[..|items| - 1]);
      assert items[..|items| - 1][1..] == items[1..][..|items| - 2];
    }
  }

  lemma FlatAppend(items: seq<Item>, i: Item)
    ensures Flat(items + [i]) == Flat(items) + Content(i)
  {
    assert (items + [i])[..|items|] == items;
  }

  lemma FlatConcatStep(a: seq<Item>, front: seq<Item>, last: Item)
    requires Flat(a + front) == Flat(a) + Flat(front)
    ensures Flat(a + (front + [last])) == Flat(a) + Flat(front + [last])
  {
    hide Content, Flat;
    FlatAppend(front, last);
    FlatAppend(a + front, last);
    assert a + (front + [last]) == (a + front) + [last];
  }

  lemma {:induction false} FlatConcat(a: seq<Item>, b: seq<Item>)
    ensures Flat(a + b) == Flat(a) + Flat(b)
    decreases |b|
  {
    if b == [] {
      assert a + b == a;
    } else {
      hide Content, Flat;
      var front, last := b[..|b| - 1], b[|b| - 1];
      FlatConcat(a, front);
      FlatConcatStep(a, front, last);
      assert b == front + [last];
    }
  }

  function Buffers(items: seq<Item>): nat {
    if items == [] then 0 else Buffers(items[..|items| - 1]) + if items[|items| - 1].Buffer? then 1 else 0
  }

  lemma BuffersNone()
    ensures Buffers([]) == 0
  {
  }

  lemma BuffersNext(items: seq<Item>, k: nat)
    requires k < |items|
    ensures Buffers(items[..k + 1]) == Buffers(items[..k]) + if items[k].Buffer? then 1 else 0
  {
    assert items[..k + 1][..k] == items[..k];
  }

  // What a queue of the given size takes of the arrivals, in turn: each item that still fits.
  function Admitted(limit: nat, size: nat, items: seq<Item>): seq<Item> {
    if items == [] then []
    else
      var before, i := Admitted(limit, size, items[..|items| - 1]), items[|items| - 1];
      if size + SizeSum(before) + Size(i) > limit then before else before + [i]
  }

  lemma AdmittedNone(limit: nat, size: nat)
    ensures Admitted(limit, size, []) == [] && SizeSum(Admitted(limit, size, [])) == 0
  {
  }

  lemma AdmittedNext(limit: nat, size: nat, items: seq<Item>, k: nat)
    requires k < |items|
    ensures var before := Admitted(limit, size, items[..k]);
            if size + SizeSum(before) + Size(items[k]) > limit then Admitted(limit, size, items[..k + 1]) == before
            else Admitted(limit, size, items[..k + 1]) == before + [items[k]] &&
                 SizeSum(Admitted(limit, size, items[..k + 1])) == SizeSum(before) + Size(items[k])
  {
    assert items[..k + 1][..k] == items[..k];
    SizeAppend(Admitted(limit, size, items[..k]), items[k]);
    hide SizeSum;
  }

  /** Nothing is dropped while there is room. */
  lemma {:induction false} AllFit(limit: nat, size: nat, items: seq<Item>)
    requires size + SizeSum(items) <= limit
    ensures Admitted(limit, size, items) == items
    decreases |items|
  {
    if items != [] {
      AllFit(limit, size, items[..|items| - 1]);
      assert items == items[..|items| - 1] + [items[|items| - 1]];
    }
  }

  function Joined(lists: seq<seq<Item>>): seq<Item> {
    if lists == [] then [] else Joined(lists[..|lists| - 1]) + lists[|lists| - 1]
  }

  lemma JoinedNone()
    ensures Joined([]) == []
  {
  }

  lemma JoinedNext(lists: seq<seq<Item>>, k: nat)
    requires k < |lists|
    ensures Joined(lists[..k + 1]) == Joined(lists[..k]) + lists[k]
    ensures SizeSum(Joined(lists[..k + 1])) == SizeSum(Joined(lists[..k])) + SizeSum(lists[k])
  {
    assert lists[..k + 1][..k] == lists[..k];
    SizeConcat(Joined(lists[..k]), lists[k]);
    hide SizeSum;
  }

  lemma {:induction false} SizeConcat(a: seq<Item>, b: seq<Item>)
    ensures SizeSum(a + b) == SizeSum(a) + SizeSum(b)
    decreases |b|
  {
    if b == [] {
      assert a + b == a;
    } else {
      hide SizeSum, Size;
      var front, last := b[..|b| - 1], b[|b| - 1];
      SizeConcat(a, front);
      SizeAppend(front, last);
      SizeAppend(a + front, last);
      assert a + b == (a + front) + [last] && b == front + [last];
    }
  }

  lemma {:induction false} JoinedGrows(lists: seq<seq<Item>>, k: nat)
    requires k <= |lists|
    ensures SizeSum(Joined(lists[..k])) <= SizeSum(Joined(lists))
    decreases |lists| - k
  {
    hide SizeSum, Joined;
    if k == |lists| {
      assert lists[..k] == lists;
    } else {
      JoinedNext(lists, k);
      JoinedGrows(lists, k + 1);
    }
  }

  // What the arrivals so far have added to what was accepted, if there was room for all.
  ghost predicate Added(limit: nat, before: seq<Item>, size: nat, arrivals: seq<seq<Item>>, k: nat,
                        accepted: seq<Item>, queueSize: nat)
    requires k <= |arrivals|
  {
    size + SizeSum(Joined(arrivals)) <= limit ==>
      accepted == before + Joined(arrivals[..k]) && queueSize <= size + SizeSum(Joined(arrivals[..k]))
  }

  lemma NothingAdded(limit: nat, before: seq<Item>, size: nat, arrivals: seq<seq<Item>>)
    ensures Added(limit, before, size, arrivals, 0, before, size)
  {
    assert arrivals[..0] == [];
  }

  lemma AddedStill(limit: nat, before: seq<Item>, size: nat, arrivals: seq<seq<Item>>, k: nat,
                   accepted: seq<Item>, queueSize: nat, smaller: nat)
    requires k <= |arrivals| && Added(limit, before, size, arrivals, k, accepted, queueSize) && smaller <= queueSize
    ensures Added(limit, before, size, arrivals, k, accepted, smaller)
  {
    hide SizeSum, Joined;
  }

  lemma AddedNext(limit: nat, before: seq<Item>, size: nat, arrivals: seq<seq<Item>>, k: nat,
                  accepted: seq<Item>, queueSize: nat)
    requires k < |arrivals| && Added(limit, before, size, arrivals, k, accepted, queueSize)
    ensures Added(limit, before, size, arrivals, k + 1, accepted + Admitted(limit, queueSize, arrivals[k]),
                  queueSize + SizeSum(Admitted(limit, queueSize, arrivals[k])))
  {
    hide Admitted, SizeSum, Joined;
    JoinedNext(arrivals, k);
    JoinedGrows(arrivals, k + 1);
    if size + SizeSum(Joined(arrivals)) <= limit { AllFit(limit, queueSize, arrivals[k]); }
  }

  // The part of a buffer that has not been returned.
  function Suffix(p: Option<Pending>): seq<Stamped>
  {
    if p.Some? && p.value.item.Buffer? && p.value.offset <= |p.value.item.samples| then
      Stamps(p.value.item.timestamp + p.value.offset, p.value.item.samples[p.value.offset..])
    else []
  }

  class Stream {
    const queueLimit: nat
    var queue: seq<Item>
    var queueSize: nat
    var pleaseStop: bool
    var pending: Option<Pending>
    var expectedTimestamp: nat

    // Everything accepted, how many of these items the reader has taken, and everything returned.
    ghost var accepted: seq<Item>
    ghost var taken: nat
    ghost var returned: seq<Stamped>

    // The counter is the number of queued samples and never exceeds the limit.
    predicate QueueCounted()
      reads `queue, `queueSize
    {
      queueSize == SizeSum(queue) && queueSize <= queueLimit
    }

    // The queue is what was accepted and not taken.
    ghost predicate QueueIsRest()
      reads `queue, `accepted, `taken
    {
      taken <= |accepted| && queue == accepted[taken..]
    }

    // The reader holds the last item it took, or has finished with it.
    ghost predicate PendingIsLast()
      reads `pending, `accepted, `taken
    {
      pending.Some? ==>
        && 0 < taken <= |accepted| && pending.value.item == accepted[taken - 1]
        && (pending.value.item.Buffer? ==> pending.value.offset <= |pending.value.item.samples|)
    }

    // Nothing lost, nothing twice, in order.
    ghost predicate Conserved()
      reads `pending, `accepted, `taken, `returned
    {
      taken <= |accepted| && returned + Suffix(pending) == Flat(accepted[..taken])
    }

    // A failure that was taken is still pending.
    ghost predicate FailureKept()
      reads `pending, `accepted, `taken
    {
      forall k :: 0 <= k < taken && k < |accepted| && accepted[k].Failure? ==>
        k == taken - 1 && pending.Some? && pending.value.item.Failure?
    }

    ghost predicate Valid()
      reads this
    {
      QueueCounted() && QueueIsRest() && PendingIsLast() && Conserved() && FailureKept()
    }

    constructor (limit: nat)
      ensures Valid() && queueLimit == limit && accepted == [] && returned == [] && !pleaseStop
    {
      queueLimit := limit;
      queue, queueSize, pleaseStop, pending, expectedTimestamp := [], 0, false, None, 0;
      accepted, taken, returned := [], 0, [];
    }

    // ---------- the producer ----------

    /** A buffer arrives: dropped whole if it does not fit, else appended. `stop` is whether
        the callback asks the library to stop streaming. */
    method StreamCallback(timestamp: nat, samples: seq<Sample>) returns (dropped: bool, stop: bool)
      requires Valid()
      modifies `queue, `queueSize, `accepted
      ensures Valid()
      ensures stop == pleaseStop
      ensures dropped <==> old(queueSize) + |samples| > queueLimit
      ensures accepted == if dropped then old(accepted) else old(accepted) + [Buffer(timestamp, samples)]
      ensures queue == if dropped then old(queue) else old(queue) + [Buffer(timestamp, samples)]
      ensures queueSize == if dropped then old(queueSize) else old(queueSize) + |samples|
    {
      hide Flat, Suffix, SizeSum;
      stop := pleaseStop;
      var newSize := queueSize + |samples|;
      if newSize > queueLimit { return true, stop; }
      SizeAppend(queue, Buffer(timestamp, samples));
      assert accepted[..taken] == (accepted + [Buffer(timestamp, samples)])[..taken];
      queue, queueSize := queue + [Buffer(timestamp, samples)], newSize;
      accepted := accepted + [Buffer(timestamp, samples)];
      return false, stop;
    }

    // The worker thread ends with an error.
    method EnqueueError(code: int)
      requires Valid()
      modifies `queue, `accepted
      ensures Valid() && accepted == old(accepted) + [Failure(code)] && queue == old(queue) + [Failure(code)]
    {
      hide Flat, Suffix, SizeSum;
      SizeAppend(queue, Failure(code));
      assert accepted[..taken] == (accepted + [Failure(code)])[..taken];
      queue := queue + [Failure(code)];
      accepted := accepted + [Failure(code)];
    }

    // Whatever arrives before the lock is next taken, and how often it asks to stop.
    method Arrive(events: seq<Item>) returns (stops: nat)
      requires Valid()
      modifies `queue, `queueSize, `accepted
      ensures Valid()
      ensures accepted == old(accepted) + Admitted(queueLimit, old(queueSize), events)
      ensures queue == old(queue) + Admitted(queueLimit, old(queueSize), events)
      ensures queueSize == old(queueSize) + SizeSum(Admitted(queueLimit, old(queueSize), events))
      ensures stops == if pleaseStop then Buffers(events) else 0
    {
      hide Valid, Buffers, Admitted, SizeSum;
      stops := 0;
      BuffersNone();
      AdmittedNone(queueLimit, queueSize);
      CountWithin();
      for k := 0 to |events|
        invariant Valid() && queueSize <= queueLimit
        invariant accepted == old(accepted) + Admitted(queueLimit, old(queueSize), events[..k])
        invariant queue == old(queue) + Admitted(queueLimit, old(queueSize), events[..k])
        invariant queueSize == old(queueSize) + SizeSum(Admitted(queueLimit, old(queueSize), events[..k]))
        invariant stops == if pleaseStop then Buffers(events[..k]) else 0
      {
        BuffersNext(events, k);
        AdmittedNext(queueLimit, old(queueSize), events, k);
        match events[k] {
          case Buffer(t, s) =>
            var _, stop := StreamCallback(t, s);
            if stop { stops := stops + 1; }
          case Failure(c) => EnqueueError(c);
        }
        CountWithin();
      }
      assert events[..|events|] == events;
    }

    lemma EmptyCounts()
      requires Valid()
      ensures queue == [] ==> queueSize == 0
    {
    }

    lemma CountWithin()
      requires Valid()
      ensures queueSize <= queueLimit
    {
    }

    // ---------- the reader ----------

    // The lock is held: take the oldest item, if there is one.
    method TakeNext() returns (ok: bool)
      requires Valid() && pending.None?
      modifies `queue, `queueSize, `pending, `taken
      ensures Valid()
      ensures ok == (old(queue) != [])
      ensures !ok ==> unchanged(this)
      ensures ok ==> queue == old(queue)[1..] && pending == Some(Pending(old(queue)[0], 0))
      ensures queueSize <= old(queueSize)
    {
      hide SizeSum, Flat, Content;
      if queue == [] { return false; }
      SizePop(queue);
      var first := queue[0];
      assert accepted[..taken + 1] == accepted[..taken] + [accepted[taken]];
      FlatAppend(accepted[..taken], first);
      WholeSuffix(first);
      pending := Some(Pending(first, 0));
      queue, queueSize := queue[1..], queueSize - Size(first);
      taken := taken + 1;
      return true;
    }

    // Copies what fits from the pending buffer.
    method CopySome(remaining: nat) returns (data: seq<Sample>)
      requires Valid() && pending.Some? && pending.value.item.Buffer?
      modifies `pending, `expectedTimestamp, `returned
      ensures Valid()
      ensures |data| == if |old(pending).value.item.samples| - old(pending).value.offset < remaining
                        then |old(pending).value.item.samples| - old(pending).value.offset else remaining
      ensures returned == old(returned) + Stamps(old(pending).value.item.timestamp + old(pending).value.offset, data)
      ensures expectedTimestamp == old(pending).value.item.timestamp + old(pending).value.offset + |data|
      ensures pending.Some? ==> |data| == remaining && pending.value.item == old(pending).value.item
    {
      hide Flat, SizeSum, Stamps;
      var p := pending.value;
      var toCopy := |p.item.samples| - p.offset;
      if toCopy > remaining { toCopy := remaining; }
      data := p.item.samples[p.offset..p.offset + toCopy];
      SplitSuffix(p, toCopy);
      expectedTimestamp := p.item.timestamp + p.offset + toCopy;
      returned := returned + Stamps(p.item.timestamp + p.offset, data);
      if p.offset + toCopy >= |p.item.samples| {
        pending := None;
      } else {
        pending := Some(p.(offset := p.offset + toCopy));
      }
    }

    // Nothing is left to return right now.
    predicate Empty()
      reads `queue, `pending
    {
      queue == [] && pending.None?
    }

    predicate Failed()
      reads `pending
    {
      pending.Some? && pending.value.item.Failure?
    }

    // The next sample's timestamp does not continue the samples returned so far.
    predicate Gap(next: nat)
      reads `pending
    {
      pending.Some? && pending.value.item.Buffer? && pending.value.item.timestamp + pending.value.offset != next
    }

    /** Reads up to numElems samples with consecutive timestamps. arrivals[k] is what the
        producer adds before the reader takes the lock for the k-th time; once the list is
        used up the deadline passes. `used` counts how often the lock was taken. */
    method Read(numElems: nat, arrivals: seq<seq<Item>>) returns (r: ReadResult, ghost used: nat)
      requires Valid()
      modifies `queue, `queueSize, `pending, `expectedTimestamp, `accepted, `taken, `returned
      ensures Valid() && old(accepted) <= accepted
      ensures r.Samples? ==> 0 < |r.data| <= numElems && returned == old(returned) + Stamps(r.timestamp, r.data)
      ensures !r.Samples? ==> returned == old(returned)
      ensures r.Samples? && |r.data| < numElems ==> Empty() || Failed() || Gap(r.timestamp + |r.data|)
      ensures r.Timeout? && numElems > 0 ==> Empty()
      ensures r.StreamError? ==> Failed()
      ensures old(Failed()) && numElems > 0 ==> r.StreamError? && unchanged(this)
      ensures used <= |arrivals| && Added(queueLimit, old(accepted), old(queueSize), arrivals, used, accepted, queueSize)
      ensures Empty() && !(r.Samples? && |r.data| == numElems) && numElems > 0 ==>
                used == |arrivals| || (used > 0 && Admitted(queueLimit, 0, arrivals[used - 1]) == [])
    {
      hide Valid, Stamps, Added, Admitted, SizeSum, Buffers, Joined, Flat, Suffix, Content;
      var data: seq<Sample> := [];
      var start: nat, k: nat := 0, 0;
      NoStamps(start, returned);
      NothingAdded(queueLimit, accepted, queueSize, arrivals);
      while |data| < numElems
        invariant Valid() && old(accepted) <= accepted && k <= |arrivals| && |data| <= numElems
        invariant Added(queueLimit, old(accepted), old(queueSize), arrivals, k, accepted, queueSize)
        invariant returned == old(returned) + Stamps(start, data)
        invariant data != [] ==> expectedTimestamp == start + |data|
        invariant old(Failed()) ==> unchanged(this) && data == []
        decreases |arrivals| - k, |queue| + (if pending.Some? then 1 else 0), numElems - |data|
      {
        if pending.None? {
          if k < |arrivals| {
            EmptyCounts();
            AddedNext(queueLimit, old(accepted), old(queueSize), arrivals, k, accepted, queueSize);
            var _ := Arrive(arrivals[k]);
            k := k + 1;
          }
          ghost var size := queueSize;
          var ok := TakeNext();
          AddedStill(queueLimit, old(accepted), old(queueSize), arrivals, k, accepted, size, queueSize);
          if !ok { break; }
        }
        if pending.value.item.Failure? {
          if data != [] { break; }
          NoStamps(start, old(returned));
          return StreamError, k;
        }
        var timestamp := pending.value.item.timestamp + pending.value.offset;
        if data == [] {
          NoStamps(start, old(returned));
          NoStamps(timestamp, old(returned));
          start := timestamp;
        } else if timestamp != expectedTimestamp {
          break;
        }
        var more := CopySome(numElems - |data|);
        JoinStamps(start, data, more, old(returned));
        data := data + more;
      }
      NoStamps(start, old(returned));
      return if data != [] then Samples(start, data) else Timeout, k;
    }

    /** A failure is reported only when every sample accepted before it has been returned. */
    lemma FailureAfterSamples()
      requires Valid() && Failed()
      ensures 0 < taken <= |accepted| && accepted[taken - 1].Failure? && returned == Flat(accepted[..taken - 1])
      ensures forall k :: 0 <= k < taken - 1 ==> accepted[k].Buffer?
    {
      hide SizeSum, Content;
      assert accepted[..taken] == accepted[..taken - 1] + [accepted[taken - 1]];
      FlatAppend(accepted[..taken - 1], accepted[taken - 1]);
      FailureEmpty(accepted[taken - 1]);
      assert returned + Suffix(pending) == returned;
    }

    /** At any moment: what was returned, the rest of the pending buffer and the queue are
        together exactly what was accepted. */
    lemma NothingLost()
      requires Valid()
      ensures returned + Suffix(pending) + Flat(queue) == Flat(accepted)
    {
      hide SizeSum, Content, Flat, Suffix;
      FlatConcat(accepted[..taken], queue);
      assert accepted == accepted[..taken] + queue;
    }

    // The worker is told to stop, and buffers still arrive.
    method ArriveStopping(events: seq<Item>) returns (stops: nat)
      requires Valid()
      modifies `pleaseStop, `queue, `queueSize, `accepted
      ensures stops == Buffers(events)
    {
      hide QueueCounted, QueueIsRest, PendingIsLast, Conserved, FailureKept, Admitted, SizeSum, Buffers;
      pleaseStop := true;
      stops := Arrive(events);
    }

    lemma StartsEmpty()
      requires queue == [] && queueSize == 0 && pending.None? && accepted == [] && taken == 0 && returned == []
      ensures Valid()
    {
    }

    /** Stops the worker and forgets whatever was not read. Every buffer that arrives before
        the worker has ended asks the library again to stop. */
    method Deactivate(events: seq<Item>) returns (stops: nat)
      requires Valid()
      modifies this
      ensures Valid() && Empty() && queueSize == 0 && !pleaseStop
      ensures expectedTimestamp == old(expectedTimestamp)
      ensures stops == Buffers(events)
    {
      hide QueueIsRest, PendingIsLast, Conserved, FailureKept, Flat, Suffix, Admitted;
      stops := ArriveStopping(events);
      queue, queueSize, pending, pleaseStop := [], 0, None, false;
      accepted, taken, returned := [], 0, [];
      StartsEmpty();
    }

    method Activate()
      requires Valid()
      modifies `expectedTimestamp
      ensures Valid() && expectedTimestamp == 0
    {
      hide QueueCounted, QueueIsRest, PendingIsLast, Conserved, FailureKept;
      expectedTimestamp := 0;
    }
  }

  lemma FailureEmpty(i: Item)
    requires i.Failure?
    ensures Content(i) == []
  {
  }

  lemma NoStamps(timestamp: nat, before: seq<Stamped>)
    ensures Stamps(timestamp, []) == [] && before + Stamps(timestamp, []) == before
  {
  }

  lemma JoinStamps(start: nat, data: seq<Sample>, more: seq<Sample>, before: seq<Stamped>)
    ensures (before + Stamps(start, data)) + Stamps(start + |data|, more) == before + Stamps(start, data + more)
  {
  }

  lemma WholeSuffix(i: Item)
    ensures Suffix(Some(Pending(i, 0))) == Content(i)
  {
  }

  lemma SplitSuffix(p: Pending, n: nat)
    requires p.item.Buffer? && p.offset + n <= |p.item.samples|
    ensures Suffix(Some(p)) == Stamps(p.item.timestamp + p.offset, p.item.samples[p.offset..p.offset + n])
                               + Suffix(Some(p.(offset := p.offset + n)))
    ensures p.offset + n == |p.item.samples| ==> Suffix(Some(p.(offset := p.offset + n))) == []
  {
    hide Stamps;
    var rest := p.item.samples[p.offset..];
    SplitStamps(p.item.timestamp + p.offset, rest, n);
    assert rest[..n] == p.item.samples[p.offset..p.offset + n];
    assert rest[n..] == p.item.samples[p.offset + n..];
  }

  lemma SplitStamps(t: nat, s: seq<Sample>, n: nat)
    requires n <= |s|
    ensures Stamps(t, s) == Stamps(t, s[..n]) + Stamps(t + n, s[n..])
  {
  }
}
