/** What became of every event ever pushed, over any run of pushes, pops by any readers and clears. */
module EventHistory {
  import opened Common
  import opened EventQueue

  /** Lost is an event popped by a reader whose copy_to_user then failed. */
  datatype Fate = Queued | Delivered(reader: nat) | Lost(reader: nat) | Dropped | Discarded

  datatype Receipt = Receipt(reader: nat, seqno: nat)

  /** bodies and fates are indexed by sequence number minus one; handed lists the successful
      deliveries to all readers in the order they happened. */
  datatype History = History(q: Queue, bodies: seq<Body>, fates: seq<Fate>, handed: seq<Receipt>)

  datatype Op = OpPush(body: Body) | OpPop(reader: nat, copyFails: bool) | OpClear

  const NO_HISTORY: History := History(EMPTY_QUEUE, [], [], [])

  predicate Shaped(h: History) {
    |h.q.live| <= h.q.lastSeq && h.q.lastSeq == |h.fates| == |h.bodies|
  }

  /** Everything before this index is settled, everything from it on is queued. */
  function Settled(h: History): nat
    requires Shaped(h)
  {
    h.q.lastSeq - |h.q.live|
  }

  function Record(h: History, op: Op): (t: History)
    requires Shaped(h)
    ensures Shaped(t)
  {
    var base := Settled(h);
    match op
    case OpPush(body) =>
      var fates := if |h.q.live| == CAPACITY then h.fates[base := Dropped] else h.fates;
      History(Pushed(h.q, body), h.bodies + [body], fates + [Queued], h.handed)
    case OpPop(reader, copyFails) =>
      if h.q.live == [] then h
      else if copyFails then h.(q := Popped(h.q), fates := h.fates[base := Lost(reader)])
      else h.(q := Popped(h.q), fates := h.fates[base := Delivered(reader)],
              handed := h.handed + [Receipt(reader, h.q.live[0].seqno)])
    case OpClear =>
      h.(q := Emptied(h.q), fates := h.fates[..base] + seq(|h.q.live|, _ => Discarded))
  }

  function Replay(h: History, ops: seq<Op>): (t: History)
    requires Shaped(h)
    ensures Shaped(t)
    decreases |ops|
  {
    if ops == [] then h else Replay(Record(h, ops[0]), ops[1..])
  }

  // ---------------------------------------------------------------- the invariant

  /** The queue is the unsettled end of everything pushed, in order, numbered from one. */
  ghost predicate QueueIsSuffix(h: History)
    requires Shaped(h)
  {
    && |h.q.live| <= CAPACITY
    && (forall i :: 0 <= i < |h.q.live| ==> h.q.live[i] == Event(Settled(h) + i + 1, h.bodies[Settled(h) + i]))
    && (forall k :: 0 <= k < |h.fates| ==> (h.fates[k] == Queued <==> Settled(h) <= k))
  }

  /** If event number k + 1 was delivered, there is a receipt for it. */
  ghost predicate Receipted(h: History, k: int) {
    0 <= k < |h.fates| && h.fates[k].Delivered? ==> Receipt(h.fates[k].reader, k + 1) in h.handed
  }

  /** The receipts are exactly the delivered events, each once, in increasing order. */
  ghost predicate ReceiptsMatch(h: History) {
    && (forall i :: 0 <= i < |h.handed| ==>
          1 <= h.handed[i].seqno <= |h.fates| && h.fates[h.handed[i].seqno - 1] == Delivered(h.handed[i].reader))
    && (forall i, j :: 0 <= i < j < |h.handed| ==> h.handed[i].seqno < h.handed[j].seqno)
    && (forall k :: Receipted(h, k))
  }

  function Tally(fates: seq<Fate>, which: Fate -> bool): nat
    decreases |fates|
  {
    if fates == [] then 0
    else Tally(fates[..|fates| - 1], which) + if which(fates[|fates| - 1]) then 1 else 0
  }

  predicate IsQueued(f: Fate) { f.Queued? }
  predicate IsDelivered(f: Fate) { f.Delivered? }
  predicate IsLost(f: Fate) { f.Lost? }
  predicate IsDropped(f: Fate) { f.Dropped? }
  predicate IsDiscarded(f: Fate) { f.Discarded? }

  ghost predicate CountsMatch(h: History) {
    && Tally(h.fates, IsDropped) == h.q.dropped
    && Tally(h.fates, IsQueued) == |h.q.live|
    && Tally(h.fates, IsDelivered) == |h.handed|
  }

  ghost predicate Consistent(h: History) {
    Shaped(h) && QueueIsSuffix(h) && ReceiptsMatch(h) && CountsMatch(h)
  }

  lemma {:induction false} TallyUpdate(fates: seq<Fate>, i: nat, f: Fate, which: Fate -> bool)
    requires i < |fates|
    ensures Tally(fates[i := f], which) + (if which(fates[i]) then 1 else 0)
         == Tally(fates, which) + (if which(f) then 1 else 0)
    decreases |fates|
  {
    var m := |fates| - 1;
    if i < m {
      assert fates[i := f][..m] == fates[..m][i := f];
      TallyUpdate(fates[..m], i, f, which);
    } else {
      assert fates[i := f][..m] == fates[..m];
    }
  }

  lemma {:induction false} TallyConcat(a: seq<Fate>, b: seq<Fate>, which: Fate -> bool)
    ensures Tally(a + b, which) == Tally(a, which) + Tally(b, which)
    decreases |b|
  {
    if b == [] {
      assert a + b == a;
    } else {
      assert (a + b)[..|a + b| - 1] == a + b[..|b| - 1];
      TallyConcat(a, b[..|b| - 1], which);
    }
  }

  lemma {:induction false} TallyUniform(fates: seq<Fate>, f: Fate, which: Fate -> bool)
    requires forall k :: 0 <= k < |fates| ==> fates[k] == f
    ensures Tally(fates, which) == if which(f) then |fates| else 0
    decreases |fates|
  {
    if fates == [] {
    } else {
      TallyUniform(fates[..|fates| - 1], f, which);
    }
  }

  /** Every fate is of one of the five kinds. */
  lemma {:induction false} TallyTotal(fates: seq<Fate>)
    ensures |fates| == Tally(fates, IsQueued) + Tally(fates, IsDelivered) + Tally(fates, IsLost)
                     + Tally(fates, IsDropped) + Tally(fates, IsDiscarded)
    decreases |fates|
  {
    if fates == [] {
    } else {
      TallyTotal(fates[..|fates| - 1]);
    }
  }

  // ---------------------------------------------------------------- every operation keeps it

  lemma SettleOldest(h: History, f: Fate, which: Fate -> bool)
    requires Consistent(h) && h.q.live != []
    ensures Tally(h.fates[Settled(h) := f], which)
         == Tally(h.fates, which) + (if which(f) then 1 else 0) - (if which(Queued) then 1 else 0)
  {
    TallyUpdate(h.fates, Settled(h), f, which);
  }

  lemma PushKeepsCounts(h: History, body: Body)
    requires Consistent(h)
    ensures CountsMatch(Record(h, OpPush(body)))
  {
    var full := |h.q.live| == CAPACITY;
    var fates := if full then h.fates[Settled(h) := Dropped] else h.fates;
    if full {
      SettleOldest(h, Dropped, IsDropped);
      SettleOldest(h, Dropped, IsQueued);
      SettleOldest(h, Dropped, IsDelivered);
    }
    assert (fates + [Queued])[..|fates|] == fates;
  }

  lemma PopKeepsCounts(h: History, reader: nat, copyFails: bool)
    requires Consistent(h)
    ensures CountsMatch(Record(h, OpPop(reader, copyFails)))
  {
    if h.q.live != [] {
      var f := if copyFails then Lost(reader) else Delivered(reader);
      SettleOldest(h, f, IsDropped);
      SettleOldest(h, f, IsQueued);
      SettleOldest(h, f, IsDelivered);
    }
  }

  lemma ClearKeepsCounts(h: History)
    requires Consistent(h)
    ensures CountsMatch(Record(h, OpClear))
  {
    var kept, gone := h.fates[..Settled(h)], h.fates[Settled(h)..];
    var cleared := seq(|h.q.live|, _ => Discarded);
    assert h.fates == kept + gone;
    ReplaceTail(kept, gone, cleared, IsDropped);
    ReplaceTail(kept, gone, cleared, IsQueued);
    ReplaceTail(kept, gone, cleared, IsDelivered);
  }

  lemma ReplaceTail(kept: seq<Fate>, gone: seq<Fate>, cleared: seq<Fate>, which: Fate -> bool)
    requires forall k :: 0 <= k < |gone| ==> gone[k] == Queued
    requires forall k :: 0 <= k < |cleared| ==> cleared[k] == Discarded
    ensures Tally(kept + gone, which) == Tally(kept, which) + if which(Queued) then |gone| else 0
    ensures Tally(kept + cleared, which) == Tally(kept, which) + if which(Discarded) then |cleared| else 0
  {
    TallyConcat(kept, gone, which);
    TallyConcat(kept, cleared, which);
    TallyUniform(gone, Queued, which);
    TallyUniform(cleared, Discarded, which);
  }

  lemma PushKeepsQueue(h: History, body: Body)
    requires Shaped(h) && QueueIsSuffix(h)
    ensures QueueIsSuffix(Record(h, OpPush(body)))
  {
  }

  lemma PopKeepsQueue(h: History, reader: nat, copyFails: bool)
    requires Shaped(h) && QueueIsSuffix(h)
    ensures QueueIsSuffix(Record(h, OpPop(reader, copyFails)))
  {
  }

  lemma ClearKeepsQueue(h: History)
    requires Shaped(h) && QueueIsSuffix(h)
    ensures QueueIsSuffix(Record(h, OpClear))
  {
  }

  lemma PushKeepsReceipts(h: History, body: Body)
    requires Consistent(h)
    ensures ReceiptsMatch(Record(h, OpPush(body)))
  {
    forall k
      ensures Receipted(Record(h, OpPush(body)), k)
    {
      assert Receipted(h, k);
    }
  }

  lemma PopKeepsReceipts(h: History, reader: nat, copyFails: bool)
    requires Consistent(h)
    ensures ReceiptsMatch(Record(h, OpPop(reader, copyFails)))
  {
    forall k
      ensures Receipted(Record(h, OpPop(reader, copyFails)), k)
    {
      assert Receipted(h, k);
    }
  }

  lemma ClearKeepsReceipts(h: History)
    requires Consistent(h)
    ensures ReceiptsMatch(Record(h, OpClear))
  {
    forall k
      ensures Receipted(Record(h, OpClear), k)
    {
      assert Receipted(h, k);
    }
  }

  lemma RecordKeepsConsistent(h: History, op: Op)
    requires Consistent(h)
    ensures Consistent(Record(h, op))
  {
    match op
    case OpPush(body) =>
      PushKeepsQueue(h, body);
      PushKeepsReceipts(h, body);
      PushKeepsCounts(h, body);
    case OpPop(reader, copyFails) =>
      PopKeepsQueue(h, reader, copyFails);
      PopKeepsReceipts(h, reader, copyFails);
      PopKeepsCounts(h, reader, copyFails);
    case OpClear =>
      ClearKeepsQueue(h);
      ClearKeepsReceipts(h);
      ClearKeepsCounts(h);
  }

  lemma {:induction false} ReplayKeepsConsistent(h: History, ops: seq<Op>)
    requires Consistent(h)
    ensures Consistent(Replay(h, ops))
    decreases |ops|
  {
    if ops == [] {
    } else {
      RecordKeepsConsistent(h, ops[0]);
      ReplayKeepsConsistent(Record(h, ops[0]), ops[1..]);
    }
  }

  // ---------------------------------------------------------------- what every run satisfies

  /** What the hub can ever be asked to push, in order. */
  function PushedBodies(ops: seq<Op>): seq<Body>
    decreases |ops|
  {
    if ops == [] then [] else PushedBy(ops[0]) + PushedBodies(ops[1..])
  }

  lemma Associative(a: seq<Body>, b: seq<Body>, c: seq<Body>)
    ensures (a + b) + c == a + (b + c)
  {
  }

  function PushedBy(op: Op): seq<Body> {
    if op.OpPush? then [op.body] else []
  }

  lemma RecordRecordsPush(h: History, op: Op)
    requires Shaped(h)
    ensures Record(h, op).bodies == h.bodies + PushedBy(op)
  {
  }

  lemma {:induction false} ReplayRecordsPushes(h: History, ops: seq<Op>)
    requires Shaped(h)
    ensures Replay(h, ops).bodies == h.bodies + PushedBodies(ops)
    decreases |ops|
  {
    if ops == [] {
    } else {
      RecordRecordsPush(h, ops[0]);
      ReplayRecordsPushes(Record(h, ops[0]), ops[1..]);
      Associative(h.bodies, PushedBy(ops[0]), PushedBodies(ops[1..]));
    }
  }

  /** q is exactly the last |q.live| of these events, numbered up to their count. */
  ghost predicate HoldsLastOf(q: Queue, pushed: seq<Body>) {
    && q.lastSeq == |pushed|
    && |q.live| <= CAPACITY && |q.live| <= |pushed|
    && forall i :: 0 <= i < |q.live| ==>
         q.live[i] == Event(|pushed| - |q.live| + i + 1, pushed[|pushed| - |q.live| + i])
  }

  /** For every run, the queue read in order is exactly the last `count` events pushed, numbered
      event_seq - count + 1 up to event_seq; the bound of 64 is never exceeded. */
  lemma LiveIsLastPushed(ops: seq<Op>)
    ensures HoldsLastOf(Replay(NO_HISTORY, ops).q, PushedBodies(ops))
  {
    ReplayKeepsConsistent(NO_HISTORY, ops);
    ReplayRecordsPushes(NO_HISTORY, ops);
    ConsistentHoldsLast(Replay(NO_HISTORY, ops), PushedBodies(ops));
  }

  lemma ConsistentHoldsLast(h: History, pushed: seq<Body>)
    requires Consistent(h) && h.bodies == pushed
    ensures HoldsLastOf(h.q, pushed)
  {
  }

  /** Conservation: each event ever pushed is delivered, dropped, discarded by a clear, lost to a
      copy fault, or still queued, and the driver's own counters are these counts. */
  lemma EventsAreConserved(ops: seq<Op>)
    ensures var h := Replay(NO_HISTORY, ops);
            h.q.lastSeq == |h.handed| + h.q.dropped + Tally(h.fates, IsDiscarded) + Tally(h.fates, IsLost) + |h.q.live|
  {
    ReplayKeepsConsistent(NO_HISTORY, ops);
    TallyTotal(Replay(NO_HISTORY, ops).fates);
  }

  /** No event reaches two readers, or one reader twice. */
  lemma DeliveredAtMostOnce(ops: seq<Op>, i: nat, j: nat)
    requires var h := Replay(NO_HISTORY, ops); i < |h.handed| && j < |h.handed|
    ensures var h := Replay(NO_HISTORY, ops); h.handed[i].seqno == h.handed[j].seqno ==> i == j
  {
    ReplayKeepsConsistent(NO_HISTORY, ops);
  }

  /** Once an event's fate is settled nothing changes it, and receipts are never withdrawn. */
  ghost predicate Extends(h: History, t: History) {
    && |h.fates| <= |t.fates| && |h.fates| <= |h.bodies| <= |t.bodies|
    && h.bodies == t.bodies[..|h.bodies|]
    && (forall k :: 0 <= k < |h.fates| && h.fates[k] != Queued ==> t.fates[k] == h.fates[k])
    && |h.handed| <= |t.handed| && h.handed == t.handed[..|h.handed|]
    && h.q.dropped <= t.q.dropped
  }

  lemma RecordExtends(h: History, op: Op)
    requires Consistent(h)
    ensures Extends(h, Record(h, op))
  {
  }

  lemma ExtendsTransitive(a: History, b: History, c: History)
    requires Extends(a, b) && Extends(b, c)
    ensures Extends(a, c)
  {
    assert a.bodies == c.bodies[..|b.bodies|][..|a.bodies|] == c.bodies[..|a.bodies|];
    assert a.handed == c.handed[..|b.handed|][..|a.handed|] == c.handed[..|a.handed|];
  }

  lemma {:induction false} FatesAreFinal(h: History, ops: seq<Op>)
    requires Consistent(h)
    ensures Extends(h, Replay(h, ops))
    decreases |ops|
  {
    if ops == [] {
    } else {
      var h1 := Record(h, ops[0]);
      RecordExtends(h, ops[0]);
      RecordKeepsConsistent(h, ops[0]);
      FatesAreFinal(h1, ops[1..]);
      ExtendsTransitive(h, h1, Replay(h, ops));
    }
  }

  /** Receipts i and j are two consecutive ones of the same reader, whatever others got in between. */
  ghost predicate ConsecutiveFor(h: History, reader: nat, i: nat, j: nat) {
    && i < j < |h.handed| && h.handed[i].reader == h.handed[j].reader == reader
    && forall k :: i < k < j ==> h.handed[k].reader != reader
  }

  /** What became of the events a reader does not see between those receipts. */
  function Gap(h: History, i: nat, j: nat): seq<Fate>
    requires Consistent(h) && i < j < |h.handed|
  {
    h.fates[h.handed[i].seqno..h.handed[j].seqno - 1]
  }

  function DeliveredElsewhere(reader: nat): Fate -> bool {
    (f: Fate) => f.Delivered? && f.reader != reader
  }

  lemma NoReceiptBetween(h: History, reader: nat, i: nat, j: nat, k: nat)
    requires Consistent(h) && ConsecutiveFor(h, reader, i, j) && k < |h.handed|
    ensures || h.handed[k].seqno <= h.handed[i].seqno || h.handed[j].seqno <= h.handed[k].seqno
            || h.handed[k].reader != reader
  {
    assert k < i || k == i || i < k < j || k == j || j < k;
  }

  lemma NothingQueuedOrOwnInGap(h: History, reader: nat, i: nat, j: nat, k: nat)
    requires Consistent(h) && ConsecutiveFor(h, reader, i, j) && k < |Gap(h, i, j)|
    ensures !Gap(h, i, j)[k].Queued? && Gap(h, i, j)[k] != Delivered(reader)
  {
    var at := h.handed[i].seqno + k;
    assert Gap(h, i, j)[k] == h.fates[at];
    forall n | 0 <= n < |h.handed|
      ensures h.handed[n] != Receipt(reader, at + 1)
    {
      NoReceiptBetween(h, reader, i, j, n);
    }
    assert Receipted(h, at);
  }

  /** For every run and every reader: the jump between two consecutive sequence numbers it gets counts
      exactly the events in between that were dropped, discarded by a clear, lost to a copy fault, or
      delivered to someone else. */
  lemma GapCountsMissedEvents(ops: seq<Op>, reader: nat, i: nat, j: nat)
    requires ConsecutiveFor(Replay(NO_HISTORY, ops), reader, i, j)
    ensures var h := Replay(NO_HISTORY, ops);
            && Consistent(h)
            && var gap := Gap(h, i, j);
               h.handed[j].seqno - h.handed[i].seqno - 1
               == Tally(gap, IsDropped) + Tally(gap, IsDiscarded) + Tally(gap, IsLost)
                  + Tally(gap, DeliveredElsewhere(reader))
  {
    ReplayKeepsConsistent(NO_HISTORY, ops);
    GapTally(Replay(NO_HISTORY, ops), reader, i, j);
  }

  lemma GapTally(h: History, reader: nat, i: nat, j: nat)
    requires Consistent(h) && ConsecutiveFor(h, reader, i, j)
    ensures var gap := Gap(h, i, j);
            |gap| == h.handed[j].seqno - h.handed[i].seqno - 1
                  == Tally(gap, IsDropped) + Tally(gap, IsDiscarded) + Tally(gap, IsLost)
                     + Tally(gap, DeliveredElsewhere(reader))
  {
    var gap := Gap(h, i, j);
    forall k | 0 <= k < |gap|
      ensures !gap[k].Queued? && gap[k] != Delivered(reader)
    {
      NothingQueuedOrOwnInGap(h, reader, i, j, k);
    }
    TallyTotal(gap);
    TallyNone(gap, IsQueued);
    TallyAgrees(gap, IsDelivered, DeliveredElsewhere(reader));
  }

  /** A sole reader's gaps hold no delivery at all. */
  lemma SoleReaderMissesOnlyLostEvents(ops: seq<Op>, reader: nat, i: nat, j: nat)
    requires var h := Replay(NO_HISTORY, ops);
             ConsecutiveFor(h, reader, i, j) && forall k :: 0 <= k < |h.handed| ==> h.handed[k].reader == reader
    ensures var h := Replay(NO_HISTORY, ops);
            && Consistent(h)
            && var gap := Gap(h, i, j);
               h.handed[j].seqno - h.handed[i].seqno - 1
               == Tally(gap, IsDropped) + Tally(gap, IsDiscarded) + Tally(gap, IsLost)
  {
    var h := Replay(NO_HISTORY, ops);
    GapCountsMissedEvents(ops, reader, i, j);
    forall k | 0 <= k < |Gap(h, i, j)|
      ensures !DeliveredElsewhere(reader)(Gap(h, i, j)[k])
    {
      assert Receipted(h, h.handed[i].seqno + k);
    }
    TallyNone(Gap(h, i, j), DeliveredElsewhere(reader));
  }

  lemma {:induction false} TallyAgrees(fates: seq<Fate>, p: Fate -> bool, q: Fate -> bool)
    requires forall k :: 0 <= k < |fates| ==> p(fates[k]) == q(fates[k])
    ensures Tally(fates, p) == Tally(fates, q)
    decreases |fates|
  {
    if fates == [] {
    } else {
      TallyAgrees(fates[..|fates| - 1], p, q);
    }
  }

  lemma {:induction false} TallyNone(fates: seq<Fate>, which: Fate -> bool)
    requires forall k :: 0 <= k < |fates| ==> !which(fates[k])
    ensures Tally(fates, which) == 0
    decreases |fates|
  {
    if fates == [] {
    } else {
      TallyNone(fates[..|fates| - 1], which);
    }
  }
}
