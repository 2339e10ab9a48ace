/** read() on the hub device (sh_read) and the client wrapper over it (sensor_client_read_events).

    `env` lists what other threads do to the queue just before each pop of this read, `copyFails`
    which of its copy_to_user calls fault; both are arbitrary, so a contract here holds for every
    interleaving with producers, other readers and clears. */
module EventReader {
  import opened Common
  import opened EventQueue
  import opened EventHistory

  const EVENT_SIZE: nat := 72

  datatype ReadResult = Bytes(n: nat) | Inval | Again | Fault | Interrupted

  /** The number of copies before the first faulting one, at most `limit`. */
  function FirstFault(copyFails: seq<bool>, limit: nat): (n: nat)
    ensures n <= limit
    ensures forall k :: 0 <= k < n && k < |copyFails| ==> !copyFails[k]
    ensures n < limit ==> n < |copyFails| && copyFails[n]
    decreases |copyFails|
  {
    if limit == 0 then 0
    else if copyFails == [] then limit
    else if copyFails[0] then 0
    else
      var rest := FirstFault(copyFails[1..], limit - 1);
      assert forall k :: 1 <= k < rest + 1 && k < |copyFails| ==> copyFails[k] == copyFails[1..][k - 1];
      rest + 1
  }

  /** A batch of queued events handed to one reader by this history, in increasing order, none of
      which had been settled at `from`. */
  ghost predicate BatchOf(out: seq<Event>, reader: nat, from: nat, h: History) {
    && |h.bodies| == |h.fates|
    && (forall k :: 0 <= k < |out| ==>
          && from < out[k].seqno <= |h.fates|
          && h.fates[out[k].seqno - 1] == Delivered(reader)
          && out[k].body == h.bodies[out[k].seqno - 1])
    && forall j, k :: 0 <= j < k < |out| ==> out[j].seqno < out[k].seqno
  }

  lemma FirstFaultIs(copyFails: seq<bool>, limit: nat, n: nat)
    requires n <= limit && forall k :: 0 <= k < n && k < |copyFails| ==> !copyFails[k]
    requires n < limit ==> n < |copyFails| && copyFails[n]
    ensures FirstFault(copyFails, limit) == n
  {
    var m := FirstFault(copyFails, limit);
    assert !(m < n) && !(n < m);
  }

  lemma BatchKept(out: seq<Event>, reader: nat, from: nat, h: History, t: History)
    requires BatchOf(out, reader, from, h) && Extends(h, t) && Shaped(t)
    ensures BatchOf(out, reader, from, t)
  {
    forall k | 0 <= k < |out|
      ensures out[k].seqno <= |t.fates| && t.fates[out[k].seqno - 1] == Delivered(reader)
      ensures out[k].body == t.bodies[out[k].seqno - 1]
    {
      assert h.bodies[out[k].seqno - 1] == t.bodies[out[k].seqno - 1];
    }
  }

  lemma SettledGrows(h: History, t: History)
    requires Consistent(h) && Consistent(t) && Extends(h, t)
    ensures Settled(h) <= Settled(t)
  {
    if Settled(h) > 0 {
      assert h.fates[Settled(h) - 1] != Queued;
      assert t.fates[Settled(h) - 1] != Queued;
    }
  }

  /** e was queued in h and has just been handed to this reader. */
  ghost predicate JustRead(e: Event, reader: nat, h: History, t: History)
    requires Shaped(h) && Shaped(t)
  {
    && Settled(h) < e.seqno <= Settled(t)
    && t.fates[e.seqno - 1] == Delivered(reader) && e.body == t.bodies[e.seqno - 1]
  }

  /** How far a read that began at h has come: `out` is its batch so far. */
  ghost predicate ReadSoFar(h: History, t: History, reader: nat, out: seq<Event>) {
    && Consistent(h) && Consistent(t) && Extends(h, t) && Settled(h) <= Settled(t)
    && BatchOf(out, reader, Settled(h), t)
    && (out != [] ==> out[|out| - 1].seqno <= Settled(t))
  }

  lemma ReadAdvances(h: History, t: History, u: History, reader: nat, out: seq<Event>)
    requires ReadSoFar(h, t, reader, out) && Consistent(u) && Extends(t, u)
    ensures ReadSoFar(h, u, reader, out)
  {
    ExtendsTransitive(h, t, u);
    SettledGrows(t, u);
    BatchKept(out, reader, Settled(h), t, u);
  }

  lemma ReadTakes(h: History, t: History, u: History, reader: nat, out: seq<Event>, e: Event)
    requires ReadSoFar(h, t, reader, out) && Consistent(u) && Extends(t, u) && JustRead(e, reader, t, u)
    ensures ReadSoFar(h, u, reader, out + [e])
  {
    ReadAdvances(h, t, u, reader, out);
    BatchSnoc(out, reader, Settled(h), u, e);
  }

  lemma BatchSnoc(out: seq<Event>, reader: nat, from: nat, h: History, e: Event)
    requires BatchOf(out, reader, from, h) && from < e.seqno <= |h.fates|
    requires h.fates[e.seqno - 1] == Delivered(reader) && e.body == h.bodies[e.seqno - 1]
    requires out != [] ==> out[|out| - 1].seqno < e.seqno
    ensures BatchOf(out + [e], reader, from, h)
  {
    assert forall j :: 0 <= j < |out| ==> out[j].seqno <= out[|out| - 1].seqno;
  }

  /** The outcome of a read that no other thread disturbs. */
  ghost predicate ReadsAlone(r: ReadResult, out: seq<Event>, before: seq<Event>, after: seq<Event>,
                             len: nat, nonblock: bool, copyFails: seq<bool>)
  {
    var fit := Min(len / EVENT_SIZE, |before|);
    var n := FirstFault(copyFails, fit);
    && out == before[..n]
    && after == before[if n < fit then n + 1 else n..]
    && r == if n > 0 then Bytes(n * EVENT_SIZE)
            else if n < fit then Fault
            else if nonblock then Again else Interrupted
  }

  /** The queue before and after an undisturbed read that has copied `out` and, if `faulted`, lost
      the event after it. */
  ghost predicate Took(out: seq<Event>, before: seq<Event>, after: seq<Event>, faulted: bool) {
    && |out| + (if faulted then 1 else 0) <= |before|
    && out == before[..|out|]
    && after == before[if faulted then |out| + 1 else |out|..]
  }

  /** One undisturbed pop: `out` and `queued` before it, `out1` and `rest` after it. */
  lemma TookOneMore(out: seq<Event>, before: seq<Event>, queued: seq<Event>, fails: bool,
                    out1: seq<Event>, rest: seq<Event>)
    requires Took(out, before, queued, false)
    requires rest == if queued == [] then [] else queued[1..]
    requires out1 == if queued == [] || fails then out else out + [queued[0]]
    ensures Took(out1, before, rest, queued != [] && fails)
  {
  }

  ghost predicate NoFaultAmong(copyFails: seq<bool>, n: nat) {
    forall k :: 0 <= k < n && k < |copyFails| ==> !copyFails[k]
  }

  predicate FaultsAt(copyFails: seq<bool>, n: nat) {
    n < |copyFails| && copyFails[n]
  }

  lemma NoFaultOneMore(copyFails: seq<bool>, n: nat)
    requires NoFaultAmong(copyFails, n)
    ensures NoFaultAmong(copyFails, n + 1) <==> !FaultsAt(copyFails, n)
  {
  }

  /** What an undisturbed read returns, when it stops because its buffer is full, the queue is
      empty, or a copy faulted. */
  lemma AloneStops(out: seq<Event>, before: seq<Event>, after: seq<Event>, faulted: bool,
                   len: nat, nonblock: bool, copyFails: seq<bool>)
    requires |out| + (if faulted then 1 else 0) <= len / EVENT_SIZE && 1 <= len / EVENT_SIZE
    requires Took(out, before, after, faulted) && NoFaultAmong(copyFails, |out|)
    requires faulted ==> FaultsAt(copyFails, |out|)
    requires faulted || |out| == len / EVENT_SIZE || after == []
    ensures ReadsAlone(Outcome(|out| * EVENT_SIZE, faulted, nonblock), out, before, after, len, nonblock, copyFails)
  {
    FirstFaultIs(copyFails, Min(len / EVENT_SIZE, |before|), |out|);
  }

  /** A read gives up short of its buffer's end only on an empty queue or at a copy that faulted. */
  ghost predicate StopsForAReason(r: ReadResult, copied: nat, len: nat, nonblock: bool, copyFails: seq<bool>,
                                  queued: seq<Event>)
  {
    match r
    case Bytes(n) => n == len || queued == [] || FaultsAt(copyFails, copied)
    case Fault => FaultsAt(copyFails, 0)
    case Again => nonblock && queued == []
    case Interrupted => !nonblock && queued == []
    case Inval => false
  }

  /** A fault-free undisturbed read takes as many whole records as there are, up to the most asked for. */
  lemma AloneDrains(r: ReadResult, out: seq<Event>, before: seq<Event>, after: seq<Event>,
                    most: nat, len: nat, copyFails: seq<bool>)
    requires most > 0 && len == most * EVENT_SIZE && copyFails == []
    requires ReadsAlone(r, out, before, after, len, true, copyFails)
    ensures var n := Min(most, |before|);
            out == before[..n] && after == before[n..] && r == if n > 0 then Bytes(n * EVENT_SIZE) else Again
  {
    assert len / EVENT_SIZE == most;
  }

  function Outcome(copied: nat, faulted: bool, nonblock: bool): ReadResult {
    if copied > 0 then Bytes(copied) else if faulted then Fault else if nonblock then Again else Interrupted
  }

  class SensorHub {
    const ring: EventRing
    ghost var history: History

    ghost predicate Valid()
      reads this, ring, ring.events
    {
      ring.Valid() && history.q == ring.queue && Consistent(history)
    }

    constructor ()
      ensures Valid() && history == NO_HISTORY && fresh(ring) && fresh(ring.events)
    {
      ring := new EventRing();
      history := NO_HISTORY;
    }

    /** One queue operation of some thread. */
    method Do(op: Op)
      requires Valid()
      modifies this, ring, ring.events
      ensures Valid() && history == Record(old(history), op)
    {
      match op {
        case OpPush(body) => ring.Push(body);
        case OpPop(_, _) => var _ := ring.Pop();
        case OpClear => ring.Clear();
      }
      RecordKeepsConsistent(history, op);
      history := Record(history, op);
    }

    method DoAll(ops: seq<Op>)
      requires Valid()
      modifies this, ring, ring.events
      ensures Valid() && history == Replay(old(history), ops)
    {
      var i := 0;
      while i < |ops|
        invariant 0 <= i <= |ops| && Valid()
        invariant Replay(history, ops[i..]) == Replay(old(history), ops)
      {
        assert ops[i..][0] == ops[i] && ops[i..][1..] == ops[i + 1..];
        Do(ops[i]);
        i := i + 1;
      }
    }

    /** sh_q_pop followed by copy_to_user. */
    method PopAndCopy(reader: nat, copyFails: bool) returns (evt: Option<Event>)
      requires Valid()
      modifies this, ring
      ensures Valid() && history == Record(old(history), OpPop(reader, copyFails))
      ensures evt == if old(history).q.live == [] then None else Some(old(history).q.live[0])
      ensures Extends(old(history), history)
      ensures evt.Some? && !copyFails ==> JustRead(evt.value, reader, old(history), history)
    {
      evt := ring.Pop();
      RecordKeepsConsistent(history, OpPop(reader, copyFails));
      RecordExtends(history, OpPop(reader, copyFails));
      history := Record(history, OpPop(reader, copyFails));
    }

    /** What the other threads do between two pops of a read that began at h. */
    method Meanwhile(reader: nat, others: seq<Op>, ghost h: History, ghost out: seq<Event>)
      requires Valid() && ReadSoFar(h, history, reader, out)
      modifies this, ring, ring.events
      ensures Valid() && ReadSoFar(h, history, reader, out)
      ensures others == [] ==> ring.queue == old(ring.queue)
    {
      FatesAreFinal(history, others);
      ReplayKeepsConsistent(history, others);
      ReadAdvances(h, history, Replay(history, others), reader, out);
      DoAll(others);
    }

    /** One turn of a read that began at h with `before` queued and has copied `out`: what the other
        threads do, then one pop and one copy. */
    method NextEvent(reader: nat, others: seq<Op>, copyFails: bool,
                     ghost h: History, ghost before: seq<Event>, out: seq<Event>)
      returns (evt: Option<Event>, out1: seq<Event>)
      requires Valid() && ReadSoFar(h, history, reader, out)
      modifies this, ring, ring.events
      ensures Valid() && ReadSoFar(h, history, reader, out1)
      ensures out1 == if evt.Some? && !copyFails then out + [evt.value] else out
      ensures evt.None? ==> ring.queue.live == []
      ensures others == [] && Took(out, before, old(ring.queue.live), false) ==>
                Took(out1, before, ring.queue.live, evt.Some? && copyFails)
    {
      Meanwhile(reader, others, h, out);
      ghost var t, queued := history, ring.queue.live;
      evt := PopAndCopy(reader, copyFails);
      out1 := if evt.Some? && !copyFails then out + [evt.value] else out;
      if evt.Some? && !copyFails {
        ReadTakes(h, t, history, reader, out, evt.value);
      } else {
        ReadAdvances(h, t, history, reader, out);
      }
      if Took(out, before, queued, false) {
        TookOneMore(out, before, queued, copyFails, out1, ring.queue.live);
      }
    }

    /** sh_read. */
    method Read(reader: nat, len: nat, nonblock: bool, env: seq<seq<Op>>, copyFails: seq<bool>)
      returns (r: ReadResult, out: seq<Event>)
      requires Valid()
      modifies this, ring, ring.events
      ensures Valid() && Extends(old(history), history)
      // what is copied is delivered to this reader, in order, whatever the others do meanwhile
      ensures BatchOf(out, reader, Settled(old(history)), history)
      ensures r == Inval <==> len < 72 || len % 72 != 0
      ensures r == Inval ==> history == old(history)
      ensures if r.Bytes? then r.n == |out| * EVENT_SIZE && 0 < r.n <= len else out == []
      ensures r != Inval ==> StopsForAReason(r, |out|, len, nonblock, copyFails, ring.queue.live)
      // with no one else about: the oldest events that fit, up to the first copy fault, whose event is lost
      ensures env == [] && r != Inval ==>
                ReadsAlone(r, out, old(ring.queue).live, ring.queue.live, len, nonblock, copyFails)
    {
      if len < EVENT_SIZE || len % EVENT_SIZE != 0 {
        return Inval, [];
      }
      r, out := ReadLoop(reader, len, nonblock, env, copyFails);
    }

    method ReadLoop(reader: nat, len: nat, nonblock: bool, env: seq<seq<Op>>, copyFails: seq<bool>)
      returns (r: ReadResult, out: seq<Event>)
      requires Valid() && EVENT_SIZE <= len && len % EVENT_SIZE == 0
      modifies this, ring, ring.events
      ensures Valid() && ReadSoFar(old(history), history, reader, out)
      ensures r != Inval
      ensures if r.Bytes? then r.n == |out| * EVENT_SIZE && 0 < r.n <= len else out == []
      ensures StopsForAReason(r, |out|, len, nonblock, copyFails, ring.queue.live)
      ensures env == [] ==>
                ReadsAlone(r, out, old(ring.queue).live, ring.queue.live, len, nonblock, copyFails)
    {
      ghost var h, before := history, ring.queue.live;
      out := [];
      var copied, turn, stop, faulted := 0, 0, false, false;
      while !stop && copied + EVENT_SIZE <= len
        invariant copied <= len && copied == |out| * EVENT_SIZE
        invariant turn <= |env|
        invariant Valid() && ReadSoFar(h, history, reader, out)
        invariant NoFaultAmong(copyFails, |out|)
        invariant faulted ==> stop && copied + EVENT_SIZE <= len && FaultsAt(copyFails, |out|)
        invariant stop && !faulted ==> copied > 0 || nonblock || turn == |env|
        invariant env == [] ==> Took(out, before, ring.queue.live, faulted)
        invariant stop && !faulted ==> ring.queue.live == []
        decreases !stop, len - copied, |env| - turn
      {
        var last := turn == |env|;
        var fails := FaultsAt(copyFails, |out|);
        NoFaultOneMore(copyFails, |out|);
        var evt;
        evt, out := NextEvent(reader, if last then [] else env[turn], fails, h, before, out);
        turn := if last then turn else turn + 1;
        if evt == None {
          stop := copied > 0 || nonblock || last;
        } else if fails {
          stop, faulted := true, true;
        } else {
          copied := copied + EVENT_SIZE;
        }
      }
      if env == [] {
        AloneStops(out, before, ring.queue.live, faulted, len, nonblock, copyFails);
      }
      r := Outcome(copied, faulted, nonblock);
    }

    /** sensor_client_read_events on a device opened O_NONBLOCK; -1 is the error return. The byte
        count is a size_t product, so it wraps at 2^64. */
    method ReadEvents(reader: nat, maxEvents: nat, env: seq<seq<Op>>, copyFails: seq<bool>)
      returns (n: int, out: seq<Event>)
      requires Valid()
      modifies this, ring, ring.events
      ensures Valid() && Extends(old(history), history)
      ensures BatchOf(out, reader, Settled(old(history)), history)
      // the count is exact: no partial record is ever reported or dropped
      ensures n == |out| <= maxEvents || (n == -1 && out == [])
      ensures var len := (maxEvents * EVENT_SIZE) % TWO_TO_THE_64;
              if maxEvents == 0 || len < EVENT_SIZE || len % EVENT_SIZE != 0 then n == -1 && history == old(history)
              else (n == -1 ==> FaultsAt(copyFails, 0))
                   && (0 <= n < len / EVENT_SIZE ==> ring.queue.live == [] || FaultsAt(copyFails, n))
      ensures env == [] && copyFails == [] && 0 < maxEvents * EVENT_SIZE < TWO_TO_THE_64 ==>
                && n == Min(maxEvents, |old(ring.queue).live|)
                && out == old(ring.queue).live[..n] && ring.queue.live == old(ring.queue).live[n..]
    {
      if maxEvents == 0 {
        return -1, [];
      }
      var r;
      var len := (maxEvents * EVENT_SIZE) % TWO_TO_THE_64;
      r, out := Read(reader, len, true, env, copyFails);
      if env == [] && copyFails == [] && 0 < maxEvents * EVENT_SIZE < TWO_TO_THE_64 {
        AloneDrains(r, out, old(ring.queue).live, ring.queue.live, maxEvents, len, copyFails);
      }
      match r {
        case Bytes(bytes) => n := bytes / EVENT_SIZE;
        case Again => n := 0;
        case _ => n := -1;
      }
    }
  }
}
