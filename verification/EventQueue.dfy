/** The hub's 64-slot drop-oldest event queue (sensor_hub_core.c), as a value and as the ring that
    stores it. */
module EventQueue {
  import opened Common

  const CAPACITY: nat := 64

  /** Everything in a struct sh_event except the sequence number the queue puts in it. */
  datatype Body = Body(
    kind: nat, sensorId: nat, code: nat, flags: nat, nvalues: nat, timestampNs: int, values: seq<int>)

  datatype Event = Event(seqno: nat, body: Body)

  /** live: the queued events, oldest first; lastSeq: hub->event_seq; dropped: hub->q.dropped. */
  datatype Queue = Queue(live: seq<Event>, lastSeq: nat, dropped: nat)

  const EMPTY_QUEUE: Queue := Queue([], 0, 0)

  function Pushed(q: Queue, body: Body): Queue {
    var kept := if |q.live| == CAPACITY then q.live[1..] else q.live;
    Queue(kept + [Event(q.lastSeq + 1, body)], q.lastSeq + 1,
          if |q.live| == CAPACITY then q.dropped + 1 else q.dropped)
  }

  function Popped(q: Queue): Queue {
    if q.live == [] then q else q.(live := q.live[1..])
  }

  function Emptied(q: Queue): Queue {
    q.(live := [])
  }

  /** The slot n places round the ring. */
  function Wrap(n: nat): (slot: nat)
    requires n < 2 * CAPACITY
    ensures slot == n % CAPACITY && slot < CAPACITY
  {
    if n < CAPACITY then n else n - CAPACITY
  }

  /** The slots from `tail` on, wrapping around, hold these events in order. */
  ghost predicate Represents(slots: seq<Event>, tail: nat, live: seq<Event>) {
    && |slots| == CAPACITY && tail < CAPACITY && |live| <= CAPACITY
    && forall i :: 0 <= i < |live| ==> live[i] == slots[Wrap(tail + i)]
  }

  lemma OldestLeaves(slots: seq<Event>, tail: nat, live: seq<Event>)
    requires Represents(slots, tail, live) && live != []
    ensures live[0] == slots[tail] && Represents(slots, Wrap(tail + 1), live[1..])
    ensures Wrap(Wrap(tail + 1) + (|live| - 1)) == Wrap(tail + |live|)
  {
    forall i | 0 <= i < |live| - 1
      ensures live[1..][i] == slots[Wrap(Wrap(tail + 1) + i)]
    {
      assert live[1..][i] == live[i + 1];
    }
  }

  lemma NewestJoins(slots: seq<Event>, tail: nat, live: seq<Event>, e: Event)
    requires Represents(slots, tail, live) && |live| < CAPACITY
    ensures Represents(slots[Wrap(tail + |live|) := e], tail, live + [e])
    ensures Wrap(tail + (|live| + 1)) == Wrap(Wrap(tail + |live|) + 1)
  {
  }

  /** head == (tail + count) % 64 is kept by every operation except the clear, which re-establishes
      it at zero; the slots from tail on, wrapping around, are the queue. */
  class EventRing {
    const events: array<Event>
    var head: nat
    var tail: nat
    var count: nat
    var dropped: nat
    var eventSeq: nat

    /** The queue the ring stands for. */
    ghost var queue: Queue

    ghost predicate Valid()
      reads this, events
    {
      && events.Length == CAPACITY
      && queue.lastSeq == eventSeq && queue.dropped == dropped && |queue.live| == count
      && Represents(events[..], tail, queue.live)
      && head == Wrap(tail + count)
    }

    constructor ()
      ensures Valid() && queue == EMPTY_QUEUE && fresh(events)
    {
      events := new Event[CAPACITY](i => Event(0, Body(0, 0, 0, 0, 0, 0, [])));
      head, tail, count, dropped, eventSeq := 0, 0, 0, 0, 0;
      queue := EMPTY_QUEUE;
    }

    /** sh_q_pop; None is -ENOENT. */
    method Pop() returns (evt: Option<Event>)
      requires Valid()
      modifies this
      ensures Valid() && queue == Popped(old(queue))
      ensures evt == if old(queue).live == [] then None else Some(old(queue).live[0])
    {
      if count == 0 {
        return None;
      }
      OldestLeaves(events[..], tail, queue.live);
      evt := Some(events[tail]);
      tail := (tail + 1) % CAPACITY;
      count := count - 1;
      queue := Popped(queue);
    }

    /** A full queue makes room. */
    method DropOldest()
      requires Valid() && count > 0
      modifies this
      ensures Valid()
      ensures queue == Queue(old(queue).live[1..], old(queue).lastSeq, old(queue).dropped + 1)
    {
      OldestLeaves(events[..], tail, queue.live);
      tail := (tail + 1) % CAPACITY;
      count := count - 1;
      dropped := dropped + 1;
      queue := Queue(queue.live[1..], queue.lastSeq, dropped);
    }

    /** The new event goes to the head of a queue with room for it. */
    method Append(body: Body)
      requires Valid() && count < CAPACITY
      modifies this, events
      ensures Valid()
      ensures queue == Queue(old(queue).live + [Event(old(queue).lastSeq + 1, body)],
                             old(queue).lastSeq + 1, old(queue).dropped)
    {
      ghost var slots, e := events[..], Event(eventSeq + 1, body);
      NewestJoins(slots, tail, queue.live, e);
      eventSeq := eventSeq + 1;
      events[head] := Event(eventSeq, body);
      assert events[..] == slots[head := e];
      head := (head + 1) % CAPACITY;
      count := count + 1;
      queue := Queue(queue.live + [e], eventSeq, dropped);
    }

    /** sh_push_event. */
    method Push(body: Body)
      requires Valid()
      modifies this, events
      ensures Valid() && queue == Pushed(old(queue), body)
    {
      if count == CAPACITY {
        DropOldest();
      }
      Append(body);
    }

    /** The SH_IOC_CLR_EVENTS branch of sh_ioctl. */
    method Clear()
      requires Valid()
      modifies this
      ensures Valid() && queue == Emptied(old(queue))
    {
      head, tail, count := 0, 0, 0;
      queue := Emptied(queue);
    }
  }
}
