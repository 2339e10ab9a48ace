/** The PIR interrupt handler's debounce filter (sensor_hub_pir.c) and what it means for the event
    queue: a bound on accepted edges per window, and the windows in which nothing can be dropped. */
module PirDebounce {
  import opened Common
  import opened EventQueue
  import SensorRegistry

  const SENSOR_PIR: nat := 1
  const EVT_SENSOR: nat := 1
  const CODE_TRIGGER: nat := 2
  const CODE_FALLING: nat := 4
  const FLAGS_ENABLED_VALID_ONLINE: nat := 7

  /** lastIrqNs == 0 stands for "no edge accepted yet", as in the driver. */
  datatype Filter = Filter(enabled: bool, debounceMs: nat, lastIrqNs: int)

  function DebounceNs(f: Filter): nat {
    f.debounceMs * 1_000_000
  }

  /** level < 0 is a failed GPIO read. */
  predicate Accepts(f: Filter, now: int, level: int) {
    && f.enabled
    && !(f.debounceMs != 0 && f.lastIrqNs != 0 && now - f.lastIrqNs < DebounceNs(f))
    && level >= 0
  }

  function EdgeBody(now: int, level: int): Body {
    Body(EVT_SENSOR, SENSOR_PIR, if level != 0 then CODE_TRIGGER else CODE_FALLING,
         FLAGS_ENABLED_VALID_ONLINE, 1, now, [level, 0, 0, 0])
  }

  /** The endpoint value an accepted edge commits. */
  function EdgeValue(now: int, level: int): SensorRegistry.NewValue {
    SensorRegistry.Fresh(FLAGS_ENABLED_VALID_ONLINE, 1, now, [level, 0, 0, 0])
  }

  class PirSensor {
    var enabled: bool
    var debounceMs: nat
    var lastIrqNs: int

    ghost function View(): Filter
      reads this
    {
      Filter(enabled, debounceMs, lastIrqNs)
    }

    constructor ()
      ensures View() == Filter(true, 200, 0)
    {
      enabled, debounceMs, lastIrqNs := true, 200, 0;
    }

    /** sh_pir_irq_thread: the endpoint is looked up, the filter asked, and an accepted edge sets the
        clock, the endpoint's value and the queue. */
    method IrqThread(table: SensorRegistry.SensorTable, ring: EventRing, now: int, gpio: int) returns (accepted: bool)
      requires table.Valid() && ring.Valid()
      modifies this, table, table.endpoints, ring, ring.events
      ensures table.Valid() && ring.Valid()
      ensures accepted <==> old(Attached(table)) && Accepts(old(View()), now, gpio)
      ensures if accepted
              then && View() == old(View()).(lastIrqNs := now)
                   && table.View() == SensorRegistry.Apply(old(table.View()),
                                        SensorRegistry.OpUpdate(old(Slot(table)), EdgeValue(now, gpio)))
                   && ring.queue == Pushed(old(ring.queue), EdgeBody(now, gpio))
              else View() == old(View()) && table.View() == old(table.View()) && ring.queue == old(ring.queue)
      ensures old(Attached(table)) ==>
                Scene(View(), ring.queue) == Happen(Scene(old(View()), old(ring.queue)), Edge(now, gpio))
    {
      var slot := table.Find(SENSOR_PIR);
      if slot.None? || !enabled {
        return false;
      }
      SensorRegistry.FindsFirstRegistered(table.endpoints[..table.count], SENSOR_PIR);
      if debounceMs != 0 && lastIrqNs != 0 && now - lastIrqNs < debounceMs * 1_000_000 {
        return false;
      }
      if gpio < 0 {
        return false;
      }
      lastIrqNs := now;
      table.UpdateValue(slot.value, EdgeValue(now, gpio));
      ring.Push(EdgeBody(now, gpio));
      return true;
    }
  }

  /** The PIR endpoint is registered, and where. */
  ghost predicate Attached(table: SensorRegistry.SensorTable)
    requires table.Valid()
    reads table, table.endpoints
  {
    SensorRegistry.FindEndpoint(table.View().endpoints, SENSOR_PIR).Some?
  }

  ghost function Slot(table: SensorRegistry.SensorTable): nat
    requires table.Valid() && Attached(table)
    reads table, table.endpoints
  {
    SensorRegistry.FindEndpoint(table.View().endpoints, SENSOR_PIR).value
  }

  // ---------------------------------------------------------------- windows

  /** One edge, by the fields: with the handler enabled, a readable level and either no debounce time,
      no earlier edge or an earlier edge at least that many milliseconds ago, it starts the clock and
      is queued as the newest event, a TRIGGER for a high level and a FALLING for a low one, with the
      level as its one value; otherwise nothing happens. */
  lemma EdgeByTheFields(s: Scene, now: int, level: int)
    ensures var t, f := Happen(s, Edge(now, level)), s.filter;
            if f.enabled && level >= 0
               && (f.debounceMs == 0 || f.lastIrqNs == 0 || now - f.lastIrqNs >= f.debounceMs * 1_000_000)
            then && t.filter == f.(lastIrqNs := now) && t.q.lastSeq == s.q.lastSeq + 1 && t.q.live != []
                 && var e := t.q.live[|t.q.live| - 1];
                    && e.seqno == s.q.lastSeq + 1 && e.body.kind == 1 && e.body.sensorId == 1
                    && e.body.code == (if level == 0 then 4 else 2) && e.body.flags == 1 + 2 + 4
                    && e.body.nvalues == 1 && e.body.timestampNs == now && e.body.values == [level, 0, 0, 0]
            else t == s
  {
  }

  /** The same edge in the endpoint table: the value that snapshots show from then on. */
  lemma EdgeValueByTheFields(t: SensorRegistry.Table, slot: nat, now: int, level: int)
    requires slot < |t.endpoints|
    ensures var u := SensorRegistry.Apply(t, SensorRegistry.OpUpdate(slot, EdgeValue(now, level)));
            && SensorRegistry.SameBut(t.endpoints, u.endpoints, slot)
            && SensorRegistry.Shows(u.endpoints[slot], 1 + 2 + 4, 1, now, [level, 0, 0, 0])
  {
    SensorRegistry.UpdateStores(t, slot, 7, 1, now, [level, 0, 0, 0]);
  }

  /** Within a window: edges at the interrupt line, and what readers do to the queue. */
  datatype Happening = Edge(now: int, level: int) | Take | Wipe

  datatype Scene = Scene(filter: Filter, q: Queue)

  function Happen(s: Scene, h: Happening): Scene {
    match h
    case Edge(now, level) =>
      if Accepts(s.filter, now, level)
      then Scene(s.filter.(lastIrqNs := now), Pushed(s.q, EdgeBody(now, level)))
      else s
    case Take => s.(q := Popped(s.q))
    case Wipe => s.(q := Emptied(s.q))
  }

  function Play(s: Scene, window: seq<Happening>): Scene
    decreases |window|
  {
    if window == [] then s else Play(Happen(s, window[0]), window[1..])
  }

  function Accepted(f: Filter, window: seq<Happening>): nat
    decreases |window|
  {
    if window == [] then 0
    else if window[0].Edge? && Accepts(f, window[0].now, window[0].level)
    then 1 + Accepted(f.(lastIrqNs := window[0].now), window[1..])
    else Accepted(f, window[1..])
  }

  ghost predicate Within(window: seq<Happening>, from: int, length: nat) {
    forall k :: 0 <= k < |window| && window[k].Edge? ==> from <= window[k].now <= from + length
  }

  lemma OneMoreInterval(n: nat, d: nat)
    ensures (1 + n) * d == d + n * d
  {
  }

  /** After an accepted edge at lastIrqNs, n more need n whole debounce intervals. */
  lemma {:induction false} AcceptedNeedTime(f: Filter, window: seq<Happening>, from: int, length: nat)
    requires f.debounceMs > 0 && 0 < from && Within(window, from, length)
    requires 0 < f.lastIrqNs <= from + length
    ensures Accepted(f, window) * DebounceNs(f) <= from + length - f.lastIrqNs
    decreases |window|
  {
    if window == [] {
    } else {
      var h := window[0];
      assert Within(window[1..], from, length);
      if h.Edge? && Accepts(f, h.now, h.level) {
        AcceptedNeedTime(f.(lastIrqNs := h.now), window[1..], from, length);
        OneMoreInterval(Accepted(f.(lastIrqNs := h.now), window[1..]), DebounceNs(f));
      } else {
        AcceptedNeedTime(f, window[1..], from, length);
      }
    }
  }

  lemma {:induction false} FirstAcceptedStartsClock(f: Filter, window: seq<Happening>, from: int, length: nat)
    requires f.debounceMs > 0 && 0 < from && Within(window, from, length)
    ensures Accepted(f, window) * DebounceNs(f) <= length + DebounceNs(f)
    decreases |window|
  {
    if window == [] {
    } else {
      var h := window[0];
      assert Within(window[1..], from, length);
      if h.Edge? && Accepts(f, h.now, h.level) {
        AcceptedNeedTime(f.(lastIrqNs := h.now), window[1..], from, length);
        OneMoreInterval(Accepted(f.(lastIrqNs := h.now), window[1..]), DebounceNs(f));
      } else {
        FirstAcceptedStartsClock(f, window[1..], from, length);
      }
    }
  }

  lemma CountBound(n: nat, d: nat, x: nat)
    requires d > 0 && n * d <= x + d
    ensures n <= x / d + 1
  {
    if n > 0 {
      assert (n - 1) * d == n * d - d;
      DivAtLeast(x, d, n - 1);
    }
  }

  /** Any window of length L holds at most L / D + 1 accepted edges, whatever the filter accepted
      before it and in whatever order the edges come. */
  lemma RateBound(f: Filter, window: seq<Happening>, from: int, length: nat)
    requires f.debounceMs > 0 && 0 < from && Within(window, from, length)
    ensures Accepted(f, window) <= length / (f.debounceMs * 1_000_000) + 1
  {
    FirstAcceptedStartsClock(f, window, from, length);
    CountBound(Accepted(f, window), DebounceNs(f), length);
  }

  /** Edges exactly one debounce interval apart. */
  function Periodic(first: int, gap: nat, n: nat): (window: seq<Happening>)
    ensures |window| == n
    ensures forall k :: 0 <= k < n ==> window[k] == Edge(first + k * gap, 1)
    decreases n
  {
    if n == 0 then [] else Periodic(first, gap, n - 1) + [Edge(first + (n - 1) * gap, 1)]
  }

  lemma {:induction false} PeriodicAllAccepted(f: Filter, first: int, gap: nat, n: nat)
    requires f.enabled && 0 < first && DebounceNs(f) <= gap
    requires f.lastIrqNs == 0 || DebounceNs(f) <= first - f.lastIrqNs
    ensures Accepted(f, Periodic(first, gap, n)) == n
    decreases n
  {
    if n == 0 {
    } else {
      PeriodicTail(first, gap, n);
      PeriodicAllAccepted(f.(lastIrqNs := first), first + gap, gap, n - 1);
    }
  }

  lemma PeriodicTail(first: int, gap: nat, n: nat)
    requires n > 0
    ensures Periodic(first, gap, n)[0] == Edge(first, 1)
    ensures Periodic(first, gap, n)[1..] == Periodic(first + gap, gap, n - 1)
  {
    var all, rest := Periodic(first, gap, n), Periodic(first + gap, gap, n - 1);
    forall k | 0 <= k < n - 1
      ensures all[1..][k] == rest[k]
    {
      assert all[k + 1] == Edge(first + (k + 1) * gap, 1);
      assert (k + 1) * gap == gap + k * gap;
    }
  }

  lemma PeriodicWithin(first: int, gap: nat, length: nat)
    requires gap > 0
    ensures Within(Periodic(first, gap, length / gap + 1), first, length)
  {
    forall k | 0 <= k < length / gap + 1
      ensures 0 <= k * gap <= length
    {
      MulLe(k, length / gap, gap);
      DivBounds(length, gap);
    }
  }

  // ---------------------------------------------------------------- the filter in front of the queue

  /** Readers only make room: while queued plus still-to-be-accepted events fit, nothing is dropped. */
  lemma {:induction false} FittingWindowDropsNothing(s: Scene, window: seq<Happening>)
    requires |s.q.live| + Accepted(s.filter, window) <= CAPACITY
    ensures Play(s, window).q.dropped == s.q.dropped
    decreases |window|
  {
    if window == [] {
    } else {
      FittingWindowDropsNothing(Happen(s, window[0]), window[1..]);
    }
  }

  /** With no reader about, every accepted edge beyond the free slots drops one event. */
  lemma {:induction false} UnreadWindowDropsExcess(s: Scene, window: seq<Happening>)
    requires |s.q.live| <= CAPACITY && forall k :: 0 <= k < |window| ==> window[k].Edge?
    ensures var n := |s.q.live| + Accepted(s.filter, window);
            Play(s, window).q.dropped == s.q.dropped + if n <= CAPACITY then 0 else n - CAPACITY
    decreases |window|
  {
    if window == [] {
    } else {
      UnreadWindowDropsExcess(Happen(s, window[0]), window[1..]);
    }
  }

  /** Nothing can be dropped in a window that starts with an empty queue. */
  ghost predicate LossFree(s: Scene, from: int, length: nat) {
    forall window :: Within(window, from, length) ==> Play(s, window).q.dropped == s.q.dropped
  }

  lemma ShortWindowIsLossFree(s: Scene, from: int, length: nat)
    requires s.filter.debounceMs > 0 && 0 < from && s.q.live == []
    requires length / DebounceNs(s.filter) + 1 <= CAPACITY
    ensures LossFree(s, from, length)
  {
    forall window | Within(window, from, length)
      ensures Play(s, window).q.dropped == s.q.dropped
    {
      RateBound(s.filter, window, from, length);
      FittingWindowDropsNothing(s, window);
    }
  }

  /** The bound is exact: for a filter that is ready, a window starting with an empty queue can
      lose no event, whatever the edges and the readers do, if and only if L / D + 1 <= 64. */
  lemma LossFreeIffBoundFits(s: Scene, from: int, length: nat)
    requires s.filter.enabled && s.filter.debounceMs > 0 && 0 < from && s.q.live == []
    requires s.filter.lastIrqNs == 0 || DebounceNs(s.filter) <= from - s.filter.lastIrqNs
    ensures LossFree(s, from, length) <==> length / (s.filter.debounceMs * 1_000_000) + 1 <= 64
  {
    var d := DebounceNs(s.filter);
    if length / d + 1 <= CAPACITY {
      ShortWindowIsLossFree(s, from, length);
    } else {
      var n := length / d + 1;
      var window := Periodic(from, d, n);
      PeriodicWithin(from, d, length);
      PeriodicAllAccepted(s.filter, from, d, n);
      UnreadWindowDropsExcess(s, window);
      assert Play(s, window).q.dropped != s.q.dropped;
    }
  }
}
