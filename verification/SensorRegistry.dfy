/** The hub's endpoint table, the snapshot built from it (sensor_hub_core.c) and the client's lookup
    in that snapshot (sensor_client.c). */
module SensorRegistry {
  import opened Common

  const MAX_SENSORS: nat := 16
  const API_VERSION: nat := 0x0002_0000

  datatype SensorValue = SensorValue(
    id: nat, kind: nat, direction: nat, flags: nat, caps: nat, nvalues: nat, timestampNs: int, values: seq<int>)

  /** What the fixed fields of an endpoint are registered with; its value starts zeroed. */
  datatype Template = Template(id: nat, kind: nat, direction: nat, caps: nat)

  datatype Endpoint = Endpoint(tmpl: Template, value: SensorValue, registered: bool)

  const ZERO_VALUE: SensorValue := SensorValue(0, 0, 0, 0, 0, 0, 0, [0, 0, 0, 0])

  /** The slots in use, in order, and the update counter. */
  datatype Table = Table(endpoints: seq<Endpoint>, snapshotSeq: nat)

  const EMPTY_TABLE: Table := Table([], 0)

  /** The two ways the drivers build the value they commit: from sh_init_value, or as the old
      value with its flags and time replaced. */
  datatype NewValue =
    | Fresh(flags: nat, nvalues: nat, now: int, values: seq<int>)
    | Reflagged(flags: nat, now: int)

  function Build(e: Endpoint, v: NewValue): SensorValue {
    match v
    case Fresh(flags, n, now, values) =>
      SensorValue(e.tmpl.id, e.tmpl.kind, e.tmpl.direction, flags, e.tmpl.caps, n, now, values)
    case Reflagged(flags, now) => e.value.(flags := flags, timestampNs := now)
  }

  datatype Op = OpRegister(tmpl: Template) | OpUnregister(slot: nat) | OpUpdate(slot: nat, value: NewValue)

  function Apply(t: Table, op: Op): Table {
    match op
    case OpRegister(tmpl) =>
      if |t.endpoints| >= MAX_SENSORS then t
      else t.(endpoints := t.endpoints + [Endpoint(tmpl, ZERO_VALUE, true)])
    case OpUnregister(slot) =>
      if slot >= |t.endpoints| then t
      else t.(endpoints := t.endpoints[slot := t.endpoints[slot].(registered := false)])
    case OpUpdate(slot, v) =>
      if slot >= |t.endpoints| then t
      else Table(t.endpoints[slot := t.endpoints[slot].(value := Build(t.endpoints[slot], v))], t.snapshotSeq + 1)
  }

  function ApplyAll(t: Table, ops: seq<Op>): Table
    decreases |ops|
  {
    if ops == [] then t else ApplyAll(Apply(t, ops[0]), ops[1..])
  }

  // ---------------------------------------------------------------- what one operation leaves behind

  /** Slot by slot, and but for one slot, two tables are the same. */
  ghost predicate SameBut(before: seq<Endpoint>, after: seq<Endpoint>, slot: nat) {
    && |after| == |before|
    && forall k :: 0 <= k < |before| && k != slot ==> after[k] == before[k]
  }

  /** e carries exactly these fields, under its own template. */
  predicate Shows(e: Endpoint, flags: nat, n: nat, now: int, values: seq<int>) {
    && e.value.id == e.tmpl.id && e.value.kind == e.tmpl.kind
    && e.value.direction == e.tmpl.direction && e.value.caps == e.tmpl.caps
    && e.value.flags == flags && e.value.nvalues == n && e.value.timestampNs == now && e.value.values == values
  }

  /** A committed value is in the table, in its slot and in no other, and counted once. */
  lemma UpdateStores(t: Table, slot: nat, flags: nat, n: nat, now: int, values: seq<int>)
    requires slot < |t.endpoints|
    ensures var u := Apply(t, OpUpdate(slot, Fresh(flags, n, now, values)));
            && SameBut(t.endpoints, u.endpoints, slot) && u.snapshotSeq == t.snapshotSeq + 1
            && u.endpoints[slot].tmpl == t.endpoints[slot].tmpl
            && u.endpoints[slot].registered == t.endpoints[slot].registered
            && Shows(u.endpoints[slot], flags, n, now, values)
  {
  }

  /** A reconfiguration's update changes flags and time and nothing else. */
  lemma ReflagStores(t: Table, slot: nat, flags: nat, now: int)
    requires slot < |t.endpoints|
    ensures var u := Apply(t, OpUpdate(slot, Reflagged(flags, now)));
            var before, after := t.endpoints[slot].value, u.endpoints[slot].value;
            && SameBut(t.endpoints, u.endpoints, slot) && u.snapshotSeq == t.snapshotSeq + 1
            && u.endpoints[slot].tmpl == t.endpoints[slot].tmpl
            && u.endpoints[slot].registered == t.endpoints[slot].registered
            && after.flags == flags && after.timestampNs == now
            && after.id == before.id && after.kind == before.kind && after.direction == before.direction
            && after.caps == before.caps && after.nvalues == before.nvalues && after.values == before.values
  {
  }

  /** A registration goes behind the others, registered and with a zeroed value, unless all sixteen
      slots are used. */
  lemma RegisterAppends(t: Table, tmpl: Template)
    ensures var u := Apply(t, OpRegister(tmpl));
            && u.snapshotSeq == t.snapshotSeq
            && |u.endpoints| == |t.endpoints| + (if |t.endpoints| < 16 then 1 else 0)
            && t.endpoints <= u.endpoints
            && (|t.endpoints| < 16 ==>
                  var e := u.endpoints[|t.endpoints|];
                  e.registered && e.tmpl == tmpl && e.value.id == 0 && e.value.values == [0, 0, 0, 0])
  {
  }

  lemma UnregisterClears(t: Table, slot: nat)
    requires slot < |t.endpoints|
    ensures var u := Apply(t, OpUnregister(slot));
            && SameBut(t.endpoints, u.endpoints, slot) && u.snapshotSeq == t.snapshotSeq
            && !u.endpoints[slot].registered
            && u.endpoints[slot].tmpl == t.endpoints[slot].tmpl && u.endpoints[slot].value == t.endpoints[slot].value
  {
  }

  // ---------------------------------------------------------------- lookups

  function FindEndpoint(endpoints: seq<Endpoint>, id: nat): Option<nat>
    decreases |endpoints|
  {
    if endpoints == [] then None else
      var n := |endpoints| - 1;
      var earlier := FindEndpoint(endpoints[..n], id);
      if earlier.Some? then earlier
      else if endpoints[n].registered && endpoints[n].tmpl.id == id then Some(n) else None
  }

  lemma {:induction false} FindsFirstRegistered(endpoints: seq<Endpoint>, id: nat)
    ensures match FindEndpoint(endpoints, id)
            case None => forall k :: 0 <= k < |endpoints| ==> !(endpoints[k].registered && endpoints[k].tmpl.id == id)
            case Some(i) =>
              && i < |endpoints| && endpoints[i].registered && endpoints[i].tmpl.id == id
              && forall k :: 0 <= k < i ==> !(endpoints[k].registered && endpoints[k].tmpl.id == id)
    decreases |endpoints|
  {
    if endpoints == [] {
    } else {
      FindsFirstRegistered(endpoints[..|endpoints| - 1], id);
    }
  }

  /** The items of a snapshot: the values of the registered endpoints, in slot order. */
  function Items(endpoints: seq<Endpoint>): (items: seq<SensorValue>)
    ensures |items| <= |endpoints|
    decreases |endpoints|
  {
    if endpoints == [] then [] else
      var n := |endpoints| - 1;
      Items(endpoints[..n]) + if endpoints[n].registered then [endpoints[n].value] else []
  }

  function FindValue(items: seq<SensorValue>, id: nat): Option<SensorValue>
    decreases |items|
  {
    if items == [] then None else
      var n := |items| - 1;
      var earlier := FindValue(items[..n], id);
      if earlier.Some? then earlier else if items[n].id == id then Some(items[n]) else None
  }

  lemma {:induction false} FindsFirstItem(items: seq<SensorValue>, id: nat)
    ensures match FindValue(items, id)
            case None => forall k :: 0 <= k < |items| ==> items[k].id != id
            case Some(v) => exists i :: 0 <= i < |items| && v == items[i] && v.id == id
                                        && forall k :: 0 <= k < i ==> items[k].id != id
    decreases |items|
  {
    if items == [] {
    } else {
      var n := |items| - 1;
      FindsFirstItem(items[..n], id);
      if FindValue(items[..n], id).Some? {
        var i :| 0 <= i < n && FindValue(items[..n], id) == Some(items[..n][i]) && items[..n][i].id == id
                 && forall k :: 0 <= k < i ==> items[..n][k].id != id;
        assert items[i] == items[..n][i] && forall k :: 0 <= k < i ==> items[k] == items[..n][k];
      } else {
        assert forall k :: 0 <= k < n ==> items[k] == items[..n][k];
      }
    }
  }

  /** An endpoint whose initial value has been committed carries its own id; until then, zero. */
  ghost predicate Tagged(endpoints: seq<Endpoint>) {
    forall k :: 0 <= k < |endpoints| ==> endpoints[k].value.id == 0 || endpoints[k].value.id == endpoints[k].tmpl.id
  }

  lemma {:induction false} ApplyAllKeepsTagged(t: Table, ops: seq<Op>)
    requires Tagged(t.endpoints) && |t.endpoints| <= MAX_SENSORS
    ensures Tagged(ApplyAll(t, ops).endpoints) && |ApplyAll(t, ops).endpoints| <= MAX_SENSORS
    decreases |ops|
  {
    if ops == [] {
    } else {
      ApplyAllKeepsTagged(Apply(t, ops[0]), ops[1..]);
    }
  }

  lemma {:induction false} FoundValueHasId(items: seq<SensorValue>, id: nat)
    ensures FindValue(items, id).Some? ==> FindValue(items, id).value.id == id
    decreases |items|
  {
    if items == [] {
    } else {
      FoundValueHasId(items[..|items| - 1], id);
    }
  }

  /** What the client finds in the snapshot is what the driver finds in the table. */
  ghost predicate LookupsAgree(endpoints: seq<Endpoint>, id: nat) {
    FindValue(Items(endpoints), id)
    == match FindEndpoint(endpoints, id)
       case None => None
       case Some(i) => if i < |endpoints| then Some(endpoints[i].value) else None
  }

  /** The endpoint the driver finds, if any, has committed its initial value. */
  ghost predicate FoundIsCommitted(endpoints: seq<Endpoint>, id: nat) {
    match FindEndpoint(endpoints, id)
    case None => true
    case Some(i) => i < |endpoints| && endpoints[i].value.id == id
  }

  lemma {:induction false} CommittedLookupsAgree(endpoints: seq<Endpoint>, id: nat)
    requires id != 0 && Tagged(endpoints) && FoundIsCommitted(endpoints, id)
    ensures LookupsAgree(endpoints, id)
    decreases |endpoints|
  {
    if endpoints == [] {
    } else {
      var n := |endpoints| - 1;
      var init, last := endpoints[..n], endpoints[n];
      FindsFirstRegistered(init, id);
      CommittedLookupsAgree(init, id);
      if last.registered {
        assert Items(endpoints)[..|Items(init)|] == Items(init);
      } else {
        assert Items(endpoints) == Items(init);
      }
    }
  }

  /** For every run of registrations, removals and updates, and every nonzero id: the lookups agree
      exactly when the endpoint found has committed a value. */
  lemma LookupsAgreeIffCommitted(ops: seq<Op>, id: nat)
    requires id != 0
    ensures var e := ApplyAll(EMPTY_TABLE, ops).endpoints;
            LookupsAgree(e, id) <==> FoundIsCommitted(e, id)
  {
    var e := ApplyAll(EMPTY_TABLE, ops).endpoints;
    ApplyAllKeepsTagged(EMPTY_TABLE, ops);
    FindsFirstRegistered(e, id);
    FoundValueHasId(Items(e), id);
    if FoundIsCommitted(e, id) {
      CommittedLookupsAgree(e, id);
    }
  }

  // ---------------------------------------------------------------- counting

  function Registrations(ops: seq<Op>): nat
    decreases |ops|
  {
    if ops == [] then 0 else (if ops[0].OpRegister? then 1 else 0) + Registrations(ops[1..])
  }

  /** Slots are never reused: the table holds the first 16 registrations of a run, and a later one
      fails however many endpoints were removed. */
  lemma {:induction false} SlotsAreNeverReused(t: Table, ops: seq<Op>)
    requires |t.endpoints| <= MAX_SENSORS
    ensures |ApplyAll(t, ops).endpoints| == Min(MAX_SENSORS, |t.endpoints| + Registrations(ops))
    ensures forall k :: 0 <= k < |t.endpoints| ==> ApplyAll(t, ops).endpoints[k].tmpl == t.endpoints[k].tmpl
    ensures forall k :: 0 <= k < |t.endpoints| && !t.endpoints[k].registered ==>
              !ApplyAll(t, ops).endpoints[k].registered
    decreases |ops|
  {
    if ops == [] {
    } else {
      SlotsAreNeverReused(Apply(t, ops[0]), ops[1..]);
    }
  }

  /** The updates among ops that reach an endpoint. */
  function Updates(t: Table, ops: seq<Op>): nat
    decreases |ops|
  {
    if ops == [] then 0
    else (if ops[0].OpUpdate? && ops[0].slot < |t.endpoints| then 1 else 0) + Updates(Apply(t, ops[0]), ops[1..])
  }

  lemma {:induction false} SnapshotSeqCountsUpdates(t: Table, ops: seq<Op>)
    ensures ApplyAll(t, ops).snapshotSeq == t.snapshotSeq + Updates(t, ops)
    decreases |ops|
  {
    if ops == [] {
    } else {
      SnapshotSeqCountsUpdates(Apply(t, ops[0]), ops[1..]);
    }
  }

  lemma {:induction false} ApplyAllConcat(t: Table, a: seq<Op>, b: seq<Op>)
    ensures ApplyAll(t, a + b) == ApplyAll(ApplyAll(t, a), b)
    decreases |a|
  {
    if a == [] {
      assert a + b == b;
    } else {
      assert (a + b)[1..] == a[1..] + b;
      ApplyAllConcat(Apply(t, a[0]), a[1..], b);
    }
  }

  // ---------------------------------------------------------------- the latest value

  predicate IsUpdateOf(op: Op, slot: nat) {
    op.OpUpdate? && op.slot == slot
  }

  /** What other operations leave of a slot: its value and its template. */
  lemma {:induction false} ValueLasts(t: Table, ops: seq<Op>, slot: nat)
    requires slot < |t.endpoints| && forall j :: 0 <= j < |ops| ==> !IsUpdateOf(ops[j], slot)
    ensures var u := ApplyAll(t, ops).endpoints;
            slot < |u| && u[slot].value == t.endpoints[slot].value && u[slot].tmpl == t.endpoints[slot].tmpl
    decreases |ops|
  {
    if ops == [] {
    } else {
      ValueLasts(Apply(t, ops[0]), ops[1..], slot);
    }
  }

  /** Operation k is the last one of the run to update this slot, which exists by then. */
  ghost predicate IsLatestUpdate(t: Table, ops: seq<Op>, slot: nat, k: nat) {
    && k < |ops| && IsUpdateOf(ops[k], slot) && slot < |ApplyAll(t, ops[..k]).endpoints|
    && forall j :: k < j < |ops| ==> !IsUpdateOf(ops[j], slot)
  }

  /** Over any run, a slot shows exactly what the latest update that reached it committed. */
  lemma LatestUpdateShows(t: Table, ops: seq<Op>, slot: nat, k: nat)
    requires IsLatestUpdate(t, ops, slot, k) && ops[k].value.Fresh?
    ensures var u, v := ApplyAll(t, ops).endpoints, ops[k].value;
            slot < |u| && Shows(u[slot], v.flags, v.nvalues, v.now, v.values)
  {
    var t1, v := ApplyAll(t, ops[..k]), ops[k].value;
    UpdateStores(t1, slot, v.flags, v.nvalues, v.now, v.values);
    ValueLasts(Apply(t1, ops[k]), ops[k + 1..], slot);
    SplitAt(t, ops, k);
  }

  lemma SplitAt(t: Table, ops: seq<Op>, k: nat)
    requires k < |ops|
    ensures ApplyAll(t, ops) == ApplyAll(Apply(ApplyAll(t, ops[..k]), ops[k]), ops[k + 1..])
  {
    assert ops == ops[..k] + ops[k..] && ops[k..][0] == ops[k] && ops[k..][1..] == ops[k + 1..];
    ApplyAllConcat(t, ops[..k], ops[k..]);
  }

  /** So a client that looks up the sensor in that slot finds the latest value committed for it. */
  lemma ClientFindsLatestUpdate(ops: seq<Op>, id: nat, slot: nat, k: nat)
    requires IsLatestUpdate(EMPTY_TABLE, ops, slot, k) && ops[k].value.Fresh?
    requires id != 0 && FindEndpoint(ApplyAll(EMPTY_TABLE, ops).endpoints, id) == Some(slot)
    ensures var u, v := ApplyAll(EMPTY_TABLE, ops).endpoints, ops[k].value;
            && slot < |u| && Shows(u[slot], v.flags, v.nvalues, v.now, v.values)
            && FindValue(Items(u), id) == Some(u[slot].value) && u[slot].value.id == id
  {
    LatestUpdateShows(EMPTY_TABLE, ops, slot, k);
    FindsFirstRegistered(ApplyAll(EMPTY_TABLE, ops).endpoints, id);
    LookupsAgreeIffCommitted(ops, id);
  }

  /** The registered slots before the k-th. */
  function RegisteredBefore(endpoints: seq<Endpoint>, k: nat): nat
    requires k <= |endpoints|
    decreases k
  {
    if k == 0 then 0 else RegisteredBefore(endpoints, k - 1) + if endpoints[k - 1].registered then 1 else 0
  }

  /** A snapshot has one item per registered slot, in slot order, and it is that slot's value. */
  lemma {:induction false} ItemOfSlot(endpoints: seq<Endpoint>, n: nat, k: nat)
    requires k < n <= |endpoints|
    ensures |Items(endpoints[..n])| == RegisteredBefore(endpoints, n)
    ensures endpoints[k].registered ==>
              && RegisteredBefore(endpoints, k) < RegisteredBefore(endpoints, n)
              && Items(endpoints[..n])[RegisteredBefore(endpoints, k)] == endpoints[k].value
    decreases n
  {
    assert endpoints[..n][..n - 1] == endpoints[..n - 1];
    if n == 1 {
      assert endpoints[..0] == [];
    } else if k == n - 1 {
      ItemOfSlot(endpoints, n - 1, n - 2);
    } else {
      ItemOfSlot(endpoints, n - 1, k);
    }
  }

  // ---------------------------------------------------------------- snapshots

  datatype Snapshot = Snapshot(
    version: nat, seqno: nat, dropped: nat, timestampNs: int, count: nat, items: seq<SensorValue>)

  /** How far the sequence number read before `between` is behind the table after it. */
  lemma UpdatesInBetween(before: seq<Op>, between: seq<Op>)
    ensures var t, k := ApplyAll(EMPTY_TABLE, before), Updates(EMPTY_TABLE, before + between);
            && ApplyAll(EMPTY_TABLE, before + between) == ApplyAll(t, between)
            && ApplyAll(t, between).snapshotSeq == k == t.snapshotSeq + Updates(t, between)
  {
    ApplyAllConcat(EMPTY_TABLE, before, between);
    SnapshotSeqCountsUpdates(EMPTY_TABLE, before + between);
    SnapshotSeqCountsUpdates(ApplyAll(EMPTY_TABLE, before), between);
  }

  class SensorTable {
    const endpoints: array<Endpoint>
    var count: nat
    var snapshotSeq: nat

    ghost predicate Valid()
      reads this
    {
      endpoints.Length == MAX_SENSORS && count <= MAX_SENSORS
    }

    ghost function View(): Table
      reads this, endpoints
      requires Valid()
    {
      Table(endpoints[..count], snapshotSeq)
    }

    constructor ()
      ensures Valid() && View() == EMPTY_TABLE && fresh(endpoints)
    {
      endpoints := new Endpoint[MAX_SENSORS](_ => Endpoint(Template(0, 0, 0, 0), ZERO_VALUE, false));
      count, snapshotSeq := 0, 0;
    }

    /** sh_find_endpoint. */
    method Find(id: nat) returns (slot: Option<nat>)
      requires Valid()
      ensures slot == FindEndpoint(endpoints[..count], id)
    {
      for i := 0 to count
        invariant FindEndpoint(endpoints[..i], id) == None
      {
        assert endpoints[..i + 1][..i] == endpoints[..i];
        if endpoints[i].registered && endpoints[i].tmpl.id == id {
          FindsFirstRegistered(endpoints[..count], id);
          FindsFirstRegistered(endpoints[..i + 1], id);
          return Some(i);
        }
      }
      return None;
    }

    /** sh_register_endpoint; None is a full table. */
    method Register(tmpl: Template) returns (slot: Option<nat>)
      requires Valid()
      modifies this, endpoints
      ensures Valid() && View() == Apply(old(View()), OpRegister(tmpl))
      ensures slot == if old(count) < MAX_SENSORS then Some(old(count)) else None
    {
      if count >= MAX_SENSORS {
        return None;
      }
      endpoints[count] := Endpoint(tmpl, ZERO_VALUE, true);
      count := count + 1;
      assert endpoints[..count] == old(endpoints[..count]) + [Endpoint(tmpl, ZERO_VALUE, true)];
      return Some(count - 1);
    }

    /** sh_unregister_endpoint; None is a NULL endpoint, and `removes` says whether the device's own
        remove is called. */
    method Unregister(slot: Option<nat>) returns (removes: bool)
      requires Valid() && (slot.Some? ==> slot.value < count)
      modifies endpoints
      ensures removes <==> slot.Some? && old(endpoints[slot.value].registered)
      ensures View() == if slot.Some? then Apply(old(View()), OpUnregister(slot.value)) else old(View())
      ensures !removes ==> View() == old(View())
    {
      if slot.None? {
        return false;
      }
      if !endpoints[slot.value].registered {
        assert View().endpoints == View().endpoints[slot.value := View().endpoints[slot.value].(registered := false)];
        return false;
      }
      endpoints[slot.value] := endpoints[slot.value].(registered := false);
      return true;
    }

    /** sh_update_endpoint_value. */
    method UpdateValue(slot: nat, value: NewValue)
      requires Valid() && slot < count
      modifies this, endpoints
      ensures Valid() && View() == Apply(old(View()), OpUpdate(slot, value))
    {
      endpoints[slot] := endpoints[slot].(value := Build(endpoints[slot], value));
      snapshotSeq := snapshotSeq + 1;
    }

    /** What other threads do to the table, in order. */
    method Interfere(ops: seq<Op>)
      requires Valid()
      modifies this, endpoints
      ensures Valid() && View() == ApplyAll(old(View()), ops)
    {
      var i := 0;
      while i < |ops|
        invariant i <= |ops| && Valid()
        invariant ApplyAll(View(), ops[i..]) == ApplyAll(old(View()), ops)
      {
        assert ops[i..][0] == ops[i] && ops[i..][1..] == ops[i + 1..];
        match ops[i] {
          case OpRegister(tmpl) => var _ := Register(tmpl);
          case OpUnregister(slot) => if slot < count { var _ := Unregister(Some(slot)); }
          case OpUpdate(slot, v) => if slot < count { UpdateValue(slot, v); }
        }
        i := i + 1;
      }
    }

    /** sh_fill_snapshot on a table that the run `before` has led to; `between` is what others do
        after the unlocked read of snapshot_seq and before the lock is taken. The result is an atomic
        cut: its items are the table after exactly k updates of the run, its sequence number is at most
        k, and it is k just when no update slipped in between. */
    method FillSnapshot(ghost before: seq<Op>, between: seq<Op>, dropped: nat, now: int) returns (snap: Snapshot)
      requires Valid() && View() == ApplyAll(EMPTY_TABLE, before)
      modifies this, endpoints
      ensures Valid() && View() == ApplyAll(EMPTY_TABLE, before + between)
      ensures snap.items == Items(ApplyAll(EMPTY_TABLE, before + between).endpoints) && snap.count == |snap.items|
      ensures var k := Updates(EMPTY_TABLE, before + between);
              && snap.seqno <= k == View().snapshotSeq
              && (snap.seqno == k <==> Updates(ApplyAll(EMPTY_TABLE, before), between) == 0)
      ensures snap.seqno == old(snapshotSeq)
      ensures snap.version == 0x0002_0000 && snap.dropped == dropped && snap.timestampNs == now
    {
      UpdatesInBetween(before, between);
      var seqno := snapshotSeq;
      Interfere(between);
      var items: seq<SensorValue> := [];
      var i := 0;
      while i < count && |items| < MAX_SENSORS
        invariant i <= count && |items| <= i
        invariant items == Items(endpoints[..i])
      {
        assert endpoints[..i + 1][..i] == endpoints[..i];
        if endpoints[i].registered {
          items := items + [endpoints[i].value];
        }
        i := i + 1;
      }
      return Snapshot(API_VERSION, seqno, dropped, now, |items|, items);
    }
  }

  /** sensor_client_find_value. */
  method ClientFindValue(snap: Snapshot, id: nat) returns (v: Option<SensorValue>)
    requires snap.count == |snap.items|
    ensures v == FindValue(snap.items, id)
  {
    for i := 0 to snap.count
      invariant FindValue(snap.items[..i], id) == None
    {
      assert snap.items[..i + 1][..i] == snap.items[..i];
      if snap.items[i].id == id {
        FindValueInPrefix(snap.items, i + 1, id);
        return Some(snap.items[i]);
      }
    }
    assert snap.items[..snap.count] == snap.items;
    return None;
  }

  lemma {:induction false} FindValueInPrefix(items: seq<SensorValue>, n: nat, id: nat)
    requires n <= |items| && FindValue(items[..n], id).Some?
    ensures FindValue(items, id) == FindValue(items[..n], id)
    decreases |items|
  {
    if n == |items| {
      assert items[..n] == items;
    } else {
      var m := |items| - 1;
      assert items[..m][..n] == items[..n];
      FindValueInPrefix(items[..m], n, id);
    }
  }
}
