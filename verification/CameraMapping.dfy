/** Mapping and unmapping the capture buffers (camera_v4l2.c): a nested loop that may fail at any
    REQBUFS, QUERYBUF or mmap call, and the camera_deinit that has to undo exactly what it did. */
module CameraMapping {
  import opened Common

  const MAX_PLANES: nat := 8

  datatype Region = Region(start: nat, length: nat)

  /** planes[p].start: NULL, MAP_FAILED, or an address. */
  datatype Start = Null | MapFailed | Mapped(addr: nat)

  datatype Plane = Plane(start: Start, length: nat)

  datatype Buffer = Buffer(planes: seq<Plane>, numPlanes: nat)

  const NO_PLANE: Plane := Plane(Null, 0)
  const ZERO_BUFFER: Buffer :=
    Buffer([NO_PLANE, NO_PLANE, NO_PLANE, NO_PLANE, NO_PLANE, NO_PLANE, NO_PLANE, NO_PLANE], 0)

  predicate WellFormed(b: Buffer) {
    |b.planes| == MAX_PLANES && b.numPlanes <= MAX_PLANES
  }

  // ---------------------------------------------------------------- the regions a context owns

  function PlaneRegions(planes: seq<Plane>): seq<Region>
    decreases |planes|
  {
    if planes == [] then [] else PlaneRegion(planes[0]) + PlaneRegions(planes[1..])
  }

  function PlaneRegion(p: Plane): seq<Region> {
    if p.start.Mapped? then [Region(p.start.addr, p.length)] else []
  }

  function BufferRegions(b: Buffer): seq<Region>
    requires WellFormed(b)
  {
    PlaneRegions(b.planes[..b.numPlanes])
  }

  function WithPlane(b: Buffer, p: nat, plane: Plane): Buffer
    requires p < |b.planes|
  {
    b.(planes := b.planes[p := plane])
  }

  ghost predicate AllWellFormed(bufs: seq<Buffer>) {
    forall i :: 0 <= i < |bufs| ==> WellFormed(bufs[i])
  }

  ghost function Regions(bufs: seq<Buffer>): seq<Region>
    requires AllWellFormed(bufs)
    decreases |bufs|
  {
    if bufs == [] then [] else BufferRegions(bufs[0]) + Regions(bufs[1..])
  }

  lemma Associative(a: seq<Region>, b: seq<Region>, c: seq<Region>)
    ensures a + (b + c) == (a + b) + c
  {
  }

  lemma PlaneRegionsCons(p: Plane, rest: seq<Plane>)
    ensures PlaneRegions([p] + rest) == PlaneRegion(p) + PlaneRegions(rest)
  {
    assert ([p] + rest)[1..] == rest;
  }

  lemma {:induction false} PlaneRegionsConcat(a: seq<Plane>, b: seq<Plane>)
    ensures PlaneRegions(a + b) == PlaneRegions(a) + PlaneRegions(b)
    decreases |a|
  {
    if a == [] {
      assert a + b == b;
    } else {
      var rest := a[1..];
      assert a + b == [a[0]] + (rest + b);
      calc {
        PlaneRegions(a + b);
      ==  { PlaneRegionsCons(a[0], rest + b); }
        PlaneRegion(a[0]) + PlaneRegions(rest + b);
      ==  { PlaneRegionsConcat(rest, b); }
        PlaneRegion(a[0]) + (PlaneRegions(rest) + PlaneRegions(b));
      ==  { Associative(PlaneRegion(a[0]), PlaneRegions(rest), PlaneRegions(b)); }
        PlaneRegions(a) + PlaneRegions(b);
      }
    }
  }

  /** Unmapped planes own nothing. */
  lemma {:induction false} NoRegions(planes: seq<Plane>)
    requires forall p :: 0 <= p < |planes| ==> !planes[p].start.Mapped?
    ensures PlaneRegions(planes) == []
    decreases |planes|
  {
    if planes == [] {
    } else {
      NoRegions(planes[1..]);
    }
  }

  lemma {:induction false} ZeroBuffersOwnNothing(bufs: seq<Buffer>)
    requires forall i :: 0 <= i < |bufs| ==> bufs[i] == ZERO_BUFFER
    ensures AllWellFormed(bufs) && Regions(bufs) == []
    decreases |bufs|
  {
    if bufs == [] {
    } else {
      ZeroBuffersOwnNothing(bufs[1..]);
    }
  }

  // ---------------------------------------------------------------- the address space

  /** The address space after mapping these regions on top of `base`. */
  function MapAll(base: map<nat, nat>, regions: seq<Region>): map<nat, nat>
    decreases |regions|
  {
    if regions == [] then base else MapAll(base, regions[1..])[regions[0].start := regions[0].length]
  }

  /** No region starts where another one, or the base, already is. */
  predicate Distinct(base: map<nat, nat>, regions: seq<Region>)
    decreases |regions|
  {
    regions == [] || (regions[0].start !in MapAll(base, regions[1..]) && Distinct(base, regions[1..]))
  }

  lemma {:induction false} MapOneMore(base: map<nat, nat>, regions: seq<Region>, r: Region)
    requires Distinct(base, regions) && r.start !in MapAll(base, regions)
    ensures Distinct(base, regions + [r])
    ensures MapAll(base, regions + [r]) == MapAll(base, regions)[r.start := r.length]
    decreases |regions|
  {
    if regions == [] {
      assert regions + [r] == [r];
    } else {
      assert (regions + [r])[1..] == regions[1..] + [r];
      MapOneMore(base, regions[1..], r);
    }
  }

  lemma {:induction false} UpperBound(s: set<nat>) returns (m: nat)
    ensures forall n :: n in s ==> n <= m
    decreases s
  {
    if s == {} {
      m := 0;
    } else {
      var x :| x in s;
      var rest := UpperBound(s - {x});
      assert forall n :: n in s ==> n == x || n in s - {x};
      m := if x <= rest then rest else x;
    }
  }

  lemma FreeNumberExists(s: set<nat>)
    ensures exists n: nat :: n != 0 && n !in s
  {
    var m := UpperBound(s);
    assert m + 1 !in s;
  }

  /** The kernel's side: live mappings, open descriptors, and every munmap call made. */
  class Kernel {
    var maps: map<nat, nat>
    var fds: set<nat>
    var unmapCalls: seq<Region>

    constructor (maps: map<nat, nat>, fds: set<nat>)
      ensures this.maps == maps && this.fds == fds && unmapCalls == []
    {
      this.maps, this.fds, unmapCalls := maps, fds, [];
    }

    /** The kernel picks an address of its own that is free and not NULL. */
    method Mmap(length: nat, granted: bool) returns (start: Start)
      modifies this`maps
      ensures if granted then start.Mapped? else start == MapFailed
      ensures start.Mapped? ==> start.addr != 0 && start.addr !in old(maps)
      ensures maps == if start.Mapped? then old(maps)[start.addr := length] else old(maps)
    {
      if !granted {
        return MapFailed;
      }
      FreeNumberExists(maps.Keys);
      var addr: nat :| addr != 0 && addr !in maps.Keys;
      maps := maps[addr := length];
      return Mapped(addr);
    }

    /** open(); None is a failure. */
    method Open(granted: bool) returns (fd: Option<nat>)
      modifies this`fds
      ensures fd.Some? <==> granted
      ensures fd.Some? ==> fd.value !in old(fds)
      ensures fds == old(fds) + Held(fd)
    {
      if !granted {
        return None;
      }
      FreeNumberExists(fds);
      var n: nat :| n != 0 && n !in fds;
      fds := fds + {n};
      return Some(n);
    }

    /** Unmapping anything but a whole live mapping would be a bug of the caller. */
    method Munmap(r: Region)
      requires r.start in maps && maps[r.start] == r.length
      modifies this`maps, this`unmapCalls
      ensures maps == old(maps) - {r.start} && unmapCalls == old(unmapCalls) + [r]
    {
      maps := maps - {r.start};
      unmapCalls := unmapCalls + [r];
    }
  }

  // ---------------------------------------------------------------- the camera context

  /** One plane as QUERYBUF reports it, and whether its mmap is granted. */
  datatype PlaneAnswer = PlaneAnswer(length: nat, granted: bool)

  /** What the driver answers: REQBUFS, calloc, and QUERYBUF for each buffer. A missing or oversized
      QUERYBUF answer stands for a failed call. */
  datatype Answers = Answers(reqbufs: Option<nat>, callocOk: bool, queries: seq<seq<PlaneAnswer>>)

  predicate QueryOk(a: Answers, i: nat) {
    i < |a.queries| && |a.queries[i]| <= MAX_PLANES
  }

  predicate AllGranted(answers: seq<PlaneAnswer>) {
    forall p :: 0 <= p < |answers| ==> answers[p].granted
  }

  /** No call of camera_reqbufs_and_mmap fails. */
  predicate NoCallFails(a: Answers) {
    && a.reqbufs.Some? && 2 <= a.reqbufs.value && a.callocOk
    && forall i :: 0 <= i < a.reqbufs.value ==> QueryOk(a, i) && AllGranted(a.queries[i])
  }

  /** One camera_open_for_mode: open(), the capability and format checks, the buffer answers,
      camera_start, and the STREAMOFF of a release. */
  datatype Attempt = Attempt(openOk: bool, checksOk: bool, answers: Answers, startOk: bool, streamOffOk: bool)

  datatype Outcome = Opened | OpenRefused | InitFailed | StartFailed

  function OutcomeOf(t: Attempt): Outcome {
    if !t.openOk then OpenRefused
    else if !t.checksOk || !NoCallFails(t.answers) then InitFailed
    else if t.startOk then Opened else StartFailed
  }

  /** What an attempt comes to, by the calls it makes. */
  lemma OutcomeByTheCalls(t: Attempt)
    ensures OutcomeOf(t) == OpenRefused <==> !t.openOk
    ensures OutcomeOf(t) == StartFailed <==> t.openOk && t.checksOk && AllBuffersMapped(t.answers) && !t.startOk
    ensures OutcomeOf(t) == Opened <==> t.openOk && t.checksOk && AllBuffersMapped(t.answers) && t.startOk
  {
    var a := t.answers;
    if NoCallFails(a) {
      assert forall i :: 0 <= i < a.reqbufs.value ==> QueryOk(a, i) && AllGranted(a.queries[i]);
      assert QueryOk(a, a.reqbufs.value - 1);
    }
  }

  /** REQBUFS grants at least two buffers, calloc succeeds, and each buffer is reported with at most
      eight planes that can all be mapped. */
  ghost predicate AllBuffersMapped(a: Answers) {
    && a.reqbufs.Some? && a.reqbufs.value >= 2 && a.callocOk && a.reqbufs.value <= |a.queries|
    && (forall i :: 0 <= i < a.reqbufs.value ==> |a.queries[i]| <= 8)
    && forall i, p :: 0 <= i < a.reqbufs.value && 0 <= p < |a.queries[i]| ==> a.queries[i][p].granted
  }

  function Outcomes(attempts: seq<Attempt>): (how: seq<Outcome>)
    ensures |how| == |attempts| && forall k :: 0 <= k < |how| ==> how[k] == OutcomeOf(attempts[k])
    decreases |attempts|
  {
    if attempts == [] then [] else [OutcomeOf(attempts[0])] + Outcomes(attempts[1..])
  }

  /** How many of three attempts are made. */
  function Made(how: seq<Outcome>): (n: nat)
    requires |how| == 3
    ensures 1 <= n <= 3
  {
    if how[0] == Opened then 1 else if how[1] == Opened then 2 else 3
  }

  /** No attempt that another one follows fails inside camera_init after its open(). */
  predicate NothingForgotten(how: seq<Outcome>, made: nat)
    requires made <= |how|
  {
    forall k :: 0 <= k < made - 1 ==> how[k] != InitFailed
  }

  lemma OneMoreAttempt(how: seq<Outcome>, i: nat)
    requires i < |how|
    ensures NothingForgotten(how, i + 1) <==> NothingForgotten(how, i) && (i > 0 ==> how[i - 1] != InitFailed)
  {
  }

  lemma AttemptsStop(how: seq<Outcome>, i: nat)
    requires |how| == 3 && 1 <= i <= 3 && (i == 3 || how[i - 1] == Opened)
    requires Tried(how, i)
    ensures i == Made(how) && (how[i - 1] == Opened <==> Opened in how)
  {
  }

  function Held(fd: Option<nat>): set<nat> {
    if fd.Some? then {fd.value} else {}
  }

  /** The open descriptors are those of before, the lost ones and the context's own. */
  ghost predicate Descriptors(now: set<nat>, before: set<nat>, lost: set<nat>, fd: Option<nat>) {
    && lost !! before && (fd.Some? ==> fd.value !in before + lost)
    && now == before + lost + Held(fd)
  }

  lemma ReopenLoses(now: set<nat>, before: set<nat>, lost: set<nat>, fd: Option<nat>, after: set<nat>, fd1: Option<nat>)
    requires Descriptors(now, before, lost, fd)
    requires (fd1.Some? ==> fd1.value !in now) && after == now + Held(fd1)
    ensures Descriptors(after, before, lost + Held(fd), fd1)
  {
  }

  lemma CloseLeaves(now: set<nat>, before: set<nat>, lost: set<nat>, fd: Option<nat>)
    requires Descriptors(now, before, lost, fd)
    ensures now - Held(fd) == before + lost
    ensures (before + lost) + Held(None) == before <==> lost == {}
    ensures now == before + Held(fd) <==> lost == {}
  {
    if lost != {} {
      var x :| x in lost;
      assert x in now && x !in before + Held(fd);
    }
  }

  /** Descriptors and address space before a retry, the address space under the context's own
      mappings, and the descriptors it has lost so far. */
  datatype Trail = Trail(fds: set<nat>, maps: map<nat, nat>, base: map<nat, nat>, lost: set<nat>)

  /** The first i attempts, of which only the last may have opened the camera. */
  ghost predicate Tried(how: seq<Outcome>, i: nat)
    requires i <= |how|
  {
    forall k :: 0 <= k < i - 1 ==> how[k] != Opened
  }

  class CameraContext {
    var fd: Option<nat>
    var streaming: bool
    var nBuffers: nat
    var buffers: array?<Buffer>

    ghost predicate Valid()
      reads this, buffers
    {
      buffers != null ==> nBuffers == buffers.Length && AllWellFormed(buffers[..])
    }

    /** The regions this context would unmap. */
    ghost function Owned(): seq<Region>
      reads this, buffers
      requires Valid()
    {
      if buffers == null then [] else Regions(buffers[..])
    }

    /** A context after memset(ctx, 0) and fd = -1. */
    constructor ()
      ensures Valid() && Owned() == [] && fd == None && !streaming && buffers == null && nBuffers == 0
    {
      fd, streaming, nBuffers, buffers := None, false, 0, null;
    }

    /** camera_reqbufs_and_mmap. */
    method ReqbufsAndMmap(os: Kernel, a: Answers) returns (ok: bool)
      requires Valid() && buffers == null
      modifies this`nBuffers, this`buffers, os`maps
      ensures Valid() && (buffers == null || fresh(buffers))
      ensures Distinct(old(os.maps), Owned()) && os.maps == MapAll(old(os.maps), Owned())
      ensures ok <==> NoCallFails(a)
      ensures ok ==> buffers != null && 2 <= nBuffers && a.reqbufs == Some(nBuffers) && FullyMapped(buffers[..], a)
    {
      if a.reqbufs.None? || a.reqbufs.value < 2 || !a.callocOk {
        return false;
      }
      var n := a.reqbufs.value;
      var bufs := new Buffer[n](_ => ZERO_BUFFER);
      buffers, nBuffers := bufs, n;
      ZeroBuffersOwnNothing(bufs[..]);
      ghost var base := os.maps;
      var i := 0;
      while i < nBuffers
        invariant buffers == bufs && nBuffers == n && 0 <= i <= n
        invariant Holds(os, base, bufs[..])
        invariant forall j :: i <= j < n ==> bufs[j] == ZERO_BUFFER
        invariant FullyMapped(bufs[..i], a)
        invariant forall j :: 0 <= j < i ==> QueryOk(a, j) && AllGranted(a.queries[j])
      {
        if !QueryOk(a, i) {
          return false;
        }
        ghost var done := bufs[..];
        ok := MapBuffer(os, bufs, a.queries[i], i, base);
        if !ok {
          return false;
        }
        assert bufs[..i] == done[..i];
        i := i + 1;
      }
      assert bufs[..i] == bufs[..];
      return true;
    }

    /** camera_init. It forgets whatever the context held before. */
    method Init(os: Kernel, t: Attempt) returns (ok: bool)
      requires Valid()
      modifies this, os`maps, os`fds
      ensures Valid() && !streaming
      ensures Distinct(old(os.maps), Owned()) && os.maps == MapAll(old(os.maps), Owned())
      ensures (fd.Some? ==> fd.value !in old(os.fds)) && os.fds == old(os.fds) + Held(fd)
      ensures (fd.Some? <==> t.openOk) && (ok <==> t.openOk && t.checksOk && NoCallFails(t.answers))
      ensures fd == None ==> Owned() == [] && buffers == null
    {
      fd, streaming, nBuffers, buffers := None, false, 0, null;
      fd := os.Open(t.openOk);
      if fd.None? || !t.checksOk {
        return false;
      }
      ok := ReqbufsAndMmap(os, t.answers);
    }

    /** camera_open_for_mode: a failed camera_start is released at once, a failed camera_init is not. */
    method OpenForMode(os: Kernel, t: Attempt) returns (ok: bool)
      requires Valid()
      modifies this, os
      ensures Valid() && (ok <==> OutcomeOf(t) == Opened) && (ok <==> streaming)
      ensures Distinct(old(os.maps), Owned()) && os.maps == MapAll(old(os.maps), Owned())
      ensures (fd.Some? ==> fd.value !in old(os.fds)) && os.fds == old(os.fds) + Held(fd)
      ensures fd.Some? <==> OutcomeOf(t) == Opened || OutcomeOf(t) == InitFailed
      ensures fd == None ==> Owned() == [] && buffers == null
    {
      ok := Init(os, t);
      if !ok {
        return false;
      }
      if !t.startOk {
        Deinit(os, t.streamOffOk, old(os.maps));
        return false;
      }
      streaming := true;
      return true;
    }

    /** camera_reopen_with_retry on a released context. */
    method Reopen(os: Kernel, attempts: seq<Attempt>) returns (ok: bool, ghost t: Trail)
      requires Valid() && buffers == null && fd == None && |attempts| == 3
      modifies this, os
      ensures Valid() && (ok <==> Opened in Outcomes(attempts))
      ensures t.fds == old(os.fds) && t.maps == old(os.maps)
      ensures Reopening(os, t, Outcomes(attempts), Made(Outcomes(attempts)))
      ensures ok <==> Outcomes(attempts)[Made(Outcomes(attempts)) - 1] == Opened
    {
      ghost var how := Outcomes(attempts);
      ok, t := false, Trail(os.fds, os.maps, os.maps, {});
      var i := 0;
      while i < 3 && !ok
        invariant 0 <= i <= 3 && Valid()
        invariant ok <==> i > 0 && how[i - 1] == Opened
        invariant Tried(how, i) && Reopening(os, t, how, i) && t.fds == old(os.fds) && t.maps == old(os.maps)
      {
        ok, t := TryAgain(os, attempts[i], t, how, i);
        i := i + 1;
      }
      AttemptsStop(how, i);
    }

    /** That, followed, if it fails, by the camera_deinit that main makes before it rolls back or exits.
        Afterwards the address space and the open descriptors are those of before, plus the context's
        own, exactly if no attempt that another one follows failed inside camera_init: the next
        attempt's memset forgets what such an attempt had opened and mapped. */
    method ReopenOrRelease(os: Kernel, attempts: seq<Attempt>) returns (ok: bool)
      requires Valid() && buffers == null && fd == None && |attempts| == 3
      modifies this, os
      ensures Valid() && (ok <==> Opened in Outcomes(attempts))
      ensures if ok then streaming && fd.Some? else Owned() == [] && fd == None
      ensures NothingForgotten(Outcomes(attempts), Made(Outcomes(attempts))) <==>
              os.fds == old(os.fds) + Held(fd) && os.maps == MapAll(old(os.maps), Owned())
    {
      ghost var t;
      ok, t := Reopen(os, attempts);
      CloseLeaves(os.fds, t.fds, t.lost, fd);
      if !ok {
        Deinit(os, attempts[2].streamOffOk, t.base);
      }
    }

    /** The context after the first i attempts of a retry. */
    ghost predicate Reopening(os: Kernel, t: Trail, how: seq<Outcome>, i: nat)
      requires Valid() && i <= |how|
      reads this, buffers, os
    {
      && Distinct(t.base, Owned()) && os.maps == MapAll(t.base, Owned())
      && (fd == None ==> Owned() == [] && buffers == null)
      && (fd.Some? <==> i > 0 && (how[i - 1] == Opened || how[i - 1] == InitFailed))
      && (i > 0 && how[i - 1] == Opened ==> streaming)
      && Descriptors(os.fds, t.fds, t.lost, fd)
      && (t.lost == {} ==> t.base == t.maps)
      && (t.lost == {} <==> NothingForgotten(how, i))
    }

    /** One turn of the retry loop. */
    method TryAgain(os: Kernel, a: Attempt, ghost t: Trail, ghost how: seq<Outcome>, ghost i: nat)
      returns (ok: bool, ghost t1: Trail)
      requires Valid() && i < |how| && Reopening(os, t, how, i)
      requires how[i] == OutcomeOf(a) && (i > 0 ==> how[i - 1] != Opened)
      modifies this, os
      ensures Valid() && (ok <==> how[i] == Opened)
      ensures t1.fds == t.fds && t1.maps == t.maps && Reopening(os, t1, how, i + 1)
    {
      ghost var now, fd0, maps := os.fds, fd, os.maps;
      OneMoreAttempt(how, i);
      ok := OpenForMode(os, a);
      ReopenLoses(now, t.fds, t.lost, fd0, os.fds, fd);
      t1 := t.(base := maps, lost := t.lost + Held(fd0));
    }

    /** camera_deinit. `base` is the address space without this context's mappings. */
    method Deinit(os: Kernel, streamOffOk: bool, ghost base: map<nat, nat>)
      requires Valid() && Distinct(base, Owned()) && os.maps == MapAll(base, Owned())
      modifies this, os
      ensures Valid() && Owned() == [] && buffers == null && fd == None
      ensures os.maps == base
      ensures os.unmapCalls == old(os.unmapCalls) + old(Owned())
      ensures streaming <==> old(streaming) && !(old(fd).Some? && streamOffOk)
      ensures os.fds == old(os.fds) - Held(old(fd))
      // a context already released is left exactly as it is, and so is the kernel
      ensures old(buffers) == null && old(fd) == None ==>
                && streaming == old(streaming) && nBuffers == old(nBuffers)
                && os.maps == old(os.maps) && os.fds == old(os.fds) && os.unmapCalls == old(os.unmapCalls)
    {
      if streaming && fd.Some? && streamOffOk {
        streaming := false;
      }
      if buffers != null {
        UnmapBuffers(os, base);
        buffers := null;
      }
      if fd.Some? {
        os.fds := os.fds - {fd.value};
        fd := None;
      }
    }

    /** The two unmapping loops. */
    method UnmapBuffers(os: Kernel, ghost base: map<nat, nat>)
      requires buffers != null && Valid() && Distinct(base, Owned()) && os.maps == MapAll(base, Owned())
      modifies os`maps, os`unmapCalls
      ensures os.maps == base && os.unmapCalls == old(os.unmapCalls) + old(Owned())
    {
      var i := 0;
      ghost var all := os.unmapCalls + Owned();
      ghost var left := Owned();
      assert buffers[0..] == buffers[..];
      while i < nBuffers
        invariant 0 <= i <= nBuffers
        invariant left == Regions(buffers[i..]) && StillToUnmap(os, base, left, all)
      {
        assert buffers[i..][0] == buffers[i] && buffers[i..][1..] == buffers[i + 1..];
        left := Regions(buffers[i + 1..]);
        UnmapBuffer(os, buffers[i], base, left, all);
        i := i + 1;
      }
      assert buffers[i..] == [];
    }
  }

  /** `left` is what is mapped on top of the base, and all that is missing from the list of calls. */
  ghost predicate StillToUnmap(os: Kernel, base: map<nat, nat>, left: seq<Region>, all: seq<Region>)
    reads os
  {
    Distinct(base, left) && os.maps == MapAll(base, left) && os.unmapCalls + left == all
  }

  /** Unmapping the first region leaves the others on top of the base. */
  lemma UnmapFirst(base: map<nat, nat>, left: seq<Region>, calls: seq<Region>)
    requires left != [] && Distinct(base, left)
    ensures left[0].start in MapAll(base, left) && MapAll(base, left)[left[0].start] == left[0].length
    ensures Distinct(base, left[1..]) && MapAll(base, left) - {left[0].start} == MapAll(base, left[1..])
    ensures (calls + [left[0]]) + left[1..] == calls + left
  {
  }

  lemma NextRegion(b: Buffer, p: nat, later: seq<Region>)
    requires WellFormed(b) && p < b.numPlanes
    ensures PlaneRegions(b.planes[p..b.numPlanes]) + later
         == PlaneRegion(b.planes[p]) + (PlaneRegions(b.planes[p + 1..b.numPlanes]) + later)
  {
    assert b.planes[p..b.numPlanes] == [b.planes[p]] + b.planes[p + 1..b.numPlanes];
    PlaneRegionsCons(b.planes[p], b.planes[p + 1..b.numPlanes]);
    Associative(PlaneRegion(b.planes[p]), PlaneRegions(b.planes[p + 1..b.numPlanes]), later);
  }

  /** One turn of the inner unmapping loop. */
  method UnmapPlane(os: Kernel, p: Plane, ghost base: map<nat, nat>, ghost next: seq<Region>, ghost all: seq<Region>)
    requires StillToUnmap(os, base, PlaneRegion(p) + next, all)
    modifies os`maps, os`unmapCalls
    ensures StillToUnmap(os, base, next, all)
  {
    if p.start.Mapped? {
      UnmapFirst(base, PlaneRegion(p) + next, os.unmapCalls);
      assert (PlaneRegion(p) + next)[1..] == next;
      os.Munmap(Region(p.start.addr, p.length));
    } else {
      assert PlaneRegion(p) + next == next;
    }
  }

  /** The planes of one buffer, the inner unmapping loop. */
  method UnmapBuffer(os: Kernel, b: Buffer, ghost base: map<nat, nat>, ghost later: seq<Region>, ghost all: seq<Region>)
    requires WellFormed(b) && StillToUnmap(os, base, BufferRegions(b) + later, all)
    modifies os`maps, os`unmapCalls
    ensures StillToUnmap(os, base, later, all)
  {
    var p := 0;
    assert b.planes[0..b.numPlanes] == b.planes[..b.numPlanes];
    while p < b.numPlanes
      invariant 0 <= p <= b.numPlanes
      invariant StillToUnmap(os, base, PlaneRegions(b.planes[p..b.numPlanes]) + later, all)
    {
      NextRegion(b, p, later);
      UnmapPlane(os, b.planes[p], base, PlaneRegions(b.planes[p + 1..b.numPlanes]) + later, all);
      p := p + 1;
    }
    assert PlaneRegions(b.planes[p..b.numPlanes]) + later == later;
  }

  /** The address space is `base` plus what these buffers have mapped. */
  ghost predicate Holds(os: Kernel, base: map<nat, nat>, bufs: seq<Buffer>)
    reads os
  {
    AllWellFormed(bufs) && Distinct(base, Regions(bufs)) && os.maps == MapAll(base, Regions(bufs))
  }

  /** Buffer b is being filled: its planes before p are mapped as asked, those from p on untouched. */
  ghost predicate Filling(b: Buffer, answers: seq<PlaneAnswer>, p: nat) {
    && WellFormed(b) && p <= b.numPlanes == |answers|
    && (forall q :: p <= q < MAX_PLANES ==> b.planes[q] == NO_PLANE)
    && (forall q :: 0 <= q < p ==> b.planes[q].start.Mapped? && b.planes[q].length == answers[q].length)
  }

  lemma FillingStarts(answers: seq<PlaneAnswer>)
    requires |answers| <= MAX_PLANES
    ensures Filling(ZERO_BUFFER.(numPlanes := |answers|), answers, 0)
  {
  }

  lemma FillingGoesOn(b: Buffer, answers: seq<PlaneAnswer>, p: nat, start: Start)
    requires p < |answers| && Filling(b, answers, p) && start.Mapped?
    ensures Filling(WithPlane(b, p, Plane(start, answers[p].length)), answers, p + 1)
  {
  }

  /** One turn of the inner mapping loop: plane p of buffer i. */
  method MapPlane(os: Kernel, bufs: array<Buffer>, i: nat, p: nat, answer: PlaneAnswer, ghost base: map<nat, nat>)
    returns (start: Start)
    requires i < bufs.Length && Holds(os, base, bufs[..]) && p < bufs[i].numPlanes
    requires forall q :: p <= q < MAX_PLANES ==> bufs[i].planes[q] == NO_PLANE
    requires forall j :: i < j < bufs.Length ==> bufs[j] == ZERO_BUFFER
    modifies bufs, os`maps
    ensures Holds(os, base, bufs[..])
    ensures forall j :: 0 <= j < bufs.Length && j != i ==> bufs[j] == old(bufs[j])
    ensures if answer.granted then start.Mapped? else start == MapFailed
    ensures bufs[i] == WithPlane(old(bufs[i]), p, Plane(start, answer.length))
  {
    ghost var b := bufs[..];
    start := os.Mmap(answer.length, answer.granted);
    var plane := Plane(start, answer.length);
    OnePlaneMore(base, b, i, p, plane);
    bufs[i] := WithPlane(bufs[i], p, plane);
    assert bufs[..] == b[i := WithPlane(b[i], p, plane)];
  }

  /** The planes of buffer i, the inner mapping loop. */
  method MapBuffer(os: Kernel, bufs: array<Buffer>, answers: seq<PlaneAnswer>, i: nat, ghost base: map<nat, nat>)
    returns (ok: bool)
    requires i < bufs.Length && |answers| <= MAX_PLANES && Holds(os, base, bufs[..])
    requires forall j :: i <= j < bufs.Length ==> bufs[j] == ZERO_BUFFER
    modifies bufs, os`maps
    ensures Holds(os, base, bufs[..])
    ensures forall j :: 0 <= j < bufs.Length && j != i ==> bufs[j] == old(bufs[j])
    ensures (ok <==> AllGranted(answers)) && (ok ==> BufferMapped(bufs[i], answers))
  {
    ghost var before := bufs[..];
    PlaneCountOwnsNothing(before, i, |answers|);
    bufs[i] := bufs[i].(numPlanes := |answers|);
    assert bufs[..] == before[i := bufs[i]];
    FillingStarts(answers);
    var p := 0;
    while p < |answers|
      invariant 0 <= p <= |answers| && Filling(bufs[i], answers, p)
      invariant forall q :: 0 <= q < p ==> answers[q].granted
      invariant forall j :: 0 <= j < bufs.Length && j != i ==> bufs[j] == before[j]
      invariant Holds(os, base, bufs[..])
    {
      ghost var b := bufs[i];
      var start := MapPlane(os, bufs, i, p, answers[p], base);
      if start == MapFailed {
        return false;
      }
      FillingGoesOn(b, answers, p, start);
      p := p + 1;
    }
    return true;
  }

  ghost predicate BufferMapped(b: Buffer, answers: seq<PlaneAnswer>) {
    && WellFormed(b) && b.numPlanes == |answers|
    && forall q :: 0 <= q < |answers| ==> b.planes[q].start.Mapped? && b.planes[q].length == answers[q].length
  }

  /** Every plane the driver reported is mapped with the length it reported. */
  ghost predicate FullyMapped(bufs: seq<Buffer>, a: Answers) {
    forall i :: 0 <= i < |bufs| ==> QueryOk(a, i) && BufferMapped(bufs[i], a.queries[i])
  }

  lemma {:induction false} RegionsAround(bufs: seq<Buffer>, i: nat)
    requires AllWellFormed(bufs) && i < |bufs|
    ensures Regions(bufs) == Regions(bufs[..i]) + BufferRegions(bufs[i]) + Regions(bufs[i + 1..])
    decreases i
  {
    if i == 0 {
      assert bufs[..0] == [];
    } else {
      var rest := bufs[1..];
      RegionsAround(rest, i - 1);
      assert rest[..i - 1] == bufs[..i][1..] && rest[i..] == bufs[i + 1..];
      Regroup(BufferRegions(bufs[0]), Regions(rest[..i - 1]), BufferRegions(bufs[i]), Regions(bufs[i + 1..]));
    }
  }

  lemma Regroup(a: seq<Region>, b: seq<Region>, c: seq<Region>, d: seq<Region>)
    ensures a + (b + c + d) == (a + b) + c + d
  {
  }

  lemma PlaneCountOwnsNothing(bufs: seq<Buffer>, i: nat, n: nat)
    requires AllWellFormed(bufs) && i < |bufs| && bufs[i] == ZERO_BUFFER && n <= MAX_PLANES
    ensures var after := bufs[i := bufs[i].(numPlanes := n)];
            AllWellFormed(after) && Regions(after) == Regions(bufs)
  {
    var after := bufs[i := bufs[i].(numPlanes := n)];
    RegionsAround(bufs, i);
    RegionsAround(after, i);
    assert after[..i] == bufs[..i] && after[i + 1..] == bufs[i + 1..];
    NoRegions(after[i].planes[..n]);
    NoRegions(bufs[i].planes[..0]);
  }

  /** Filling in one more plane of buffer i adds its region, if it has one, behind all others. */
  lemma OnePlaneMore(base: map<nat, nat>, bufs: seq<Buffer>, i: nat, p: nat, plane: Plane)
    requires AllWellFormed(bufs) && i < |bufs| && p < bufs[i].numPlanes
    requires forall q :: p <= q < MAX_PLANES ==> bufs[i].planes[q] == NO_PLANE
    requires forall j :: i < j < |bufs| ==> bufs[j] == ZERO_BUFFER
    requires Distinct(base, Regions(bufs))
    requires plane.start.Mapped? ==> plane.start.addr !in MapAll(base, Regions(bufs))
    ensures var after := bufs[i := WithPlane(bufs[i], p, plane)];
            && AllWellFormed(after) && Distinct(base, Regions(after))
            && MapAll(base, Regions(after))
               == (if plane.start.Mapped? then MapAll(base, Regions(bufs))[plane.start.addr := plane.length]
                   else MapAll(base, Regions(bufs)))
  {
    RegionsAfterPlane(bufs, i, p, plane);
    if plane.start.Mapped? {
      MapOneMore(base, Regions(bufs), Region(plane.start.addr, plane.length));
    } else {
      assert Regions(bufs) + PlaneRegion(plane) == Regions(bufs);
    }
  }

  lemma RegionsAfterPlane(bufs: seq<Buffer>, i: nat, p: nat, plane: Plane)
    requires AllWellFormed(bufs) && i < |bufs| && p < bufs[i].numPlanes
    requires forall q :: p <= q < MAX_PLANES ==> bufs[i].planes[q] == NO_PLANE
    requires forall j :: i < j < |bufs| ==> bufs[j] == ZERO_BUFFER
    ensures var after := bufs[i := WithPlane(bufs[i], p, plane)];
            && AllWellFormed(after)
            && Regions(after) == Regions(bufs) + PlaneRegion(plane)
  {
    var b := bufs[i];
    var c := WithPlane(b, p, plane);
    var after := bufs[i := c];
    PlaneAdded(b, c, p, plane);
    RegionsAround(bufs, i);
    RegionsAround(after, i);
    assert after[..i] == bufs[..i] && after[i + 1..] == bufs[i + 1..];
    ZeroBuffersOwnNothing(bufs[i + 1..]);
  }

  /** Only the planes before the first unmapped one count. */
  lemma OwnedBelow(b: Buffer, p: nat)
    requires WellFormed(b) && p <= b.numPlanes
    requires forall q :: p <= q < b.numPlanes ==> !b.planes[q].start.Mapped?
    ensures BufferRegions(b) == PlaneRegions(b.planes[..p])
  {
    var n := b.numPlanes;
    assert b.planes[..n] == b.planes[..p] + b.planes[p..n];
    PlaneRegionsConcat(b.planes[..p], b.planes[p..n]);
    NoRegions(b.planes[p..n]);
  }

  lemma PlaneAdded(b: Buffer, c: Buffer, p: nat, plane: Plane)
    requires WellFormed(b) && p < b.numPlanes && c == WithPlane(b, p, plane)
    requires forall q :: p <= q < MAX_PLANES ==> b.planes[q] == NO_PLANE
    ensures WellFormed(c)
    ensures BufferRegions(c) == BufferRegions(b) + PlaneRegion(plane)
  {
    OwnedBelow(b, p);
    OwnedBelow(c, p + 1);
    assert c.planes[..p + 1] == b.planes[..p] + [plane];
    PlaneRegionsConcat(b.planes[..p], [plane]);
    PlaneRegionsCons(plane, []);
    assert [plane] + [] == [plane] && PlaneRegion(plane) + PlaneRegions([]) == PlaneRegion(plane);
  }
}
