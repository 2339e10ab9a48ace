/** The one-frame MJPEG cache shared by the camera worker and the stream clients (http_server.c).

    `Cache` is the cache as one value, `Published` and `Cleared` what one critical section does to
    it, `Attempt` what one pass through a client's wait loop decides. The classes below are the C
    structures updated in place; their methods are proved against those functions, and the
    interleaving model in MonitorProtocol takes its steps from the same functions. */
module MjpegCache {
  import opened Common

  type Frame = seq<Byte>

  datatype Mode = Trigger | Monitor

  datatype Cache = Cache(bytes: Frame, capacity: nat, seqno: nat, valid: bool)

  predicate WellFormed(c: Cache) {
    && |c.bytes| <= c.capacity
    && (c.valid ==> c.bytes != [] && 1 <= c.seqno)
  }

  const EMPTY_CACHE: Cache := Cache([], 0, 0, false)

  /** Does this publish store its frame? It does not for an empty frame, nor when the buffer has
      to grow and realloc fails. */
  predicate Stores(c: Cache, jpeg: Frame, reallocOk: bool) {
    jpeg != [] && (|jpeg| <= c.capacity || reallocOk)
  }

  function Published(c: Cache, jpeg: Frame, reallocOk: bool): Cache {
    if Stores(c, jpeg, reallocOk) then
      Cache(jpeg, if c.capacity < |jpeg| then |jpeg| else c.capacity, c.seqno + 1, true)
    else
      c
  }

  function Cleared(c: Cache): Cache {
    Cache([], c.capacity, c.seqno + 1, false)
  }

  /** What a publish leaves behind, by the caller's data: the frame, valid, under the next sequence
      number, in a buffer that has grown if it had to. It is refused exactly for an empty frame and
      when the buffer has to grow and cannot; then nothing changes. */
  lemma PublishedFrameIsThere(c: Cache, jpeg: Frame, reallocOk: bool)
    ensures var p := Published(c, jpeg, reallocOk);
            if |jpeg| > 0 && (|jpeg| <= c.capacity || reallocOk)
            then && p.valid && p.bytes == jpeg && p.seqno == c.seqno + 1
                 && p.capacity == (if |jpeg| > c.capacity then |jpeg| else c.capacity)
            else p == c
    ensures Stores(c, jpeg, reallocOk) <==> |jpeg| > 0 && (|jpeg| <= c.capacity || reallocOk)
  {
  }

  /** A clear leaves nothing to hand out, under a sequence number of its own. */
  lemma ClearedCacheIsEmpty(c: Cache)
    ensures !Cleared(c).valid && Cleared(c).bytes == [] && Cleared(c).seqno == c.seqno + 1
    ensures Cleared(c).capacity == c.capacity
  {
  }

  datatype Outcome = Wait | CloseModeChanged | CloseFailed | Copied

  /** A client holding the cache lock, having just read `mode`. */
  function Attempt(c: Cache, lastSeq: nat, localCap: nat, mode: Mode, httpRunning: bool, reallocOk: bool): Outcome {
    if !httpRunning then CloseFailed
    else if mode != Monitor then CloseModeChanged
    else if !(c.valid && c.seqno != lastSeq) then Wait
    else if localCap < |c.bytes| && !reallocOk then CloseFailed
    else Copied
  }

  /** What other threads may do to the cache while a client sleeps on the condition variable. */
  datatype CacheOp = OpPublish(jpeg: Frame, reallocOk: bool) | OpClear

  function ApplyOp(c: Cache, op: CacheOp): Cache {
    match op
    case OpPublish(jpeg, ok) => Published(c, jpeg, ok)
    case OpClear => Cleared(c)
  }

  function ApplyOps(c: Cache, ops: seq<CacheOp>): Cache
    decreases |ops|
  {
    if ops == [] then c else ApplyOps(ApplyOp(c, ops[0]), ops[1..])
  }

  lemma {:induction false} ApplyOpsKeepsWellFormed(c: Cache, ops: seq<CacheOp>)
    requires WellFormed(c)
    ensures WellFormed(ApplyOps(c, ops))
    ensures c.seqno <= ApplyOps(c, ops).seqno <= c.seqno + |ops|
    decreases |ops|
  {
    if ops == [] {
    } else {
      ApplyOpsKeepsWellFormed(ApplyOp(c, ops[0]), ops[1..]);
    }
  }

  /** A sequence number names one frame: if it did not move, neither did the contents. */
  lemma {:induction false} SameSeqnoSameContents(c: Cache, ops: seq<CacheOp>)
    requires WellFormed(c)
    ensures ApplyOps(c, ops).seqno == c.seqno ==> ApplyOps(c, ops) == c
    decreases |ops|
  {
    if ops == [] {
    } else {
      var c1 := ApplyOp(c, ops[0]);
      SameSeqnoSameContents(c1, ops[1..]);
      ApplyOpsKeepsWellFormed(c1, ops[1..]);
    }
  }

  class MjpegCache {
    var buf: array<Byte>
    var len: nat
    var seqno: nat
    var valid: bool

    ghost predicate Valid()
      reads this, buf
    {
      len <= buf.Length && WellFormed(View())
    }

    ghost function View(): Cache
      reads this, buf
      requires len <= buf.Length
    {
      Cache(buf[..len], buf.Length, seqno, valid)
    }

    constructor ()
      ensures Valid() && View() == EMPTY_CACHE && fresh(buf)
    {
      buf := new Byte[0];
      len, seqno, valid := 0, 0, false;
    }

    method Publish(jpeg: Frame, reallocOk: bool) returns (ok: bool)
      requires Valid()
      modifies this, buf
      ensures Valid()
      ensures View() == Published(old(View()), jpeg, reallocOk)
      ensures ok == Stores(old(View()), jpeg, reallocOk)
      ensures buf == old(buf) || fresh(buf)
    {
      if |jpeg| == 0 {
        return false;
      }
      if buf.Length < |jpeg| {
        if !reallocOk {
          return false;
        }
        buf := new Byte[|jpeg|];
      }
      forall i | 0 <= i < |jpeg| {
        buf[i] := jpeg[i];
      }
      len, valid := |jpeg|, true;
      seqno := seqno + 1;
      assert buf[..len] == jpeg;
      return true;
    }

    method Clear()
      requires Valid()
      modifies this
      ensures Valid() && buf == old(buf)
      ensures View() == Cleared(old(View()))
    {
      valid, len := false, 0;
      seqno := seqno + 1;
      assert buf[..len] == [];
    }

    /** The other threads' critical sections, in the order given. */
    method Interfere(ops: seq<CacheOp>)
      requires Valid()
      modifies this, buf
      ensures Valid() && (buf == old(buf) || fresh(buf))
      ensures View() == ApplyOps(old(View()), ops)
    {
      var i := 0;
      while i < |ops|
        invariant 0 <= i <= |ops| && Valid()
        invariant buf == old(buf) || fresh(buf)
        invariant ApplyOps(View(), ops[i..]) == ApplyOps(old(View()), ops)
      {
        assert ops[i..][0] == ops[i] && ops[i..][1..] == ops[i + 1..];
        match ops[i] {
          case OpPublish(jpeg, ok) => var _ := Publish(jpeg, ok);
          case OpClear => Clear();
        }
        i := i + 1;
      }
    }
  }

  /** What changes while a client is blocked in pthread_cond_wait. */
  datatype Wakeup = Wakeup(ops: seq<CacheOp>, mode: Mode, httpRunning: bool, reallocOk: bool)

  /** The whole wait loop: the outcome of the last attempt and the cache it saw. `Wait` means the
      listed wakeups are used up and the client is still asleep. */
  function WaitLoop(c: Cache, lastSeq: nat, localCap: nat, wakeups: seq<Wakeup>): (Outcome, Cache)
    decreases |wakeups|
  {
    if wakeups == [] then (Wait, c) else
      var w := wakeups[0];
      var c1 := ApplyOps(c, w.ops);
      var o := Attempt(c1, lastSeq, localCap, w.mode, w.httpRunning, w.reallocOk);
      if o == Wait then WaitLoop(c1, lastSeq, localCap, wakeups[1..]) else (o, c1)
  }

  /** Pass k is the one that decided: those before it only waited, and what it saw itself, in the
      cache and of mode and server, makes the outcome what it is. */
  ghost predicate DecidedBy(c: Cache, lastSeq: nat, localCap: nat, wakeups: seq<Wakeup>, k: nat, o: Outcome) {
    && k < |wakeups| && WaitLoop(c, lastSeq, localCap, wakeups[..k]).0 == Wait
    && WaitLoop(c, lastSeq, localCap, wakeups).1 == CacheAt(c, wakeups, k)
    && var w, seen := wakeups[k], CacheAt(c, wakeups, k);
       var news, fits := seen.valid && seen.seqno != lastSeq, |seen.bytes| <= localCap || w.reallocOk;
       match o
       case Copied => w.httpRunning && w.mode == Monitor && news && fits
       case CloseModeChanged => w.httpRunning && w.mode == Trigger
       case CloseFailed => !w.httpRunning || (w.mode == Monitor && news && !fits)
       case Wait => false
  }

  /** Every outcome of the wait loop but a further wait is decided by one pass. A frame it hands over
      is valid and, to a client that has every frame so far, strictly newer. */
  lemma {:induction false} OnePassDecides(c: Cache, lastSeq: nat, localCap: nat, wakeups: seq<Wakeup>)
    returns (k: nat)
    requires WellFormed(c) && lastSeq <= c.seqno
    ensures var (o, c1) := WaitLoop(c, lastSeq, localCap, wakeups);
            && WellFormed(c1) && c.seqno <= c1.seqno
            && (o == Copied ==> c1.valid && c1.bytes != [] && lastSeq < c1.seqno)
            && (o != Wait ==> DecidedBy(c, lastSeq, localCap, wakeups, k, o))
    decreases |wakeups|
  {
    k := 0;
    if wakeups == [] {
    } else {
      var w := wakeups[0];
      var c1 := ApplyOps(c, w.ops);
      ApplyOpsKeepsWellFormed(c, w.ops);
      if Attempt(c1, lastSeq, localCap, w.mode, w.httpRunning, w.reallocOk) == Wait {
        var later := OnePassDecides(c1, lastSeq, localCap, wakeups[1..]);
        k := later + 1;
        if k < |wakeups| {
          assert wakeups[..k][1..] == wakeups[1..][..later] && wakeups[..k][0] == w;
        }
      }
    }
  }

  /** A client sleeps through its wakeups exactly when none of them shows it a mode change, a
      shutdown, or a frame it does not have: no wakeup with news is missed. */
  lemma {:induction false} SleepsExactlyWithoutNews(c: Cache, lastSeq: nat, localCap: nat, wakeups: seq<Wakeup>)
    ensures WaitLoop(c, lastSeq, localCap, wakeups).0 == Wait <==>
            forall k :: 0 <= k < |wakeups| ==>
              && wakeups[k].httpRunning && wakeups[k].mode == Monitor
              && var seen := CacheAt(c, wakeups, k); !(seen.valid && seen.seqno != lastSeq)
    decreases |wakeups|
  {
    if wakeups == [] {
    } else {
      var c1 := ApplyOps(c, wakeups[0].ops);
      SleepsExactlyWithoutNews(c1, lastSeq, localCap, wakeups[1..]);
      assert CacheAt(c, wakeups, 0) == c1;
      forall k | 1 <= k < |wakeups|
        ensures wakeups[k] == wakeups[1..][k - 1] && CacheAt(c, wakeups, k) == CacheAt(c1, wakeups[1..], k - 1)
      {
      }
    }
  }

  /** The cache at the k-th pass of the loop. */
  function CacheAt(c: Cache, wakeups: seq<Wakeup>, k: nat): Cache
    requires k < |wakeups|
    decreases k
  {
    var c1 := ApplyOps(c, wakeups[0].ops);
    if k == 0 then c1 else CacheAt(c1, wakeups[1..], k - 1)
  }

  /** A frame published while a client waits is handed to it, byte for byte and at once, if the client
      still finds MONITOR mode and a running server and can hold it. */
  lemma PublishedFrameIsHandedOver(c: Cache, lastSeq: nat, localCap: nat, jpeg: Frame, publishOk: bool, copyOk: bool)
    requires lastSeq <= c.seqno
    requires |jpeg| > 0 && (|jpeg| <= c.capacity || publishOk) && (|jpeg| <= localCap || copyOk)
    ensures var wakeup := Wakeup([OpPublish(jpeg, publishOk)], Monitor, true, copyOk);
            var (o, seen) := WaitLoop(c, lastSeq, localCap, [wakeup]);
            o == Copied && seen.bytes == jpeg && seen.seqno == c.seqno + 1
  {
    assert [OpPublish(jpeg, publishOk)][1..] == [];
    assert ApplyOps(c, [OpPublish(jpeg, publishOk)]) == ApplyOps(Published(c, jpeg, publishOk), []);
  }

  /** A client that has received nothing takes the cached frame on its first pass. */
  lemma FreshClientNeedsNoPublish(c: Cache, localCap: nat, wakeups: seq<Wakeup>)
    requires WellFormed(c) && c.valid && wakeups != []
    requires wakeups[0].ops == [] && wakeups[0].mode == Monitor && wakeups[0].httpRunning && wakeups[0].reallocOk
    ensures WaitLoop(c, 0, localCap, wakeups) == (Copied, c)
  {
    assert ApplyOps(c, []) == c;
  }

  class StreamClient {
    var lastSeq: nat
    var localBuf: array<Byte>
    var outLen: nat

    constructor ()
      ensures lastSeq == 0 && outLen == 0 && fresh(localBuf)
    {
      lastSeq, outLen := 0, 0;
      localBuf := new Byte[0];
    }

    /** The copy under the cache lock, after the local buffer has grown if it must. */
    method CopyFrame(cache: MjpegCache, reallocOk: bool) returns (ok: bool)
      requires cache.Valid() && cache.buf != localBuf
      modifies this, localBuf
      ensures ok <==> cache.len <= old(localBuf.Length) || reallocOk
      ensures localBuf.Length == if ok && old(localBuf.Length) < cache.len then cache.len else old(localBuf.Length)
      ensures ok ==> lastSeq == cache.seqno && outLen <= localBuf.Length && localBuf[..outLen] == cache.View().bytes
      ensures !ok ==> lastSeq == old(lastSeq) && outLen == old(outLen) && localBuf == old(localBuf)
      ensures localBuf == old(localBuf) || fresh(localBuf)
    {
      if localBuf.Length < cache.len {
        if !reallocOk {
          return false;
        }
        localBuf := new Byte[cache.len];
      }
      forall k | 0 <= k < cache.len {
        localBuf[k] := cache.buf[k];
      }
      outLen, lastSeq := cache.len, cache.seqno;
      assert localBuf[..outLen] == cache.buf[..cache.len];
      return true;
    }

    /** wait_and_copy_next_jpeg: one pass of the loop per wakeup. */
    method WaitAndCopyNext(cache: MjpegCache, wakeups: seq<Wakeup>) returns (r: Outcome)
      requires cache.Valid() && cache.buf != localBuf
      modifies this, localBuf, cache, cache.buf
      ensures cache.Valid() && cache.buf != localBuf
      ensures (r, cache.View()) == WaitLoop(old(cache.View()), old(lastSeq), old(localBuf.Length), wakeups)
      ensures r == Copied ==>
                && lastSeq == cache.seqno
                && outLen <= localBuf.Length && localBuf[..outLen] == cache.View().bytes
                && localBuf.Length == (if old(localBuf.Length) < outLen then outLen else old(localBuf.Length))
      ensures r != Copied ==> lastSeq == old(lastSeq) && outLen == old(outLen) && localBuf == old(localBuf)
    {
      var i := 0;
      while i < |wakeups|
        invariant 0 <= i <= |wakeups| && cache.Valid()
        invariant cache.buf == old(cache.buf) || fresh(cache.buf)
        invariant localBuf == old(localBuf) && cache.buf != localBuf
        invariant lastSeq == old(lastSeq) && outLen == old(outLen)
        invariant WaitLoop(cache.View(), lastSeq, localBuf.Length, wakeups[i..])
               == WaitLoop(old(cache.View()), old(lastSeq), old(localBuf.Length), wakeups)
      {
        var w := wakeups[i];
        assert wakeups[i..][0] == w && wakeups[i..][1..] == wakeups[i + 1..];
        cache.Interfere(w.ops);
        i := i + 1;
        if !w.httpRunning {
          return CloseFailed;
        }
        if w.mode != Monitor {
          return CloseModeChanged;
        }
        if cache.valid && cache.seqno != lastSeq {
          var copied := CopyFrame(cache, w.reallocOk);
          return if copied then Copied else CloseFailed;
        }
      }
      return Wait;
    }
  }
}
