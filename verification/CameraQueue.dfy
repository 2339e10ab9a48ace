/** Who owns which capture buffer (camera_v4l2.c): the driver, which fills them, or the application,
    which holds one between camera_dequeue and camera_queue. */
module CameraQueue {
  import opened Common

  /** How one camera_dequeue turns out: select timed out or was interrupted, or DQBUF said EAGAIN;
      select or DQBUF failed; or DQBUF returned a buffer. */
  datatype Answer = NotYet | Broken | Filled(index: nat)

  datatype DequeueResult = Nothing | Error | Got(index: nat)

  datatype CaptureResult = Saved(index: nat) | Failed | StillWaiting

  /** The buffer indices 0 .. n - 1. */
  function Below(n: nat): (s: set<nat>)
    ensures forall i: nat :: i in s <==> i < n
    ensures |s| == n
    decreases n
  {
    if n == 0 then {} else Below(n - 1) + {n - 1}
  }

  /** Every one of n buffers has one owner. */
  ghost predicate Partition(driver: set<nat>, held: set<nat>, n: nat) {
    driver !! held && driver + held == Below(n)
  }

  /** One camera_capture_one: what its successive camera_dequeue calls meet, which of its camera_queue
      calls are accepted, and whether the frame can be saved. */
  datatype Capture = Capture(skip: nat, answers: seq<Answer>, requeues: seq<bool>, saveOk: bool)

  /** The n-th camera_queue call is refused. */
  predicate Refused(requeues: seq<bool>, n: nat) {
    0 < n <= |requeues| && !requeues[n - 1]
  }

  /** The buffers that dequeues from number `turn` on return, each given back before the next, up to a
      failure. */
  function Dequeued(answers: seq<Answer>, turn: nat, driver: set<nat>): seq<nat>
    requires turn <= |answers|
    decreases |answers| - turn
  {
    if turn == |answers| || answers[turn].Broken? then [] else
      var later := Dequeued(answers, turn + 1, driver);
      if answers[turn].Filled? && answers[turn].index in driver then [answers[turn].index] + later else later
  }

  /** One of those dequeues fails. */
  predicate Breaks(answers: seq<Answer>, turn: nat)
    requires turn <= |answers|
    decreases |answers| - turn
  {
    turn < |answers| && (answers[turn].Broken? || Breaks(answers, turn + 1))
  }

  function FirstRefused(requeues: seq<bool>, from: nat, limit: nat): (n: nat)
    requires from <= limit
    ensures from <= n <= limit && (forall k :: from <= k < n ==> !Refused(requeues, k))
    ensures n < limit ==> Refused(requeues, n)
    decreases limit - from
  {
    if from == limit || Refused(requeues, from) then from else FirstRefused(requeues, from + 1, limit)
  }

  /** Of the buffers offered, those up to and including the first whose return is refused. */
  function Taken(offered: seq<nat>, requeues: seq<bool>): seq<nat> {
    offered[..FirstRefused(requeues, 0, |offered|)]
  }

  lemma TakenIs(offered: seq<nat>, requeues: seq<bool>, n: nat)
    requires n <= |offered| && NoneRefused(requeues, n)
    requires n < |offered| ==> Refused(requeues, n)
    ensures Taken(offered, requeues) == offered[..n]
  {
    var m := FirstRefused(requeues, 0, |offered|);
    assert !(m < n) && !(n < m);
  }

  ghost predicate NoneRefused(requeues: seq<bool>, n: nat) {
    forall k :: 0 < k < n ==> !Refused(requeues, k)
  }

  /** A loop of dequeues that has taken these buffers, all accepted back, and goes on with answer `turn`. */
  ghost predicate Underway(answers: seq<Answer>, requeues: seq<bool>, driver: set<nat>, taken: seq<nat>, turn: nat)
    requires turn <= |answers|
  {
    && Dequeued(answers, 0, driver) == taken + Dequeued(answers, turn, driver)
    && Breaks(answers, 0) == Breaks(answers, turn)
    && NoneRefused(requeues, |taken| + 1)
  }

  /** One more dequeue of such a loop. */
  lemma UnderwayNext(answers: seq<Answer>, requeues: seq<bool>, driver: set<nat>, taken: seq<nat>, turn: nat)
    requires turn < |answers| && Underway(answers, requeues, driver, taken, turn)
    ensures var a, rest := answers[turn], Dequeued(answers, turn + 1, driver);
            if a.Broken? then Dequeued(answers, 0, driver) == taken && Breaks(answers, 0)
            else if a.Filled? && a.index in driver
            then && Dequeued(answers, 0, driver) == (taken + [a.index]) + rest
                 && (!Refused(requeues, |taken| + 1) ==>
                       Underway(answers, requeues, driver, taken + [a.index], turn + 1))
            else Underway(answers, requeues, driver, taken, turn + 1)
  {
  }

  lemma UnderwayAtEnd(answers: seq<Answer>, requeues: seq<bool>, driver: set<nat>, taken: seq<nat>)
    requires Underway(answers, requeues, driver, taken, |answers|)
    ensures Dequeued(answers, 0, driver) == taken && !Breaks(answers, 0)
  {
  }

  lemma UnderwayAtStart(answers: seq<Answer>, requeues: seq<bool>, driver: set<nat>)
    ensures Underway(answers, requeues, driver, [], 0)
  {
  }

  function LastOf(taken: seq<nat>): nat {
    if taken == [] then 0 else taken[|taken| - 1]
  }

  /** The driver's buffers after these were taken in turn: all but one whose return was refused. */
  function Left(driver: set<nat>, taken: seq<nat>, requeues: seq<bool>): set<nat> {
    if Refused(requeues, |taken|) then driver - {LastOf(taken)} else driver
  }

  function TakenBy(c: Capture, driver: set<nat>): seq<nat> {
    var offered := Dequeued(c.answers, 0, driver);
    Taken(offered[..Min(|offered|, c.skip + 1)], c.requeues)
  }

  /** One turn of a capture that has taken these buffers: it goes on, or it ends with this result,
      these buffers taken and these left with the driver. */
  datatype Turn = GoesOn(taken: seq<nat>) | Ends(r: CaptureResult, all: seq<nat>, left: set<nat>)

  function CaptureTurn(c: Capture, driver: set<nat>, a: Answer, taken: seq<nat>): Turn {
    if a.Broken? then Ends(Failed, taken, driver)
    else if a.NotYet? || a.index !in driver then GoesOn(taken)
    else
      var more := taken + [a.index];
      if Refused(c.requeues, |more|) then Ends(Failed, more, driver - {a.index})
      else if |more| <= c.skip then GoesOn(more)
      else Ends(if c.saveOk then Saved(a.index) else Failed, more, driver)
  }

  /** A capture that goes on with dequeue number `turn`. */
  function CaptureRun(c: Capture, driver: set<nat>, turn: nat, taken: seq<nat>): (CaptureResult, seq<nat>, set<nat>)
    requires turn <= |c.answers|
    decreases |c.answers| - turn
  {
    if turn == |c.answers| then (StillWaiting, taken, driver) else
      match CaptureTurn(c, driver, c.answers[turn], taken)
      case GoesOn(more) => CaptureRun(c, driver, turn + 1, more)
      case Ends(r, all, left) => (r, all, left)
  }

  /** The outcome of a capture and the buffers the driver has after it. */
  function Captured(streaming: bool, driver: set<nat>, c: Capture): (CaptureResult, set<nat>) {
    if !streaming then (Failed, driver)
    else var (r, _, left) := CaptureRun(c, driver, 0, []); (r, left)
  }

  /** The same outcome from what is taken as a whole. */
  function Verdict(c: Capture, taken: seq<nat>): CaptureResult {
    if Refused(c.requeues, |taken|) then Failed
    else if |taken| == c.skip + 1 then if c.saveOk then Saved(taken[c.skip]) else Failed
    else if Breaks(c.answers, 0) then Failed else StillWaiting
  }

  /** A capture that ends with these buffers taken and `rest` left to come. */
  lemma CaptureStops(c: Capture, driver: set<nat>, taken: seq<nat>, rest: seq<nat>)
    requires Dequeued(c.answers, 0, driver) == taken + rest && |taken| <= c.skip + 1
    requires NoneRefused(c.requeues, |taken|)
    requires rest == [] || |taken| == c.skip + 1 || Refused(c.requeues, |taken|)
    ensures TakenBy(c, driver) == taken
  {
    var offered := (taken + rest)[..Min(|taken + rest|, c.skip + 1)];
    TakenIs(offered, c.requeues, |taken|);
    assert offered[..|taken|] == taken;
  }

  lemma {:induction false} CaptureRunIs(c: Capture, driver: set<nat>, turn: nat, taken: seq<nat>)
    requires turn <= |c.answers| && |taken| <= c.skip && Underway(c.answers, c.requeues, driver, taken, turn)
    ensures var all := TakenBy(c, driver);
            CaptureRun(c, driver, turn, taken) == (Verdict(c, all), all, Left(driver, all, c.requeues))
    decreases |c.answers| - turn
  {
    if turn == |c.answers| {
      UnderwayAtEnd(c.answers, c.requeues, driver, taken);
      CaptureStops(c, driver, taken, []);
    } else {
      var a := c.answers[turn];
      UnderwayNext(c.answers, c.requeues, driver, taken, turn);
      if a.Broken? {
        CaptureStops(c, driver, taken, []);
      } else if a.NotYet? || a.index !in driver {
        CaptureRunIs(c, driver, turn + 1, taken);
      } else {
        var more := taken + [a.index];
        if Refused(c.requeues, |more|) || |more| > c.skip {
          CaptureStops(c, driver, more, Dequeued(c.answers, turn + 1, driver));
        } else {
          CaptureRunIs(c, driver, turn + 1, more);
        }
      }
    }
  }

  /** A capture, step by step, is the one seen as a whole: it takes the buffers offered up to
      skip + 1 of them, a failure or the first refused return, and loses the one refused. */
  lemma CaptureAsAWhole(c: Capture, driver: set<nat>)
    ensures var all := TakenBy(c, driver);
            CaptureRun(c, driver, 0, []) == (Verdict(c, all), all, Left(driver, all, c.requeues))
  {
    UnderwayAtStart(c.answers, c.requeues, driver);
    CaptureRunIs(c, driver, 0, []);
  }

  /** The worker's loop from dequeue number `turn` on: the frames it has looked at by the time it
      leaves, and the buffers the driver has then. */
  function WorkerRun(answers: seq<Answer>, requeues: seq<bool>, driver: set<nat>, turn: nat, frames: nat)
    : (nat, set<nat>)
    requires turn <= |answers|
    decreases |answers| - turn
  {
    if turn == |answers| || answers[turn].Broken? then (frames, driver) else
      var a := answers[turn];
      if a.NotYet? || a.index !in driver then WorkerRun(answers, requeues, driver, turn + 1, frames)
      else if Refused(requeues, frames + 1) then (frames + 1, driver - {a.index})
      else WorkerRun(answers, requeues, driver, turn + 1, frames + 1)
  }

  lemma WorkerStops(answers: seq<Answer>, requeues: seq<bool>, driver: set<nat>, taken: seq<nat>, rest: seq<nat>)
    requires Dequeued(answers, 0, driver) == taken + rest
    requires NoneRefused(requeues, |taken|) && (rest == [] || Refused(requeues, |taken|))
    ensures Taken(Dequeued(answers, 0, driver), requeues) == taken
  {
    TakenIs(taken + rest, requeues, |taken|);
  }

  lemma {:induction false} WorkerRunIs(answers: seq<Answer>, requeues: seq<bool>, driver: set<nat>,
                                       turn: nat, taken: seq<nat>)
    requires turn <= |answers| && Underway(answers, requeues, driver, taken, turn)
    ensures var all := Taken(Dequeued(answers, 0, driver), requeues);
            WorkerRun(answers, requeues, driver, turn, |taken|) == (|all|, Left(driver, all, requeues))
    decreases |answers| - turn
  {
    if turn == |answers| {
      UnderwayAtEnd(answers, requeues, driver, taken);
      WorkerStops(answers, requeues, driver, taken, []);
    } else {
      var a := answers[turn];
      UnderwayNext(answers, requeues, driver, taken, turn);
      if a.Broken? {
        WorkerStops(answers, requeues, driver, taken, []);
      } else if a.NotYet? || a.index !in driver {
        WorkerRunIs(answers, requeues, driver, turn + 1, taken);
      } else if Refused(requeues, |taken| + 1) {
        WorkerStops(answers, requeues, driver, taken + [a.index], Dequeued(answers, turn + 1, driver));
      } else {
        WorkerRunIs(answers, requeues, driver, turn + 1, taken + [a.index]);
      }
    }
  }

  class CaptureBuffers {
    const count: nat
    var streaming: bool
    var driver: set<nat>
    var held: set<nat>

    ghost predicate Valid()
      reads this
    {
      Partition(driver, held, count)
    }

    /** After mapping: the application has every buffer. */
    constructor (count: nat)
      ensures Valid() && this.count == count && !streaming && driver == {}
    {
      this.count := count;
      streaming, driver := false, {};
      held := Below(count);
    }

    /** camera_queue: VIDIOC_QBUF, which the driver may refuse, and does for a buffer it has already. */
    method Queue(index: nat, accepted: bool) returns (ok: bool)
      requires Valid()
      modifies this`driver, this`held
      ensures Valid() && (ok <==> index in old(held) && accepted)
      ensures driver == (if ok then old(driver) + {index} else old(driver))
      ensures held == (if ok then old(held) - {index} else old(held))
    {
      if index >= count || index !in held || !accepted {
        return false;
      }
      driver, held := driver + {index}, held - {index};
      return true;
    }

    /** camera_queue_all on freshly mapped buffers; `accepted` is how many QBUF calls succeed before
        one is refused. */
    method QueueAll(accepted: nat) returns (ok: bool)
      requires Valid() && driver == {}
      modifies this`driver, this`held
      ensures Valid() && (ok <==> accepted >= count)
      ensures driver == Below(Min(count, accepted))
    {
      for i := 0 to count
        invariant i <= accepted && Valid()
        invariant driver == Below(i)
      {
        assert i in Below(count) && i !in Below(i);
        var queued := Queue(i, i < accepted);
        if !queued {
          assert Min(count, accepted) == i;
          return false;
        }
        assert Below(i + 1) == Below(i) + {i};
      }
      return true;
    }

    /** camera_start: queue all of them, then STREAMON. */
    method Start(accepted: nat, streamOn: bool) returns (ok: bool)
      requires Valid() && driver == {} && !streaming
      modifies this
      ensures Valid() && streaming == ok && (ok <==> accepted >= count && streamOn)
      ensures driver == Below(Min(count, accepted)) && (ok ==> held == {})
    {
      ok := QueueAll(accepted);
      if !ok || !streamOn {
        return false;
      }
      streaming := true;
    }

    /** camera_dequeue. The driver only ever returns a buffer it owns. */
    method Dequeue(answer: Answer) returns (r: DequeueResult)
      requires Valid()
      modifies this`driver, this`held
      ensures Valid()
      ensures r == if !streaming || answer.Broken? then Error
                   else if answer.Filled? && answer.index in old(driver) then Got(answer.index)
                   else Nothing
      ensures if r.Got? then driver == old(driver) - {r.index} && held == old(held) + {r.index}
              else driver == old(driver) && held == old(held)
    {
      if !streaming || answer.Broken? {
        return Error;
      }
      if answer.NotYet? || answer.index !in driver {
        return Nothing;
      }
      driver, held := driver - {answer.index}, held + {answer.index};
      return Got(answer.index);
    }

    /** One turn of a capture loop: camera_dequeue and, once the frame has been looked at,
        camera_queue for the same buffer. */
    method DequeueAndRequeue(answer: Answer, accepted: bool) returns (got: DequeueResult)
      requires Valid()
      modifies this`driver, this`held
      ensures Valid()
      ensures got == if !streaming || answer.Broken? then Error
                     else if answer.Filled? && answer.index in old(driver) then Got(answer.index)
                     else Nothing
      ensures driver == if got.Got? && !accepted then old(driver) - {got.index} else old(driver)
    {
      got := Dequeue(answer);
      if got.Got? {
        TakenAndReturned(old(driver), old(held), got.index);
        var _ := Queue(got.index, accepted);
      }
    }

    /** camera_capture_one; `StillWaiting` means the answers ran out in the while (1). taken lists the
        buffers dequeued, in order. */
    method CaptureOne(c: Capture) returns (r: CaptureResult, ghost taken: seq<nat>)
      requires Valid()
      modifies this`driver, this`held
      ensures Valid()
      ensures if streaming then (r, taken, driver) == CaptureRun(c, old(driver), 0, [])
              else r == Failed && taken == [] && driver == old(driver)
    {
      taken := [];
      if !streaming {
        return Failed, taken;
      }
      var seen, turn := 0, 0;
      ghost var before, whole := driver, CaptureRun(c, driver, 0, []);
      while turn < |c.answers|
        invariant turn <= |c.answers| && Valid() && streaming && driver == before
        invariant seen == |taken| <= c.skip
        invariant CaptureRun(c, before, turn, taken) == whole
      {
        var end;
        end, seen, taken := TakeTurn(c, c.answers[turn], seen, taken);
        turn := turn + 1;
        if end.Some? {
          return end.value, taken;
        }
      }
      return StillWaiting, taken;
    }

    /** One turn of camera_capture_one; None means that it goes on. */
    method TakeTurn(c: Capture, a: Answer, seen: nat, ghost taken: seq<nat>)
      returns (end: Option<CaptureResult>, seen1: nat, ghost taken1: seq<nat>)
      requires Valid() && streaming && seen == |taken| <= c.skip
      modifies this`driver, this`held
      ensures Valid() && seen1 == |taken1|
      ensures match CaptureTurn(c, old(driver), a, taken)
              case GoesOn(more) => end == None && taken1 == more && driver == old(driver)
              case Ends(r, all, left) => end == Some(r) && taken1 == all && driver == left
    {
      end, seen1, taken1 := None, seen, taken;
      // the last frame is saved before its buffer is given back, the ones before it are not
      var got := DequeueAndRequeue(a, !Refused(c.requeues, seen + 1));
      if got.Error? {
        end := Some(Failed);
      } else if got.Got? {
        seen1, taken1 := seen + 1, taken + [got.index];
        if Refused(c.requeues, seen1) {
          end := Some(Failed);
        } else if seen1 > c.skip {
          end := Some(if c.saveOk then Saved(got.index) else Failed);
        }
      }
    }

    /** The worker's loop in monitor_thread_main, from the buffers' point of view, until it is told to
        stop, which is where the answers end, a dequeue fails or a requeue is refused. */
    method WorkerLoop(answers: seq<Answer>, requeues: seq<bool>) returns (frames: nat)
      requires Valid()
      modifies this`driver, this`held
      ensures Valid()
      ensures if streaming then (frames, driver) == WorkerRun(answers, requeues, old(driver), 0, 0)
              else frames == 0 && driver == old(driver)
    {
      frames := 0;
      var turn := 0;
      ghost var before, whole := driver, WorkerRun(answers, requeues, driver, 0, 0);
      while turn < |answers|
        invariant turn <= |answers| && Valid() && driver == before && (!streaming ==> frames == 0)
        invariant streaming ==> WorkerRun(answers, requeues, before, turn, frames) == whole
      {
        var got := DequeueAndRequeue(answers[turn], !Refused(requeues, frames + 1));
        turn := turn + 1;
        if got.Error? {
          return;
        }
        if got.Got? {
          frames := frames + 1;
          if Refused(requeues, frames) {
            return;
          }
        }
      }
    }
  }

  lemma TakenAndReturned(driver: set<nat>, held: set<nat>, i: nat)
    requires i in driver && i !in held
    ensures (driver - {i}) + {i} == driver && (held + {i}) - {i} == held
  {
  }

  // ---------------------------------------------------------------- what captures mean

  /** A capture succeeds exactly if skip + 1 buffers come before any failure, all are taken back, and
      the last one, which is the one saved, can be saved. Then no buffer is lost. */
  lemma CaptureSucceedsIff(streaming: bool, driver: set<nat>, c: Capture)
    ensures var (r, left) := Captured(streaming, driver, c);
            var offered := Dequeued(c.answers, 0, driver);
            && (r.Saved? <==> streaming && c.saveOk && |offered| > c.skip
                              && NoneRefused(c.requeues, c.skip + 2))
            && (r.Saved? ==> r.index == offered[c.skip] && |TakenBy(c, driver)| == c.skip + 1 && left == driver)
  {
    CaptureAsAWhole(c, driver);
    var offered := Dequeued(c.answers, 0, driver);
    if |offered| > c.skip && NoneRefused(c.requeues, c.skip + 2) {
      TakenIs(offered[..c.skip + 1], c.requeues, c.skip + 1);
    }
  }

  lemma {:induction false} DequeuedFromDriver(answers: seq<Answer>, turn: nat, driver: set<nat>)
    requires turn <= |answers|
    ensures forall i :: i in Dequeued(answers, turn, driver) ==> i in driver
    decreases |answers| - turn
  {
    if turn == |answers| {
    } else {
      DequeuedFromDriver(answers, turn + 1, driver);
    }
  }

  /** Which buffers are offered, answer by answer: the one a filled answer names, if the driver owns
      it, goes before those of the later answers; a failure ends them; anything else adds none. */
  lemma OfferedByTheAnswers(answers: seq<Answer>, turn: nat, driver: set<nat>)
    requires turn < |answers|
    ensures var rest := Dequeued(answers, turn + 1, driver);
            match answers[turn]
            case Filled(i) => Dequeued(answers, turn, driver) == (if i in driver then [i] else []) + rest
            case Broken => Dequeued(answers, turn, driver) == []
            case NotYet => Dequeued(answers, turn, driver) == rest
  {
    assert [] + Dequeued(answers, turn + 1, driver) == Dequeued(answers, turn + 1, driver);
  }

  /** The capture ends on a refused requeue. */
  predicate EndsRefused(streaming: bool, driver: set<nat>, c: Capture) {
    streaming && Refused(c.requeues, |TakenBy(c, driver)|)
  }

  function AfterCaptures(streaming: bool, driver: set<nat>, captures: seq<Capture>): set<nat>
    decreases |captures|
  {
    if captures == [] then driver
    else AfterCaptures(streaming, Captured(streaming, driver, captures[0]).1, captures[1..])
  }

  function Refusals(streaming: bool, driver: set<nat>, captures: seq<Capture>): nat
    decreases |captures|
  {
    if captures == [] then 0
    else (if EndsRefused(streaming, driver, captures[0]) then 1 else 0)
         + Refusals(streaming, Captured(streaming, driver, captures[0]).1, captures[1..])
  }

  /** Whatever is taken from what the driver offers, at most one buffer is not back: one whose return
      was refused. */
  lemma AtMostOneLeftOut(driver: set<nat>, offered: seq<nat>, requeues: seq<bool>)
    requires forall i :: i in offered ==> i in driver
    ensures var taken := Taken(offered, requeues);
            var left := Left(driver, taken, requeues);
            left <= driver && |left| == |driver| - if Refused(requeues, |taken|) then 1 else 0
  {
    var taken := Taken(offered, requeues);
    if Refused(requeues, |taken|) {
      assert LastOf(taken) in offered;
    }
  }

  /** The worker looks at every buffer offered up to the first refused return, and leaves with one
      buffer missing exactly after a refusal; then it looked at no further one. */
  lemma WorkerHoldsOneIffRefused(answers: seq<Answer>, requeues: seq<bool>, driver: set<nat>)
    ensures var (frames, left) := WorkerRun(answers, requeues, driver, 0, 0);
            && frames == |Taken(Dequeued(answers, 0, driver), requeues)| && NoneRefused(requeues, frames)
            && left <= driver && |driver - left| == if Refused(requeues, frames) then 1 else 0
  {
    UnderwayAtStart(answers, requeues, driver);
    WorkerRunIs(answers, requeues, driver, 0, []);
    DequeuedFromDriver(answers, 0, driver);
    AtMostOneLeftOut(driver, Dequeued(answers, 0, driver), requeues);
  }

  lemma CaptureLosesAtMostOne(streaming: bool, driver: set<nat>, c: Capture)
    ensures var left := Captured(streaming, driver, c).1;
            left <= driver && |left| == |driver| - if EndsRefused(streaming, driver, c) then 1 else 0
  {
    CaptureAsAWhole(c, driver);
    DequeuedFromDriver(c.answers, 0, driver);
    var offered := Dequeued(c.answers, 0, driver);
    AtMostOneLeftOut(driver, offered[..Min(|offered|, c.skip + 1)], c.requeues);
  }

  /** Over any series of captures in trigger mode the driver loses one buffer for good per refused
      requeue, and none otherwise; so there are at most as many refusals as buffers. */
  lemma {:induction false} EachRefusalCostsABuffer(streaming: bool, driver: set<nat>, captures: seq<Capture>)
    ensures var left := AfterCaptures(streaming, driver, captures);
            left <= driver && |left| == |driver| - Refusals(streaming, driver, captures)
    decreases |captures|
  {
    if captures == [] {
    } else {
      CaptureLosesAtMostOne(streaming, driver, captures[0]);
      EachRefusalCostsABuffer(streaming, Captured(streaming, driver, captures[0]).1, captures[1..]);
    }
  }

  /** Nothing goes wrong for the first skip + 1 dequeues: each returns a buffer of the driver's, and
      all are taken back. */
  ghost predicate Undisturbed(c: Capture, driver: set<nat>) {
    && |c.answers| > c.skip && c.saveOk
    && (forall k :: 0 <= k <= c.skip ==> c.answers[k].Filled? && c.answers[k].index in driver)
    && (forall k :: 0 <= k < |c.requeues| ==> c.requeues[k])
  }

  lemma {:induction false} UndisturbedRun(c: Capture, driver: set<nat>, taken: seq<nat>)
    requires Undisturbed(c, driver) && |taken| <= c.skip
    ensures CaptureRun(c, driver, |taken|, taken).0 == Saved(c.answers[c.skip].index)
    ensures CaptureRun(c, driver, |taken|, taken).2 == driver
    decreases c.skip - |taken|
  {
    var more := taken + [c.answers[|taken|].index];
    if |more| <= c.skip {
      UndisturbedRun(c, driver, more);
    }
  }

  /** Then the capture saves the frame that comes after the skipped ones, and loses nothing. */
  lemma UndisturbedCaptureSaves(driver: set<nat>, c: Capture)
    requires Undisturbed(c, driver)
    ensures Captured(true, driver, c) == (Saved(c.answers[c.skip].index), driver)
  {
    UndisturbedRun(c, driver, []);
  }

  /** With no buffer left no capture succeeds. */
  lemma NoBufferNoCapture(streaming: bool, c: Capture)
    ensures !Captured(streaming, {}, c).0.Saved?
  {
    CaptureSucceedsIff(streaming, {}, c);
    DequeuedFromDriver(c.answers, 0, {});
    var offered := Dequeued(c.answers, 0, {});
    assert forall k :: 0 <= k < |offered| ==> offered[k] in offered;
  }
}
