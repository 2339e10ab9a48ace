/** Where the three planes of the I420 buffer lie (main.c), for every 32-bit width and height. */
module FrameLayout {
  import opened Common

  /** The size the worker allocates. */
  function BufferSize(w: nat, h: nat): nat {
    w * h * 3 / 2
  }

  function ChromaSize(w: nat, h: nat): nat {
    (w / 2) * (h / 2)
  }

  /** The offsets are uint32_t products, so they wrap. */
  function UOffset(w: nat, h: nat): nat {
    (w * h) % TWO_TO_THE_32
  }

  function VOffset(w: nat, h: nat): nat {
    UOffset(w, h) + UOffset(w, h) / 4
  }

  predicate NoWrap(w: nat, h: nat) {
    w * h < TWO_TO_THE_32
  }

  predicate InLuma(w: nat, h: nat, k: int) {
    0 <= k < w * h
  }

  predicate InU(w: nat, h: nat, k: int) {
    UOffset(w, h) <= k < UOffset(w, h) + ChromaSize(w, h)
  }

  predicate InV(w: nat, h: nat, k: int) {
    VOffset(w, h) <= k < VOffset(w, h) + ChromaSize(w, h)
  }

  /** w * h spelled out by halves. */
  lemma ByHalves(w: nat, h: nat)
    ensures w * h == 4 * ChromaSize(w, h) + 2 * (w / 2) * (h % 2) + 2 * (h / 2) * (w % 2) + (w % 2) * (h % 2)
  {
    var a, b := w / 2, h / 2;
    assert w == 2 * a + w % 2 && h == 2 * b + h % 2;
    assert w * h == (2 * a + w % 2) * (2 * b + h % 2);
  }

  lemma ChromaIsAtMostQuarter(w: nat, h: nat)
    ensures 4 * ChromaSize(w, h) <= w * h
    ensures w % 2 == 0 && h % 2 == 0 ==> 4 * ChromaSize(w, h) == w * h
  {
    ByHalves(w, h);
    assert 0 <= (w / 2) * (h % 2) && 0 <= (h / 2) * (w % 2) && 0 <= (w % 2) * (h % 2);
  }

  /** Every write of the conversion lies inside the buffer, even where the offsets wrap. */
  lemma PlanesInBounds(w: U32, h: U32)
    ensures w * h <= BufferSize(w, h)
    ensures UOffset(w, h) + ChromaSize(w, h) <= BufferSize(w, h)
    ensures VOffset(w, h) + ChromaSize(w, h) <= BufferSize(w, h)
  {
    ChromaIsAtMostQuarter(w, h);
    assert UOffset(w, h) <= w * h;
  }

  ghost predicate PlanesDisjoint(w: nat, h: nat) {
    forall k :: && !(InLuma(w, h, k) && InU(w, h, k))
                && !(InLuma(w, h, k) && InV(w, h, k))
                && !(InU(w, h, k) && InV(w, h, k))
  }

  /** A product that wraps has two factors of at least two, so there is chroma. */
  lemma WrapMeansChroma(w: U32, h: U32)
    requires !NoWrap(w, h)
    ensures ChromaSize(w, h) >= 1
  {
    assert w >= 2 && h >= 2 by {
      assert w <= 1 ==> w * h <= h;
      assert h <= 1 ==> w * h <= w;
    }
    assert (w / 2) * (h / 2) >= 1 * 1;
  }

  /** The three planes are disjoint exactly when the product does not wrap. */
  lemma PlanesDisjointIff(w: U32, h: U32)
    ensures PlanesDisjoint(w, h) <==> NoWrap(w, h)
  {
    ChromaIsAtMostQuarter(w, h);
    if !NoWrap(w, h) {
      WrapMeansChroma(w, h);
      assert InLuma(w, h, UOffset(w, h)) && InU(w, h, UOffset(w, h));
    }
  }

  /** Every byte of the buffer is written exactly once. */
  ghost predicate CoversExactly(w: nat, h: nat) {
    PlanesDisjoint(w, h) && forall k :: 0 <= k < BufferSize(w, h) ==> InLuma(w, h, k) || InU(w, h, k) || InV(w, h, k)
  }

  lemma UnwrappedOffsets(w: nat, h: nat)
    requires NoWrap(w, h)
    ensures UOffset(w, h) == w * h && VOffset(w, h) == w * h + w * h / 4
  {
  }

  lemma QuartersCover(w: nat, h: nat)
    requires NoWrap(w, h) && PlanesDisjoint(w, h) && (4 * ChromaSize(w, h) == w * h || w * h <= 1)
    ensures CoversExactly(w, h)
  {
    UnwrappedOffsets(w, h);
  }

  /** The first byte no plane covers, when twice the chroma is less than half the luma. */
  function FirstGap(luma: nat, chroma: nat): (k: nat)
    requires 2 * chroma < luma / 2
    ensures luma + chroma <= k < luma * 3 / 2
    ensures !(luma + luma / 4 <= k < luma + luma / 4 + chroma)
  {
    if chroma < luma / 4 then luma + chroma else luma + 2 * chroma
  }

  lemma SlackLeavesGap(w: nat, h: nat)
    requires NoWrap(w, h) && 2 * ChromaSize(w, h) < (w * h) / 2
    ensures !CoversExactly(w, h)
  {
    var k := FirstGap(w * h, ChromaSize(w, h));
    UnwrappedOffsets(w, h);
    assert 0 <= k < BufferSize(w, h);
    assert !InLuma(w, h, k);
    assert !InU(w, h, k);
    assert !InV(w, h, k);
  }

  /** That is so exactly when nothing wraps and width and height are even or the frame has at most
      one pixel; every other odd size leaves unwritten bytes in the buffer. */
  lemma CoversExactlyIff(w: U32, h: U32)
    ensures CoversExactly(w, h) <==> NoWrap(w, h) && ((w % 2 == 0 && h % 2 == 0) || w * h <= 1)
  {
    PlanesDisjointIff(w, h);
    if !NoWrap(w, h) {
    } else if (w % 2 == 0 && h % 2 == 0) || w * h <= 1 {
      ChromaIsAtMostQuarter(w, h);
      QuartersCover(w, h);
    } else {
      OddSizeHasSlack(w, h);
      SlackLeavesGap(w, h);
    }
  }

  lemma OddSizeHasSlack(w: nat, h: nat)
    requires w * h >= 2 && (w % 2 == 1 || h % 2 == 1)
    ensures 2 * ChromaSize(w, h) < (w * h) / 2
  {
    ByHalves(w, h);
    assert w >= 1 && h >= 1;
    assert w % 2 == 1 ==> 2 * (h / 2) * (w % 2) == 2 * (h / 2);
    assert h % 2 == 1 ==> 2 * (w / 2) * (h % 2) == 2 * (w / 2);
    if w % 2 == 1 && h % 2 == 1 {
      assert w / 2 >= 1 || h / 2 >= 1;
    }
  }
}
