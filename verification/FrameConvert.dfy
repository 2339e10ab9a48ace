/** The worker's NV12 to I420 conversion (main.c): strided source planes, one or two of them, into
    one contiguous buffer. */
module FrameConvert {
  import opened Common
  import opened FrameLayout

  datatype PixFmt = NV12 | OtherFmt

  /** The camera's format as the driver reported it; a zero bytesperline means "the width". */
  datatype Format = Format(width: U32, height: U32, pixfmt: PixFmt, bytesPerLine0: U32, bytesPerLine1: U32)

  /** A dequeued frame: the mapped bytes of its planes. */
  datatype Source = Source(numPlanes: nat, plane0: seq<Byte>, plane1: seq<Byte>)

  /** Rows of samples lying `stride` bytes apart in a source plane; a sample of a paired grid is a
      (U, V) pair of bytes, of any other grid one byte. */
  datatype Grid = Grid(bytes: seq<Byte>, base: nat, stride: nat, width: nat, rows: nat, paired: bool)

  function YStride(f: Format): nat {
    if f.bytesPerLine0 != 0 then f.bytesPerLine0 else f.width
  }

  function LumaGrid(f: Format, s: Source): Grid {
    Grid(s.plane0, 0, YStride(f), f.width, f.height, false)
  }

  /** In plane 1 if there is one, else behind the luma rows of plane 0 and with their stride. */
  function ChromaGrid(f: Format, s: Source): Grid {
    if s.numPlanes >= 2
    then Grid(s.plane1, 0, if f.bytesPerLine1 != 0 then f.bytesPerLine1 else f.width, f.width / 2, f.height / 2, true)
    else Grid(s.plane0, YStride(f) * f.height, YStride(f), f.width / 2, f.height / 2, true)
  }

  /** Bytes in one row of samples. */
  function Span(g: Grid): nat {
    if g.paired then 2 * g.width else g.width
  }

  function RowStart(g: Grid, y: nat): nat {
    g.base + y * g.stride
  }

  predicate RowFits(g: Grid, y: nat) {
    y < g.rows ==> RowStart(g, y) + Span(g) <= |g.bytes|
  }

  ghost predicate GridFits(g: Grid) {
    forall y: nat :: RowFits(g, y)
  }

  /** Every row the conversion reads is inside its plane. The code relies on the driver for this. */
  ghost predicate Readable(f: Format, s: Source) {
    GridFits(LumaGrid(f, s)) && GridFits(ChromaGrid(f, s))
  }

  // ---------------------------------------------------------------- rows

  /** The offset of row y in a plane without padding. */
  function Row(y: nat, width: nat): nat {
    y * width
  }

  lemma RowsInOrder(y: nat, z: nat, width: nat)
    requires y < z
    ensures Row(y, width) + width == Row(y + 1, width) <= Row(z, width)
  {
    assert (y + 1) * width <= z * width;
  }

  /** n bytes of d from `to` on are those of src from `from` on, or every second one of them. */
  ghost predicate RowCopied(src: seq<Byte>, from: nat, d: seq<Byte>, to: nat, n: nat, everySecond: bool) {
    && from + (if everySecond then 2 * n - 1 else n) <= |src| && to + n <= |d|
    && forall k :: to <= k < to + n ==> d[k] == src[if everySecond then from + 2 * (k - to) else from + (k - to)]
  }

  /** Only the n bytes from u on and the n bytes from v on may differ. */
  ghost predicate Unchanged(before: seq<Byte>, d: seq<Byte>, u: nat, v: nat, n: nat) {
    && |d| == |before|
    && forall k :: 0 <= k < |d| && !(u <= k < u + n) && !(v <= k < v + n) ==> d[k] == before[k]
  }

  lemma UnchangedWiden(a: seq<Byte>, b: seq<Byte>, c: seq<Byte>, u: nat, v: nat, n: nat, at: nat, m: nat)
    requires Unchanged(a, b, u, v, n) && Unchanged(b, c, u + at, v + at, m) && at + m <= n
    ensures Unchanged(a, c, u, v, n)
  {
  }

  /** A row clear of both changed stretches stays copied. */
  lemma RowKept(src: seq<Byte>, from: nat, d: seq<Byte>, e: seq<Byte>, to: nat, n: nat, everySecond: bool,
                u: nat, v: nat, m: nat)
    requires RowCopied(src, from, d, to, n, everySecond) && Unchanged(d, e, u, v, m)
    requires (to + n <= u || u + m <= to) && (to + n <= v || v + m <= to)
    ensures RowCopied(src, from, e, to, n, everySecond)
  {
  }

  /** memcpy of n bytes. */
  method CopyRow(src: seq<Byte>, from: nat, dst: array<Byte>, to: nat, n: nat)
    requires from + n <= |src| && to + n <= dst.Length
    modifies dst
    ensures RowCopied(src, from, dst[..], to, n, false)
    ensures Unchanged(old(dst[..]), dst[..], to, to, n)
  {
    forall k | to <= k < to + n {
      dst[k] := src[from + (k - to)];
    }
  }

  /** The inner chroma loop: n interleaved pairs to one row of each chroma plane. */
  method SplitRow(src: seq<Byte>, from: nat, dst: array<Byte>, u: nat, v: nat, n: nat)
    requires from + 2 * n <= |src| && u <= v && v + n <= dst.Length
    modifies dst
    ensures Unchanged(old(dst[..]), dst[..], u, v, n)
    ensures u + n <= v && n > 0 ==> RowCopied(src, from, dst[..], u, n, true)
                                    && RowCopied(src, from + 1, dst[..], v, n, true)
  {
    var x := 0;
    while x < n
      invariant 0 <= x <= n
      invariant u + n <= v ==> forall k :: u <= k < u + x ==> dst[k] == src[from + 2 * (k - u)]
      invariant u + n <= v ==> forall k :: v <= k < v + x ==> dst[k] == src[from + 1 + 2 * (k - v)]
      invariant Unchanged(old(dst[..]), dst[..], u, v, n)
    {
      dst[u + x] := src[from + x * 2];
      dst[v + x] := src[from + x * 2 + 1];
      x := x + 1;
    }
  }

  // ---------------------------------------------------------------- the two loop nests

  ghost predicate LumaRowDone(g: Grid, d: seq<Byte>, y: nat) {
    RowCopied(g.bytes, RowStart(g, y), d, Row(y, g.width), g.width, false)
  }

  /** U takes the first byte of every pair of row y, V the second. */
  ghost predicate ChromaRowDone(g: Grid, d: seq<Byte>, u: nat, v: nat, y: nat) {
    g.width > 0 ==>
      && RowCopied(g.bytes, RowStart(g, y), d, u + Row(y, g.width), g.width, true)
      && RowCopied(g.bytes, RowStart(g, y) + 1, d, v + Row(y, g.width), g.width, true)
  }

  ghost predicate LumaDone(g: Grid, d: seq<Byte>, n: nat) {
    forall y: nat :: y < n ==> LumaRowDone(g, d, y)
  }

  ghost predicate ChromaDone(g: Grid, d: seq<Byte>, u: nat, v: nat, n: nat) {
    forall y: nat :: y < n ==> ChromaRowDone(g, d, u, v, y)
  }

  /** Finished luma rows survive writes that begin behind them. */
  lemma LumaRowsKept(g: Grid, d: seq<Byte>, e: seq<Byte>, n: nat, u: nat, v: nat, m: nat)
    requires LumaDone(g, d, n) && Unchanged(d, e, u, v, m) && Row(n, g.width) <= u <= v
    ensures LumaDone(g, e, n)
  {
    forall y: nat | y < n
      ensures LumaRowDone(g, e, y)
    {
      assert LumaRowDone(g, d, y);
      RowsInOrder(y, n, g.width);
      RowKept(g.bytes, RowStart(g, y), d, e, Row(y, g.width), g.width, false, u, v, m);
    }
  }

  method CopyLuma(g: Grid, dst: array<Byte>)
    requires GridFits(g) && !g.paired && Row(g.rows, g.width) <= dst.Length
    modifies dst
    ensures LumaDone(g, dst[..], g.rows)
    ensures Unchanged(old(dst[..]), dst[..], 0, 0, Row(g.rows, g.width))
  {
    var y := 0;
    while y < g.rows
      invariant y <= g.rows && Row(y, g.width) <= Row(g.rows, g.width)
      invariant LumaDone(g, dst[..], y)
      invariant Unchanged(old(dst[..]), dst[..], 0, 0, Row(g.rows, g.width))
    {
      RowsInOrder(y, g.rows, g.width);
      assert RowFits(g, y);
      ghost var d := dst[..];
      CopyRow(g.bytes, RowStart(g, y), dst, Row(y, g.width), g.width);
      LumaRowsKept(g, d, dst[..], y, Row(y, g.width), Row(y, g.width), g.width);
      UnchangedWiden(old(dst[..]), d, dst[..], 0, 0, Row(g.rows, g.width), Row(y, g.width), g.width);
      y := y + 1;
    }
  }

  /** Finished chroma rows survive the writing of row n, when the two planes do not overlap. */
  lemma ChromaRowsKept(g: Grid, d: seq<Byte>, e: seq<Byte>, u: nat, v: nat, n: nat)
    requires n < g.rows && ChromaDone(g, d, u, v, n)
    requires Unchanged(d, e, u + Row(n, g.width), v + Row(n, g.width), g.width)
    requires u + Row(g.rows, g.width) <= v
    ensures ChromaDone(g, e, u, v, n)
  {
    RowsInOrder(n, g.rows, g.width);
    forall y: nat | y < n
      ensures ChromaRowDone(g, e, u, v, y)
    {
      assert ChromaRowDone(g, d, u, v, y);
      RowsInOrder(y, n, g.width);
      ChromaRowKept(g, d, e, u, v, y, Row(y, g.width), Row(n, g.width));
    }
  }

  lemma ChromaRowKept(g: Grid, d: seq<Byte>, e: seq<Byte>, u: nat, v: nat, y: nat, at: nat, changed: nat)
    requires ChromaRowDone(g, d, u, v, y) && at == Row(y, g.width) && at + g.width <= changed
    requires Unchanged(d, e, u + changed, v + changed, g.width) && u + changed + g.width <= v
    ensures ChromaRowDone(g, e, u, v, y)
  {
    if g.width > 0 {
      RowKept(g.bytes, RowStart(g, y), d, e, u + at, g.width, true, u + changed, v + changed, g.width);
      RowKept(g.bytes, RowStart(g, y) + 1, d, e, v + at, g.width, true, u + changed, v + changed, g.width);
    }
  }

  /** The de-interleaving loop nest. Its writes stay in the two chroma stretches for any offsets;
      the rows are right when the stretches do not overlap. */
  method CopyChroma(g: Grid, dst: array<Byte>, u: nat, v: nat)
    requires GridFits(g) && g.paired && u <= v && v + Row(g.rows, g.width) <= dst.Length
    modifies dst
    ensures u + Row(g.rows, g.width) <= v ==> ChromaDone(g, dst[..], u, v, g.rows)
    ensures Unchanged(old(dst[..]), dst[..], u, v, Row(g.rows, g.width))
  {
    var y := 0;
    while y < g.rows
      invariant y <= g.rows && Row(y, g.width) <= Row(g.rows, g.width)
      invariant u + Row(g.rows, g.width) <= v ==> ChromaDone(g, dst[..], u, v, y)
      invariant Unchanged(old(dst[..]), dst[..], u, v, Row(g.rows, g.width))
    {
      RowsInOrder(y, g.rows, g.width);
      assert RowFits(g, y);
      ghost var d := dst[..];
      SplitRow(g.bytes, RowStart(g, y), dst, u + Row(y, g.width), v + Row(y, g.width), g.width);
      if u + Row(g.rows, g.width) <= v {
        ChromaRowsKept(g, d, dst[..], u, v, y);
      }
      UnchangedWiden(old(dst[..]), d, dst[..], u, v, Row(g.rows, g.width), Row(y, g.width), g.width);
      y := y + 1;
    }
  }

  // ---------------------------------------------------------------- the conversion

  predicate InNoPlane(f: Format, k: nat) {
    !InLuma(f.width, f.height, k) && !InU(f.width, f.height, k) && !InV(f.width, f.height, k)
  }

  /** All rows of all three planes are in place, and every byte outside the planes is as it was. */
  ghost predicate Converted(f: Format, s: Source, before: seq<Byte>, d: seq<Byte>) {
    && |d| == |before|
    && LumaDone(LumaGrid(f, s), d, f.height)
    && ChromaDone(ChromaGrid(f, s), d, UOffset(f.width, f.height), VOffset(f.width, f.height), f.height / 2)
    && (forall k :: 0 <= k < |d| && InNoPlane(f, k) ==> d[k] == before[k])
  }

  // ---------------------------------------------------------------- byte for byte

  /** The luma byte of pixel (x, y): packed at the width in the result, strided in plane 0. */
  predicate LumaSample(f: Format, s: Source, d: seq<Byte>, x: nat, y: nat) {
    x < f.width && y < f.height ==>
      var ys := if f.bytesPerLine0 != 0 then f.bytesPerLine0 else f.width;
      && 0 <= y * ys + x < |s.plane0| && 0 <= y * f.width + x < |d|
      && d[y * f.width + x] == s.plane0[y * ys + x]
  }

  /** Where the (U, V) pair of chroma sample (x, y) starts: in plane 1 of two, or in plane 0 behind
      `height` luma rows. */
  function PairAt(f: Format, s: Source, x: nat, y: nat): int {
    var ys := if f.bytesPerLine0 != 0 then f.bytesPerLine0 else f.width;
    var us := if f.bytesPerLine1 != 0 then f.bytesPerLine1 else f.width;
    if s.numPlanes < 2 then ys * f.height + y * ys + 2 * x else y * us + 2 * x
  }

  /** The chroma bytes of sample (x, y): one quarter of the size of the luma plane apart. */
  predicate ChromaSample(f: Format, s: Source, d: seq<Byte>, x: nat, y: nat) {
    x < f.width / 2 && y < f.height / 2 ==>
      var plane, pair := if s.numPlanes < 2 then s.plane0 else s.plane1, PairAt(f, s, x, y);
      var luma, at := f.width * f.height, y * (f.width / 2) + x;
      && 0 <= pair < |plane| - 1 && 0 <= luma + at < |d| && 0 <= luma + luma / 4 + at < |d|
      && d[luma + at] == plane[pair] && d[luma + luma / 4 + at] == plane[pair + 1]
  }

  lemma ConvertedLuma(f: Format, s: Source, before: seq<Byte>, d: seq<Byte>, x: nat, y: nat)
    requires Converted(f, s, before, d)
    ensures LumaSample(f, s, d, x, y)
  {
    if x < f.width && y < f.height {
      assert LumaRowDone(LumaGrid(f, s), d, y);
    }
  }

  lemma ConvertedChroma(f: Format, s: Source, before: seq<Byte>, d: seq<Byte>, x: nat, y: nat)
    ensures Converted(f, s, before, d) && NoWrap(f.width, f.height) ==> ChromaSample(f, s, d, x, y)
  {
    if Converted(f, s, before, d) && NoWrap(f.width, f.height) && x < f.width / 2 && y < f.height / 2 {
      UnwrappedOffsets(f.width, f.height);
      assert ChromaRowDone(ChromaGrid(f, s), d, UOffset(f.width, f.height), VOffset(f.width, f.height), y);
    }
  }

  /** What the conversion needs of the planes: room for every strided row it reads. */
  lemma ReadableIff(f: Format, s: Source)
    ensures Readable(f, s) <==>
            && (forall y: nat :: LumaRowRoom(f, s, y))
            && (forall y: nat :: ChromaRowRoom(f, s, y))
  {
    forall y: nat
      ensures RowFits(LumaGrid(f, s), y) == LumaRowRoom(f, s, y)
      ensures RowFits(ChromaGrid(f, s), y) == ChromaRowRoom(f, s, y)
    {
    }
  }

  predicate LumaRowRoom(f: Format, s: Source, y: nat) {
    var ys := if f.bytesPerLine0 != 0 then f.bytesPerLine0 else f.width;
    y < f.height ==> y * ys + f.width <= |s.plane0|
  }

  predicate ChromaRowRoom(f: Format, s: Source, y: nat) {
    y < f.height / 2 ==>
      PairAt(f, s, 0, y) + 2 * (f.width / 2) <= |if s.numPlanes < 2 then s.plane0 else s.plane1|
  }

  lemma RowIsProduct(h: nat, w: nat)
    ensures Row(h, w) == w * h
  {
  }

  lemma ChromaFitsQuarter(w: nat, h: nat)
    requires NoWrap(w, h)
    ensures UOffset(w, h) == w * h && UOffset(w, h) + ChromaSize(w, h) <= VOffset(w, h)
  {
    UnwrappedOffsets(w, h);
    ChromaIsAtMostQuarter(w, h);
  }

  /** The plane bounds, in terms of rows. */
  lemma RowBounds(w: U32, h: U32)
    ensures Row(h, w) == w * h <= BufferSize(w, h) && Row(h / 2, w / 2) == ChromaSize(w, h)
    ensures VOffset(w, h) + Row(h / 2, w / 2) <= BufferSize(w, h)
    ensures NoWrap(w, h) ==> Row(h, w) == UOffset(w, h) && UOffset(w, h) + Row(h / 2, w / 2) <= VOffset(w, h)
  {
    PlanesInBounds(w, h);
    RowIsProduct(h, w);
    RowIsProduct(h / 2, w / 2);
    if NoWrap(w, h) {
      ChromaFitsQuarter(w, h);
    }
  }

  /** nv12_to_i420; false is the error return. Every write is inside the buffer for any size; the
      conversion is complete whenever the 32-bit offsets do not wrap. */
  method Nv12ToI420(f: Format, s: Source, dst: array<Byte>) returns (ok: bool)
    requires Readable(f, s) && dst.Length == BufferSize(f.width, f.height)
    modifies dst
    ensures ok == f.pixfmt.NV12?
    ensures !ok ==> dst[..] == old(dst[..])
    ensures ok && NoWrap(f.width, f.height) ==> Converted(f, s, old(dst[..]), dst[..])
    ensures ok && NoWrap(f.width, f.height) ==>
              forall x: nat, y: nat :: LumaSample(f, s, dst[..], x, y) && ChromaSample(f, s, dst[..], x, y)
  {
    if f.pixfmt != NV12 {
      return false;
    }
    RowBounds(f.width, f.height);
    CopyLuma(LumaGrid(f, s), dst);
    ghost var d := dst[..];
    CopyChroma(ChromaGrid(f, s), dst, UOffset(f.width, f.height), VOffset(f.width, f.height));
    if NoWrap(f.width, f.height) {
      BothPassesConvert(f, s, old(dst[..]), d, dst[..]);
      forall x: nat, y: nat
        ensures LumaSample(f, s, dst[..], x, y) && ChromaSample(f, s, dst[..], x, y)
      {
        ConvertedLuma(f, s, old(dst[..]), dst[..], x, y);
        ConvertedChroma(f, s, old(dst[..]), dst[..], x, y);
      }
    }
    return true;
  }

  lemma BothPassesConvert(f: Format, s: Source, before: seq<Byte>, d: seq<Byte>, e: seq<Byte>)
    requires NoWrap(f.width, f.height)
    requires LumaDone(LumaGrid(f, s), d, f.height)
    requires ChromaDone(ChromaGrid(f, s), e, UOffset(f.width, f.height), VOffset(f.width, f.height), f.height / 2)
    requires Unchanged(before, d, 0, 0, Row(f.height, f.width))
    requires Unchanged(d, e, UOffset(f.width, f.height), VOffset(f.width, f.height), Row(f.height / 2, f.width / 2))
    ensures Converted(f, s, before, e)
  {
    RowBounds(f.width, f.height);
    LumaRowsKept(LumaGrid(f, s), d, e, f.height, UOffset(f.width, f.height), VOffset(f.width, f.height),
                 Row(f.height / 2, f.width / 2));
    forall k | 0 <= k < |e| && InNoPlane(f, k)
      ensures e[k] == before[k]
    {
      assert e[k] == d[k];
    }
  }
}
