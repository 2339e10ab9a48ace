/** The conversion as a transformation of whole pictures: what it computes is the de-interleaving of
    the visible picture, and re-interleaving its result gives the visible picture back. */
module FrameRoundTrip {
  import opened Common
  import opened FrameLayout
  import opened FrameConvert

  // ---------------------------------------------------------------- interleaving

  /** a[0], b[0], a[1], b[1], ... */
  function Zip(a: seq<Byte>, b: seq<Byte>): (z: seq<Byte>)
    requires |a| == |b|
    ensures |z| == 2 * |a|
    decreases |a|
  {
    if a == [] then [] else
      var m := |a| - 1;
      Zip(a[..m], b[..m]) + [a[m], b[m]]
  }

  function Evens(p: seq<Byte>): seq<Byte>
    decreases |p|
  {
    if |p| < 2 then [] else Evens(p[..|p| - 2]) + [p[|p| - 2]]
  }

  function Odds(p: seq<Byte>): seq<Byte>
    decreases |p|
  {
    if |p| < 2 then [] else Odds(p[..|p| - 2]) + [p[|p| - 1]]
  }

  lemma ZipSnoc(a: seq<Byte>, b: seq<Byte>, x: Byte, y: Byte)
    requires |a| == |b|
    ensures Zip(a + [x], b + [y]) == Zip(a, b) + [x, y]
  {
    assert (a + [x])[..|a|] == a && (b + [y])[..|b|] == b;
  }

  lemma UnzipSnoc(p: seq<Byte>, x: Byte, y: Byte)
    ensures Evens(p + [x, y]) == Evens(p) + [x] && Odds(p + [x, y]) == Odds(p) + [y]
  {
    assert (p + [x, y])[..|p|] == p;
  }

  lemma {:induction false} UnzipZip(a: seq<Byte>, b: seq<Byte>)
    requires |a| == |b|
    ensures Evens(Zip(a, b)) == a && Odds(Zip(a, b)) == b
    decreases |a|
  {
    if a == [] {
    } else {
      var m := |a| - 1;
      UnzipZip(a[..m], b[..m]);
      ZipThenUnzip(a[..m], b[..m], a[m], b[m]);
      LastApart(a);
      LastApart(b);
    }
  }

  lemma LastApart(a: seq<Byte>)
    requires a != []
    ensures a == a[..|a| - 1] + [a[|a| - 1]]
  {
  }

  lemma ZipThenUnzip(a: seq<Byte>, b: seq<Byte>, x: Byte, y: Byte)
    requires |a| == |b|
    ensures Evens(Zip(a + [x], b + [y])) == Evens(Zip(a, b)) + [x]
    ensures Odds(Zip(a + [x], b + [y])) == Odds(Zip(a, b)) + [y]
  {
    ZipSnoc(a, b, x, y);
    UnzipSnoc(Zip(a, b), x, y);
  }

  lemma {:induction false} ZipConcat(a: seq<Byte>, b: seq<Byte>, c: seq<Byte>, d: seq<Byte>)
    requires |a| == |b| && |c| == |d|
    ensures Zip(a + c, b + d) == Zip(a, b) + Zip(c, d)
    decreases |c|
  {
    if c == [] {
      assert a + c == a && b + d == b;
    } else {
      var m := |c| - 1;
      ZipConcat(a, b, c[..m], d[..m]);
      ZipSnoc(a + c[..m], b + d[..m], c[m], d[m]);
      assert a + c == (a + c[..m]) + [c[m]] && b + d == (b + d[..m]) + [d[m]];
    }
  }

  // ---------------------------------------------------------------- the visible picture

  function GridRow(g: Grid, y: nat): seq<Byte>
    requires GridFits(g) && y < g.rows
  {
    assert RowFits(g, y);
    g.bytes[RowStart(g, y)..RowStart(g, y) + Span(g)]
  }

  /** The first n rows of a grid, without their padding. */
  function GridRows(g: Grid, n: nat): seq<Byte>
    requires GridFits(g) && n <= g.rows
    decreases n
  {
    if n == 0 then [] else GridRows(g, n - 1) + GridRow(g, n - 1)
  }

  function LumaBytes(f: Format, s: Source): seq<Byte>
    requires Readable(f, s)
  {
    GridRows(LumaGrid(f, s), f.height)
  }

  function ChromaBytes(f: Format, s: Source): seq<Byte>
    requires Readable(f, s)
  {
    GridRows(ChromaGrid(f, s), f.height / 2)
  }

  /** The picture as packed NV12, with no padding: what the strided planes show. */
  function Visible(f: Format, s: Source): seq<Byte>
    requires Readable(f, s)
  {
    LumaBytes(f, s) + ChromaBytes(f, s)
  }

  // ---------------------------------------------------------------- row by row

  lemma {:induction false} LumaRowsMatch(g: Grid, d: seq<Byte>, n: nat)
    requires GridFits(g) && !g.paired && n <= g.rows && Row(n, g.width) <= |d| && LumaDone(g, d, g.rows)
    ensures d[..Row(n, g.width)] == GridRows(g, n)
    decreases n
  {
    if n == 0 {
    } else {
      var at := Row(n - 1, g.width);
      RowsInOrder(n - 1, n, g.width);
      LumaRowsMatch(g, d, n - 1);
      CopiedSlice(g, d, n - 1);
      assert d[..at + g.width] == d[..at] + d[at..at + g.width];
    }
  }

  lemma CopiedSlice(g: Grid, d: seq<Byte>, y: nat)
    requires GridFits(g) && !g.paired && y < g.rows && LumaDone(g, d, g.rows)
    requires Row(y, g.width) + g.width <= |d|
    ensures d[Row(y, g.width)..Row(y, g.width) + g.width] == GridRow(g, y)
  {
    assert LumaRowDone(g, d, y);
  }

  lemma OnePairMore(src: seq<Byte>, from: nat, d: seq<Byte>, u: nat, v: nat, m: nat)
    requires from + 2 * m + 2 <= |src| && u + m < |d| && v + m < |d|
    requires ZipAt(d, u, v, m) == src[from..from + 2 * m]
    requires d[u + m] == src[from + 2 * m] && d[v + m] == src[from + 2 * m + 1]
    ensures ZipAt(d, u, v, m + 1) == src[from..from + 2 * (m + 1)]
  {
    ZipSnoc(d[u..u + m], d[v..v + m], d[u + m], d[v + m]);
    SliceSplit(d, u, m, 1);
    SliceSplit(d, v, m, 1);
    SliceSplit(src, from, 2 * m, 2);
  }

  lemma {:induction false} ZippedRow(src: seq<Byte>, from: nat, d: seq<Byte>, u: nat, v: nat, n: nat)
    requires n > 0 ==> RowCopied(src, from, d, u, n, true) && RowCopied(src, from + 1, d, v, n, true)
    requires from + 2 * n <= |src| && u + n <= |d| && v + n <= |d|
    ensures ZipAt(d, u, v, n) == src[from..from + 2 * n]
    decreases n
  {
    if n == 0 {
    } else {
      var m := n - 1;
      ZippedRow(src, from, d, u, v, m);
      OnePairMore(src, from, d, u, v, m);
    }
  }

  lemma SliceSplit(d: seq<Byte>, from: nat, m: nat, n: nat)
    requires from + m + n <= |d|
    ensures d[from..from + (m + n)] == d[from..from + m] + d[from + m..from + m + n]
  {
  }

  /** The n bytes from u on zipped with the n bytes from v on. */
  function ZipAt(d: seq<Byte>, u: nat, v: nat, n: nat): seq<Byte>
    requires u + n <= |d| && v + n <= |d|
  {
    Zip(d[u..u + n], d[v..v + n])
  }

  lemma ZipSplit(d: seq<Byte>, u: nat, v: nat, at: nat, n: nat)
    requires u + at + n <= |d| && v + at + n <= |d|
    ensures ZipAt(d, u, v, at + n) == ZipAt(d, u, v, at) + ZipAt(d, u + at, v + at, n)
  {
    SliceSplit(d, u, at, n);
    SliceSplit(d, v, at, n);
    ZipConcat(d[u..u + at], d[v..v + at], d[u + at..u + at + n], d[v + at..v + at + n]);
  }

  /** One finished chroma row, zipped, is its source row. */
  lemma ZippedChromaRow(g: Grid, d: seq<Byte>, u: nat, v: nat, y: nat, at: nat)
    requires GridFits(g) && g.paired && y < g.rows && ChromaDone(g, d, u, v, g.rows)
    requires at == Row(y, g.width) && u <= v && v + at + g.width <= |d|
    ensures ZipAt(d, u + at, v + at, g.width) == GridRow(g, y)
  {
    assert ChromaRowDone(g, d, u, v, y) && RowFits(g, y);
    ZippedRow(g.bytes, RowStart(g, y), d, u + at, v + at, g.width);
  }

  lemma OneChromaRowMore(g: Grid, d: seq<Byte>, u: nat, v: nat, y: nat, at: nat)
    requires GridFits(g) && g.paired && y < g.rows && ChromaDone(g, d, u, v, g.rows)
    requires at == Row(y, g.width) && u <= v && v + at + g.width <= |d|
    requires ZipAt(d, u, v, at) == GridRows(g, y)
    ensures ZipAt(d, u, v, at + g.width) == GridRows(g, y + 1)
  {
    ZipSplit(d, u, v, at, g.width);
    ZippedChromaRow(g, d, u, v, y, at);
  }

  lemma {:induction false} ChromaRowsMatch(g: Grid, d: seq<Byte>, u: nat, v: nat, n: nat)
    requires GridFits(g) && g.paired && n <= g.rows && ChromaDone(g, d, u, v, g.rows)
    requires u <= v && v + Row(n, g.width) <= |d|
    ensures ZipAt(d, u, v, Row(n, g.width)) == GridRows(g, n)
    decreases n
  {
    if n == 0 {
    } else {
      RowsInOrder(n - 1, n, g.width);
      ChromaRowsMatch(g, d, u, v, n - 1);
      OneChromaRowMore(g, d, u, v, n - 1, Row(n - 1, g.width));
    }
  }

  // ---------------------------------------------------------------- the picture

  /** An I420 buffer read back as packed NV12. */
  function Reinterleaved(f: Format, d: seq<Byte>): seq<Byte>
    requires NoWrap(f.width, f.height) && |d| == BufferSize(f.width, f.height)
  {
    RowBounds(f.width, f.height);
    d[..Row(f.height, f.width)]
    + ZipAt(d, Row(f.height, f.width), VOffset(f.width, f.height), Row(f.height / 2, f.width / 2))
  }

  /** Re-interleaving the converted buffer gives back exactly the visible picture, for every size,
      stride and plane layout. */
  lemma RoundTrip(f: Format, s: Source, before: seq<Byte>, d: seq<Byte>)
    requires Readable(f, s) && NoWrap(f.width, f.height)
    requires |d| == BufferSize(f.width, f.height) && Converted(f, s, before, d)
    ensures Reinterleaved(f, d) == Visible(f, s)
  {
    RowBounds(f.width, f.height);
    LumaRowsMatch(LumaGrid(f, s), d, f.height);
    ChromaRowsMatch(ChromaGrid(f, s), d, UOffset(f.width, f.height), VOffset(f.width, f.height), f.height / 2);
  }

  /** For even sizes the converted buffer is the de-interleaving of the visible picture and nothing
      else: luma, then the even chroma bytes, then the odd ones. No byte of the old buffer is left. */
  lemma ConversionIsDeinterleaving(f: Format, s: Source, before: seq<Byte>, d: seq<Byte>)
    requires Readable(f, s) && NoWrap(f.width, f.height) && f.width % 2 == 0 && f.height % 2 == 0
    requires |d| == BufferSize(f.width, f.height) && Converted(f, s, before, d)
    ensures d == LumaBytes(f, s) + Evens(ChromaBytes(f, s)) + Odds(ChromaBytes(f, s))
  {
    RowBounds(f.width, f.height);
    LumaRowsMatch(LumaGrid(f, s), d, f.height);
    ChromaRowsMatch(ChromaGrid(f, s), d, UOffset(f.width, f.height), VOffset(f.width, f.height), f.height / 2);
    EvenSizes(f.width, f.height);
    ThreeParts(d, Row(f.height, f.width), Row(f.height / 2, f.width / 2), LumaBytes(f, s), ChromaBytes(f, s));
  }

  lemma EvenSizes(w: U32, h: U32)
    requires NoWrap(w, h) && w % 2 == 0 && h % 2 == 0
    ensures VOffset(w, h) == Row(h, w) + Row(h / 2, w / 2)
    ensures BufferSize(w, h) == Row(h, w) + Row(h / 2, w / 2) + Row(h / 2, w / 2)
  {
    RowBounds(w, h);
    ChromaIsAtMostQuarter(w, h);
    UnwrappedOffsets(w, h);
  }

  lemma ThreeParts(d: seq<Byte>, n: nat, c: nat, luma: seq<Byte>, chroma: seq<Byte>)
    requires |d| == n + c + c && d[..n] == luma && ZipAt(d, n, n + c, c) == chroma
    ensures d == luma + Evens(chroma) + Odds(chroma)
  {
    UnzipZip(d[n..n + c], d[n + c..n + c + c]);
    Rejoin(d, n, n + c);
    assert d[n + c..] == d[n + c..n + c + c];
  }

  lemma Rejoin(d: seq<Byte>, n: nat, m: nat)
    requires n <= m <= |d|
    ensures d == d[..n] + d[n..m] + d[m..]
  {
  }

  // ---------------------------------------------------------------- the encoder's view

  /** Plane p as the encoder is given it: offset and stride. */
  function EncoderOffset(f: Format, p: nat): nat {
    if p == 0 then 0 else if p == 1 then UOffset(f.width, f.height) else VOffset(f.width, f.height)
  }

  function EncoderStride(f: Format, p: nat): nat {
    if p == 0 then f.width else f.width / 2
  }

  /** Sample (x, y) of plane p is the byte the encoder reads there. */
  predicate EncoderReads(f: Format, d: seq<Byte>, p: nat, x: nat, y: nat, b: Byte) {
    var at := EncoderOffset(f, p) + Row(y, EncoderStride(f, p)) + x;
    at < |d| && d[at] == b
  }

  /** The encoder's plane pointers fit the conversion: for every pixel and every chroma sample it
      sees the source's byte at that place. */
  lemma EncoderSeesLuma(f: Format, s: Source, before: seq<Byte>, d: seq<Byte>, x: nat, y: nat)
    requires Readable(f, s) && Converted(f, s, before, d) && x < f.width && y < f.height
    ensures var ys := if f.bytesPerLine0 != 0 then f.bytesPerLine0 else f.width;
            0 <= y * ys + x < |s.plane0| && EncoderReads(f, d, 0, x, y, s.plane0[y * ys + x])
  {
    ConvertedLuma(f, s, before, d, x, y);
  }

  lemma EncoderSeesChroma(f: Format, s: Source, before: seq<Byte>, d: seq<Byte>, x: nat, y: nat)
    requires Readable(f, s) && Converted(f, s, before, d) && x < f.width / 2 && y < f.height / 2
    ensures var plane, pair := if s.numPlanes < 2 then s.plane0 else s.plane1, PairAt(f, s, x, y);
            && 0 <= pair < |plane| - 1
            && EncoderReads(f, d, 1, x, y, plane[pair]) && EncoderReads(f, d, 2, x, y, plane[pair + 1])
  {
    assert ChromaRowDone(ChromaGrid(f, s), d, UOffset(f.width, f.height), VOffset(f.width, f.height), y);
  }
}
