/** Reading back what the writer wrote. */
module PngRoundTrip {
  import opened Bytes
  import opened PngFormat
  import opened PngReader

  // ---- filters ----

  /** The five filters of section 6 of RFC 2083, as an encoder applies them to a row. */
  function Filtered(ft: uint8, line: seq<uint8>, prev: seq<uint8>, step: nat): (r: seq<uint8>)
    requires |line| == |prev|
    ensures |r| == |line|
  {
    seq(|line|, x requires 0 <= x < |line| => (line[x] as int - PredictedAt(ft, line, prev, step, x)) % 0x100)
  }

  lemma PredictionLooksBack(ft: uint8, line: seq<uint8>, prev: seq<uint8>, step: nat, x: nat)
    requires x < |line| == |prev|
    ensures PredictedAt(ft, line[..x], prev, step, x) == PredictedAt(ft, line, prev, step, x)
  {
  }

  lemma TakenAndAdded(v: uint8, p: uint8)
    ensures ((v as int - p) % 0x100 + p) % 0x100 == v
  {
  }

  lemma ByteRestored(ft: uint8, line: seq<uint8>, prev: seq<uint8>, step: nat, x: nat)
    requires x < |line| == |prev|
    ensures (Filtered(ft, line, prev, step)[x] as int + PredictedAt(ft, line[..x], prev, step, x)) % 0x100 == line[x]
  {
    PredictionLooksBack(ft, line, prev, step, x);
    TakenAndAdded(line[x], PredictedAt(ft, line, prev, step, x));
  }

  lemma {:induction false} UnfilterUndoes(ft: uint8, line: seq<uint8>, prev: seq<uint8>, step: nat, n: nat)
    requires n <= |line| == |prev|
    ensures Unfiltered(ft, Filtered(ft, line, prev, step), prev, step, n) == line[..n]
    decreases n
  {
    if n > 0 {
      UnfilterUndoes(ft, line, prev, step, n - 1);
      ByteRestored(ft, line, prev, step, n - 1);
      assert line[..n] == line[..n - 1] + [line[n - 1]];
    }
  }

  /** Rows of bytes, each under a filter of the encoder's choice. */
  function Encoded(rows: seq<seq<uint8>>, filters: seq<uint8>, prev: seq<uint8>, step: nat): seq<uint8>
    requires |filters| == |rows|
    requires forall y :: 0 <= y < |rows| ==> |rows[y]| == |prev|
    decreases |rows|
  {
    if rows == [] then []
    else [filters[0]] + Filtered(filters[0], rows[0], prev, step) + Encoded(rows[1..], filters[1..], rows[0], step)
  }

  lemma FullBytes(hd: Header)
    requires hd.depth == 8
    ensures hd.Stride() == hd.w
  {
  }

  lemma RowThenRows(row: seq<uint8>, ft: uint8, rest: seq<uint8>, prev: seq<uint8>, hd: Header, h: nat,
                    o: seq<int>, out: seq<seq<int>>)
    requires |row| == |prev| == hd.Stride() && RowOf(row, hd) == Some(o)
    requires Rows(rest, hd, h, row) == Some(out)
    ensures Rows([ft] + Filtered(ft, row, prev, hd.Step()) + rest, hd, h + 1, prev) == Some([o] + out)
  {
    var raw := [ft] + Filtered(ft, row, prev, hd.Step()) + rest;
    assert raw[0] == ft && raw[1 + hd.Stride()..] == rest;
    assert raw[1..1 + hd.Stride()] == Filtered(ft, row, prev, hd.Step());
    UnfilterUndoes(ft, row, prev, hd.Step(), hd.Stride());
    assert row[..hd.Stride()] == row;
  }

  /** Whatever filters the encoder chose, the reader recovers the rows and takes their samples. */
  lemma {:induction false} AnyFilters(rows: seq<seq<uint8>>, filters: seq<uint8>, prev: seq<uint8>, hd: Header,
                                      out: seq<seq<int>>)
    requires |filters| == |rows| == |out| && |prev| == hd.Stride()
    requires forall y :: 0 <= y < |rows| ==> |rows[y]| == hd.Stride() && RowOf(rows[y], hd) == Some(out[y])
    ensures Rows(Encoded(rows, filters, prev, hd.Step()), hd, |rows|, prev) == Some(out)
    decreases |rows|
  {
    if rows != [] {
      AnyFilters(rows[1..], filters[1..], rows[0], hd, out[1..]);
      var rest := Encoded(rows[1..], filters[1..], rows[0], hd.Step());
      RowThenRows(rows[0], filters[0], rest, prev, hd, |rows| - 1, out[0], out[1..]);
      assert [out[0]] + out[1..] == out;
    }
  }

  // ---- zlib ----

  lemma BlockOpens(last: bool, data: seq<uint8>, t: seq<uint8>)
    requires |data| <= 65535
    ensures var z := Block(last, data) + t;
      && |z| == 5 + |data| + |t|
      && z[0] == (if last then 1 else 0)
      && Le16(z[1], z[2]) == |data| && Le16(z[3], z[4]) == 65535 - |data|
      && z[5..5 + |data|] == data && z[5 + |data|..] == t
  {
  }

  lemma LastBlock(data: seq<uint8>, t: seq<uint8>)
    requires |data| <= 65535
    ensures StoredBlocks(Block(true, data) + t) == Some((data, t))
  {
    BlockOpens(true, data, t);
  }

  lemma EarlierBlock(data: seq<uint8>, t: seq<uint8>, more: seq<uint8>, rest: seq<uint8>)
    requires |data| <= 65535 && StoredBlocks(t) == Some((more, rest))
    ensures StoredBlocks(Block(false, data) + t) == Some((data + more, rest))
  {
    BlockOpens(false, data, t);
  }

  lemma Associates(a: seq<uint8>, b: seq<uint8>, c: seq<uint8>)
    ensures (a + b) + c == a + (b + c)
  {
  }

  lemma StoredSplit(r: seq<uint8>, t: seq<uint8>)
    requires |r| > 65535
    ensures Stored(r) + t == Block(false, r[..65535]) + (Stored(r[65535..]) + t)
    ensures r[..65535] + r[65535..] == r
  {
    Associates(Block(false, r[..65535]), Stored(r[65535..]), t);
  }

  lemma {:induction false} StoredRoundTrip(r: seq<uint8>, t: seq<uint8>)
    requires r != []
    ensures StoredBlocks(Stored(r) + t) == Some((r, t))
    decreases |r|
  {
    if |r| <= 65535 {
      LastBlock(r, t);
      return;
    }
    var data, others := r[..65535], r[65535..];
    StoredRoundTrip(others, t);
    EarlierBlock(data, Stored(others) + t, others, t);
    StoredSplit(r, t);
  }

  lemma ZlibOpens(r: seq<uint8>, t: seq<uint8>)
    ensures var z := [0x78, 0x01] + Stored(r) + t;
      ZlibHeader(z) && z[2..] == Stored(r) + t
  {
  }

  lemma ZlibRoundTrip(r: seq<uint8>)
    requires r != []
    ensures Inflated(Zlib(r)) == Some(r)
  {
    var t := Be32(Adler(r));
    StoredRoundTrip(r, t);
    ZlibOpens(r, t);
    assert t[..4] == t;
  }

  /** A stream that is cut anywhere does not inflate. */
  lemma {:induction false} CutBlocks(r: seq<uint8>, n: nat)
    requires r != [] && n < |Stored(r)|
    ensures StoredBlocks(Stored(r)[..n]) == None
    decreases |r|
  {
    var data := if |r| <= 65535 then r else r[..65535];
    var t := if |r| <= 65535 then [] else Stored(r[65535..]);
    var z := Stored(r);
    assert z == Block(|r| <= 65535, data) + t;
    BlockOpens(|r| <= 65535, data, t);
    if n >= 5 {
      assert z[..n][0] == z[0] && z[..n][1] == z[1] && z[..n][2] == z[2] && z[..n][3] == z[3] && z[..n][4] == z[4];
      if n >= 5 + |data| {
        assert z[..n][5 + |data|..] == t[..n - 5 - |data|];
        CutBlocks(r[65535..], n - 5 - |data|);
      }
    }
  }

  lemma CutInBlocks(r: seq<uint8>, n: nat)
    requires r != [] && n < |Stored(r)|
    ensures Inflated(([0x78, 0x01] + Stored(r))[..n + 2]) == None
  {
    CutBlocks(r, n);
    CutBehind([0x78, 0x01], Stored(r), n);
  }

  lemma CutBehind(a: seq<uint8>, b: seq<uint8>, n: nat)
    requires n <= |b|
    ensures (a + b)[..n + |a|] == a + b[..n] && (a + b[..n])[|a|..] == b[..n]
  {
  }

  lemma CutInChecksum(r: seq<uint8>, t: seq<uint8>)
    requires r != [] && |t| < 4
    ensures Inflated([0x78, 0x01] + Stored(r) + t) == None
  {
    StoredRoundTrip(r, t);
    ZlibOpens(r, t);
  }

  lemma CutStream(r: seq<uint8>, n: nat)
    requires r != [] && n < |Zlib(r)|
    ensures Inflated(Zlib(r)[..n]) == None
  {
    var front := [0x78, 0x01] + Stored(r);
    var t := Be32(Adler(r));
    assert Zlib(r) == front + t;
    if 2 <= n < |front| {
      CutInBlocks(r, n - 2);
      assert Zlib(r)[..n] == front[..n];
    } else if n >= |front| {
      CutInChecksum(r, t[..n - |front|]);
      assert Zlib(r)[..n] == front + t[..n - |front|];
    }
  }

  // ---- chunks ----

  lemma FiveParts(a: seq<uint8>, b: seq<uint8>, c: seq<uint8>, e: seq<uint8>, rest: seq<uint8>)
    requires |a| == |b| == |e| == 4
    ensures var d := a + b + c + e + rest;
      |d| == 12 + |c| + |rest| && d[..4] == a && d[4..8] == b && d[8..8 + |c|] == c && d[12 + |c|..] == rest
  {
  }

  lemma ChunkParts(kind: seq<uint8>, data: seq<uint8>, rest: seq<uint8>) returns (d: seq<uint8>)
    requires |kind| == 4 && |data| < 0x1_0000_0000
    ensures d == Chunk(kind, data) + rest && |d| == 12 + |data| + |rest| && FromBe32(d[..4]) == |data|
    ensures d[4..8] == kind && d[8..8 + |data|] == data && d[12 + |data|..] == rest
  {
    d := Be32(|data|) + kind + data + Be32(ChecksumOf(kind + data)) + rest;
    FiveParts(Be32(|data|), kind, data, Be32(ChecksumOf(kind + data)), rest);
    Be32RoundTrip(|data|);
  }

  lemma ChunkOpens(kind: seq<uint8>, data: seq<uint8>, rest: seq<uint8>)
    requires |kind| == 4 && |data| < 0x1_0000_0000
    ensures var d := Chunk(kind, data) + rest;
      |d| >= 12 && KindOf(d) == kind && BodyOf(d) == data && After(d) == rest
  {
    var d := ChunkParts(kind, data, rest);
  }

  lemma ReadHeader(w: uint32, h: uint32, rest: seq<uint8>, s: Found)
    ensures Chunks(Chunk(IHDR, PngFormat.Header(w, h)) + rest, s) ==
            Chunks(rest, s.(header := Some(PngReader.Header(w, h, 8, 0))))
  {
    var body := PngFormat.Header(w, h);
    ChunkOpens(IHDR, body, rest);
    Be32RoundTrip(w);
    Be32RoundTrip(h);
    assert body[..4] == Be32(w) && body[4..8] == Be32(h);
  }

  lemma ReadData(data: seq<uint8>, rest: seq<uint8>, s: Found)
    requires |data| < 0x1_0000_0000
    ensures Chunks(Chunk(IDAT, data) + rest, s) == Chunks(rest, s.(idat := s.idat + data))
  {
    ChunkOpens(IDAT, data, rest);
  }

  lemma ReadEnd(s: Found)
    ensures Chunks(Chunk(IEND, []), s) == Some(s)
  {
    ChunkOpens(IEND, [], []);
    assert Chunk(IEND, []) + [] == Chunk(IEND, []);
  }

  lemma ReadRest(data: seq<uint8>, s: Found)
    requires |data| < 0x1_0000_0000 && s.idat == []
    ensures Chunks(Chunk(IDAT, data) + Chunk(IEND, []), s) == Some(s.(idat := data))
  {
    ReadData(data, Chunk(IEND, []), s);
    assert [] + data == data;
    ReadEnd(s.(idat := data));
  }

  lemma Regroup(s: seq<uint8>, a: seq<uint8>, b: seq<uint8>, c: seq<uint8>)
    ensures s + a + b + c == s + (a + (b + c))
    ensures (s + a + b + c)[|s|..] == a + (b + c) && (s + a + b + c)[..|s|] == s
  {
  }

  lemma ReadStream(w: uint32, h: uint32, data: seq<uint8>)
    requires |data| < 0x1_0000_0000
    ensures var d := Stream(PngFormat.Header(w, h), data);
      && Slice(d, 0, 8) == SIGNATURE
      && Chunks(d[8..], Found(None, [])) == Some(Found(Some(PngReader.Header(w, h, 8, 0)), data))
  {
    var s := Found(Some(PngReader.Header(w, h, 8, 0)), []);
    var a, b, c := Chunk(IHDR, PngFormat.Header(w, h)), Chunk(IDAT, data), Chunk(IEND, []);
    Regroup(SIGNATURE, a, b, c);
    ReadHeader(w, h, b + c, Found(None, []));
    ReadRest(data, s);
  }

  // ---- images ----

  /** The image of `w` by `h` shade indices, row by row. */
  function GrayRows(px: seq<uint8>, w: nat, h: nat): (rows: seq<seq<uint8>>)
    requires |px| == w * h
    ensures |rows| == h && forall y :: 0 <= y < h ==> |rows[y]| == w
  {
    if h == 0 then [] else
    assert |px[w..]| == w * (h - 1);
    [GrayRow(px[..w])] + GrayRows(px[w..], w, h - 1)
  }

  lemma RowsBefore(w: nat, h: nat, y: nat)
    requires y < h
    ensures 0 <= y * w && y * w + w <= w * h
  {
    assert (y + 1) * w <= h * w;
  }

  lemma RowBelow(px: seq<uint8>, w: nat, h: nat, y: nat, x: nat)
    requires |px| == w * h && 0 < y < h && x < w
    ensures w <= |px| && |px[w..]| == w * (h - 1)
    ensures 0 <= (y - 1) * w + x < |px[w..]| && 0 <= y * w + x < |px| && px[w..][(y - 1) * w + x] == px[y * w + x]
  {
    RowsBefore(w, h, y);
    RowsBefore(w, h - 1, y - 1);
    assert w * h == w * (h - 1) + w;
    assert (y - 1) * w + w == y * w;
  }

  lemma {:induction false} GrayRowsAt(px: seq<uint8>, w: nat, h: nat, y: nat, x: nat)
    requires |px| == w * h && y < h && x < w
    ensures 0 <= y * w + x < |px| && GrayRows(px, w, h)[y][x] == Gray(px[y * w + x] % 4)
    decreases y
  {
    if y == 0 {
      RowsBefore(w, h, 0);
      return;
    }
    RowBelow(px, w, h, y, x);
    GrayRowsAt(px[w..], w, h - 1, y - 1, x);
    assert GrayRows(px, w, h)[y] == GrayRows(px[w..], w, h - 1)[y - 1];
  }

  lemma NoFilter(row: seq<uint8>, prev: seq<uint8>)
    requires |row| == |prev|
    ensures Filtered(0, row, prev, 1) == row
  {
  }

  lemma ZerosAfter(h: nat)
    requires h > 0
    ensures Zeros(h)[0] == 0 && Zeros(h)[1..] == Zeros(h - 1)
  {
  }

  lemma {:induction false} RawIsUnfiltered(px: seq<uint8>, w: nat, h: nat, prev: seq<uint8>)
    requires |px| == w * h && |prev| == w
    ensures Raw(px, w, h) == Encoded(GrayRows(px, w, h), Zeros(h), prev, 1)
    decreases h
  {
    if h > 0 {
      RawRow(px, w, h);
      var first := GrayRow(px[..w]);
      RawIsUnfiltered(px[w..], w, h - 1, first);
      var rows, rest := GrayRows(px, w, h), GrayRows(px[w..], w, h - 1);
      assert rows[0] == first && rows[1..] == rest;
      NoFilter(first, prev);
      ZerosAfter(h);
    }
  }

  lemma SomeRow(w: nat, h: nat)
    requires h > 0
    ensures h * (w + 1) > 0
  {
  }

  lemma DecodeFound(d: seq<uint8>, hd: Header, idat: seq<uint8>)
    requires Slice(d, 0, 8) == SIGNATURE && hd.colour == 0
    requires Chunks(d[8..], Found(None, [])) == Some(Found(Some(hd), idat))
    ensures Decode(d) == DecodeData(hd, idat)
  {
  }

  lemma DecodeStream(w: uint32, h: uint32, data: seq<uint8>)
    requires |data| < 0x1_0000_0000
    ensures var hd := PngReader.Header(w, h, 8, 0);
      Decode(Stream(PngFormat.Header(w, h), data)) == DecodeData(hd, data)
  {
    ReadStream(w, h, data);
    DecodeFound(Stream(PngFormat.Header(w, h), data), PngReader.Header(w, h, 8, 0), data);
  }

  lemma ReadRows(px: seq<uint8>, w: nat, h: nat)
    requires |px| == w * h
    ensures var hd := PngReader.Header(w, h, 8, 0);
      hd.Stride() == w && Rows(Raw(px, w, h), hd, h, Zeros(w)) == Some(GrayRows(px, w, h))
  {
    var hd := PngReader.Header(w, h, 8, 0);
    FullBytes(hd);
    RawIsUnfiltered(px, w, h, Zeros(w));
    forall y | 0 <= y < h ensures RowOf(GrayRows(px, w, h)[y], hd) == Some(GrayRows(px, w, h)[y]) {
      assert GrayRows(px, w, h)[y][..w] == GrayRows(px, w, h)[y];
    }
    AnyFilters(GrayRows(px, w, h), Zeros(h), Zeros(w), hd, GrayRows(px, w, h));
  }

  lemma WholeData(raw: seq<uint8>)
    requires |Zlib(raw)| < 0x1_0000_0000
    ensures ImageData(raw) == Zlib(raw)
  {
    assert |Zlib(raw)| % 0x1_0000_0000 == |Zlib(raw)|;
  }

  lemma CutData(raw: seq<uint8>)
    requires raw != [] && |Zlib(raw)| >= 0x1_0000_0000
    ensures Inflated(ImageData(raw)) == None
  {
    CutStream(raw, |Zlib(raw)| % 0x1_0000_0000);
  }

  lemma InflateData(raw: seq<uint8>)
    requires raw != []
    ensures ZlibLength(|raw|) < 0x1_0000_0000 ==> Inflated(ImageData(raw)) == Some(raw)
    ensures ZlibLength(|raw|) >= 0x1_0000_0000 ==> Inflated(ImageData(raw)) == None
  {
    StoredLength(raw);
    if |Zlib(raw)| < 0x1_0000_0000 {
      WholeData(raw);
      ZlibRoundTrip(raw);
    } else {
      CutData(raw);
    }
  }

  lemma ReadBack(px: seq<uint8>, w: uint32, h: uint32)
    requires |px| == w * h && h > 0
    ensures ZlibLength(h * (w + 1)) < 0x1_0000_0000 ==> Decode(File(px, w, h)) == Some(Image(w, h, GrayRows(px, w, h)))
    ensures ZlibLength(h * (w + 1)) >= 0x1_0000_0000 ==> Decode(File(px, w, h)) == None
  {
    SomeRow(w, h);
    InflateData(Raw(px, w, h));
    DecodeStream(w, h, ImageData(Raw(px, w, h)));
    ReadRows(px, w, h);
  }

  /** The nearest of the four grays among the first `n`, the earlier one on a tie. */
  function Nearest(v: int, n: nat): Colour
    requires 1 <= n <= 4
  {
    if n == 1 then 0 else
    var best := Nearest(v, n - 1);
    if Distance(v, 255 - 85 * (n - 1)) < Distance(v, 255 - 85 * best) then n - 1 else best
  }

  function Quant(v: int): Colour { Nearest(v, 4) }

  lemma {:induction false} QuantIsNearest(v: int, s: Colour, n: nat)
    requires s < n <= 4
    ensures Nearest(v, n) < n && Distance(v, Gray(Nearest(v, n))) <= Distance(v, Gray(s))
    ensures s < Nearest(v, n) ==> Distance(v, Gray(Nearest(v, n))) < Distance(v, Gray(s))
    decreases n
  {
    if n > 1 {
      QuantIsNearest(v, if s < n - 1 then s else 0, n - 1);
    }
  }

  lemma QuantUndoesGray(c: Colour)
    ensures Quant(Gray(c)) == c
  {
    QuantIsNearest(Gray(c), c, 4);
  }

  /** The pixel in column `x` of row `y` quantises to the shade it was written from. */
  ghost predicate PixelShown(rows: seq<seq<int>>, px: seq<uint8>, w: nat, y: nat, x: nat)
    requires y < |rows| && x < |rows[y]|
  {
    0 <= y * w + x < |px| && Quant(rows[y][x]) == px[y * w + x] % 4
  }

  /** A decoded image that shows these shade indices. */
  ghost predicate Shows(r: Option<Image>, px: seq<uint8>, w: nat, h: nat) {
    && r.Some? && r.value.w == w && r.value.h == h && |r.value.rows| == h
    && (forall y :: 0 <= y < h ==> |r.value.rows[y]| == w)
    && forall y, x :: 0 <= y < h && 0 <= x < w ==> PixelShown(r.value.rows, px, w, y, x)
  }

  lemma ShowsAt(px: seq<uint8>, w: nat, h: nat, y: nat, x: nat)
    requires |px| == w * h && y < h && x < w
    ensures PixelShown(GrayRows(px, w, h), px, w, y, x)
  {
    GrayRowsAt(px, w, h, y, x);
    QuantUndoesGray(px[y * w + x] % 4);
  }

  lemma ShowsShades(px: seq<uint8>, w: nat, h: nat)
    requires |px| == w * h
    ensures Shows(Some(Image(w, h, GrayRows(px, w, h))), px, w, h)
  {
    forall y, x | 0 <= y < h && 0 <= x < w ensures PixelShown(GrayRows(px, w, h), px, w, y, x) {
      ShowsAt(px, w, h, y, x);
    }
  }

  /** Reading back the written file gives the same shades exactly when the zlib stream's length
      fits the 32 bits of the chunk. */
  lemma PngRoundTrip(px: seq<uint8>, w: uint32, h: uint32)
    requires |px| == w * h && h > 0
    ensures Shows(Decode(File(px, w, h)), px, w, h) <==> ZlibLength(h * (w + 1)) < 0x1_0000_0000
  {
    ReadBack(px, w, h);
    ShowsShades(px, w, h);
  }

  lemma TallStream(h: nat)
    requires h == 0x7FFF_FFFF
    ensures ZlibLength(h * 2) >= 0x1_0000_0000 && ZlibLength(h * 2) % 0x1_0000_0000 + 4 < 0x1_0000_0000
  {
    assert Blocks(h * 2) == 65537;
  }

  /** The tallest image one pixel wide is such a case. */
  lemma TallImage(px: seq<uint8>)
    requires |px| == 0x7FFF_FFFF
    ensures ZlibLength(0x7FFF_FFFF * 2) % 0x1_0000_0000 + 4 < 0x1_0000_0000
    ensures Decode(File(px, 1, 0x7FFF_FFFF)) == None
  {
    var h := 0x7FFF_FFFF;
    TallStream(h);
    ReadBack(px, 1, h);
  }

  predicate SamePixels(p: seq<seq<int>>, q: seq<seq<int>>) {
    |p| == |q| && forall y :: 0 <= y < |p| ==> SameRow(p[y], q[y])
  }

  predicate SameRow(p: seq<int>, q: seq<int>) {
    |p| == |q| && forall x :: 0 <= x < |p| ==> Quant(p[x]) == Quant(q[x])
  }

  /** The verdict on two files: same size and, quantised, the same pixels. */
  function Compare(a: seq<uint8>, b: seq<uint8>): Option<bool> {
    match (Decode(a), Decode(b))
    case (Some(p), Some(q)) => Some(p.w == q.w && p.h == q.h && SamePixels(p.rows, q.rows))
    case _ => None
  }

  lemma Coordinates(w: nat, h: nat, k: nat) returns (y: nat, x: nat)
    requires k < w * h
    ensures y < h && x < w && y * w + x == k
  {
    assert w > 0;
    y, x := k / w, k % w;
    assert y >= h ==> y * w >= h * w;
  }

  lemma PixelsSameIff(a: seq<uint8>, b: seq<uint8>, w: nat, h: nat, y: nat, x: nat)
    requires |a| == |b| == w * h && y < h && x < w
    ensures 0 <= y * w + x < |a|
    ensures Quant(GrayRows(a, w, h)[y][x]) == Quant(GrayRows(b, w, h)[y][x]) <==> a[y * w + x] % 4 == b[y * w + x] % 4
  {
    GrayRowsAt(a, w, h, y, x);
    GrayRowsAt(b, w, h, y, x);
    QuantUndoesGray(a[y * w + x] % 4);
    QuantUndoesGray(b[y * w + x] % 4);
  }

  predicate SameShades(a: seq<uint8>, b: seq<uint8>) {
    |a| == |b| && forall k :: 0 <= k < |a| ==> a[k] % 4 == b[k] % 4
  }

  lemma SameRowsImply(a: seq<uint8>, b: seq<uint8>, w: nat, h: nat)
    requires |a| == |b| == w * h && SamePixels(GrayRows(a, w, h), GrayRows(b, w, h))
    ensures SameShades(a, b)
  {
    forall k | 0 <= k < |a| ensures a[k] % 4 == b[k] % 4 {
      var y, x := Coordinates(w, h, k);
      assert SameRow(GrayRows(a, w, h)[y], GrayRows(b, w, h)[y]);
      PixelsSameIff(a, b, w, h, y, x);
    }
  }

  lemma SameShadesImply(a: seq<uint8>, b: seq<uint8>, w: nat, h: nat, y: nat)
    requires |a| == |b| == w * h && y < h && SameShades(a, b)
    ensures SameRow(GrayRows(a, w, h)[y], GrayRows(b, w, h)[y])
  {
    forall x | 0 <= x < w ensures Quant(GrayRows(a, w, h)[y][x]) == Quant(GrayRows(b, w, h)[y][x]) {
      PixelsSameIff(a, b, w, h, y, x);
    }
  }

  lemma SamePixelsIff(a: seq<uint8>, b: seq<uint8>, w: nat, h: nat)
    requires |a| == |b| == w * h
    ensures SamePixels(GrayRows(a, w, h), GrayRows(b, w, h)) <==> SameShades(a, b)
  {
    if SamePixels(GrayRows(a, w, h), GrayRows(b, w, h)) {
      SameRowsImply(a, b, w, h);
    } else if SameShades(a, b) {
      forall y | 0 <= y < h ensures SameRow(GrayRows(a, w, h)[y], GrayRows(b, w, h)[y]) {
        SameShadesImply(a, b, w, h, y);
      }
    }
  }

  /** Two written files get the verdict "same" exactly when size and shades are. */
  lemma CompareFiles(a: seq<uint8>, w: uint32, h: uint32, b: seq<uint8>, v: uint32, g: uint32)
    requires |a| == w * h && h > 0 && ZlibLength(h * (w + 1)) < 0x1_0000_0000
    requires |b| == v * g && g > 0 && ZlibLength(g * (v + 1)) < 0x1_0000_0000
    ensures Compare(File(a, w, h), File(b, v, g)) == Some(w == v && h == g && SameShades(a, b))
  {
    ReadBack(a, w, h);
    ReadBack(b, v, g);
    CompareDecoded(File(a, w, h), File(b, v, g), Image(w, h, GrayRows(a, w, h)), Image(v, g, GrayRows(b, v, g)));
    if w == v && h == g {
      SamePixelsIff(a, b, w, h);
    }
  }

  lemma CompareDecoded(a: seq<uint8>, b: seq<uint8>, p: Image, q: Image)
    requires Decode(a) == Some(p) && Decode(b) == Some(q)
    ensures Compare(a, b) == Some(p.w == q.w && p.h == q.h && SamePixels(p.rows, q.rows))
  {
  }
}
