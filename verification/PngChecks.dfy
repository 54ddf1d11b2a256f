/** What a strict reader looks at: the checksums of the chunks, and where the bytes of the file are. */
module PngChecks {
  import opened Bytes
  import opened PngFormat
  import Crc

  // ---- the checksum ----

  /** Eight steps of the register, and the byte step they make up. */
  lemma EightSteps(x: bv32)
    ensures Crc.Iterate(Crc.Shift, x, 8)
            == Crc.Shift(Crc.Shift(Crc.Shift(Crc.Shift(Crc.Shift(Crc.Shift(Crc.Shift(Crc.Shift(x))))))))
  {
  }

  /** One byte: the image of the low byte meets the rest of the register. */
  lemma ByteStep(c: bv32, b: uint8, low: bv32, image: bv32, d: bv32)
    requires low == Crc.LowByte(Crc.Joined((c, b as bv32))) && image == Crc.Iterate(Crc.Shift, low, 8)
    requires d == Crc.Xor(image, Crc.Eighth(c))
    ensures Crc.SerialByte(c, b) == d
  {
    Crc.TableStep(c, b);
  }

  lemma Entering(c: bv32, b: uint8, bits: bv32, low: bv32)
    requires bits == b as bv32 && low == (c ^ bits) & 0xFF
    ensures low == Crc.LowByte(Crc.Joined((c, b as bv32)))
  {
  }

  lemma EndImage0()
    ensures Crc.Iterate(Crc.Shift, 0xB6, 8) == 0x2202_16B9
  {
    EightSteps(0xB6);
  }

  lemma EndStep0(c: bv32, b: uint8) returns (d: bv32)
    requires c == 0xFFFF_FFFF && b == 73
    ensures d == 0x22FD_E946 && Crc.SerialByte(c, b) == d
  {
    d := 0x22FD_E946;
    EndImage0();
    Entering(c, b, 0x49, 0xB6);
    ByteStep(c, b, 0xB6, 0x2202_16B9, d);
  }

  lemma EndImage1()
    ensures Crc.Iterate(Crc.Shift, 0x03, 8) == 0x9909_51BA
  {
    EightSteps(0x03);
  }

  lemma EndStep1(c: bv32, b: uint8) returns (d: bv32)
    requires c == 0x22FD_E946 && b == 69
    ensures d == 0x992B_AC53 && Crc.SerialByte(c, b) == d
  {
    d := 0x992B_AC53;
    EndImage1();
    Entering(c, b, 0x45, 0x03);
    ByteStep(c, b, 0x03, 0x9909_51BA, d);
  }

  lemma EndImage2()
    ensures Crc.Iterate(Crc.Shift, 0x1D, 8) == 0x6306_6CD9
  {
    EightSteps(0x1D);
  }

  lemma EndStep2(c: bv32, b: uint8) returns (d: bv32)
    requires c == 0x992B_AC53 && b == 78
    ensures d == 0x639F_4775 && Crc.SerialByte(c, b) == d
  {
    d := 0x639F_4775;
    EndImage2();
    Entering(c, b, 0x4E, 0x1D);
    ByteStep(c, b, 0x1D, 0x6306_6CD9, d);
  }

  lemma EndImage3()
    ensures Crc.Iterate(Crc.Shift, 0x31, 8) == 0x51DE_003A
  {
    EightSteps(0x31);
  }

  lemma EndStep3(c: bv32, b: uint8) returns (d: bv32)
    requires c == 0x639F_4775 && b == 68
    ensures d == 0x51BD_9F7D && Crc.SerialByte(c, b) == d
  {
    d := 0x51BD_9F7D;
    EndImage3();
    Entering(c, b, 0x44, 0x31);
    ByteStep(c, b, 0x31, 0x51DE_003A, d);
  }

  lemma FourSteps<T>(run: seq<uint8> -> T, step: (T, uint8) -> T, p: seq<uint8>, c0: T, c1: T, c2: T, c3: T)
    requires forall q, b :: run(q + [b]) == step(run(q), b)
    requires |p| == 4 && run([]) == c0 && step(c0, p[0]) == c1 && step(c1, p[1]) == c2 && step(c2, p[2]) == c3
    ensures run(p) == step(c3, p[3])
  {
    var e: seq<uint8> := [];
    assert run(e + [p[0]]) == c1;
    assert run(e + [p[0]] + [p[1]]) == c2;
    assert run(e + [p[0]] + [p[1]] + [p[2]]) == c3;
    assert p == e + [p[0]] + [p[1]] + [p[2]] + [p[3]];
  }

  lemma BytesStep()
    ensures forall q, b :: Crc.SerialBytes(q + [b]) == Crc.SerialByte(Crc.SerialBytes(q), b)
  {
    forall q: seq<uint8>, b: uint8 ensures Crc.SerialBytes(q + [b]) == Crc.SerialByte(Crc.SerialBytes(q), b) {
      assert (q + [b])[..|q|] == q;
    }
  }

  lemma Complement(c: bv32)
    requires c == 0x51BD_9F7D
    ensures Crc.Xor(c, 0xFFFF_FFFF) == 0xAE42_6082
  {
  }

  lemma EndBytes(p: seq<uint8>)
    requires p == [73, 69, 78, 68]
    ensures Crc.SerialBytes(p) == 0x51BD_9F7D
  {
    var c0 := Crc.SerialBytes([]);
    var c1 := EndStep0(c0, p[0]);
    var c2 := EndStep1(c1, p[1]);
    var c3 := EndStep2(c2, p[2]);
    var c4 := EndStep3(c3, p[3]);
    BytesStep();
    FourSteps(Crc.SerialBytes, Crc.SerialByte, p, c0, c1, c2, c3);
  }

  /** The checksum every PNG file ends with: that of the end chunk's type and no data. */
  lemma EndChecksum(p: seq<uint8>)
    requires p == [73, 69, 78, 68]
    ensures Crc.Checksum(p) == 0xAE42_6082
  {
    EndBytes(p);
    Complement(Crc.SerialBytes(p));
  }

  /** The feedback polynomial of section 3.4 of RFC 2083, the lowest power in the highest bit. */
  lemma PolynomialTerms(k: bv32)
    requires k < 32
    ensures (Crc.POLYNOMIAL >> (31 - k)) & 1 == 1 <==> k in {0, 1, 2, 4, 5, 7, 8, 10, 11, 12, 16, 22, 23, 26}
  {
  }

  // ---- a reader that checks every chunk ----

  /** Chunks up to and including the end chunk, with nothing behind it, each followed by the checksum of its type
      and its data. */
  predicate GoodChunks(d: seq<uint8>) {
    |d| >= 12 &&
    var n := FromBe32(d[..4]);
    && 12 + n <= |d|
    && FromBe32(d[8 + n..12 + n]) == Crc.Checksum(d[4..8 + n]) as int
    && if d[4..8] == [73, 69, 78, 68] then 12 + n == |d| else GoodChunks(d[12 + n..])
  }

  predicate GoodFile(d: seq<uint8>) {
    |d| >= 8 && d[..8] == [137, 80, 78, 71, 13, 10, 26, 10] && GoodChunks(d[8..])
  }

  lemma Sections(a: seq<uint8>, b: seq<uint8>, c: seq<uint8>, e: seq<uint8>, rest: seq<uint8>)
    requires |a| == |b| == |e| == 4
    ensures var d, n := a + b + c + e + rest, |c|;
      && |d| == 12 + n + |rest| && d[..4] == a && d[4..8] == b && d[4..8 + n] == b + c
      && d[8 + n..12 + n] == e && d[12 + n..] == rest
  {
  }

  lemma ChunkParts(kind: seq<uint8>, data: seq<uint8>, rest: seq<uint8>) returns (d: seq<uint8>, n: nat)
    requires |kind| == 4 && |data| < 0x1_0000_0000
    ensures d == Chunk(kind, data) + rest && n == |data| && |d| == 12 + n + |rest|
    ensures FromBe32(d[..4]) == n && d[4..8] == kind && d[4..8 + n] == kind + data
    ensures FromBe32(d[8 + n..12 + n]) == Crc.Checksum(kind + data) as int && d[12 + n..] == rest
  {
    d, n := Chunk(kind, data) + rest, |data|;
    Sections(Be32(n), kind, data, Be32(ChecksumOf(kind + data)), rest);
    Be32RoundTrip(n);
    Be32RoundTrip(ChecksumOf(kind + data));
  }

  lemma GoodNext(d: seq<uint8>, n: nat, rest: seq<uint8>)
    requires |d| == 12 + n + |rest| && FromBe32(d[..4]) == n && d[12 + n..] == rest
    requires FromBe32(d[8 + n..12 + n]) == Crc.Checksum(d[4..8 + n]) as int
    requires if d[4..8] == [73, 69, 78, 68] then rest == [] else GoodChunks(rest)
    ensures GoodChunks(d)
  {
  }

  lemma GoodBefore(kind: seq<uint8>, data: seq<uint8>, rest: seq<uint8>)
    requires |kind| == 4 && |data| < 0x1_0000_0000 && kind != [73, 69, 78, 68] && GoodChunks(rest)
    ensures GoodChunks(Chunk(kind, data) + rest)
  {
    var d, n := ChunkParts(kind, data, rest);
    GoodNext(d, n, rest);
  }

  lemma GoodEnd()
    ensures GoodChunks(Chunk(IEND, []))
  {
    var d, n := ChunkParts(IEND, [], []);
    GoodNext(d, n, []);
    assert d == Chunk(IEND, []);
  }

  lemma Regrouped(s: seq<uint8>, a: seq<uint8>, b: seq<uint8>, c: seq<uint8>)
    ensures (s + a + b + c)[|s|..] == a + (b + c) && (s + a + b + c)[..|s|] == s
  {
  }

  lemma StreamIsGood(header: seq<uint8>, data: seq<uint8>)
    requires |header| == 13 && |data| < 0x1_0000_0000
    ensures GoodFile(Stream(header, data))
  {
    GoodEnd();
    GoodBefore(IDAT, data, Chunk(IEND, []));
    GoodBefore(IHDR, header, Chunk(IDAT, data) + Chunk(IEND, []));
    Regrouped(SIGNATURE, Chunk(IHDR, header), Chunk(IDAT, data), Chunk(IEND, []));
  }

  /** Every file the writer makes passes, for every size and image, whether its stream was cut or not. */
  lemma FileIsGood(px: seq<uint8>, w: uint32, h: uint32)
    requires |px| == w * h
    ensures GoodFile(File(px, w, h))
  {
    StreamIsGood(Header(w, h), ImageData(Raw(px, w, h)));
  }

  // ---- where the bytes are ----

  lemma Be32Bytes(v: uint32, b: seq<uint8>)
    requires b == Be32(v)
    ensures |b| == 4
    ensures v == 0x100_0000 * (b[0] as int) + 0x1_0000 * (b[1] as int) + 0x100 * (b[2] as int) + b[3]
  {
    Be32RoundTrip(v);
  }

  lemma Flattened(s: seq<uint8>, n: seq<uint8>, kind: seq<uint8>, c: seq<uint8>, d: seq<uint8>, e: seq<uint8>,
                  crc: seq<uint8>, m: seq<uint8>, t: seq<uint8>)
    ensures s + (n + kind + (c + d + e) + crc) + m + t == s + n + kind + c + d + e + (crc + m + t)
  {
  }

  lemma Fields(s: seq<uint8>, n: seq<uint8>, kind: seq<uint8>, c: seq<uint8>, d: seq<uint8>, e: seq<uint8>,
               rest: seq<uint8>)
    requires |s| == 8 && |n| == |kind| == |c| == |d| == 4 && |e| == 5
    ensures var f := s + n + kind + c + d + e + rest;
      |f| == 29 + |rest| && f[..8] == s && f[8..12] == n && f[12..16] == kind
      && f[16..20] == c && f[20..24] == d && f[24..29] == e
  {
  }

  lemma FileFlattened(px: seq<uint8>, w: uint32, h: uint32) returns (rest: seq<uint8>)
    requires |px| == w * h
    ensures File(px, w, h) == SIGNATURE + Be32(13) + IHDR + Be32(w) + Be32(h) + [8, 0, 0, 0, 0] + rest
  {
    var crc := Be32(ChecksumOf(IHDR + Header(w, h)));
    var m, t := Chunk(IDAT, ImageData(Raw(px, w, h))), Chunk(IEND, []);
    rest := crc + m + t;
    Flattened(SIGNATURE, Be32(13), IHDR, Be32(w), Be32(h), [8, 0, 0, 0, 0], crc, m, t);
  }

  lemma SizeOfHeader(n: uint32)
    requires n == 13
    ensures Be32(n) == [0, 0, 0, 13]
  {
  }

  /** A file begins with the signature and the header chunk: thirteen bytes, the size with the high byte first,
      eight bits of gray. */
  lemma FileBegins(px: seq<uint8>, w: uint32, h: uint32) returns (d: seq<uint8>)
    requires |px| == w * h
    ensures d == File(px, w, h) && |d| >= 29
    ensures d[..8] == [137, 80, 78, 71, 13, 10, 26, 10] && d[8..12] == [0, 0, 0, 13] && d[12..16] == [73, 72, 68, 82]
    ensures w == 0x100_0000 * (d[16] as int) + 0x1_0000 * (d[17] as int) + 0x100 * (d[18] as int) + d[19]
    ensures h == 0x100_0000 * (d[20] as int) + 0x1_0000 * (d[21] as int) + 0x100 * (d[22] as int) + d[23]
    ensures d[24..29] == [8, 0, 0, 0, 0]
  {
    d := File(px, w, h);
    var rest := FileFlattened(px, w, h);
    Fields(SIGNATURE, Be32(13), IHDR, Be32(w), Be32(h), [8, 0, 0, 0, 0], rest);
    SizeOfHeader(13);
    Be32Bytes(w, d[16..20]);
    Be32Bytes(h, d[20..24]);
  }

  lemma Suffix(a: seq<uint8>, b: seq<uint8>)
    ensures (a + b)[|a + b| - |b|..] == b
  {
  }

  lemma EndWords(n: uint32, crc: uint32)
    requires n == 0 && crc == 0xAE42_6082
    ensures Be32(n) == [0, 0, 0, 0] && Be32(crc) == [0xAE, 0x42, 0x60, 0x82]
  {
  }

  lemma Twelve(a: seq<uint8>, b: seq<uint8>, e: seq<uint8>, c: seq<uint8>)
    requires a == [0, 0, 0, 0] && b == [73, 69, 78, 68] && e == [] && c == [0xAE, 0x42, 0x60, 0x82]
    ensures a + b + e + c == [0, 0, 0, 0, 73, 69, 78, 68, 0xAE, 0x42, 0x60, 0x82]
  {
  }

  lemma EndChunk(data: seq<uint8>)
    requires data == []
    ensures Chunk(IEND, data) == [0, 0, 0, 0, 73, 69, 78, 68, 0xAE, 0x42, 0x60, 0x82]
  {
    assert IEND + data == IEND;
    EndChecksum(IEND + data);
    EndWords(|data|, ChecksumOf(IEND + data));
    Twelve(Be32(|data|), IEND, data, Be32(ChecksumOf(IEND + data)));
  }

  /** It ends with the end chunk, whose twelve bytes are always the same. */
  lemma FileEnds(px: seq<uint8>, w: uint32, h: uint32) returns (d: seq<uint8>)
    requires |px| == w * h
    ensures d == File(px, w, h) && |d| >= 12
    ensures d[|d| - 12..] == [0, 0, 0, 0, 73, 69, 78, 68, 0xAE, 0x42, 0x60, 0x82]
  {
    d := File(px, w, h);
    var front := SIGNATURE + Chunk(IHDR, Header(w, h)) + Chunk(IDAT, ImageData(Raw(px, w, h)));
    EndChunk([]);
    Suffix(front, Chunk(IEND, []));
  }

  // ---- the image data ----

  /** A byte put in front of a message enters the first sum once and the second as often as there are bytes. */
  lemma {:induction false} AdlerFront(b: uint8, p: seq<uint8>)
    ensures SumOfBytes([b] + p) == SumOfBytes(p) + b
    ensures SumOfSums([b] + p) == SumOfSums(p) + (|p| + 1) * b + 1
    decreases |p|
  {
    if p == [] {
      assert [b] + p == [b] && [b][..0] == [];
    } else {
      var most := p[..|p| - 1];
      AdlerFront(b, most);
      assert ([b] + p)[..|p|] == [b] + most;
      assert (|most| + 1) * b + b == (|p| + 1) * b;
    }
  }

  lemma SixParts(a: seq<uint8>, b: seq<uint8>, c: seq<uint8>, e: seq<uint8>)
    ensures a + (b + c) + e == a + b + c + e
  {
  }

  /** The zlib stream of a short image: the zlib header, one final stored block with its length, low byte first,
      and the complement, the data, and the two sums, the second one in front. */
  lemma ShortStream(r: seq<uint8>, n: nat, a: nat, b: nat)
    requires n == |r| && 0 < n <= 65535 && a == SumOfBytes(r) % 65521 && b == SumOfSums(r) % 65521
    ensures Zlib(r) == [0x78, 0x01] + [1, n % 0x100, n / 0x100, 255 - n % 0x100, 255 - n / 0x100] + r
                       + [b / 0x100, b % 0x100, a / 0x100, a % 0x100]
  {
    SumWords(a, b);
    LengthWords(n);
    var head: seq<uint8> := [1, n % 0x100, n / 0x100, 255 - n % 0x100, 255 - n / 0x100];
    assert Stored(r) == head + r;
    SixParts([0x78, 0x01], head, r, Be32(b * 0x1_0000 + a));
  }

  lemma LowWord(a: nat, b: nat)
    requires a < 0x1_0000
    ensures (b * 0x1_0000 + a) / 0x1_0000 == b && (b * 0x1_0000 + a) % 0x100 == a % 0x100
  {
  }

  lemma MiddleByte(a: nat, b: nat)
    requires a < 0x1_0000
    ensures (b * 0x1_0000 + a) / 0x100 % 0x100 == a / 0x100
  {
    assert (b * 0x1_0000 + a) / 0x100 == b * 0x100 + a / 0x100;
  }

  lemma HighByte(v: nat)
    ensures v / 0x100_0000 == v / 0x1_0000 / 0x100
  {
  }

  lemma SumWords(a: nat, b: nat)
    requires a < 65521 && b < 65521
    ensures Be32(b * 0x1_0000 + a) == [b / 0x100, b % 0x100, a / 0x100, a % 0x100]
  {
    LowWord(a, b);
    MiddleByte(a, b);
    HighByte(b * 0x1_0000 + a);
  }

  lemma LengthWords(n: nat)
    requires n <= 65535
    ensures (65535 - n) % 0x100 == 255 - n % 0x100 && (65535 - n) / 0x100 == 255 - n / 0x100
  {
  }

  /** Each row of the data is a zero and then the samples: white for shade 0, black for shade 3, in equal steps. */
  lemma {:induction false} RawSamples(raw: seq<uint8>, px: seq<uint8>, w: nat, h: nat, y: nat, x: nat, o: nat, i: nat)
    requires |px| == w * h && raw == Raw(px, w, h) && y < h && x < w && o == y * (w + 1) && i == y * w + x
    ensures o + 1 + x < |raw| && i < |px| && raw[o] == 0 && raw[o + 1 + x] == [255, 170, 85, 0][px[i] % 4]
    decreases y
  {
    var row, rest := RowAndRest(px, w, h);
    if y == 0 {
      Top(w, o, i, x);
      FirstRow(row, rest, x);
      GrayLevel(px[x] % 4);
    } else {
      var o', i' := Above(w, y, x, o, i);
      RawSamples(rest, px[w..], w, h - 1, y - 1, x, o', i');
      LaterRows(row, rest, o', x);
    }
  }

  lemma RowAndRest(px: seq<uint8>, w: nat, h: nat) returns (row: seq<uint8>, rest: seq<uint8>)
    requires |px| == w * h && h > 0
    ensures w <= |px| && |px[w..]| == w * (h - 1) && rest == Raw(px[w..], w, h - 1)
    ensures row == [0] + GrayRow(px[..w]) && Raw(px, w, h) == row + rest
  {
    RawRow(px, w, h);
    row, rest := [0] + GrayRow(px[..w]), Raw(px[w..], w, h - 1);
  }

  lemma Top(w: nat, o: nat, i: nat, x: nat)
    requires o == 0 * (w + 1) && i == 0 * w + x
    ensures o == 0 && i == x
  {
  }

  lemma Above(w: nat, y: nat, x: nat, o: nat, i: nat) returns (o': nat, i': nat)
    requires y > 0 && o == y * (w + 1) && i == y * w + x
    ensures o' + (w + 1) == o && o' == (y - 1) * (w + 1)
    ensures i' + w == i && i' == (y - 1) * w + x
  {
    assert (y - 1) * (w + 1) == y * (w + 1) - (w + 1);
    o', i' := (y - 1) * (w + 1), (y - 1) * w + x;
  }

  lemma FirstRow(row: seq<uint8>, rest: seq<uint8>, x: nat)
    requires x + 1 < |row|
    ensures (row + rest)[0] == row[0] && (row + rest)[1 + x] == row[1 + x]
  {
  }

  lemma LaterRows(row: seq<uint8>, rest: seq<uint8>, at: nat, x: nat)
    requires at + 1 + x < |rest|
    ensures (row + rest)[at + |row|] == rest[at] && (row + rest)[at + |row| + 1 + x] == rest[at + 1 + x]
  {
  }

  lemma GrayLevel(c: Colour)
    ensures Gray(c) == [255, 170, 85, 0][c]
  {
  }
}
