/** The PNG writer's byte stream: signature, chunks, a zlib stream of stored blocks. */
module PngFormat {
  import opened Bytes
  import Crc

  const SIGNATURE: seq<uint8> := [137, 80, 78, 71, 13, 10, 26, 10]
  const IHDR: seq<uint8> := [73, 72, 68, 82]
  const IDAT: seq<uint8> := [73, 68, 65, 84]
  const IEND: seq<uint8> := [73, 69, 78, 68]

  /** Shade 0 is white, shade 3 black. */
  function Gray(c: Colour): uint8 { 255 - 85 * c }

  function Be32(v: uint32): (b: seq<uint8>)
    ensures |b| == 4
  {
    [v / 0x100_0000, v / 0x1_0000 % 0x100, v / 0x100 % 0x100, v % 0x100]
  }

  function FromBe32(b: seq<uint8>): uint32
    requires |b| == 4
  {
    var b0: int, b1: int, b2: int := b[0], b[1], b[2];
    0x100_0000 * b0 + 0x1_0000 * b1 + 0x100 * b2 + b[3]
  }

  lemma Be32RoundTrip(v: uint32)
    ensures FromBe32(Be32(v)) == v
  {
    assert v == 0x100 * (v / 0x100) + v % 0x100;
    assert v / 0x100 == 0x100 * (v / 0x1_0000) + v / 0x100 % 0x100;
    assert v / 0x1_0000 == 0x100 * (v / 0x100_0000) + v / 0x1_0000 % 0x100;
  }

  /** The rows before compression: a filter byte of 0 and the samples. */
  function GrayRow(px: seq<uint8>): (r: seq<uint8>)
    ensures |r| == |px| && forall x :: 0 <= x < |px| ==> r[x] == Gray(px[x] % 4)
  {
    seq(|px|, x requires 0 <= x < |px| => Gray(px[x] % 4))
  }

  function Raw(px: seq<uint8>, w: nat, h: nat): (r: seq<uint8>)
    requires |px| == w * h
    ensures |r| == h * (w + 1)
  {
    if h == 0 then [] else
    assert |px[w..]| == w * (h - 1);
    [0] + GrayRow(px[..w]) + Raw(px[w..], w, h - 1)
  }

  // ---- RFC 1950 and RFC 1951 ----

  /** A stored block: its header, its length twice, its bytes (section 3.2.4 of RFC 1951). */
  function Block(last: bool, data: seq<uint8>): (b: seq<uint8>)
    requires |data| <= 65535
    ensures |b| == |data| + 5
  {
    [if last then 1 else 0, |data| % 0x100, |data| / 0x100, (65535 - |data|) % 0x100, (65535 - |data|) / 0x100] + data
  }

  function Stored(r: seq<uint8>): seq<uint8> {
    if r == [] then []
    else if |r| <= 65535 then Block(true, r)
    else Block(false, r[..65535]) + Stored(r[65535..])
  }

  /** One plus the sum of the bytes, and the sum of those sums (section 8.2 of RFC 1950). */
  function SumOfBytes(p: seq<uint8>): nat {
    if p == [] then 1 else SumOfBytes(p[..|p| - 1]) + p[|p| - 1]
  }

  function SumOfSums(p: seq<uint8>): nat {
    if p == [] then 0 else SumOfSums(p[..|p| - 1]) + SumOfBytes(p)
  }

  function Adler(p: seq<uint8>): uint32 {
    SumOfSums(p) % 65521 * 0x1_0000 + SumOfBytes(p) % 65521
  }

  function Zlib(r: seq<uint8>): seq<uint8> { [0x78, 0x01] + Stored(r) + Be32(Adler(r)) }

  /** The number of stored blocks, and the length of the whole zlib stream, for `n` bytes. */
  function Blocks(n: nat): nat { (n + 65534) / 65535 }

  function ZlibLength(n: nat): nat { n + 5 * Blocks(n) + 6 }

  lemma {:induction false} StoredLength(r: seq<uint8>)
    ensures |Stored(r)| == |r| + 5 * Blocks(|r|)
    decreases |r|
  {
    if |r| > 65535 {
      StoredLength(r[65535..]);
    }
  }

  // ---- chunks ----

  function ChecksumOf(p: seq<uint8>): uint32 { Crc.Checksum(p) as int }

  function Chunk(kind: seq<uint8>, data: seq<uint8>): seq<uint8>
    requires |data| < 0x1_0000_0000
  {
    Be32(|data|) + kind + data + Be32(ChecksumOf(kind + data))
  }

  function Header(w: uint32, h: uint32): (b: seq<uint8>)
    ensures |b| == 13
  {
    Be32(w) + Be32(h) + [8, 0, 0, 0, 0]
  }

  /** The 32-bit chunk length keeps only part of a longer zlib stream. */
  function ImageData(r: seq<uint8>): (z: seq<uint8>)
    ensures |z| < 0x1_0000_0000
  {
    var z := Zlib(r);
    z[..|z| % 0x1_0000_0000]
  }

  function Stream(header: seq<uint8>, data: seq<uint8>): seq<uint8>
    requires |header| == 13 && |data| < 0x1_0000_0000
  {
    SIGNATURE + Chunk(IHDR, header) + Chunk(IDAT, data) + Chunk(IEND, [])
  }

  /** The file `png_write_gray` produces for `w` by `h` shade indices. */
  function File(px: seq<uint8>, w: uint32, h: uint32): seq<uint8>
    requires |px| == w * h
  {
    Stream(Header(w, h), ImageData(Raw(px, w, h)))
  }

  // ---- stepwise forms ----

  lemma Sums(p: seq<uint8>, i: nat)
    requires i < |p|
    ensures SumOfBytes(p[..i + 1]) == SumOfBytes(p[..i]) + p[i]
    ensures SumOfSums(p[..i + 1]) == SumOfSums(p[..i]) + SumOfBytes(p[..i + 1])
  {
    assert p[..i + 1][..i] == p[..i];
  }

  lemma RawRow(px: seq<uint8>, w: nat, h: nat)
    requires |px| == w * h && h > 0
    ensures w <= |px| && |px[w..]| == w * (h - 1)
    ensures Raw(px, w, h) == [0] + GrayRow(px[..w]) + Raw(px[w..], w, h - 1)
  {
    assert w * h == w + w * (h - 1);
  }
}

/** The writer itself: buffers filled through indices, then three chunks. */
module PngWriter {
  import opened Bytes
  import opened PngFormat
  import Crc

  /** The open file: everything written so far. */
  class Output {
    var bytes: seq<uint8>

    constructor ()
      ensures bytes == []
    {
      bytes := [];
    }

    method Write(p: seq<uint8>)
      modifies this
      ensures bytes == old(bytes) + p
    {
      bytes := bytes + p;
    }

    method PutBe32(v: uint32)
      modifies this
      ensures bytes == old(bytes) + Be32(v)
    {
      bytes := bytes + [v / 0x100_0000];
      bytes := bytes + [v / 0x1_0000 % 0x100];
      bytes := bytes + [v / 0x100 % 0x100];
      bytes := bytes + [v % 0x100];
    }
  }

  lemma AddMod(s: nat, t: nat, d: nat)
    requires t == s % 65521
    ensures (t + d) % 65521 == (s + d) % 65521
  {
  }

  method Adler32(p: seq<uint8>) returns (r: uint32)
    ensures r == Adler(p)
  {
    var a: nat, b: nat := 1, 0;
    for i := 0 to |p|
      invariant a == SumOfBytes(p[..i]) % 65521
      invariant b == SumOfSums(p[..i]) % 65521
    {
      Sums(p, i);
      AddMod(SumOfBytes(p[..i]), a, p[i]);
      AddMod(SumOfBytes(p[..i + 1]), SumOfBytes(p[..i + 1]) % 65521, SumOfSums(p[..i]));
      AddMod(SumOfSums(p[..i]), b, (a + p[i]) % 65521);
      a := (a + p[i]) % 65521;
      b := (b + a) % 65521;
    }
    assert p[..|p|] == p;
    r := b * 0x1_0000 + a;
  }

  /** `memcpy`. */
  method Copy(dst: array<uint8>, at: nat, src: seq<uint8>)
    requires at + |src| <= dst.Length
    modifies dst
    ensures dst[..at + |src|] == old(dst[..at]) + src
  {
    for i := 0 to |src|
      invariant dst[..at + i] == old(dst[..at]) + src[..i]
    {
      dst[at + i] := src[i];
    }
  }

  method ChunkBody(table: Crc.Table, kind: seq<uint8>, data: seq<uint8>) returns (body: seq<uint8>, crc: uint32)
    requires table.Valid() && |kind| == 4 && |data| + 4 < 0x1_0000_0000
    modifies table, table.entries
    ensures table.Valid()
    ensures body == kind + data && crc == ChecksumOf(body)
  {
    var tmp := new uint8[|data| + 4];
    Copy(tmp, 0, kind);
    assert tmp[..4] == kind;
    Copy(tmp, 4, data);
    body := tmp[..4 + |data|];
    var c := table.Crc32(body);
    crc := c as int;
  }

  lemma Framed(before: seq<uint8>, length: seq<uint8>, kind: seq<uint8>, data: seq<uint8>, crc: seq<uint8>)
    ensures before + length + (kind + data) + crc == before + (length + kind + data + crc)
  {
  }

  /** The chunk length is 32 bits wide, and so is the size of the buffer its checksum is taken over. */
  method WriteChunk(f: Output, table: Crc.Table, kind: seq<uint8>, data: seq<uint8>)
    requires table.Valid() && |kind| == 4 && |data| + 4 < 0x1_0000_0000
    modifies f, table, table.entries
    ensures table.Valid()
    ensures f.bytes == old(f.bytes) + Chunk(kind, data)
  {
    f.PutBe32(|data|);
    var tmp, crc := ChunkBody(table, kind, data);
    f.Write(tmp);
    f.PutBe32(crc);
    Framed(old(f.bytes), Be32(|data|), kind, data, Be32(crc));
  }

  method FillRow(raw: array<uint8>, at: nat, px: seq<uint8>)
    requires at + |px| < raw.Length
    modifies raw
    ensures raw[..at + 1 + |px|] == old(raw[..at]) + ([0] + GrayRow(px))
  {
    var o := at;
    raw[o] := 0;
    o := o + 1;
    for x := 0 to |px|
      invariant o == at + 1 + x
      invariant raw[..o] == old(raw[..at]) + [0] + GrayRow(px)[..x]
    {
      raw[o] := Gray(px[x] % 4);
      o := o + 1;
    }
  }

  ghost predicate AtRow(indices: seq<uint8>, w: nat, h: nat, y: nat) {
    y <= h && |indices| == w * h && 0 <= y * w <= |indices| && |indices[y * w..]| == w * (h - y)
  }

  /** The rows that are still to be filled in. */
  ghost function RowsLeft(indices: seq<uint8>, w: nat, h: nat, y: nat): seq<uint8>
    requires AtRow(indices, w, h, y)
  {
    Raw(indices[y * w..], w, h - y)
  }

  ghost predicate RowsFilled(done: seq<uint8>, indices: seq<uint8>, w: nat, h: nat, y: nat) {
    && AtRow(indices, w, h, y) && |done| == y * (w + 1)
    && done + RowsLeft(indices, w, h, y) == Raw(indices, w, h)
  }

  lemma NextRow(indices: seq<uint8>, w: nat, h: nat, y: nat)
    requires y < h && AtRow(indices, w, h, y)
    ensures y * w + w <= |indices| && (y + 1) * w == y * w + w
    ensures AtRow(indices, w, h, y + 1)
  {
    OneRowLess(w, h - y);
    OneRowMore(w, y);
  }

  lemma OneRowLess(w: nat, k: nat)
    requires k > 0
    ensures w * k == w + w * (k - 1) && w * (k - 1) >= 0
  {
  }

  lemma OneRowMore(w: nat, y: nat)
    ensures (y + 1) * w == y * w + w
  {
  }

  lemma RowRest(indices: seq<uint8>, w: nat, h: nat, y: nat)
    requires y < h && AtRow(indices, w, h, y) && AtRow(indices, w, h, y + 1)
    requires y * w + w <= |indices| && (y + 1) * w == y * w + w
    ensures RowsLeft(indices, w, h, y) ==
            ([0] + GrayRow(indices[y * w..y * w + w])) + RowsLeft(indices, w, h, y + 1)
  {
    var here := indices[y * w..];
    RawRow(here, w, h - y);
    assert here[..w] == indices[y * w..y * w + w];
    assert here[w..] == indices[(y + 1) * w..];
  }

  /** A piece moves from what is left to what is done. */
  lemma Moves(done: seq<uint8>, piece: seq<uint8>, left: seq<uint8>, was: seq<uint8>, whole: seq<uint8>)
    requires was == piece + left && done + was == whole
    ensures (done + piece) + left == whole
  {
  }

  lemma RowFilled(done: seq<uint8>, row: seq<uint8>, indices: seq<uint8>, w: nat, h: nat, y: nat)
    requires y < h && RowsFilled(done, indices, w, h, y)
    requires y * w + w <= |indices|
    requires row == [0] + GrayRow(indices[y * w..y * w + w])
    ensures RowsFilled(done + row, indices, w, h, y + 1)
  {
    NextRow(indices, w, h, y);
    RowRest(indices, w, h, y);
    Moves(done, row, RowsLeft(indices, w, h, y + 1), RowsLeft(indices, w, h, y), Raw(indices, w, h));
    RowLength(w, y);
  }

  lemma RowLength(w: nat, y: nat)
    ensures y * (w + 1) + (1 + w) == (y + 1) * (w + 1)
  {
  }

  lemma RowInside(w: nat, h: nat, y: nat)
    requires y < h
    ensures y * w + w <= w * h && y * (w + 1) + 1 + w <= h * (w + 1)
  {
    assert (y + 1) * w <= h * w;
    assert (y + 1) * (w + 1) <= h * (w + 1);
  }

  lemma NoRows(indices: seq<uint8>, w: nat, h: nat)
    requires |indices| == w * h
    ensures RowsFilled([], indices, w, h, 0)
  {
    assert indices[0 * w..] == indices;
    assert [] + Raw(indices, w, h) == Raw(indices, w, h);
  }

  lemma AllRows(done: seq<uint8>, indices: seq<uint8>, w: nat, h: nat)
    requires RowsFilled(done, indices, w, h, h)
    ensures done == Raw(indices, w, h)
  {
    assert RowsLeft(indices, w, h, h) == [];
  }

  method FillNext(raw: array<uint8>, o: nat, indices: seq<uint8>, w: nat, h: nat, y: nat) returns (o': nat)
    requires y < h && o <= raw.Length == h * (w + 1) && RowsFilled(raw[..o], indices, w, h, y)
    modifies raw
    ensures o' <= raw.Length && RowsFilled(raw[..o'], indices, w, h, y + 1)
  {
    RowInside(w, h, y);
    var px := indices[y * w..y * w + w];
    ghost var done := raw[..o];
    RowFilled(done, [0] + GrayRow(px), indices, w, h, y);
    FillRow(raw, o, px);
    o' := o + 1 + w;
    assert raw[..o'] == done + ([0] + GrayRow(px));
  }

  method FillRaw(indices: seq<uint8>, w: nat, h: nat) returns (raw: array<uint8>)
    requires |indices| == w * h
    ensures fresh(raw) && raw[..] == Raw(indices, w, h)
  {
    raw := new uint8[h * (w + 1)];
    var o := 0;
    NoRows(indices, w, h);
    assert raw[..o] == [];
    for y := 0 to h
      invariant 0 <= o <= raw.Length && RowsFilled(raw[..o], indices, w, h, y)
    {
      o := FillNext(raw, o, indices, w, h, y);
    }
    AllRows(raw[..o], indices, w, h);
    assert raw[..o] == raw[..];
  }

  lemma StoredStep(raw: seq<uint8>, pos: nat, block: nat, last: bool)
    requires pos < |raw|
    requires block == if |raw| - pos > 65535 then 65535 else |raw| - pos
    requires last <==> pos + block >= |raw|
    ensures pos + block <= |raw|
    ensures Stored(raw[pos..]) == Block(last, raw[pos..pos + block]) + Stored(raw[pos + block..])
  {
    var r := raw[pos..];
    if |r| > 65535 {
      assert r[..65535] == raw[pos..pos + 65535] && r[65535..] == raw[pos + 65535..];
    } else {
      assert r == raw[pos..pos + block] && raw[pos + block..] == [];
    }
  }

  method WriteBlock(z: array<uint8>, at: nat, last: bool, data: seq<uint8>) returns (zo: nat)
    requires |data| <= 65535 && at + 5 + |data| <= z.Length
    modifies z
    ensures zo == at + 5 + |data|
    ensures z[..zo] == old(z[..at]) + Block(last, data)
  {
    zo := at;
    var nlen := 65535 - |data|;
    Copy(z, zo, [if last then 1 else 0, |data| % 0x100, |data| / 0x100, nlen % 0x100, nlen / 0x100]);
    zo := zo + 5;
    Copy(z, zo, data);
    zo := zo + |data|;
  }

  /** The loop takes all the input, marks the last block and stays inside the buffer. */
  method WriteStored(z: array<uint8>, at: nat, raw: seq<uint8>) returns (zo: nat)
    requires at + |raw| + 5 * Blocks(|raw|) <= z.Length
    modifies z
    ensures zo == at + |Stored(raw)| <= z.Length
    ensures z[..zo] == old(z[..at]) + Stored(raw)
  {
    StoredLength(raw);
    zo := at;
    var pos := 0;
    ghost var left := Stored(raw);
    ghost var whole := z[..at] + left;
    while pos < |raw|
      invariant 0 <= pos <= |raw| && at <= zo <= z.Length
      invariant left == Stored(raw[pos..])
      invariant z[..zo] + left == whole
    {
      var block := |raw| - pos;
      if block > 65535 {
        block := 65535;
      }
      var last := pos + block >= |raw|;
      StoredStep(raw, pos, block, last);
      ghost var rest := Stored(raw[pos + block..]);
      Moves(z[..zo], Block(last, raw[pos..pos + block]), rest, left, whole);
      Fits(z[..zo], Block(last, raw[pos..pos + block]), rest, left, whole);
      zo := WriteBlock(z, zo, last, raw[pos..pos + block]);
      pos := pos + block;
      left := rest;
    }
  }

  lemma Fits(done: seq<uint8>, piece: seq<uint8>, left: seq<uint8>, was: seq<uint8>, whole: seq<uint8>)
    requires was == piece + left && done + was == whole
    ensures |done| + |piece| <= |whole|
  {
  }

  lemma Capacity(n: nat)
    ensures Blocks(n) <= n / 65535 + 1
  {
  }

  /** The zlib stream, in a buffer of the program's size. */
  method WriteZlib(raw: seq<uint8>) returns (z: array<uint8>, zo: nat)
    ensures fresh(z) && z.Length == |raw| + (|raw| / 65535 + 1) * 5 + 16
    ensures zo == ZlibLength(|raw|) <= z.Length && z[..zo] == Zlib(raw)
  {
    Capacity(|raw|);
    StoredLength(raw);
    z := new uint8[|raw| + (|raw| / 65535 + 1) * 5 + 16];
    Copy(z, 0, [0x78, 0x01]);
    zo := WriteStored(z, 2, raw);
    assert z[..zo] == [0x78, 0x01] + Stored(raw);
    var ad := Adler32(raw);
    StoreBe32(z, zo, ad);
    zo := zo + 4;
  }

  method StoreBe32(z: array<uint8>, at: nat, v: uint32)
    requires at + 4 <= z.Length
    modifies z
    ensures z[..at + 4] == old(z[..at]) + Be32(v)
  {
    z[at] := v / 0x100_0000;
    z[at + 1] := v / 0x1_0000 % 0x100;
    z[at + 2] := v / 0x100 % 0x100;
    z[at + 3] := v % 0x100;
  }

  lemma Cut(n: nat)
    ensures n % 0x1_0000_0000 <= n
  {
  }

  /** The zlib stream, cut to the 32 bits of its chunk length. */
  method Deflate(raw: seq<uint8>) returns (data: seq<uint8>)
    ensures data == ImageData(raw) && |data| == ZlibLength(|raw|) % 0x1_0000_0000
  {
    var z, zo := WriteZlib(raw);
    Cut(zo);
    ghost var stream := z[..zo];
    var n := zo % 0x1_0000_0000;
    data := z[..n];
    assert data == stream[..n];
  }

  /** The signature, then the header, image and end chunks. */
  method WriteChunks(f: Output, table: Crc.Table, header: seq<uint8>, data: seq<uint8>)
    requires f.bytes == [] && table.Valid()
    requires |header| == 13 && |data| + 4 < 0x1_0000_0000
    modifies f, table, table.entries
    ensures table.Valid()
    ensures f.bytes == Stream(header, data)
  {
    f.Write(SIGNATURE);
    ghost var s0 := f.bytes;
    assert s0 == SIGNATURE;
    WriteChunk(f, table, IHDR, header);
    ghost var s1 := f.bytes;
    assert s1 == SIGNATURE + Chunk(IHDR, header);
    WriteChunk(f, table, IDAT, data);
    ghost var s2 := f.bytes;
    assert s2 == s1 + Chunk(IDAT, data);
    WriteChunk(f, table, IEND, []);
    assert f.bytes == s2 + Chunk(IEND, []);
  }

  /** The dimensions are `int`, and so is each pixel index. */
  method PngWriteGray(table: Crc.Table, w: nat, h: nat, indices: seq<uint8>) returns (f: Output)
    requires table.Valid()
    requires 1 <= w < 0x7FFF_FFFF && 1 <= h < 0x8000_0000 && |indices| == w * h <= 0x8000_0000
    requires ZlibLength(h * (w + 1)) % 0x1_0000_0000 + 4 < 0x1_0000_0000
    modifies table, table.entries
    ensures table.Valid() && fresh(f)
    ensures f.bytes == File(indices, w, h)
  {
    f := new Output();
    var raw := FillRaw(indices, w, h);
    var data := Deflate(raw[..]);
    WriteChunks(f, table, Header(w, h), data);
  }
}
