/** The reader of grayscale PNG files, with exceptions as `None`. Of zlib it models the container
    of section 2.2 of RFC 1950 around stored blocks. */
module PngReader {
  import opened Bytes
  import opened PngFormat

  datatype Header = Header(w: nat, h: nat, depth: nat, colour: nat) {
    /** Bytes in a row of samples. */
    function Stride(): nat { (w * depth + 7) / 8 }

    /** Distance in bytes to the sample on the left. */
    function Step(): nat { if depth / 8 > 1 then depth / 8 else 1 }
  }

  datatype Found = Found(header: Option<Header>, idat: seq<uint8>)

  datatype Image = Image(w: nat, h: nat, rows: seq<seq<int>>)

  // ---- chunks ----

  function Least(a: nat, b: nat): nat { if a < b then a else b }

  /** `d[lo:hi]`, which stops at the end of `d`. */
  function Slice(d: seq<uint8>, lo: nat, hi: nat): seq<uint8>
    requires lo <= hi
  {
    d[Least(lo, |d|)..Least(hi, |d|)]
  }

  function ParseHeader(body: seq<uint8>): Header
    requires |body| >= 10
  {
    Header(FromBe32(body[..4]), FromBe32(body[4..8]), body[8], body[9])
  }

  /** What a chunk that does not end the file adds to what was found. */
  function Absorb(s: Found, kind: seq<uint8>, body: seq<uint8>): Option<Found> {
    if kind == IHDR then
      if |body| < 10 then None else Some(s.(header := Some(ParseHeader(body))))
    else if kind == IDAT then Some(s.(idat := s.idat + body))
    else Some(s)
  }

  /** The length, kind and body of the chunk `d` starts with, and what follows its checksum. */
  function LengthOf(d: seq<uint8>): uint32
    requires |d| >= 4
  {
    FromBe32(d[..4])
  }

  function KindOf(d: seq<uint8>): seq<uint8> { Slice(d, 4, 8) }

  function BodyOf(d: seq<uint8>): seq<uint8>
    requires |d| >= 4
  {
    Slice(d, 8, 8 + LengthOf(d))
  }

  function After(d: seq<uint8>): (r: seq<uint8>)
    requires |d| >= 4
    ensures |r| < |d|
  {
    d[Least(12 + LengthOf(d), |d|)..]
  }

  function Chunks(d: seq<uint8>, s: Found): Option<Found>
    decreases |d|
  {
    if d == [] then Some(s)
    else if |d| < 4 then None
    else if KindOf(d) == IEND then Some(s)
    else
      match Absorb(s, KindOf(d), BodyOf(d))
      case None => None
      case Some(t) => Chunks(After(d), t)
  }

  // ---- zlib ----

  function Le16(lo: uint8, hi: uint8): nat { lo as int + 0x100 * (hi as int) }

  /** The data of the stored blocks up to the last one, and what follows them. */
  function StoredBlocks(z: seq<uint8>): Option<(seq<uint8>, seq<uint8>)>
    decreases |z|
  {
    if |z| < 5 || z[0] / 2 % 4 != 0 then None
    else
      var length := Le16(z[1], z[2]);
      if Le16(z[3], z[4]) != 65535 - length || |z| < 5 + length then None
      else
        var data, rest := z[5..5 + length], z[5 + length..];
        if z[0] % 2 == 1 then Some((data, rest))
        else
          match StoredBlocks(rest)
          case None => None
          case Some(more) => Some((data + more.0, more.1))
  }

  predicate ZlibHeader(z: seq<uint8>) {
    |z| >= 2 && (0x100 * z[0] as int + z[1]) % 31 == 0 && z[0] % 16 == 8 && z[0] / 16 <= 7 && z[1] / 32 % 2 == 0
  }

  function Inflated(z: seq<uint8>): Option<seq<uint8>> {
    if !ZlibHeader(z) then None
    else
      match StoredBlocks(z[2..])
      case None => None
      case Some(r) => if |r.1| < 4 || r.1[..4] != Be32(Adler(r.0)) then None else Some(r.0)
  }

  // ---- rows ----

  function Distance(a: int, b: int): nat { if a < b then b - a else a - b }

  function Paeth(a: uint8, b: uint8, c: uint8): uint8 {
    var p := a as int + b - c;
    if Distance(p, a) <= Distance(p, b) && Distance(p, a) <= Distance(p, c) then a
    else if Distance(p, b) <= Distance(p, c) then b
    else c
  }

  /** What filter type `ft` predicts from the bytes to the left, above and above left. */
  function Predicted(ft: uint8, a: uint8, b: uint8, c: uint8): uint8 {
    if ft == 1 then a
    else if ft == 2 then b
    else if ft == 3 then (a as int + b) / 2
    else if ft == 4 then Paeth(a, b, c)
    else 0
  }

  /** The prediction for byte `x` of a row of which at least the bytes before `x` are known. */
  function PredictedAt(ft: uint8, line: seq<uint8>, prev: seq<uint8>, step: nat, x: nat): uint8
    requires x <= |line| && x < |prev|
  {
    if 1 <= step <= x then Predicted(ft, line[x - step], prev[x], prev[x - step])
    else Predicted(ft, 0, prev[x], 0)
  }

  /** The first `n` bytes of a row, unfiltered one after the other. */
  function Unfiltered(ft: uint8, line: seq<uint8>, prev: seq<uint8>, step: nat, n: nat): (r: seq<uint8>)
    requires n <= |line| == |prev|
    ensures |r| == n
  {
    if n == 0 then [] else
    var done := Unfiltered(ft, line, prev, step, n - 1);
    done + [(line[n - 1] as int + PredictedAt(ft, done, prev, step, n - 1)) % 0x100]
  }

  /** Sample `x`, scaled to 0..255. */
  function Sample(line: seq<uint8>, depth: nat, x: nat): Option<int> {
    var at := x * depth;
    var shift := 8 - depth - at % 8;
    if at / 8 >= |line| || shift < 0 || Pow2(depth) == 1 then None
    else Some(line[at / 8] / Pow2(shift) % Pow2(depth) * 255 / (Pow2(depth) - 1))
  }

  function Samples(line: seq<uint8>, depth: nat, n: nat): Option<seq<int>> {
    if n == 0 then Some([])
    else
      match Samples(line, depth, n - 1)
      case None => None
      case Some(row) =>
        match Sample(line, depth, n - 1)
        case None => None
        case Some(v) => Some(row + [v])
  }

  /** A full byte is its own sample. */
  function RowOf(line: seq<uint8>, hd: Header): Option<seq<int>>
    requires |line| == hd.Stride()
  {
    if hd.depth == 8 then Some(line[..hd.w]) else Samples(line, hd.depth, hd.w)
  }

  function Rows(raw: seq<uint8>, hd: Header, h: nat, prev: seq<uint8>): Option<seq<seq<int>>>
    requires |prev| == hd.Stride()
    decreases h
  {
    if h == 0 then Some([])
    else if |raw| < 1 + hd.Stride() then None
    else
      var line := Unfiltered(raw[0], raw[1..1 + hd.Stride()], prev, hd.Step(), hd.Stride());
      match RowOf(line, hd)
      case None => None
      case Some(row) =>
        match Rows(raw[1 + hd.Stride()..], hd, h - 1, line)
        case None => None
        case Some(rows) => Some([row] + rows)
  }

  /** The picture, once the chunks are sorted out. */
  function DecodeData(hd: Header, idat: seq<uint8>): Option<Image> {
    match Inflated(idat)
    case None => None
    case Some(raw) =>
      match Rows(raw, hd, hd.h, Zeros(hd.Stride()))
      case None => None
      case Some(rows) => Some(Image(hd.w, hd.h, rows))
  }

  function Decode(d: seq<uint8>): Option<Image> {
    if Slice(d, 0, 8) != SIGNATURE then None
    else
      match Chunks(d[8..], Found(None, []))
      case None => None
      case Some(s) =>
        if s.header.None? || s.header.value.colour != 0 then None
        else DecodeData(s.header.value, s.idat)
  }

  // ---- the reader's loops ----

  lemma ChunkAt(d: seq<uint8>, i: nat)
    requires i + 4 <= |d|
    ensures var length := FromBe32(d[i..i + 4]);
      && KindOf(d[i..]) == Slice(d, i + 4, i + 8)
      && BodyOf(d[i..]) == Slice(d, i + 8, i + 8 + length)
      && After(d[i..]) == d[Least(i + 12 + length, |d|)..]
  {
    assert d[i..][..4] == d[i..i + 4];
  }

  lemma ChunkStep(rest: seq<uint8>, s: Found)
    requires |rest| >= 4
    ensures Chunks(rest, s) ==
      if KindOf(rest) == IEND then Some(s)
      else if Absorb(s, KindOf(rest), BodyOf(rest)).None? then None
      else Chunks(After(rest), Absorb(s, KindOf(rest), BodyOf(rest)).value)
  {
  }

  /** One chunk at cursor `i`: the result, if the chunk decides it, or else what was found so far. */
  method ReadChunk(d: seq<uint8>, i: nat, s: Found) returns (done: bool, r: Option<Found>, next: nat)
    requires i < |d|
    ensures done ==> r == Chunks(d[i..], s)
    ensures !done ==> r.Some? && next > i && Chunks(d[i..], s) == Chunks(d[Least(next, |d|)..], r.value)
  {
    if |d| < i + 4 {
      return true, None, i;
    }
    ghost var rest := d[i..];
    ChunkAt(d, i);
    ChunkStep(rest, s);
    var length := FromBe32(d[i..i + 4]);
    var kind, body := Slice(d, i + 4, i + 8), Slice(d, i + 8, i + 8 + length);
    assert KindOf(rest) == kind && BodyOf(rest) == body;
    if kind == IEND {
      return true, Some(s), i;
    }
    r := Absorb(s, kind, body);
    done, next := r.None?, i + 12 + length;
    assert After(rest) == d[Least(next, |d|)..];
  }

  /** The cursor `i` moves from chunk to chunk; the image data accumulates. */
  method ReadChunks(d: seq<uint8>) returns (r: Option<Found>)
    requires |d| >= 8
    ensures r == Chunks(d[8..], Found(None, []))
  {
    var i := 8;
    r := Some(Found(None, []));
    while i < |d|
      invariant i >= 8 && r.Some?
      invariant Chunks(d[Least(i, |d|)..], r.value) == Chunks(d[8..], Found(None, []))
      decreases |d| - i
    {
      var done, t, next := ReadChunk(d, i, r.value);
      r := t;
      if done {
        return;
      }
      i := next;
    }
  }

  /** Unfilters a row in place: the bytes on the left are already restored. */
  method UnfilterLine(ft: uint8, line: array<uint8>, prev: seq<uint8>, step: nat)
    requires line.Length == |prev|
    modifies line
    ensures line[..] == Unfiltered(ft, old(line[..]), prev, step, |prev|)
  {
    ghost var was := line[..];
    for x := 0 to line.Length
      invariant line[..x] == Unfiltered(ft, was, prev, step, x)
      invariant forall k :: x <= k < line.Length ==> line[k] == was[k]
    {
      var a, b, c := 0, prev[x], 0;
      if 1 <= step <= x {
        a, c := line[x - step], prev[x - step];
      }
      assert Predicted(ft, a, b, c) == PredictedAt(ft, line[..x], prev, step, x);
      line[x] := (line[x] as int + Predicted(ft, a, b, c)) % 0x100;
    }
    assert line[..] == line[..line.Length];
  }

  function Prepend(out: seq<seq<int>>, more: Option<seq<seq<int>>>): Option<seq<seq<int>>> {
    match more
    case None => None
    case Some(rows) => Some(out + rows)
  }

  lemma RowsStep(raw: seq<uint8>, p: nat, hd: Header, h: nat, prev: seq<uint8>, out: seq<seq<int>>, line: seq<uint8>)
    requires |prev| == hd.Stride() && h > 0 && p + 1 + hd.Stride() <= |raw|
    requires line == Unfiltered(raw[p], raw[p + 1..p + 1 + hd.Stride()], prev, hd.Step(), hd.Stride())
    ensures Prepend(out, Rows(raw[p..], hd, h, prev)) ==
      if RowOf(line, hd).None? then None
      else Prepend(out + [RowOf(line, hd).value], Rows(raw[p + 1 + hd.Stride()..], hd, h - 1, line))
  {
    assert raw[p..][1..1 + hd.Stride()] == raw[p + 1..p + 1 + hd.Stride()];
    assert raw[p..][1 + hd.Stride()..] == raw[p + 1 + hd.Stride()..];
    var rest := Rows(raw[p + 1 + hd.Stride()..], hd, h - 1, line);
    if RowOf(line, hd).Some? && rest.Some? {
      assert out + ([RowOf(line, hd).value] + rest.value) == (out + [RowOf(line, hd).value]) + rest.value;
    }
  }

  method ReadLine(raw: seq<uint8>, p: nat, hd: Header, prev: seq<uint8>) returns (line: seq<uint8>)
    requires p + 1 + hd.Stride() <= |raw| && |prev| == hd.Stride()
    ensures line == Unfiltered(raw[p], raw[p + 1..p + 1 + hd.Stride()], prev, hd.Step(), hd.Stride())
  {
    var a := new uint8[hd.Stride()](i requires 0 <= i < hd.Stride() => raw[p + 1 + i]);
    assert a[..] == raw[p + 1..p + 1 + hd.Stride()];
    UnfilterLine(raw[p], a, prev, hd.Step());
    line := a[..];
  }

  lemma PrependNothing(more: Option<seq<seq<int>>>)
    ensures Prepend([], more) == more
  {
    assert more.Some? ==> [] + more.value == more.value;
  }

  lemma TooShort(raw: seq<uint8>, p: nat, hd: Header, h: nat, prev: seq<uint8>, out: seq<seq<int>>)
    requires |prev| == hd.Stride() && h > 0 && p <= |raw| < p + 1 + hd.Stride()
    ensures Prepend(out, Rows(raw[p..], hd, h, prev)) == None
  {
  }

  /** The rows `out`, and then those read from `raw`, make `whole`. */
  ghost predicate Makes(out: seq<seq<int>>, raw: seq<uint8>, hd: Header, h: nat, prev: seq<uint8>,
                        whole: Option<seq<seq<int>>>)
  {
    |prev| == hd.Stride() && Prepend(out, Rows(raw, hd, h, prev)) == whole
  }

  /** One row at cursor `p`, restored, and its samples; none when the data ends or the row has none. */
  method ReadRow(raw: seq<uint8>, p: nat, hd: Header, h: nat, prev: seq<uint8>,
                 ghost out: seq<seq<int>>, ghost whole: Option<seq<seq<int>>>)
      returns (line: seq<uint8>, next: nat, row: Option<seq<int>>)
    requires h > 0 && p <= |raw| && Makes(out, raw[p..], hd, h, prev, whole)
    ensures if row.None? then whole == None
            else next <= |raw| && Makes(out + [row.value], raw[next..], hd, h - 1, line, whole)
  {
    next := p + 1 + hd.Stride();
    if next > |raw| {
      TooShort(raw, p, hd, h, prev, out);
      return prev, next, None;
    }
    line := ReadLine(raw, p, hd, prev);
    RowsStep(raw, p, hd, h, prev, out, line);
    row := RowOf(line, hd);
  }

  lemma NoMoreRows(out: seq<seq<int>>, raw: seq<uint8>, hd: Header, prev: seq<uint8>, whole: Option<seq<seq<int>>>)
    requires Makes(out, raw, hd, 0, prev, whole)
    ensures whole == Some(out)
  {
    assert out + [] == out;
  }

  /** The cursor `p` moves from row to row; each restored row is kept for the next one. */
  method ReadImage(hd: Header, raw: seq<uint8>) returns (r: Option<seq<seq<int>>>)
    ensures r == Rows(raw, hd, hd.h, Zeros(hd.Stride()))
  {
    var out: seq<seq<int>> := [];
    var prev := Zeros(hd.Stride());
    var p := 0;
    ghost var whole := Rows(raw, hd, hd.h, prev);
    assert raw[p..] == raw;
    PrependNothing(whole);
    for y := 0 to hd.h
      invariant 0 <= p <= |raw| && Makes(out, raw[p..], hd, hd.h - y, prev, whole)
    {
      var line, next, row := ReadRow(raw, p, hd, hd.h - y, prev, out, whole);
      if row.None? {
        return None;
      }
      prev, p := line, next;
      out := out + [row.value];
    }
    NoMoreRows(out, raw[p..], hd, prev, whole);
    r := Some(out);
  }

  method DecodeGrayPng(d: seq<uint8>) returns (r: Option<Image>)
    ensures r == Decode(d)
  {
    if Slice(d, 0, 8) != SIGNATURE {
      return None;
    }
    var found := ReadChunks(d);
    if found.None? || found.value.header.None? || found.value.header.value.colour != 0 {
      return None;
    }
    var hd := found.value.header.value;
    var raw := Inflated(found.value.idat);
    if raw.None? {
      return None;
    }
    var rows := ReadImage(hd, raw.value);
    if rows.None? {
      return None;
    }
    r := Some(Image(hd.w, hd.h, rows.value));
  }
}
