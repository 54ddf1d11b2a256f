/** Samples of fewer than eight bits, packed into bytes and read back. */
module PngPacking {
  import opened Bytes
  import opened PngFormat
  import opened PngReader
  import opened PngRoundTrip

  /** A number whose digits in base `b` are `vs`, the first one the highest. */
  function Join(vs: seq<nat>, b: nat): nat {
    if vs == [] then 0 else Join(vs[..|vs| - 1], b) * b + vs[|vs| - 1]
  }

  function Raise(b: nat, n: nat): nat { if n == 0 then 1 else b * Raise(b, n - 1) }

  lemma Products(b: nat, c: nat, p: nat, s: nat, r: nat)
    requires s < c && r < b
    ensures b * (c * p + s) + r == (b * c) * p + (b * s + r)
    ensures b * s + r < b * c
  {
    assert b * (s + 1) <= b * c;
  }

  lemma DivideParts(a: nat, b: nat, c: nat, q: nat, r: nat, p: nat, s: nat)
    requires a == b * q + r && r < b && q == c * p + s && s < c
    ensures b * c > 0 && a / (b * c) == p
  {
    Products(b, c, p, s, r);
    QuotientIs(a, b * c, p, b * s + r);
  }

  lemma DivideTwice(a: nat, b: nat, c: nat)
    requires b > 0 && c > 0
    ensures b * c > 0 && a / (b * c) == a / b / c
  {
    var q := a / b;
    DivideParts(a, b, c, q, a % b, q / c, q % c);
  }

  lemma QuotientIs(a: nat, m: nat, q: nat, r: nat)
    requires m > 0 && a == m * q + r && r < m
    ensures a / m == q
  {
    var d := a / m;
    assert a == m * d + a % m;
    assert d < q ==> m * (d + 1) <= m * q;
    assert q < d ==> m * (q + 1) <= m * d;
  }

  lemma {:induction false} RaisePositive(b: nat, n: nat)
    requires b > 0
    ensures Raise(b, n) > 0
    decreases n
  {
    if n > 0 {
      RaisePositive(b, n - 1);
    }
  }

  lemma LastDigit(high: nat, b: nat, v: nat)
    requires v < b
    ensures (high * b + v) % b == v && (high * b + v) / b == high
  {
    QuotientIs(high * b + v, b, high, v);
  }

  /** Dividing off the digits to the right leaves digit `k` at the end. */
  lemma {:induction false} DigitOf(vs: seq<nat>, b: nat, k: nat)
    requires b > 0 && k < |vs| && forall i :: 0 <= i < |vs| ==> vs[i] < b
    ensures Raise(b, |vs| - 1 - k) > 0 && Join(vs, b) / Raise(b, |vs| - 1 - k) % b == vs[k]
    decreases |vs|
  {
    var most := vs[..|vs| - 1];
    LastDigit(Join(most, b), b, vs[|vs| - 1]);
    RaisePositive(b, |vs| - 1 - k);
    if k < |vs| - 1 {
      DigitOf(most, b, k);
      DivideTwice(Join(vs, b), b, Raise(b, |vs| - 2 - k));
    }
  }

  lemma {:induction false} JoinBelow(vs: seq<nat>, b: nat)
    requires b > 0 && forall i :: 0 <= i < |vs| ==> vs[i] < b
    ensures Join(vs, b) < Raise(b, |vs|)
    decreases |vs|
  {
    if vs != [] {
      JoinBelow(vs[..|vs| - 1], b);
      Room(Join(vs[..|vs| - 1], b), Raise(b, |vs| - 1), b, vs[|vs| - 1]);
    }
  }

  lemma Room(high: nat, power: nat, b: nat, v: nat)
    requires high < power && v < b
    ensures high * b + v < b * power
  {
    assert b * (high + 1) <= b * power;
  }

  // ---- rows of packed samples ----

  /** The depths below eight that divide a byte. */
  predicate Packs(depth: nat) { depth == 1 || depth == 2 || depth == 4 }

  function PerByte(depth: nat): nat
    requires Packs(depth)
  {
    8 / depth
  }

  predicate InRange(vs: seq<nat>, depth: nat) { forall i :: 0 <= i < |vs| ==> vs[i] < Pow2(depth) }

  lemma Depths(depth: nat)
    requires Packs(depth)
    ensures Pow2(depth) == (if depth == 1 then 2 else if depth == 2 then 4 else 16)
    ensures Raise(Pow2(depth), PerByte(depth)) == 0x100
  {
    assert Pow2(1) == 2 && Pow2(2) == 4 && Pow2(4) == 16;
    assert Raise(2, 8) == 2 * Raise(2, 7) == 4 * Raise(2, 6) == 8 * Raise(2, 5) == 16 * Raise(2, 4);
    assert Raise(2, 4) == 16 && Raise(4, 4) == 256 && Raise(16, 2) == 256;
  }

  /** The next byte's worth of samples, padded with zeros. */
  function Next(vs: seq<nat>, depth: nat): (n: seq<nat>)
    requires Packs(depth)
    ensures |n| == PerByte(depth)
  {
    seq(PerByte(depth), i requires 0 <= i => if i < |vs| then vs[i] else 0)
  }

  function PackByte(vs: seq<nat>, depth: nat): uint8
    requires Packs(depth) && InRange(vs, depth)
  {
    Depths(depth);
    JoinBelow(Next(vs, depth), Pow2(depth));
    Join(Next(vs, depth), Pow2(depth))
  }

  /** A row as section 2.3 of RFC 2083 packs it: the first sample in the high bits. */
  function Pack(vs: seq<nat>, depth: nat): seq<uint8>
    requires Packs(depth) && InRange(vs, depth)
    decreases |vs|
  {
    if vs == [] then []
    else [PackByte(vs, depth)] + if |vs| <= PerByte(depth) then [] else Pack(vs[PerByte(depth)..], depth)
  }

  lemma Shifts(depth: nat, x: nat)
    requires Packs(depth) && x < PerByte(depth)
    ensures x * depth < 8 && 8 - depth - x * depth >= 0
    ensures Pow2(8 - depth - x * depth) == Raise(Pow2(depth), PerByte(depth) - 1 - x)
  {
    assert Pow2(0) == 1 && Pow2(1) == 2 && Pow2(2) == 4 && Pow2(3) == 8;
    assert Pow2(4) == 16 && Pow2(5) == 32 && Pow2(6) == 64 && Pow2(7) == 128;
    assert Raise(2, 0) == 1 && Raise(2, 1) == 2 && Raise(2, 2) == 4 && Raise(2, 3) == 8;
    assert Raise(2, 4) == 16 && Raise(2, 5) == 32 && Raise(2, 6) == 64 && Raise(2, 7) == 128;
    assert Raise(4, 0) == 1 && Raise(4, 1) == 4 && Raise(4, 2) == 16 && Raise(4, 3) == 64;
    assert Raise(16, 0) == 1 && Raise(16, 1) == 16;
  }

  /** A sample scaled to 0..255. */
  function Scaled(v: nat, depth: nat): int
    requires Packs(depth)
  {
    Depths(depth);
    v * 255 / (Pow2(depth) - 1)
  }

  lemma SampleOfFirst(line: seq<uint8>, vs: seq<nat>, depth: nat, x: nat)
    requires Packs(depth) && InRange(vs, depth) && x < PerByte(depth) && x < |vs|
    requires line != [] && line[0] == PackByte(vs, depth)
    ensures Sample(line, depth, x) == Some(Scaled(vs[x], depth))
  {
    Depths(depth);
    Shifts(depth, x);
    DigitOf(Next(vs, depth), Pow2(depth), x);
    assert Next(vs, depth)[x] == vs[x];
  }

  lemma OneByteOn(depth: nat, x: nat)
    requires Packs(depth) && x >= PerByte(depth)
    ensures x * depth == (x - PerByte(depth)) * depth + 8
    ensures x * depth / 8 == (x - PerByte(depth)) * depth / 8 + 1
    ensures x * depth % 8 == (x - PerByte(depth)) * depth % 8
  {
  }

  lemma SampleOfRest(line: seq<uint8>, depth: nat, x: nat)
    requires Packs(depth) && x >= PerByte(depth) && line != []
    ensures Sample(line, depth, x) == Sample(line[1..], depth, x - PerByte(depth))
  {
    OneByteOn(depth, x);
  }

  lemma {:induction false} SampleUnpacks(vs: seq<nat>, depth: nat, x: nat)
    requires Packs(depth) && InRange(vs, depth) && x < |vs|
    ensures Sample(Pack(vs, depth), depth, x) == Some(Scaled(vs[x], depth))
    decreases x
  {
    var m := PerByte(depth);
    if x < m {
      SampleOfFirst(Pack(vs, depth), vs, depth, x);
    } else {
      SampleUnpacks(vs[m..], depth, x - m);
      SampleOfRest(Pack(vs, depth), depth, x);
      assert Pack(vs, depth)[1..] == Pack(vs[m..], depth);
    }
  }

  lemma BytesFor(n: nat, depth: nat)
    requires Packs(depth)
    ensures (n * depth + 7) / 8 ==
            if n == 0 then 0 else if n <= PerByte(depth) then 1 else ((n - PerByte(depth)) * depth + 7) / 8 + 1
  {
  }

  lemma {:induction false} PackLength(vs: seq<nat>, depth: nat)
    requires Packs(depth) && InRange(vs, depth)
    ensures |Pack(vs, depth)| == (|vs| * depth + 7) / 8
    decreases |vs|
  {
    var m := PerByte(depth);
    BytesFor(|vs|, depth);
    if |vs| > m {
      PackLength(vs[m..], depth);
    }
  }

  function ScaledRow(vs: seq<nat>, depth: nat): (r: seq<int>)
    requires Packs(depth)
    ensures |r| == |vs|
  {
    seq(|vs|, x requires 0 <= x < |vs| => Scaled(vs[x], depth))
  }

  ghost predicate SamplesAre(line: seq<uint8>, depth: nat, out: seq<int>) {
    forall x :: 0 <= x < |out| ==> Sample(line, depth, x) == Some(out[x])
  }

  lemma SamplesMore(line: seq<uint8>, depth: nat, n: nat, out: seq<int>, v: int)
    requires n > 0 && Samples(line, depth, n - 1) == Some(out) && Sample(line, depth, n - 1) == Some(v)
    ensures Samples(line, depth, n) == Some(out + [v])
  {
  }

  lemma {:induction false} SamplesTogether(line: seq<uint8>, depth: nat, out: seq<int>, n: nat)
    requires SamplesAre(line, depth, out) && n <= |out|
    ensures Samples(line, depth, n) == Some(out[..n])
    decreases n
  {
    if n > 0 {
      SamplesTogether(line, depth, out, n - 1);
      SamplesMore(line, depth, n, out[..n - 1], out[n - 1]);
      assert out[..n] == out[..n - 1] + [out[n - 1]];
    }
  }

  lemma SamplesUnpack(vs: seq<nat>, depth: nat)
    requires Packs(depth) && InRange(vs, depth)
    ensures SamplesAre(Pack(vs, depth), depth, ScaledRow(vs, depth))
  {
    forall x | 0 <= x < |vs| ensures Sample(Pack(vs, depth), depth, x) == Some(ScaledRow(vs, depth)[x]) {
      SampleUnpacks(vs, depth, x);
    }
  }

  /** The reader gets every sample of a packed row back, scaled. */
  lemma RowUnpacks(vs: seq<nat>, hd: Header)
    requires Packs(hd.depth) && InRange(vs, hd.depth) && hd.w == |vs|
    ensures |Pack(vs, hd.depth)| == hd.Stride() && RowOf(Pack(vs, hd.depth), hd) == Some(ScaledRow(vs, hd.depth))
  {
    PackLength(vs, hd.depth);
    SamplesUnpack(vs, hd.depth);
    SamplesTogether(Pack(vs, hd.depth), hd.depth, ScaledRow(vs, hd.depth), |vs|);
    assert ScaledRow(vs, hd.depth)[..|vs|] == ScaledRow(vs, hd.depth);
  }

  // ---- whole images ----

  function PackedRows(rows: seq<seq<nat>>, hd: Header): (p: seq<seq<uint8>>)
    requires Packs(hd.depth) && forall y :: 0 <= y < |rows| ==> InRange(rows[y], hd.depth) && |rows[y]| == hd.w
    ensures |p| == |rows|
  {
    seq(|rows|, y requires 0 <= y < |rows| => Pack(rows[y], hd.depth))
  }

  function ScaledRows(rows: seq<seq<nat>>, depth: nat): (s: seq<seq<int>>)
    requires Packs(depth)
    ensures |s| == |rows|
  {
    seq(|rows|, y requires 0 <= y < |rows| => ScaledRow(rows[y], depth))
  }

  /** An image of one, two or four bits a sample comes back scaled, whatever filter each row was sent under. */
  lemma PackedImage(rows: seq<seq<nat>>, filters: seq<uint8>, hd: Header)
    requires Packs(hd.depth) && |filters| == |rows|
    requires forall y :: 0 <= y < |rows| ==> InRange(rows[y], hd.depth) && |rows[y]| == hd.w
    ensures forall y :: 0 <= y < |rows| ==> |PackedRows(rows, hd)[y]| == hd.Stride()
    ensures var blank := Zeros(hd.Stride());
      Rows(Encoded(PackedRows(rows, hd), filters, blank, hd.Step()), hd, |rows|, blank) ==
      Some(ScaledRows(rows, hd.depth))
  {
    forall y | 0 <= y < |rows|
      ensures |PackedRows(rows, hd)[y]| == hd.Stride()
      ensures RowOf(PackedRows(rows, hd)[y], hd) == Some(ScaledRows(rows, hd.depth)[y])
    {
      RowUnpacks(rows[y], hd);
    }
    AnyFilters(PackedRows(rows, hd), filters, Zeros(hd.Stride()), hd, ScaledRows(rows, hd.depth));
  }

  /** Two-bit samples quantise to the shades they stand for, white being 3. */
  lemma QuantOfTwoBits(v: nat)
    requires v < 4
    ensures Quant(Scaled(v, 2)) == 3 - v
  {
    Depths(2);
    assert Scaled(v, 2) == Gray(3 - v);
    QuantUndoesGray(3 - v);
  }
}
