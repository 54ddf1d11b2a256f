/** The rules of the format as the reader follows them: predictors, and samples of fewer than eight bits. */
module PngFilters {
  import opened Bytes
  import opened PngReader

  function Abs(x: int): nat { if x < 0 then -x else x }

  /** The fourth predictor takes whichever of left, above and above left is nearest to left + above - above left,
      on a tie the first of them. */
  lemma PaethIsNearest(a: uint8, b: uint8, c: uint8)
    ensures
      var da, db, dc := Abs(b as int - c), Abs(a as int - c), Abs(a as int + b - c - c);
      Predicted(4, a, b, c) == if da <= db && da <= dc then a else if db <= dc then b else c
    ensures
      var p, r := a as int + b - c, Predicted(4, a, b, c);
      Abs(p - r) <= Abs(p - a) && Abs(p - r) <= Abs(p - b) && Abs(p - r) <= Abs(p - c)
  {
  }

  /** The others take nothing, the byte on the left, the one above, and their mean rounded down; there is no byte
      left of a row's first ones. */
  lemma Predictions(line: seq<uint8>, prev: seq<uint8>, step: nat, x: nat)
    requires 0 < step && x < |prev| && x < |line|
    ensures
      var left := if x >= step then line[x - step] else 0;
      && PredictedAt(0, line, prev, step, x) == 0 && PredictedAt(1, line, prev, step, x) == left
      && PredictedAt(2, line, prev, step, x) == prev[x]
      && PredictedAt(3, line, prev, step, x) == (left as int + prev[x]) / 2
      && PredictedAt(4, line, prev, step, x) == Predicted(4, left, prev[x], if x >= step then prev[x - step] else 0)
  {
  }

  lemma Scales()
    ensures Pow2(1) == 2 && Pow2(2) == 4 && Pow2(4) == 16
  {
  }

  lemma OneBitAt(line: seq<uint8>, x: nat)
    requires x / 8 < |line|
    ensures Sample(line, 1, x) == Some(255 * (line[x / 8] / Pow2(7 - x % 8) % 2))
  {
    Scales();
  }

  lemma TwoBitsAt(line: seq<uint8>, x: nat)
    requires x / 4 < |line|
    ensures Sample(line, 2, x) == Some(85 * (line[x / 4] / Pow2(6 - 2 * (x % 4)) % 4))
  {
    Scales();
    assert x * 2 / 8 == x / 4 && x * 2 % 8 == 2 * (x % 4);
  }

  lemma FourBitsAt(line: seq<uint8>, x: nat)
    requires x / 2 < |line|
    ensures Sample(line, 4, x) == Some(17 * (line[x / 2] / Pow2(4 - 4 * (x % 2)) % 16))
  {
    Scales();
    assert x * 4 / 8 == x / 2 && x * 4 % 8 == 4 * (x % 2);
  }
}
