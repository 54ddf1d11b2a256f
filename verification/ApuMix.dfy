/** What reaches the two sides: the registers that enable and scale a channel, its frequency, and its waveform. */
module ApuMix {
  import opened Bytes
  import opened ApuControl
  import opened ApuSynth

  // ---- the two sides ----

  lemma NibbleBits(v: uint8)
    ensures BitOf(v, 0) == v % 2 && BitOf(v, 1) == v / 2 % 2 && BitOf(v, 2) == v / 4 % 2 && BitOf(v, 3) == v / 8 % 2
    ensures BitOf(v, 4) == v / 16 % 2 && BitOf(v, 5) == v / 32 % 2 && BitOf(v, 6) == v / 64 % 2
    ensures BitOf(v, 7) == v / 128
  {
    assert Pow2(0) == 1 && Pow2(1) == 2 && Pow2(2) == 4 && Pow2(3) == 8;
    assert Pow2(4) == 16 && Pow2(5) == 32 && Pow2(6) == 64 && Pow2(7) == 128;
  }

  function If(b: bool, v: int): int { if b then v else 0 }

  lemma OneChannel(s: Control, y: Synth, wave: WaveRam, shift: nat, n: nat, o: int)
    requires 0 < n <= 4 && o == Output(s, y, wave, n - 1)
    ensures Panned(s, y, wave, shift, n) ==
            Panned(s, y, wave, shift, n - 1) + If(BitOf(s.reg[0x15], n - 1 + shift) == 1, o)
  {
  }

  lemma NoChannel(s: Control, y: Synth, wave: WaveRam, shift: nat, n: nat)
    requires n == 0
    ensures Panned(s, y, wave, shift, n) == 0
  {
  }

  lemma FourChannels(s: Control, y: Synth, wave: WaveRam, shift: nat, n: nat, a: int, b: int, c: int, d: int)
    requires n == 4 && a == Output(s, y, wave, 0) && b == Output(s, y, wave, 1)
    requires c == Output(s, y, wave, 2) && d == Output(s, y, wave, 3)
    ensures var nr51 := s.reg[0x15];
      Panned(s, y, wave, shift, n) ==
      If(BitOf(nr51, shift) == 1, a) + If(BitOf(nr51, shift + 1) == 1, b)
      + If(BitOf(nr51, shift + 2) == 1, c) + If(BitOf(nr51, shift + 3) == 1, d)
  {
    OneChannel(s, y, wave, shift, n, d);
    OneChannel(s, y, wave, shift, n - 1, c);
    OneChannel(s, y, wave, shift, n - 2, b);
    OneChannel(s, y, wave, shift, n - 3, a);
    NoChannel(s, y, wave, shift, n - 4);
  }

  /** The left side has the channels of the high half of NR51, scaled by bits 4 to 6 of NR50; the right side those of
      the low half, scaled by bits 0 to 2. */
  lemma MixedSides(s: Control, y: Synth, wave: WaveRam, a: int, b: int, c: int, d: int)
    requires a == Output(s, y, wave, 0) && b == Output(s, y, wave, 1)
    requires c == Output(s, y, wave, 2) && d == Output(s, y, wave, 3)
    ensures
      var nr51, left, right := s.reg[0x15], s.reg[0x14] / 16 % 8 + 1, s.reg[0x14] % 8 + 1;
      && Mixed(s, y, wave).0 == 64 * ((If(nr51 / 16 % 2 == 1, a) + If(nr51 / 32 % 2 == 1, b)
                                       + If(nr51 / 64 % 2 == 1, c) + If(nr51 / 128 == 1, d)) * left)
      && Mixed(s, y, wave).1 == 64 * ((If(nr51 % 2 == 1, a) + If(nr51 / 2 % 2 == 1, b)
                                       + If(nr51 / 4 % 2 == 1, c) + If(nr51 / 8 % 2 == 1, d)) * right)
  {
    NibbleBits(s.reg[0x15]);
    FourChannels(s, y, wave, 4, 4, a, b, c, d);
    FourChannels(s, y, wave, 0, 4, a, b, c, d);
  }

  // ---- frequencies ----

  /** Periods in T-cycles: 4 (2048 - f) for the squares and 2 (2048 - f) for the wave, f from eleven register bits;
      8 or 16 r, doubled s times, for the noise, which stands still for s of 14 and 15. */
  lemma TonePeriods(s: Control)
    ensures
      var p, code, shift := ToneOf(s), s.reg[0x12] % 8, s.reg[0x12] / 16;
      && p.sqPeriod0 == 8192 - 4 * (256 * (s.reg[0x04] as int % 8) + s.reg[0x03]) && p.sq0 == s.ch[0].on
      && p.sqPeriod1 == 8192 - 4 * (256 * (s.reg[0x09] as int % 8) + s.reg[0x08]) && p.sq1 == s.ch[1].on
      && p.wvPeriod == 4096 - 2 * (256 * (s.reg[0x0E] as int % 8) + s.reg[0x0D]) && p.wv == s.ch[2].on
      && p.nsPeriod == (if code == 0 then 8 else 16 * code as int) * Pow2(shift)
      && p.ns == (s.ch[3].on && shift <= 13) && p.narrow == (s.reg[0x12] / 8 % 2 == 1)
  {
  }

  // ---- waveforms ----

  /** Of the eight steps of a square channel one, two, four or six are high, by the duty bits of its register. */
  lemma SquareDuty(s: Control, y: Synth, wave: WaveRam, v: nat)
    requires s.ch[0].on && s.ch[0].dac && v == s.ch[0].envVol
    ensures
      var duty := s.reg[0x01] / 64;
      Output(s, y.(sqStep0 := 0), wave, 0) + Output(s, y.(sqStep0 := 1), wave, 0)
      + Output(s, y.(sqStep0 := 2), wave, 0) + Output(s, y.(sqStep0 := 3), wave, 0)
      + Output(s, y.(sqStep0 := 4), wave, 0) + Output(s, y.(sqStep0 := 5), wave, 0)
      + Output(s, y.(sqStep0 := 6), wave, 0) + Output(s, y.(sqStep0 := 7), wave, 0)
      == v * (if duty == 0 then -6 else if duty == 1 then -2 else if duty == 2 then 0 else 2)
  {
    NibbleBits(Duty(s.reg[0x01] / 64));
  }

  lemma WaveVolumes()
    ensures Pow2(WaveShift(0)) == 16 && Pow2(WaveShift(1)) == 1 && Pow2(WaveShift(2)) == 2 && Pow2(WaveShift(3)) == 4
  {
    assert Pow2(0) == 1 && Pow2(1) == 2 && Pow2(2) == 4 && Pow2(4) == 16;
  }

  lemma WaveSample(s: Control, y: Synth, wave: WaveRam, sample: nat, d: nat)
    requires s.ch[2].on && s.ch[2].dac && y.wvPos < 32 && d == Pow2(WaveShift(s.reg[0x0C] / 0x20 % 4))
    requires sample == if y.wvPos % 2 == 0 then wave[y.wvPos / 2] / 16 else wave[y.wvPos / 2] % 16
    ensures Output(s, y, wave, 2) == sample / d * 2 - 15 / d
  {
  }

  lemma Quieter(sample: nat)
    ensures sample / 2 * 2 == sample - sample % 2 && sample / 4 * 2 == (sample - sample % 4) / 2
    ensures sample < 16 ==> sample / 16 == 0
  {
  }

  /** The wave channel plays the sixteen bytes as thirty-two samples, the high half of a byte first, at full, half or
      quarter volume or not at all. */
  lemma WaveLevels(s: Control, y: Synth, wave: WaveRam, sample: nat, code: nat)
    requires s.ch[2].on && s.ch[2].dac && y.wvPos < 32 && code == s.reg[0x0C] / 32 % 4
    requires sample == if y.wvPos % 2 == 0 then wave[y.wvPos / 2] / 16 else wave[y.wvPos / 2] % 16
    ensures Output(s, y, wave, 2) ==
      if code == 0 then 0 else if code == 1 then 2 * sample - 15
      else if code == 2 then sample - sample % 2 - 7 else (sample - sample % 4) / 2 - 3
  {
    WaveVolumes();
    WaveSample(s, y, wave, sample, Pow2(WaveShift(code)));
    Quieter(sample);
  }

  lemma EvenPlus(h: nat, x: nat)
    ensures (2 * h + x) % 2 == x % 2
  {
  }

  lemma FeedbackBit(l: nat, b: nat)
    requires b == if l % 2 == l / 2 % 2 then 0 else 1
    ensures (l + l / 2) % 2 == b
  {
    var h := l / 2;
    assert l + h == 2 * (h + h / 2) + (l % 2 + h % 2);
    EvenPlus(h + h / 2, l % 2 + h % 2);
  }

  lemma BinaryDigits(q: nat, b: nat, r: nat)
    requires b < 2 && r < 0x40
    ensures var x := 0x80 * q + 0x40 * b + r; x / 0x80 == q && x / 0x40 % 2 == b && x % 0x40 == r
  {
    var x := 0x80 * q + 0x40 * b + r;
    assert x / 0x40 == 2 * q + b;
  }

  lemma SplitAt6(m: nat)
    ensures m == 0x80 * (m / 0x80) + 0x40 * (m / 0x40 % 2) + m % 0x40
  {
    assert m / 0x40 == 2 * (m / 0x80) + m / 0x40 % 2;
  }

  lemma TopBit(h: nat, b: nat)
    requires h < 0x4000
    ensures (h + 0x4000 * b) % 0x40 == h % 0x40
  {
  }

  /** The noise register moves down by one bit; the exclusive or of its two lowest bits comes in at the top, in the
      narrow mode at bit 6 too.  The channel is loud while the lowest bit is clear. */
  lemma NoiseBits(l: Noise, b: nat)
    requires b == if l % 2 == l / 2 % 2 then 0 else 1
    ensures NoiseStep(l, false) == 0x4000 * b + l / 2
    ensures NoiseStep(l, true) / 0x80 == NoiseStep(l, false) / 0x80 && NoiseStep(l, true) % 0x40 == l / 2 % 0x40
    ensures NoiseStep(l, true) / 0x40 % 2 == b
  {
    var m := NoiseStep(l, false);
    FeedbackBit(l, b);
    TopBit(l / 2, b);
    SplitAt6(m);
    BinaryDigits(m / 0x80, b, m % 0x40);
  }

  lemma NoiseLevel(s: Control, y: Synth, wave: WaveRam)
    requires s.ch[3].on && s.ch[3].dac
    ensures Output(s, y, wave, 3) == if y.lfsr % 2 == 0 then s.ch[3].envVol else 0 - s.ch[3].envVol
  {
  }

  /** A trigger gives its generator a full period; the wave starts over and the noise register is all ones. */
  lemma RestartLoads(s: Control, y: Synth, c: Index)
    ensures
      var z := Restarted(y, s, c);
      && z.sqTimer0 == (if c == 0 then 8192 - 4 * (256 * (s.reg[0x04] as int % 8) + s.reg[0x03]) else y.sqTimer0)
      && z.sqTimer1 == (if c == 1 then 8192 - 4 * (256 * (s.reg[0x09] as int % 8) + s.reg[0x08]) else y.sqTimer1)
      && z.wvTimer == (if c == 2 then 4096 - 2 * (256 * (s.reg[0x0E] as int % 8) + s.reg[0x0D]) else y.wvTimer)
      && z.wvPos == (if c == 2 then 0 else y.wvPos) && z.lfsr == (if c == 3 then 0x7FFF else y.lfsr)
      && z.sqStep0 == y.sqStep0 && z.sqStep1 == y.sqStep1 && z.acc == y.acc
  {
    TonePeriods(s);
  }

  /** A sample is dropped exactly when 8192 are waiting, and else waits behind them. */
  lemma DroppedWhenFull(b: Buffer, x: Sample)
    requires |b.queue| <= 8192
    ensures if |b.queue| == 8192 then Push(b, x) == Buffer(b.queue, b.dropped + 1)
            else Push(b, x) == Buffer(b.queue + [x], b.dropped)
  {
  }

  /** A tick mixes its samples from the generators as it leaves them. */
  lemma TickSamples(y: Synth, s: Control, wave: WaveRam, b: Buffer, t: nat)
    requires |b.queue| < 8192 && y.acc + 48000 * t < 2 * 4194304
    ensures
      var next := SynthTick(y, s, wave, b, t);
      next.1.queue == b.queue + if y.acc + 48000 * t < 4194304 then [] else [Mixed(s, next.0, wave)]
  {
    var k := Due(y.acc, t);
    assert k == 0 || k == 1;
    assert PushMany(b, Mixed(s, Advance(y, ToneOf(s), t), wave), 0) == b;
  }
}
