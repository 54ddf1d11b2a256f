/** Sample synthesis: frequency timers, the noise register, the mixer, the resampler and the sample buffer. */
module ApuSynth {
  import opened Bytes
  import opened ApuControl

  /** Contents of the noise shift register. */
  type Noise = x: int | 0 <= x < 0x8000

  /** Timers count T-cycles down; `acc` is the resampler's remainder. */
  datatype Synth = Synth(sqTimer0: int, sqStep0: nat, sqTimer1: int, sqStep1: nat, wvTimer: int, wvPos: nat,
                         nsTimer: int, lfsr: Noise, acc: nat)

  /** What the registers fix: which generators run, and their periods. */
  datatype Tone = Tone(sq0: bool, sqPeriod0: nat, sq1: bool, sqPeriod1: nat, wv: bool, wvPeriod: nat,
                       ns: bool, nsPeriod: nat, narrow: bool)
  {
    predicate Valid() { sqPeriod0 > 0 && sqPeriod1 > 0 && wvPeriod > 0 && nsPeriod > 0 }
  }


  function ToneOf(s: Control): (p: Tone)
    ensures p.Valid()
  {
    var nr43 := s.reg[0x12];
    var code := nr43 % 8;
    Tone(s.ch[0].on, (2048 - Frequency(s.reg, 3, 4)) * 4, s.ch[1].on, (2048 - Frequency(s.reg, 8, 9)) * 4,
         s.ch[2].on, (2048 - Frequency(s.reg, 0x0D, 0x0E)) * 2,
         s.ch[3].on && nr43 / 0x10 < 14, (if code > 0 then code * 16 else 8) * Pow2(nr43 / 0x10), nr43 / 8 % 2 == 1)
  }

  // ---- timers ----

  /** How often a timer with `left` to go is reloaded within `t`, and what it shows then. */
  function Reloads(left: int, period: nat, t: nat): nat
    requires period > 0
  {
    if left > t then 0 else (t - left) / period + 1
  }

  function Left(left: int, period: nat, t: nat): int
    requires period > 0
  {
    left - t + period * Reloads(left, period, t)
  }

  lemma Ceiling(d: nat, period: nat)
    requires period > 0
    ensures period * (d / period) <= d < period * (d / period + 1)
  {
  }

  lemma ReloadsEnough(left: int, period: nat, t: nat)
    requires period > 0
    ensures Left(left, period, t) > 0
    ensures Reloads(left, period, t) > 0 ==> Left(left, period, t) <= period
  {
    if left <= t {
      Ceiling(t - left, period);
    }
  }

  lemma OnlyCount(d: int, period: nat, a: nat, b: nat)
    requires period > 0 && a < b
    requires d + period * a > 0
    ensures d + period * (b - 1) > 0
  {
    assert period * a <= period * (b - 1);
  }

  /** The number of reloads is the least that leaves the timer above zero. */
  lemma ReloadsUnique(left: int, period: nat, t: nat, n: nat)
    requires period > 0 && left - t + period * n > 0
    requires n > 0 ==> left - t + period * (n - 1) <= 0
    ensures n == Reloads(left, period, t)
  {
    var r := Reloads(left, period, t);
    ReloadsEnough(left, period, t);
    if r < n {
      OnlyCount(left - t, period, r, n);
    } else if n < r {
      OnlyCount(left - t, period, n, r);
    }
  }

  /** Two loops one after the other stop where one loop over the whole time would. */
  lemma ReloadsAdd(left: int, period: nat, t: nat, u: nat, n: nat, m: nat)
    requires period > 0
    requires left - t + period * n > 0 && (n > 0 ==> left - t + period * n <= period)
    requires left - t + period * n - u + period * m > 0
    requires m > 0 ==> left - t + period * n - u + period * m <= period
    ensures n + m == Reloads(left, period, t + u)
  {
    var k: int := n + m;
    assert period * k == period * n + period * m && period * (k - 1) == period * k - period;
    ReloadsUnique(left, period, t + u, n + m);
  }

  lemma TimerSplits(left: int, period: nat, t: nat, u: nat)
    requires period > 0
    ensures Reloads(left, period, t + u) == Reloads(left, period, t) + Reloads(Left(left, period, t), period, u)
    ensures Left(left, period, t + u) == Left(Left(left, period, t), period, u)
  {
    var n, m := Reloads(left, period, t), Reloads(Left(left, period, t), period, u);
    ReloadsEnough(left, period, t);
    ReloadsEnough(Left(left, period, t), period, u);
    ReloadsAdd(left, period, t, u, n, m);
    assert period * (n + m) == period * n + period * m;
  }

  // ---- generators ----

  /** The noise register shifts right; the exclusive or of its two lowest bits enters at the top,
      and at bit 6 as well in narrow mode. */
  function NoiseStep(l: Noise, narrow: bool): Noise {
    var b := (l + l / 2) % 2;
    var m := l / 2 + 0x4000 * b;
    if narrow then m - m / 0x40 % 2 * 0x40 + b * 0x40 else m
  }

  function NoiseSteps(l: Noise, narrow: bool, n: nat): Noise {
    if n == 0 then l else NoiseStep(NoiseSteps(l, narrow, n - 1), narrow)
  }

  lemma {:induction false} NoiseStepsAdd(l: Noise, narrow: bool, n: nat, m: nat)
    ensures NoiseSteps(l, narrow, n + m) == NoiseSteps(NoiseSteps(l, narrow, n), narrow, m)
    decreases m
  {
    if m > 0 {
      NoiseStepsAdd(l, narrow, n, m - 1);
    }
  }

  /** In the 15-bit mode the register never runs empty. */
  lemma {:induction false} NoiseNeverEmpty(l: Noise, n: nat)
    requires l != 0
    ensures NoiseSteps(l, false, n) != 0
    decreases n
  {
    if n > 0 {
      NoiseNeverEmpty(l, n - 1);
    }
  }

  /** All generators and the resampler, `t` T-cycles on. */
  function Squares(s: Synth, p: Tone, t: nat): Synth
    requires p.Valid()
  {
    var a := if !p.sq0 then s
             else s.(sqTimer0 := Left(s.sqTimer0, p.sqPeriod0, t),
                     sqStep0 := (s.sqStep0 + Reloads(s.sqTimer0, p.sqPeriod0, t)) % 8);
    if !p.sq1 then a
    else a.(sqTimer1 := Left(s.sqTimer1, p.sqPeriod1, t),
            sqStep1 := (s.sqStep1 + Reloads(s.sqTimer1, p.sqPeriod1, t)) % 8)
  }

  function WaveNoise(s: Synth, p: Tone, t: nat): Synth
    requires p.Valid()
  {
    var a := if !p.wv then s
             else s.(wvTimer := Left(s.wvTimer, p.wvPeriod, t),
                     wvPos := (s.wvPos + Reloads(s.wvTimer, p.wvPeriod, t)) % 32);
    if !p.ns then a
    else a.(nsTimer := Left(s.nsTimer, p.nsPeriod, t),
            lfsr := NoiseSteps(s.lfsr, p.narrow, Reloads(s.nsTimer, p.nsPeriod, t)))
  }

  function Due(acc: nat, t: nat): nat { (acc + t * 48000) / 4194304 }

  /** The two groups of generators do not touch each other. */
  function Advance(s: Synth, p: Tone, t: nat): Synth
    requires p.Valid()
  {
    var a, b := Squares(s, p, t), WaveNoise(s, p, t);
    Synth(a.sqTimer0, a.sqStep0, a.sqTimer1, a.sqStep1, b.wvTimer, b.wvPos, b.nsTimer, b.lfsr,
          (s.acc + t * 48000) % 4194304)
  }

  /** A trigger reloads the channel's timer and restarts the wave or the noise register. */
  function Restarted(y: Synth, s: Control, c: Index): Synth {
    var p := ToneOf(s);
    if c == 0 then y.(sqTimer0 := p.sqPeriod0)
    else if c == 1 then y.(sqTimer1 := p.sqPeriod1)
    else if c == 2 then y.(wvTimer := p.wvPeriod, wvPos := 0)
    else y.(nsTimer := p.nsPeriod, lfsr := 0x7FFF)
  }

  /** The channel a register write triggers, if it triggers one. */
  function Triggered(s: Control, i: nat, v: uint8): Option<Index> {
    if s.power && v >= 0x80 then TriggerOwner(i) else None
  }

  /** A run of ticks of the given lengths, and the samples it produces. */
  function AdvanceAll(s: Synth, p: Tone, ts: seq<nat>): Synth
    requires p.Valid()
  {
    if ts == [] then s else Advance(AdvanceAll(s, p, ts[..|ts| - 1]), p, ts[|ts| - 1])
  }

  function Sum(ts: seq<nat>): nat { if ts == [] then 0 else Sum(ts[..|ts| - 1]) + ts[|ts| - 1] }

  function Produced(s: Synth, p: Tone, ts: seq<nat>): nat
    requires p.Valid()
  {
    if ts == [] then 0
    else Produced(s, p, ts[..|ts| - 1]) + Due(AdvanceAll(s, p, ts[..|ts| - 1]).acc, ts[|ts| - 1])
  }

  lemma StepSplits(pos: nat, a: nat, b: nat)
    ensures ((pos + a) % 8 + b) % 8 == (pos + (a + b)) % 8
  {
    assert pos + a == 8 * ((pos + a) / 8) + (pos + a) % 8;
  }

  lemma WavePositionSplits(pos: nat, a: nat, b: nat)
    ensures ((pos + a) % 32 + b) % 32 == (pos + (a + b)) % 32
  {
    assert pos + a == 32 * ((pos + a) / 32) + (pos + a) % 32;
  }

  lemma SquaresSplit(s: Synth, p: Tone, t: nat, u: nat)
    requires p.Valid()
    ensures Squares(Squares(s, p, t), p, u) == Squares(s, p, t + u)
  {
    TimerSplits(s.sqTimer0, p.sqPeriod0, t, u);
    TimerSplits(s.sqTimer1, p.sqPeriod1, t, u);
    StepSplits(s.sqStep0, Reloads(s.sqTimer0, p.sqPeriod0, t),
               Reloads(Left(s.sqTimer0, p.sqPeriod0, t), p.sqPeriod0, u));
    StepSplits(s.sqStep1, Reloads(s.sqTimer1, p.sqPeriod1, t),
               Reloads(Left(s.sqTimer1, p.sqPeriod1, t), p.sqPeriod1, u));
  }

  lemma WaveNoiseSplit(s: Synth, p: Tone, t: nat, u: nat)
    requires p.Valid()
    ensures WaveNoise(WaveNoise(s, p, t), p, u) == WaveNoise(s, p, t + u)
  {
    TimerSplits(s.wvTimer, p.wvPeriod, t, u);
    TimerSplits(s.nsTimer, p.nsPeriod, t, u);
    WavePositionSplits(s.wvPos, Reloads(s.wvTimer, p.wvPeriod, t),
                       Reloads(Left(s.wvTimer, p.wvPeriod, t), p.wvPeriod, u));
    NoiseStepsAdd(s.lfsr, p.narrow, Reloads(s.nsTimer, p.nsPeriod, t),
                  Reloads(Left(s.nsTimer, p.nsPeriod, t), p.nsPeriod, u));
  }

  lemma DueSplits(acc: nat, t: nat, u: nat)
    ensures Due(acc, t + u) == Due(acc, t) + Due((acc + t * 48000) % 4194304, u)
    ensures (acc + (t + u) * 48000) % 4194304 == ((acc + t * 48000) % 4194304 + u * 48000) % 4194304
  {
  }

  predicate SameSquares(a: Synth, b: Synth) {
    a.sqTimer0 == b.sqTimer0 && a.sqStep0 == b.sqStep0 && a.sqTimer1 == b.sqTimer1 && a.sqStep1 == b.sqStep1
  }

  predicate SameWaveNoise(a: Synth, b: Synth) {
    a.wvTimer == b.wvTimer && a.wvPos == b.wvPos && a.nsTimer == b.nsTimer && a.lfsr == b.lfsr
  }

  lemma SquaresAlone(a: Synth, b: Synth, p: Tone, t: nat)
    requires p.Valid() && SameSquares(a, b)
    ensures SameSquares(Squares(a, p, t), Squares(b, p, t)) && SameWaveNoise(Squares(a, p, t), a)
  {
  }

  lemma WaveNoiseAlone(a: Synth, b: Synth, p: Tone, t: nat)
    requires p.Valid() && SameWaveNoise(a, b)
    ensures SameWaveNoise(WaveNoise(a, p, t), WaveNoise(b, p, t)) && SameSquares(WaveNoise(a, p, t), a)
  {
  }

  lemma AdvanceSquares(s: Synth, p: Tone, t: nat, u: nat)
    requires p.Valid()
    ensures SameSquares(Advance(Advance(s, p, t), p, u), Advance(s, p, t + u))
  {
    SquaresSplit(s, p, t, u);
    SquaresAlone(Advance(s, p, t), Squares(s, p, t), p, u);
  }

  lemma AdvanceWaveNoise(s: Synth, p: Tone, t: nat, u: nat)
    requires p.Valid()
    ensures SameWaveNoise(Advance(Advance(s, p, t), p, u), Advance(s, p, t + u))
  {
    WaveNoiseSplit(s, p, t, u);
    WaveNoiseAlone(Advance(s, p, t), WaveNoise(s, p, t), p, u);
  }

  lemma AllFields(a: Synth, b: Synth)
    requires SameSquares(a, b) && SameWaveNoise(a, b) && a.acc == b.acc
    ensures a == b
  {
  }

  lemma AdvanceSplits(s: Synth, p: Tone, t: nat, u: nat)
    requires p.Valid()
    ensures Advance(Advance(s, p, t), p, u) == Advance(s, p, t + u)
  {
    AdvanceSquares(s, p, t, u);
    AdvanceWaveNoise(s, p, t, u);
    DueSplits(s.acc, t, u);
    AllFields(Advance(Advance(s, p, t), p, u), Advance(s, p, t + u));
  }

  lemma {:induction false} StateSplits(s: Synth, p: Tone, ts: seq<nat>)
    requires p.Valid() && ts != []
    ensures AdvanceAll(s, p, ts) == Advance(s, p, Sum(ts))
    decreases |ts|
  {
    var most, last := ts[..|ts| - 1], ts[|ts| - 1];
    if most != [] {
      StateSplits(s, p, most);
      AdvanceSplits(s, p, Sum(most), last);
    }
  }

  lemma {:induction false} CountSplits(s: Synth, p: Tone, ts: seq<nat>)
    requires p.Valid() && s.acc < 4194304
    ensures Produced(s, p, ts) == Due(s.acc, Sum(ts))
    decreases |ts|
  {
    if ts != [] {
      var most, last := ts[..|ts| - 1], ts[|ts| - 1];
      CountSplits(s, p, most);
      DueSplits(s.acc, Sum(most), last);
      RemainderAfter(s, p, most);
    }
  }

  lemma RemainderAfter(s: Synth, p: Tone, ts: seq<nat>)
    requires p.Valid() && s.acc < 4194304
    ensures AdvanceAll(s, p, ts).acc == (s.acc + Sum(ts) * 48000) % 4194304
  {
    if ts != [] {
      StateSplits(s, p, ts);
    }
  }

  /** However the time is split into ticks, phases, noise register and resampler end up the same, and as
      many samples are produced. */
  lemma PartitionIndependence(s: Synth, p: Tone, ts: seq<nat>)
    requires p.Valid() && ts != [] && s.acc < 4194304
    ensures AdvanceAll(s, p, ts) == Advance(s, p, Sum(ts))
    ensures Produced(s, p, ts) == (s.acc + 48000 * Sum(ts)) / 4194304
  {
    StateSplits(s, p, ts);
    CountSplits(s, p, ts);
  }

  // ---- the mixer ----

  /** Bit patterns of the four duty cycles, and the wave channel's volume shifts. */
  function Duty(n: nat): uint8 { if n == 0 then 0x01 else if n == 1 then 0x83 else if n == 2 then 0x87 else 0x7C }

  function WaveShift(n: nat): nat { if n == 0 then 4 else n - 1 }

  type WaveRam = s: seq<uint8> | |s| == 16 witness seq(16, _ => 0)

  function Bipolar(v: nat, high: bool): int { if high then v else 0 - v }

  /** The level of a channel: 0 while it or its DAC is off. */
  function Output(s: Control, y: Synth, wave: WaveRam, c: Index): int {
    if !s.ch[c].on || !s.ch[c].dac then 0
    else if c == 0 then Bipolar(s.ch[0].envVol, BitOf(Duty(s.reg[0x01] / 0x40), y.sqStep0) == 1)
    else if c == 1 then Bipolar(s.ch[1].envVol, BitOf(Duty(s.reg[0x06] / 0x40), y.sqStep1) == 1)
    else if c == 2 then
      var byte := wave[y.wvPos / 2 % 16];
      var nibble := if y.wvPos % 2 == 1 then byte % 0x10 else byte / 0x10;
      var d := Pow2(WaveShift(s.reg[0x0C] / 0x20 % 4));
      nibble / d * 2 - 15 / d
    else Bipolar(s.ch[3].envVol, y.lfsr % 2 == 0)
  }

  /** The channels one side of NR51 enables, `shift` selecting the side. */
  function Panned(s: Control, y: Synth, wave: WaveRam, shift: nat, n: nat): int
    requires n <= 4
  {
    if n == 0 then 0
    else Panned(s, y, wave, shift, n - 1) +
         if BitOf(s.reg[0x15], n - 1 + shift) == 1 then Output(s, y, wave, n - 1) else 0
  }

  /** A stereo sample, scaled by the master volume. */
  function Mixed(s: Control, y: Synth, wave: WaveRam): (int, int) {
    (64 * (Panned(s, y, wave, 4, 4) * (s.reg[0x14] / 0x10 % 8 + 1)),
     64 * (Panned(s, y, wave, 0, 4) * (s.reg[0x14] % 8 + 1)))
  }

  lemma OutputBounded(s: Control, y: Synth, wave: WaveRam, c: Index)
    requires Ok(s)
    ensures -15 <= Output(s, y, wave, c) <= 15
  {
    assert ChannelOk(s.ch[c], c);
    if c == 2 {
      var n := WaveShift(s.reg[0x0C] / 0x20 % 4);
      assert Pow2(n) == 1 || Pow2(n) == 2 || Pow2(n) == 4 || Pow2(n) == 16 by {
        assert Pow2(0) == 1 && Pow2(1) == 2 && Pow2(2) == 4 && Pow2(4) == 16;
      }
    }
  }

  lemma {:induction false} PannedBounded(s: Control, y: Synth, wave: WaveRam, shift: nat, n: nat)
    requires Ok(s) && n <= 4
    ensures -15 * n <= Panned(s, y, wave, shift, n) <= 15 * n
    decreases n
  {
    if n > 0 {
      PannedBounded(s, y, wave, shift, n - 1);
      OutputBounded(s, y, wave, n - 1);
    }
  }

  lemma Scaled(p: int, v: int)
    requires -60 <= p <= 60 && 1 <= v <= 8
    ensures -30720 <= 64 * (p * v) <= 30720
  {
    assert -60 * v <= p * v <= 60 * v;
  }

  /** After any run of register and clock events every mixed sample fits sixteen bits, with room to spare. */
  lemma SamplesFit(s: Control, es: seq<Event>, y: Synth, wave: WaveRam)
    requires Ok(s)
    ensures var m := Mixed(Run(s, es), y, wave); -30720 <= m.0 <= 30720 && -30720 <= m.1 <= 30720
  {
    RunKeepsOk(s, es);
    var t := Run(s, es);
    PannedBounded(t, y, wave, 4, 4);
    PannedBounded(t, y, wave, 0, 4);
    Scaled(Panned(t, y, wave, 4, 4), t.reg[0x14] / 0x10 % 8 + 1);
    Scaled(Panned(t, y, wave, 0, 4), t.reg[0x14] % 8 + 1);
  }

  lemma {:induction false} PannedIgnoresRemainder(s: Control, y: Synth, acc: nat, wave: WaveRam, shift: nat, n: nat)
    requires n <= 4
    ensures Panned(s, y.(acc := acc), wave, shift, n) == Panned(s, y, wave, shift, n)
    decreases n
  {
    if n > 0 {
      PannedIgnoresRemainder(s, y, acc, wave, shift, n - 1);
    }
  }

  lemma MixedIgnoresRemainder(s: Control, y: Synth, acc: nat, wave: WaveRam)
    ensures Mixed(s, y.(acc := acc), wave) == Mixed(s, y, wave)
  {
    PannedIgnoresRemainder(s, y, acc, wave, 4, 4);
    PannedIgnoresRemainder(s, y, acc, wave, 0, 4);
  }

  // ---- the sample buffer ----

  type Sample = (int, int)

  datatype Buffer = Buffer(queue: seq<Sample>, dropped: nat)

  /** A sample that finds the buffer full is dropped. */
  function Push(b: Buffer, x: Sample): Buffer {
    if |b.queue| < 8192 then b.(queue := b.queue + [x]) else b.(dropped := b.dropped + 1)
  }

  function PushMany(b: Buffer, x: Sample, k: nat): Buffer {
    if k == 0 then b else Push(PushMany(b, x, k - 1), x)
  }

  function Fewer(a: nat, b: nat): nat { if a < b then a else b }

  /** One synthesis step: the generators move on, then the samples that fell due are mixed. */
  function SynthTick(y: Synth, s: Control, wave: WaveRam, b: Buffer, t: nat): (Synth, Buffer) {
    var z := Advance(y, ToneOf(s), t);
    (z, PushMany(b, Mixed(s, z, wave), Due(y.acc, t)))
  }

  datatype Traffic = Produce(x: Sample) | Drain(most: nat)

  /** What went through the buffer: drained so far, and accepted so far. */
  datatype Flow = Flow(buffer: Buffer, drained: seq<Sample>, accepted: seq<Sample>, produced: nat)

  function Pass(f: Flow, e: Traffic): Flow {
    match e
    case Produce(x) =>
      var b := Push(f.buffer, x);
      Flow(b, f.drained, if b.dropped == f.buffer.dropped then f.accepted + [x] else f.accepted, f.produced + 1)
    case Drain(most) =>
      var n := Fewer(most, |f.buffer.queue|);
      f.(buffer := f.buffer.(queue := f.buffer.queue[n..]), drained := f.drained + f.buffer.queue[..n])
  }

  function PassAll(es: seq<Traffic>): Flow {
    if es == [] then Flow(Buffer([], 0), [], [], 0) else Pass(PassAll(es[..|es| - 1]), es[|es| - 1])
  }

  /** Samples leave in the order they came; every sample produced is drained, queued or dropped. */
  lemma {:induction false} FifoOrder(es: seq<Traffic>)
    ensures var f := PassAll(es);
      && f.drained + f.buffer.queue == f.accepted
      && f.produced == |f.drained| + |f.buffer.queue| + f.buffer.dropped
      && |f.buffer.queue| <= 8192
    decreases |es|
  {
    if es != [] {
      FifoOrder(es[..|es| - 1]);
      var f := PassAll(es[..|es| - 1]);
      match es[|es| - 1] {
        case Produce(x) => assert f.drained + (f.buffer.queue + [x]) == (f.drained + f.buffer.queue) + [x];
        case Drain(most) =>
          var n := Fewer(most, |f.buffer.queue|);
          var out, rest := f.buffer.queue[..n], f.buffer.queue[n..];
          assert out + rest == f.buffer.queue;
          assert (f.drained + out) + rest == f.drained + (out + rest);
      }
    }
  }
}
