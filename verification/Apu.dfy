/** The sound unit itself: the register file with its clocked counters, and the voices with the sample buffer. */
module ApuUnit {
  import opened Bytes
  import opened ApuControl
  import opened ApuSynth

  /** NR10, 11, 12, 14; 21, 22, 24; 30, 31, 32, 34; 41, 42, 44; 50, 51, 52. */
  function BootRegisters(): Registers {
    [0x80, 0xBF, 0xF3, 0x00, 0xBF, 0x00, 0x3F, 0x00, 0x00, 0xBF, 0x7F, 0xFF, 0x9F, 0x00, 0xBF,
     0x00, 0xFF, 0x00, 0x00, 0xBF, 0x77, 0xF3, 0xF1]
  }

  function BootChannel(c: Index): Channel { Channel(c == 0, c == 0, 0, false, 0, 0, 0, false) }

  function AfterBoot(): Control {
    Control(true, 0, false, seq(4, c requires 0 <= c < 4 => BootChannel(c)), Sweep(0, 0, 0, false, false, false, 0),
            BootRegisters())
  }

  class RegisterFile {
    var power: bool
    var fsStep: nat
    var divBitPrev: bool
    var sweep: Sweep
    const ch: array<Channel>
    const reg: array<uint8>

    ghost predicate Valid()
      reads this
    {
      ch.Length == 4 && reg.Length == 0x17
    }

    function Value(): Control
      requires Valid()
      reads this, ch, reg
    {
      Control(power, fsStep, divBitPrev, ch[..], sweep, reg[..])
    }

    /** The registers the boot program leaves behind; channel 1 sounds. */
    constructor ()
      ensures Valid() && fresh(ch) && fresh(reg)
      ensures Value() == AfterBoot() && Ok(Value())
    {
      power, fsStep, divBitPrev := true, 0, false;
      sweep := Sweep(0, 0, 0, false, false, false, 0);
      ch := new Channel[4](c requires 0 <= c < 4 => BootChannel(c));
      reg := new uint8[0x17](i requires 0 <= i < 0x17 => BootRegisters()[i]);
    }

    method ClockLengths()
      requires Valid()
      modifies ch
      ensures ch[..] == LengthClock(old(ch[..]))
    {
      for c := 0 to 4
        invariant forall k :: 0 <= k < 4 ==> ch[k] == if k < c then LengthTick(old(ch[k])) else old(ch[k])
      {
        if ch[c].lengthEn && ch[c].length > 0 {
          ch[c] := ch[c].(length := ch[c].length - 1);
          if ch[c].length == 0 {
            ch[c] := ch[c].(on := false);
          }
        }
      }
    }

    method ClockEnvelopes()
      requires Valid()
      modifies ch
      ensures ch[..] == EnvClock(old(ch[..]))
    {
      for c := 0 to 4
        invariant forall k :: 0 <= k < 4 ==> ch[k] == if k < c && k != 2 then EnvTick(old(ch[k])) else old(ch[k])
      {
        if c != 2 && ch[c].envPeriod != 0 {
          var k := ch[c];
          if k.envTimer > 0 {
            k := k.(envTimer := k.envTimer - 1);
          }
          if k.envTimer == 0 {
            k := k.(envTimer := k.envPeriod);
            if k.envDir && k.envVol < 15 {
              k := k.(envVol := k.envVol + 1);
            } else if !k.envDir && k.envVol > 0 {
              k := k.(envVol := k.envVol - 1);
            }
          }
          ch[c] := k;
        }
      }
    }

    method NextFrequency() returns (f: int)
      requires Valid()
      modifies this`sweep
      ensures f == SweepCalc(old(sweep))
      ensures sweep == old(sweep).(negUsed := old(sweep).negUsed || old(sweep).dir)
    {
      f := SweepCalc(sweep);
      if sweep.dir {
        sweep := sweep.(negUsed := true);
      }
    }

    method Silence(c: Index)
      requires Valid()
      modifies ch
      ensures Value() == SwitchOff(old(Value()), c)
    {
      ch[c] := ch[c].(on := false);
    }

    method StepSweep()
      requires Valid()
      modifies this`sweep, ch, reg
      ensures Value() == SweepStep(old(Value()))
    {
      var f := NextFrequency();
      if f > 2047 || f < 0 {
        Silence(0);
      } else if sweep.shift > 0 {
        sweep := sweep.(shadow := f);
        reg[3] := f % 0x100;
        reg[4] := reg[4] - reg[4] % 8 + f / 0x100 % 8;
        var g := NextFrequency();
        if g > 2047 {
          Silence(0);
        }
      }
    }

    method ClockSweep()
      requires Valid()
      modifies this`sweep, ch, reg
      ensures Value() == SweepClock(old(Value()))
    {
      if sweep.timer > 0 {
        sweep := sweep.(timer := sweep.timer - 1);
      }
      if sweep.timer != 0 {
        return;
      }
      sweep := sweep.(timer := if sweep.period > 0 then sweep.period else 8);
      if sweep.enabled && sweep.period > 0 {
        StepSweep();
      }
    }

    method StepSequencer()
      requires Valid()
      modifies this`fsStep, this`sweep, ch, reg
      ensures Value() == FsStep(old(Value()))
    {
      fsStep := (fsStep + 1) % 8;
      if fsStep == 0 || fsStep == 4 {
        ClockLengths();
      } else if fsStep == 2 || fsStep == 6 {
        ClockLengths();
        ClockSweep();
      } else if fsStep == 7 {
        ClockEnvelopes();
      }
    }

    method ClockSequencer(div: uint16, doubleSpeed: bool)
      requires Valid()
      modifies this`fsStep, this`divBitPrev, this`sweep, ch, reg
      ensures Value() == ApuControl.Tick(old(Value()), div, doubleSpeed)
    {
      var bit := DivBit(div, doubleSpeed);
      if divBitPrev && !bit && power {
        StepSequencer();
      }
      divBitPrev := bit;
    }

    method RestartChannel(c: Index)
      requires Valid()
      modifies ch
      ensures Value() == old(Value()).(ch := old(ch[..])[c := Retriggered(old(Value()), c)])
    {
      var k := ch[c].(on := ch[c].dac);
      if k.length == 0 {
        k := k.(length := LengthMax(c));
        if k.lengthEn && (fsStep + 1) % 2 != 0 {
          k := k.(length := k.length - 1);
        }
      }
      if c != 2 {
        var v := reg[EnvelopeRegister(c)];
        k := k.(envVol := v / 0x10, envDir := v / 8 % 2 == 1, envPeriod := v % 8);
        k := k.(envTimer := k.envPeriod);
      }
      ch[c] := k;
    }

    method InitSweep()
      requires Valid()
      modifies this`sweep, ch
      ensures Value() == SweepInit(old(Value()))
    {
      var v := reg[0];
      var period, shift := v / 0x10 % 8, v % 8;
      sweep := Sweep(period, if period > 0 then period else 8, shift, v / 8 % 2 == 1, period > 0 || shift > 0, false,
                     Frequency(reg[..], 3, 4));
      if shift > 0 {
        var f := NextFrequency();
        if f > 2047 {
          Silence(0);
        }
      }
    }

    method Restart(c: Index)
      requires Valid()
      modifies this`sweep, ch
      ensures Value() == Trigger(old(Value()), c)
    {
      RestartChannel(c);
      if c == 0 {
        InitSweep();
      }
    }

    method StorePower(v: uint8)
      requires Valid()
      modifies this`power, this`fsStep, this`sweep, ch, reg
      ensures Value() == Write(old(Value()), 0x16, v)
    {
      if v < 0x80 && power {
        forall i | 0 <= i < 0x16 {
          reg[i] := 0;
        }
        for c := 0 to 4
          invariant reg[..] == Zeros(0x16) + old(reg[..])[0x16..]
          invariant fsStep == old(fsStep) && sweep == old(sweep)
          invariant forall k :: 0 <= k < 4 ==>
            ch[k] == if k < c then old(ch[k]).(on := false, dac := false, lengthEn := false) else old(ch[k])
        {
          ch[c] := ch[c].(on := false, dac := false, lengthEn := false);
        }
        sweep := sweep.(enabled := false);
      } else if v >= 0x80 && !power {
        fsStep := 0;
      }
      power := v >= 0x80;
    }

    method StoreLength(c: Index, v: uint8)
      requires Valid()
      modifies ch
      ensures Value() == LoadLength(old(Value()), c, v)
    {
      ch[c] := ch[c].(length := LengthMax(c) - if c == 2 then v else v % 0x40);
    }

    method StoreDac(c: Index, v: uint8)
      requires Valid()
      modifies ch
      ensures Value() == SetDac(old(Value()), c, v)
    {
      ch[c] := ch[c].(dac := if c == 2 then v >= 0x80 else v >= 8);
      if !ch[c].dac {
        ch[c] := ch[c].(on := false);
      }
    }

    method StoreTrigger(c: Index, v: uint8)
      requires Valid()
      modifies this`sweep, ch
      ensures Value() == var u := SetLengthEnable(old(Value()), c, v); if v >= 0x80 then Trigger(u, c) else u
    {
      var was := ch[c].lengthEn;
      var k := ch[c].(lengthEn := v / 0x40 % 2 == 1);
      if !was && k.lengthEn && (fsStep + 1) % 2 != 0 && k.length > 0 {
        k := k.(length := k.length - 1);
        if k.length == 0 && v < 0x80 {
          k := k.(on := false);
        }
      }
      ch[c] := k;
      assert Value() == SetLengthEnable(old(Value()), c, v);
      if v >= 0x80 {
        Restart(c);
      }
    }

    /** While the unit is off only the length counters can be loaded. */
    method Store(i: nat, v: uint8)
      requires Valid()
      modifies this`power, this`fsStep, this`sweep, ch, reg
      ensures Value() == Write(old(Value()), i, v)
    {
      if i >= 0x17 {
        return;
      }
      if i == 0x16 {
        StorePower(v);
        return;
      }
      if !power {
        if LengthOwner(i).Some? {
          StoreLength(LengthOwner(i).value, v);
        }
        return;
      }
      reg[i] := v;
      if LengthOwner(i).Some? {
        StoreLength(LengthOwner(i).value, v);
      } else if DacOwner(i).Some? {
        StoreDac(DacOwner(i).value, v);
      } else if TriggerOwner(i).Some? {
        StoreTrigger(TriggerOwner(i).value, v);
      }
    }
  }

  // ---- the voices ----

  class Voices {
    var sqTimer0: int
    var sqStep0: nat
    var sqTimer1: int
    var sqStep1: nat
    var wvTimer: int
    var wvPos: nat
    var nsTimer: int
    var lfsr: Noise
    var sampleAcc: nat
    /** Left and right values in turn. */
    const samp: array<int>
    var sampN: nat
    /** Samples that found the buffer full. */
    ghost var dropped: nat

    ghost predicate Valid()
      reads this
    {
      samp.Length == 16384 && sampN <= 8192
    }

    function Value(): Synth
      reads this
    {
      Synth(sqTimer0, sqStep0, sqTimer1, sqStep1, wvTimer, wvPos, nsTimer, lfsr, sampleAcc)
    }

    ghost function Buffered(): Buffer
      requires Valid()
      reads this, samp
    {
      Buffer(Pairs(samp[..], sampN), dropped)
    }

    constructor ()
      ensures Valid() && fresh(samp) && Buffered() == Buffer([], 0) && sampleAcc == 0
    {
      sqTimer0, sqStep0, sqTimer1, sqStep1, wvTimer, wvPos, nsTimer := 0, 0, 0, 0, 0, 0, 0;
      lfsr, sampleAcc, sampN, dropped := 0x7FFF, 0, 0, 0;
      samp := new int[16384](_ => 0);
    }

    /** A timer runs down by `t` and is reloaded while it is not above zero. */
    static method RunTimer(left: int, period: nat, t: nat) returns (timer: int, n: nat)
      requires period > 0
      ensures n == Reloads(left, period, t) && timer == Left(left, period, t)
    {
      timer, n := left - t, 0;
      while timer <= 0
        invariant timer == left - t + period * n
        invariant n > 0 ==> left - t + period * (n - 1) <= 0
        decreases if timer <= 0 then 1 - timer else 0
      {
        timer := timer + period;
        n := n + 1;
      }
      ReloadsUnique(left, period, t, n);
    }

    method RunSquares(p: Tone, t: nat)
      requires p.Valid()
      modifies this`sqTimer0, this`sqStep0, this`sqTimer1, this`sqStep1
      ensures Value() == Squares(old(Value()), p, t)
    {
      if p.sq0 {
        var timer, n := RunTimer(sqTimer0, p.sqPeriod0, t);
        sqTimer0, sqStep0 := timer, (sqStep0 + n) % 8;
      }
      if p.sq1 {
        var timer, n := RunTimer(sqTimer1, p.sqPeriod1, t);
        sqTimer1, sqStep1 := timer, (sqStep1 + n) % 8;
      }
    }

    method RunWaveNoise(p: Tone, t: nat)
      requires p.Valid()
      modifies this`wvTimer, this`wvPos, this`nsTimer, this`lfsr
      ensures Value() == WaveNoise(old(Value()), p, t)
    {
      if p.wv {
        var timer, n := RunTimer(wvTimer, p.wvPeriod, t);
        wvTimer, wvPos := timer, (wvPos + n) % 32;
      }
      if p.ns {
        var timer, n := RunTimer(nsTimer, p.nsPeriod, t);
        nsTimer := timer;
        var l := lfsr;
        for k := 0 to n
          invariant l == NoiseSteps(lfsr, p.narrow, k)
        {
          l := NoiseStep(l, p.narrow);
        }
        lfsr := l;
      }
    }

    method Emit(x: Sample)
      requires Valid()
      modifies this`sampN, this`dropped, samp
      ensures Valid() && Buffered() == Push(old(Buffered()), x)
    {
      if sampN < 8192 {
        samp[2 * sampN] := x.0;
        samp[2 * sampN + 1] := x.1;
        sampN := sampN + 1;
      } else {
        dropped := dropped + 1;
      }
    }

    method Restart(s: Control, c: Index)
      modifies this`sqTimer0, this`sqTimer1, this`wvTimer, this`wvPos, this`nsTimer, this`lfsr
      ensures Value() == Restarted(old(Value()), s, c)
    {
      if c == 0 {
        sqTimer0 := (2048 - Frequency(s.reg, 3, 4)) * 4;
      } else if c == 1 {
        sqTimer1 := (2048 - Frequency(s.reg, 8, 9)) * 4;
      } else if c == 2 {
        wvTimer, wvPos := (2048 - Frequency(s.reg, 0x0D, 0x0E)) * 2, 0;
      } else {
        nsTimer, lfsr := ToneOf(s).nsPeriod, 0x7FFF;
      }
    }

    /** One step of synthesis: the generators, then one mixed sample for each that fell due. */
    method Synthesize(s: Control, wave: WaveRam, t: nat)
      requires Valid()
      modifies this, samp
      ensures Valid() && (Value(), Buffered()) == SynthTick(old(Value()), s, wave, old(Buffered()), t)
    {
      var p := ToneOf(s);
      RunSquares(p, t);
      SquaresAlone(old(Value()), old(Value()), p, t);
      WaveNoiseAlone(Value(), old(Value()), p, t);
      RunWaveNoise(p, t);
      ghost var due := Due(sampleAcc, t);
      ghost var z := Advance(old(Value()), p, t);
      sampleAcc := sampleAcc + t * 48000;
      ghost var k := 0;
      while sampleAcc >= 4194304
        invariant Valid() && k <= due && sampleAcc == old(sampleAcc) + t * 48000 - 4194304 * k
        invariant Value().(acc := z.acc) == z
        invariant Buffered() == PushMany(old(Buffered()), Mixed(s, z, wave), k)
      {
        sampleAcc := sampleAcc - 4194304;
        MixedIgnoresRemainder(s, Value(), z.acc, wave);
        Emit(Mixed(s, Value(), wave));
        k := k + 1;
      }
    }

    /** The values of the oldest `n` samples go to `out`. */
    method CopyOut(out: array<int>, n: nat)
      requires Valid() && out != samp && n <= sampN && 2 * n <= out.Length
      modifies out
      ensures forall k :: 0 <= k < 2 * n ==> out[k] == samp[k]
    {
      for i := 0 to n * 2
        invariant forall k :: 0 <= k < i ==> out[k] == samp[k]
      {
        out[i] := samp[i];
      }
    }

    /** The values from sample `n` on move to the front. */
    method MoveDown(n: nat)
      requires Valid() && n <= sampN
      modifies samp
      ensures forall k :: 0 <= k < 2 * (sampN - n) ==> samp[k] == old(samp[n * 2 + k])
    {
      for i := 0 to (sampN - n) * 2
        invariant forall k :: 0 <= k < i ==> samp[k] == old(samp[n * 2 + k])
        invariant forall k :: i <= k < samp.Length ==> samp[k] == old(samp[k])
      {
        samp[i] := samp[n * 2 + i];
      }
    }

    /** Copies the oldest samples out and moves the others to the front. */
    method DrainSamples(out: array<int>, maxPairs: nat) returns (n: nat)
      requires Valid() && out != samp && out.Length >= 2 * maxPairs
      modifies this`sampN, samp, out
      ensures Valid() && n == Fewer(maxPairs, |old(Buffered()).queue|)
      ensures Pairs(out[..], n) == old(Buffered()).queue[..n]
      ensures Buffered() == old(Buffered()).(queue := old(Buffered()).queue[n..])
    {
      n := if sampN < maxPairs then sampN else maxPairs;
      ghost var was := samp[..];
      CopyOut(out, n);
      PairsFrom(was, out[..], 0, n, sampN);
      MoveDown(n);
      PairsFrom(was, samp[..], n, sampN - n, sampN);
      sampN := sampN - n;
    }
  }

  /** The whole unit, with its wave memory. */
  class Apu {
    const regs: RegisterFile
    const voices: Voices
    const wave: array<uint8>

    ghost predicate Valid()
      reads this, regs, voices
    {
      regs.Valid() && voices.Valid() && wave.Length == 16 && wave != regs.reg
    }

    constructor ()
      ensures Valid() && fresh(regs) && fresh(voices) && fresh(regs.ch) && fresh(regs.reg) && fresh(voices.samp)
      ensures fresh(wave) && Ok(regs.Value())
    {
      regs := new RegisterFile();
      voices := new Voices();
      wave := new uint8[16](_ => 0);
    }

    /** Synthesis comes before the sequencer, and only while the unit is on. */
    method Tick(t: nat, div: uint16, doubleSpeed: bool)
      requires Valid()
      modifies regs`fsStep, regs`divBitPrev, regs`sweep, regs.ch, regs.reg, voices, voices.samp
      ensures Valid() && regs.Value() == ApuControl.Tick(old(regs.Value()), div, doubleSpeed)
      ensures (voices.Value(), voices.Buffered()) ==
              if old(regs.power)
              then SynthTick(old(voices.Value()), old(regs.Value()), wave[..], old(voices.Buffered()), t)
              else (old(voices.Value()), old(voices.Buffered()))
    {
      if regs.power {
        voices.Synthesize(regs.Value(), wave[..], t);
      }
      regs.ClockSequencer(div, doubleSpeed);
    }

    /** Wave memory is always open; a trigger reaches the voices as well as the registers. */
    method Write(addr: uint16, v: uint8)
      requires Valid()
      modifies regs`power, regs`fsStep, regs`sweep, regs.ch, regs.reg, wave
      modifies voices`sqTimer0, voices`sqTimer1, voices`wvTimer, voices`wvPos, voices`nsTimer, voices`lfsr
      ensures Valid()
      ensures wave[..] == if 0xFF30 <= addr <= 0xFF3F then old(wave[..])[addr - 0xFF30 := v] else old(wave[..])
      ensures regs.Value() ==
              if 0xFF10 <= addr < 0xFF27 then ApuControl.Write(old(regs.Value()), addr - 0xFF10, v)
              else old(regs.Value())
      ensures voices.Value() ==
              if 0xFF10 <= addr < 0xFF27 && Triggered(old(regs.Value()), addr - 0xFF10, v).Some?
              then Restarted(old(voices.Value()), regs.Value(), Triggered(old(regs.Value()), addr - 0xFF10, v).value)
              else old(voices.Value())
    {
      if 0xFF30 <= addr <= 0xFF3F {
        wave[addr - 0xFF30] := v;
        return;
      }
      if !(0xFF10 <= addr < 0xFF27) {
        return;
      }
      var c := Triggered(regs.Value(), addr - 0xFF10, v);
      regs.Store(addr - 0xFF10, v);
      if c.Some? {
        voices.Restart(regs.Value(), c.value);
      }
    }
  }

  /** A copy of the values from pair `from` on holds the pairs from there on. */
  lemma PairsFrom(a: seq<int>, b: seq<int>, from: nat, m: nat, n: nat)
    requires from + m <= n && 2 * n <= |a| && 2 * m <= |b|
    requires forall k :: 0 <= k < 2 * m ==> b[k] == a[from * 2 + k]
    ensures Pairs(b, m) == Pairs(a, n)[from..from + m]
  {
  }

  function Pairs(a: seq<int>, n: nat): (q: seq<Sample>)
    requires 2 * n <= |a|
    ensures |q| == n
  {
    seq(n, i requires 0 <= i < n => (a[2 * i], a[2 * i + 1]))
  }
}
