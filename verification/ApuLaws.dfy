/** What the sound registers mean over time: from the bytes a program writes to volumes, frequencies and lengths. */
module ApuLaws {
  import opened Bytes
  import opened ApuControl

  // ---- envelopes ----

  /** The envelope's part of a channel. */
  predicate SameEnvelope(a: Channel, b: Channel) {
    a.envPeriod == b.envPeriod && a.envTimer == b.envTimer && a.envVol == b.envVol && a.envDir == b.envDir
  }

  function EnvTicks(k: Channel, n: nat): Channel { if n == 0 then k else EnvTick(EnvTicks(k, n - 1)) }

  /** How often `e` sequencer steps from step `f` clock the envelopes. */
  function EnvClocks(f: nat, e: nat): nat {
    if e == 0 then 0 else EnvClocks(f, e - 1) + if StepAfter(f, e) == 7 then 1 else 0
  }

  lemma SweepStepLeaves(t: Control, c: Index)
    ensures var u := SweepStep(t);
      u.power == t.power && u.fsStep == t.fsStep && u.ch[c] == t.ch[c].(on := u.ch[c].on)
  {
  }

  lemma SweepClockLeaves(t: Control, c: Index)
    ensures var u := SweepClock(t);
      u.power == t.power && u.fsStep == t.fsStep && u.ch[c] == t.ch[c].(on := u.ch[c].on)
  {
    if t.sweep.timer <= 1 {
      SweepStepLeaves(t.(sweep := t.sweep.(timer := if t.sweep.period > 0 then t.sweep.period else 8)), c);
    }
  }

  lemma LengthTickLeaves(k: Channel)
    ensures SameEnvelope(LengthTick(k), k)
  {
  }

  lemma StepEnvelope(t: Control, c: Index) returns (u: Control)
    requires t.fsStep < 8 && c != 2
    ensures u == FsStep(t) && u.power == t.power && u.fsStep == (t.fsStep + 1) % 8
    ensures SameEnvelope(u.ch[c], if u.fsStep == 7 then EnvTick(t.ch[c]) else t.ch[c])
  {
    var n := (t.fsStep + 1) % 8;
    u := FsStep(t);
    LengthTickLeaves(t.ch[c]);
    if n == 2 || n == 6 {
      SweepClockLeaves(t.(fsStep := n, ch := LengthClock(t.ch)), c);
    }
  }

  lemma SameEnvelopeTicks(a: Channel, b: Channel)
    requires SameEnvelope(a, b)
    ensures SameEnvelope(EnvTick(a), EnvTick(b))
  {
  }

  /** Channel c of `t`, e sequencer steps after `s`. */
  ghost predicate EnvelopeAt(s: Control, t: Control, c: Index, e: nat) {
    && t.power && t.fsStep == StepAfter(s.fsStep, e) < 8
    && SameEnvelope(t.ch[c], EnvTicks(s.ch[c], EnvClocks(s.fsStep, e)))
  }

  lemma EnvelopeNext(s: Control, t: Control, u: Control, c: Index, e: nat)
    requires EnvelopeAt(s, t, c, e) && u.power && u.fsStep == (t.fsStep + 1) % 8
    requires SameEnvelope(u.ch[c], if u.fsStep == 7 then EnvTick(t.ch[c]) else t.ch[c])
    ensures EnvelopeAt(s, u, c, e + 1)
  {
    SameEnvelopeTicks(t.ch[c], EnvTicks(s.ch[c], EnvClocks(s.fsStep, e)));
  }

  lemma SampleEnvelope(s: Control, t: Control, bit: bool, c: Index, e: nat) returns (u: Control)
    requires EnvelopeAt(s, t, c, e) && c != 2
    ensures u == Sampled(t, bit) && u.divBitPrev == bit
    ensures EnvelopeAt(s, u, c, e + if t.divBitPrev && !bit then 1 else 0)
  {
    u := t;
    if t.divBitPrev && !bit {
      u := StepEnvelope(t, c);
      EnvelopeNext(s, t, u, c, e);
    }
    u := u.(divBitPrev := bit);
  }

  lemma {:induction false} TicksEnvelope(s: Control, div: uint16, n: nat, c: Index) returns (t: Control)
    requires s.fsStep < 8 && s.power && s.divBitPrev == BitAt(div, 0) && c != 2
    ensures t == Ticks(s, div, n) && t.divBitPrev == BitAt(div, n)
    ensures EnvelopeAt(s, t, c, EdgesSampled(div, n))
    decreases n
  {
    t := s;
    if n > 0 {
      t := TicksEnvelope(s, div, n - 1, c);
      t := SampleEnvelope(s, t, BitAt(div, n), c, EdgesSampled(div, n - 1));
    }
  }

  lemma EighthOneMore(x: nat)
    ensures (x + 1) / 8 == x / 8 + if (x + 1) % 8 == 0 then 1 else 0
  {
  }

  lemma {:induction false} SameEighth(a: nat, w: nat)
    ensures a % 8 == (a + 8 * w) % 8
    decreases w
  {
    if w > 0 {
      SameEighth(a + 8, w - 1);
      assert (a + 8) + 8 * (w - 1) == a + 8 * w;
    }
  }

  lemma SeventhStep(f: nat, e: nat)
    requires f < 8
    ensures StepAfter(f, e) == 7 <==> (f + e + 1) % 8 == 0
  {
    var w := StepsWrap(f, e);
    SameEighth(StepAfter(f, e) + 1, w);
    assert StepAfter(f, e) + 1 + 8 * w == f + e + 1;
  }

  lemma {:induction false} EnvClocksInClosedForm(f: nat, e: nat)
    requires f < 8
    ensures EnvClocks(f, e) == (f + e + 1) / 8 - (f + 1) / 8
    decreases e
  {
    if e > 0 {
      EnvClocksInClosedForm(f, e - 1);
      SeventhStep(f, e);
      EighthOneMore(f + e);
    }
  }

  // ---- one channel's envelope, clocked n times ----

  function Least(a: nat, b: nat): nat { if a < b then a else b }

  /** Volume after k steps up or down from v. */
  function Moved(v: nat, up: bool, k: nat): nat {
    if up then Least(15, v + k) else if k < v then v - k else 0
  }

  lemma NextQuotient(n: nat, p: nat)
    requires p > 0
    ensures if n % p == p - 1 then (n + 1) / p == n / p + 1 && (n + 1) % p == 0
            else (n + 1) / p == n / p && (n + 1) % p == n % p + 1
  {
    var q, r := n / p, n % p;
    assert n == p * q + r;
    if r == p - 1 {
      assert n + 1 == p * (q + 1);
      QuotientIs(n + 1, p, q + 1, 0);
    } else {
      QuotientIs(n + 1, p, q, r + 1);
    }
  }

  lemma QuotientIs(n: nat, p: nat, q: nat, r: nat)
    requires p > 0 && n == p * q + r && r < p
    ensures n / p == q && n % p == r
  {
    var a, b := n / p, n % p;
    assert n == p * a + b;
    assert a < q ==> p * (a + 1) <= p * q;
    assert q < a ==> p * (q + 1) <= p * a;
  }

  /** An envelope that starts with a full period to go. */
  lemma {:induction false} EnvelopeClocked(k: Channel, n: nat)
    requires k.envVol <= 15 && k.envPeriod > 0 && k.envTimer == k.envPeriod
    ensures var t := EnvTicks(k, n);
      && t.envVol == Moved(k.envVol, k.envDir, n / k.envPeriod) && t.envDir == k.envDir && t.envPeriod == k.envPeriod
      && t.envTimer == k.envPeriod - n % k.envPeriod
    decreases n
  {
    if n > 0 {
      EnvelopeClocked(k, n - 1);
      NextQuotient(n - 1, k.envPeriod);
    } else {
      QuotientIs(0, k.envPeriod, 0, 0);
    }
  }

  lemma {:induction false} EnvelopeStopped(k: Channel, n: nat)
    requires k.envPeriod == 0
    ensures EnvTicks(k, n) == k
    decreases n
  {
    if n > 0 {
      EnvelopeStopped(k, n - 1);
    }
  }

  // ---- from the registers ----

  /** A trigger loads the envelope from its register. */
  lemma EnvelopeLoaded(s: Control, c: Index, i: nat, w: uint8)
    requires s.power && w >= 0x80 && ((c == 0 && i == 0x04) || (c == 1 && i == 0x09) || (c == 3 && i == 0x13))
    ensures
      var t := Write(s, i, w);
      var k, v := t.ch[c], s.reg[if c == 0 then 0x02 else if c == 1 then 0x07 else 0x11];
      && k.envVol == v / 0x10 && k.envDir == (v / 8 % 2 == 1) && k.envPeriod == k.envTimer == v % 8
      && t.power && t.fsStep == s.fsStep && t.divBitPrev == s.divBitPrev
  {
  }

  lemma EnvelopeMoves(e: Channel, v: uint8, k: nat)
    requires e.envVol == v / 0x10 && e.envDir == (v / 8 % 2 == 1) && e.envPeriod == e.envTimer == v % 8
    ensures EnvTicks(e, k).envVol ==
      if v % 8 == 0 then v / 0x10
      else if v / 8 % 2 == 1 then (if v / 0x10 + k / (v % 8) < 15 then v / 0x10 + k / (v % 8) else 15)
      else if v / 0x10 > k / (v % 8) then v / 0x10 - k / (v % 8) else 0
  {
    if v % 8 == 0 {
      EnvelopeStopped(e, k);
    } else {
      EnvelopeClocked(e, k);
    }
  }

  /** Volume of a channel whose envelope was clocked k times in n M-cycles. */
  lemma VolumeOf(t: Control, div: uint16, n: nat, c: Index, k: nat) returns (vol: nat)
    requires t.fsStep < 8 && t.power && t.divBitPrev == BitAt(div, 0) && c != 2
    requires k == (t.fsStep + ((div + 4 * n) / 0x2000 - div / 0x2000) + 1) / 8 - (t.fsStep + 1) / 8
    ensures vol == Ticks(t, div, n).ch[c].envVol == EnvTicks(t.ch[c], k).envVol
  {
    var u := TicksEnvelope(t, div, n, c);
    EdgesAreSampled(div, n);
    EnvClocksInClosedForm(t.fsStep, Edges(div, n));
    vol := u.ch[c].envVol;
  }

  /** After a trigger the volume starts from the register's high half and moves one step up or down every p envelope
      clocks, p being its low three bits, until it reaches 15 or 0; with p = 0 it stays.  Envelopes are clocked at
      every eighth falling edge of DIV bit 12. */
  lemma EnvelopeInTime(s: Control, c: Index, i: nat, w: uint8, div: uint16, n: nat, v: uint8, k: nat)
      returns (vol: nat)
    requires s.power && s.fsStep < 8 && s.divBitPrev == BitAt(div, 0) && w >= 0x80
    requires (c == 0 && i == 0x04) || (c == 1 && i == 0x09) || (c == 3 && i == 0x13)
    requires v == s.reg[if c == 0 then 0x02 else if c == 1 then 0x07 else 0x11]
    requires k == (s.fsStep + ((div + 4 * n) / 0x2000 - div / 0x2000) + 1) / 8 - (s.fsStep + 1) / 8
    ensures vol == Ticks(Write(s, i, w), div, n).ch[c].envVol
    ensures vol ==
      if v % 8 == 0 then v / 0x10
      else if v / 8 % 2 == 1 then (if v / 0x10 + k / (v % 8) < 15 then v / 0x10 + k / (v % 8) else 15)
      else if v / 0x10 > k / (v % 8) then v / 0x10 - k / (v % 8) else 0
  {
    var t := Write(s, i, w);
    EnvelopeLoaded(s, c, i, w);
    vol := VolumeOf(t, div, n, c, k);
    EnvelopeMoves(t.ch[c], v, k);
  }

  // ---- the sweep ----

  function SweepClocks(s: Control, m: nat): Control { if m == 0 then s else SweepClock(SweepClocks(s, m - 1)) }

  /** A trigger of channel 1 loads the sweep from NR10 and the frequency from NR13 and NR14. */
  lemma SweepLoaded(s: Control, w: uint8) returns (t: Control)
    requires s.power && w >= 0x80
    ensures t == Write(s, 0x04, w) && t.reg == s.reg[4 := w]
    ensures
      var v := s.reg[0];
      && t.sweep.shadow == s.reg[3] + 0x100 * (w % 8) && t.sweep.dir == (v / 8 % 2 == 1)
      && t.sweep.period == v / 0x10 % 8 && t.sweep.shift == v % 8
      && (t.sweep.enabled <==> v / 0x10 % 8 > 0 || v % 8 > 0)
      && t.sweep.timer == if v / 0x10 % 8 > 0 then v / 0x10 % 8 else 8
  {
    t := Write(s, 0x04, w);
  }

  /** A trigger of channel 1 with a shift checks the first step of an upward sweep at once. */
  lemma FirstCheck(s: Control, w: uint8, v: uint8, f: nat)
    requires s.power && w >= 0x80 && v == s.reg[0] && f == s.reg[3] + 0x100 * (w % 8)
    ensures Write(s, 0x04, w).ch[0].on <==>
            s.ch[0].dac && !(v % 8 > 0 && v / 8 % 2 == 0 && f + f / Pow2(v % 8) > 2047)
  {
    var t := s.(reg := s.reg[0x04 := w]);
    var u := SetLengthEnable(t, 0, w);
    CheckOf(u.(ch := u.ch[0 := Retriggered(u, 0)]), v, f);
  }

  lemma CheckOf(t: Control, v: uint8, f: nat)
    requires t.reg[0] == v && Frequency(t.reg, 3, 4) == f
    ensures SweepInit(t).ch[0].on <==> t.ch[0].on && !(v % 8 > 0 && v / 8 % 2 == 0 && f + f / Pow2(v % 8) > 2047)
  {
    QuotientBounds(f, Pow2(v % 8));
  }

  lemma {:induction false} SweepWaits(t: Control, m: nat)
    requires m < t.sweep.timer
    ensures SweepClocks(t, m) == t.(sweep := t.sweep.(timer := t.sweep.timer - m))
    decreases m
  {
    if m > 0 {
      SweepWaits(t, m - 1);
    }
  }

  lemma {:induction false} SweepStays(t: Control, m: nat)
    requires t.sweep.period == 0
    ensures var u := SweepClocks(t, m);
      u.sweep == t.sweep.(timer := u.sweep.timer) && u.ch == t.ch && u.reg == t.reg
    decreases m
  {
    if m > 0 {
      SweepStays(t, m - 1);
    }
  }

  /** The p-th clock: the frequency moves by its 2^k-th part and is written back, or overflows and silences. */
  lemma SweepFirst(t: Control, u: Control, g: int)
    requires t.sweep.enabled && t.sweep.period > 0 && t.sweep.timer == 1 && t.sweep.shift > 0 && t.sweep.shadow <= 2047
    requires g == if t.sweep.dir then t.sweep.shadow - t.sweep.shadow / Pow2(t.sweep.shift)
                  else t.sweep.shadow + t.sweep.shadow / Pow2(t.sweep.shift)
    requires u == SweepClock(t)
    ensures if g <= 2047 then u.sweep.shadow == g && Frequency(u.reg, 3, 4) == g
            else u.sweep.shadow == t.sweep.shadow && u.reg == t.reg && !u.ch[0].on
    ensures g <= 2047 && !t.sweep.dir ==>
              (u.ch[0].on <==> t.ch[0].on && g + g / Pow2(t.sweep.shift) <= 2047)
    ensures t.sweep.dir ==> u.ch[0].on == t.ch[0].on
  {
    SweepCalcBounds(t.sweep);
    SweepCalcBounds(t.sweep.(shadow := if g <= 2047 then g else 0));
    if g <= 2047 {
      FrequencyStored(t.reg, g);
    }
  }

  /** After a trigger of channel 1 with sweep period p and shift k the frequency stays for p - 1 sweep clocks; at the
      p-th it falls or rises by its 2^k-th part, into the registers as well, or silences the channel above 2047. */
  lemma SweepAfterTrigger(s: Control, w: uint8, p: nat, k: nat, f: nat, g: int, m: nat) returns (u: Control)
    requires s.power && w >= 0x80 && p == s.reg[0] / 0x10 % 8 && k == s.reg[0] % 8 && f == s.reg[3] + 0x100 * (w % 8)
    requires g == if s.reg[0] / 8 % 2 == 1 then f - f / Pow2(k) else f + f / Pow2(k)
    ensures u == SweepClocks(Write(s, 0x04, w), m)
    ensures p == 0 || m < p ==> u.sweep.shadow == f && u.reg == s.reg[4 := w]
    ensures m == p > 0 && k > 0 && g <= 2047 ==> u.sweep.shadow == g && Frequency(u.reg, 3, 4) == g
    ensures m == p > 0 && k > 0 && g > 2047 ==> u.sweep.shadow == f && u.reg == s.reg[4 := w] && !u.ch[0].on
  {
    var t := SweepLoaded(s, w);
    u := SweepFrom(t, f, g, m);
  }

  lemma SweepDue(t: Control, f: nat, g: int, m: nat) returns (u: Control)
    requires m == t.sweep.period == t.sweep.timer > 0 && t.sweep.enabled && t.sweep.shift > 0
    requires t.sweep.shadow == f <= 2047
    requires g == if t.sweep.dir then f - f / Pow2(t.sweep.shift) else f + f / Pow2(t.sweep.shift)
    ensures u == SweepClocks(t, m)
    ensures if g <= 2047 then u.sweep.shadow == g && Frequency(u.reg, 3, 4) == g
            else u.sweep.shadow == f && u.reg == t.reg && !u.ch[0].on
  {
    SweepWaits(t, m - 1);
    var before := t.(sweep := t.sweep.(timer := 1));
    u := SweepClock(before);
    SweepFirst(before, u, g);
  }

  lemma SweepFrom(t: Control, f: nat, g: int, m: nat) returns (u: Control)
    requires t.sweep.timer == (if t.sweep.period > 0 then t.sweep.period else 8) && t.sweep.shadow == f <= 2047
    requires t.sweep.enabled <==> t.sweep.period > 0 || t.sweep.shift > 0
    requires g == if t.sweep.dir then f - f / Pow2(t.sweep.shift) else f + f / Pow2(t.sweep.shift)
    ensures u == SweepClocks(t, m)
    ensures t.sweep.period == 0 || m < t.sweep.period ==> u.sweep.shadow == f && u.reg == t.reg
    ensures m == t.sweep.period > 0 && t.sweep.shift > 0 ==>
      if g <= 2047 then u.sweep.shadow == g && Frequency(u.reg, 3, 4) == g
      else u.sweep.shadow == f && u.reg == t.reg && !u.ch[0].on
  {
    u := SweepClocks(t, m);
    if t.sweep.period == 0 {
      SweepStays(t, m);
    } else if m < t.sweep.period {
      SweepWaits(t, m);
    } else if m == t.sweep.period && t.sweep.shift > 0 {
      u := SweepDue(t, f, g, m);
    }
  }

  function Steps(s: Control, n: nat): Control { if n == 0 then s else FsStep(Steps(s, n - 1)) }

  lemma SweepAlone(a: Control, b: Control)
    requires a.sweep == b.sweep
    ensures SweepClock(a).sweep == SweepClock(b).sweep
  {
  }

  lemma StepSweep(t: Control) returns (u: Control)
    requires t.fsStep < 8
    ensures u == FsStep(t) && u.fsStep == (t.fsStep + 1) % 8
    ensures u.sweep == if u.fsStep == 2 || u.fsStep == 6 then SweepClock(t).sweep else t.sweep
  {
    var n := (t.fsStep + 1) % 8;
    u := FsStep(t);
    if n == 2 || n == 6 {
      var l := t.(fsStep := n, ch := LengthClock(t.ch));
      SweepAlone(l, t);
      SweepClockLeaves(l, 0);
    }
  }

  lemma FourthStep(f: nat, e: nat)
    requires f < 8
    ensures StepAfter(f, e) == 2 || StepAfter(f, e) == 6 <==> (f + e + 2) % 4 == 0
  {
    var w := StepsWrap(f, e);
    assert f + e + 2 == StepAfter(f, e) + 2 + 4 * (2 * w);
    SameQuarter(StepAfter(f, e) + 2, 2 * w);
  }

  lemma {:induction false} SameQuarter(a: nat, w: nat)
    ensures a % 4 == (a + 4 * w) % 4
    decreases w
  {
    if w > 0 {
      SameQuarter(a + 4, w - 1);
      assert (a + 4) + 4 * (w - 1) == a + 4 * w;
    }
  }

  lemma QuarterOneMore(x: nat)
    ensures (x + 1) / 4 == x / 4 + if (x + 1) % 4 == 0 then 1 else 0
  {
  }

  /** How often `e` sequencer steps from step `f` clock the sweep. */
  function SweepCount(f: nat, e: nat): nat {
    if e == 0 then 0 else SweepCount(f, e - 1) + if StepAfter(f, e) == 2 || StepAfter(f, e) == 6 then 1 else 0
  }

  lemma {:induction false} SweepCountInClosedForm(f: nat, e: nat)
    requires f < 8
    ensures SweepCount(f, e) == (f + e + 2) / 4 - (f + 2) / 4
    decreases e
  {
    if e > 0 {
      SweepCountInClosedForm(f, e - 1);
      FourthStep(f, e);
      QuarterOneMore(f + e + 1);
    }
  }

  /** The sweep of `t`, e sequencer steps after `s`. */
  ghost predicate SweepAt(s: Control, t: Control, e: nat, k: nat) {
    t.fsStep == StepAfter(s.fsStep, e) < 8 && t.sweep == SweepClocks(s, k).sweep
  }

  lemma SweepNext(s: Control, t: Control, u: Control, e: nat, k: nat)
    requires SweepAt(s, t, e, k) && u.fsStep == (t.fsStep + 1) % 8
    requires u.sweep == if u.fsStep == 2 || u.fsStep == 6 then SweepClock(t).sweep else t.sweep
    ensures SweepAt(s, u, e + 1, k + if u.fsStep == 2 || u.fsStep == 6 then 1 else 0)
  {
    SweepAlone(t, SweepClocks(s, k));
  }

  lemma {:induction false} StepsSweep(s: Control, e: nat) returns (t: Control, k: nat)
    requires s.fsStep < 8
    ensures t == Steps(s, e) && k == SweepCount(s.fsStep, e) && SweepAt(s, t, e, k)
    decreases e
  {
    t, k := s, 0;
    if e > 0 {
      var before, count := StepsSweep(s, e - 1);
      t := StepSweep(before);
      SweepNext(s, before, t, e - 1, count);
      k := count + if t.fsStep == 2 || t.fsStep == 6 then 1 else 0;
    }
  }

  /** The sweep is clocked by every fourth sequencer step, the second and the sixth of eight. */
  lemma SweepRate(s: Control, e: nat, m: nat)
    requires s.fsStep < 8 && m == (s.fsStep + e + 2) / 4 - (s.fsStep + 2) / 4
    ensures Steps(s, e).sweep == SweepClocks(s, m).sweep
  {
    SweepCountInClosedForm(s.fsStep, e);
    var t, k := StepsSweep(s, e);
  }

  // ---- lengths ----

  /** A length register loads what is missing to 64, or to 256 for the wave channel, with the unit on or off. */
  lemma LengthLoaded(s: Control, c: Index, i: nat, v: uint8)
    requires (c == 0 && i == 0x01) || (c == 1 && i == 0x06) || (c == 2 && i == 0x0B) || (c == 3 && i == 0x10)
    ensures Write(s, i, v).ch[c].length == if c == 2 then 256 - v else 64 - v % 64
    ensures Write(s, i, v).ch[c] == s.ch[c].(length := Write(s, i, v).ch[c].length)
  {
  }

  lemma EnabledEmpty(t: Control, c: Index, w: uint8)
    requires t.ch[c].length == 0
    ensures SetLengthEnable(t, c, w) == t.(ch := t.ch[c := t.ch[c].(lengthEn := w / 0x40 % 2 == 1)])
  {
  }

  lemma RefilledEmpty(u: Control, c: Index)
    requires u.ch[c].length == 0 && u.fsStep < 8
    ensures var k := Retriggered(u, c);
      && k.length == (if c == 2 then 256 else 64) - (if u.ch[c].lengthEn && u.fsStep % 2 == 0 then 1 else 0)
      && k.lengthEn == u.ch[c].lengthEn && k.on == u.ch[c].dac
  {
  }

  /** The sweep's first check can only stop channel 1, and only when it goes upwards by some part. */
  lemma SweepInitLeaves(t: Control)
    ensures var k := SweepInit(t).ch[0];
      k == t.ch[0].(on := k.on) && (k.on ==> t.ch[0].on)
      && (t.ch[0].on && !k.on ==> t.reg[0] % 8 > 0 && t.reg[0] / 8 % 2 != 1)
  {
    QuotientBounds(Frequency(t.reg, 3, 4), Pow2(t.reg[0] % 8));
  }

  lemma Triggers(s: Control, c: Index, i: nat, w: uint8) returns (u: Control)
    requires s.power && w >= 0x80 && s.ch[c].length == 0
    requires (c == 0 && i == 0x04) || (c == 1 && i == 0x09) || (c == 2 && i == 0x0E) || (c == 3 && i == 0x13)
    ensures u == s.(reg := s.reg[i := w], ch := s.ch[c := s.ch[c].(lengthEn := w / 0x40 % 2 == 1)])
    ensures Write(s, i, w) == Trigger(u, c)
  {
    var t := s.(reg := s.reg[i := w]);
    EnabledEmpty(t, c, w);
    u := SetLengthEnable(t, c, w);
  }

  /** A trigger fills an empty length counter, less one when it is enabled and the next sequencer step will not
      clock it; it starts the channel exactly when its DAC is on, if the sweep does not stop it. */
  lemma TriggerFills(s: Control, c: Index, i: nat, w: uint8) returns (k: Channel)
    requires s.power && s.fsStep < 8 && w >= 0x80 && s.ch[c].length == 0
    requires (c == 0 && i == 0x04) || (c == 1 && i == 0x09) || (c == 2 && i == 0x0E) || (c == 3 && i == 0x13)
    ensures k == Write(s, i, w).ch[c]
    ensures k.length == (if c == 2 then 256 else 64) - (if w / 0x40 % 2 == 1 && s.fsStep % 2 == 0 then 1 else 0)
    ensures k.lengthEn == (w / 0x40 % 2 == 1) && (k.on ==> s.ch[c].dac)
    ensures s.ch[c].dac && !k.on ==> c == 0 && s.reg[0] % 8 > 0 && s.reg[0] / 8 % 2 != 1
  {
    var u := Triggers(s, c, i, w);
    RefilledEmpty(u, c);
    k := Retriggered(u, c);
    var t := u.(ch := u.ch[c := k]);
    if c == 0 {
      SweepInitLeaves(t);
      k := SweepInit(t).ch[0];
    }
  }

  /** Newly enabling a length counter in the half period in which the next step will not clock it clocks it at once;
      that silences the channel when it was the last clock, unless the write triggers it again. */
  lemma EnableClocks(s: Control, c: Index, i: nat, w: uint8) returns (k: Channel)
    requires s.power && s.fsStep < 8 && w < 0x80
    requires (c == 0 && i == 0x04) || (c == 1 && i == 0x09) || (c == 2 && i == 0x0E) || (c == 3 && i == 0x13)
    ensures k == Write(s, i, w).ch[c] && k.lengthEn == (w / 0x40 % 2 == 1)
    ensures
      var at := !s.ch[c].lengthEn && w / 0x40 % 2 == 1 && s.fsStep % 2 == 0 && s.ch[c].length > 0;
      k.length == s.ch[c].length - (if at then 1 else 0) && k.on == (s.ch[c].on && !(at && s.ch[c].length == 1))
  {
    k := SetLengthEnable(s.(reg := s.reg[i := w]), c, w).ch[c];
  }

  /** The high bits of an envelope register, or bit 7 of NR30, switch a DAC; without its DAC a channel is silent. */
  lemma DacSwitch(s: Control, c: Index, i: nat, v: uint8)
    requires s.power
    requires (c == 0 && i == 0x02) || (c == 1 && i == 0x07) || (c == 2 && i == 0x0A) || (c == 3 && i == 0x11)
    ensures
      var k := Write(s, i, v).ch[c];
      k.dac == (if c == 2 then v >= 0x80 else v >= 8) && k.on == (s.ch[c].on && k.dac) && k.length == s.ch[c].length
  {
  }

  /** Switching the unit off clears its registers and silences it but keeps the length counters; switching it on
      restarts the sequencer. */
  lemma PowerSwitch(s: Control, v: uint8) returns (t: Control)
    ensures t == Write(s, 0x16, v) && t.power == (v >= 0x80)
    ensures s.power && v < 0x80 ==>
      forall c :: 0 <= c < 4 ==> !t.ch[c].on && !t.ch[c].dac && !t.ch[c].lengthEn && t.ch[c].length == s.ch[c].length
    ensures s.power && v < 0x80 ==> forall i :: 0 <= i < 0x16 ==> t.reg[i] == 0
    ensures !s.power && v >= 0x80 ==> t == s.(power := true, fsStep := 0)
    ensures s.power == (v >= 0x80) ==> t == s
  {
    t := Write(s, 0x16, v);
  }

  /** In double speed, where DIV runs twice as fast, the sampled bit is the next higher one. */
  lemma DoubleSpeedBit(div: uint16)
    ensures DivBit(div, true) <==> DivBit(div / 2, false)
    ensures DivBit(div, false) <==> div % 0x2000 >= 0x1000
  {
  }

  /** What a unit that is switched off keeps: everything but the length counters and the sampled bit. */
  ghost predicate OffAs(s: Control, t: Control) {
    && !t.power && t.fsStep == s.fsStep && t.sweep == s.sweep && t.reg == s.reg
    && forall c :: 0 <= c < 4 ==> t.ch[c] == s.ch[c].(length := t.ch[c].length)
  }

  lemma OffEvent(s: Control, t: Control, e: Event)
    requires OffAs(s, t) && !(e.Store? && e.i == 0x16 && e.v >= 0x80)
    ensures OffAs(s, Apply(t, e)) && (e.Clock? ==> Apply(t, e).ch == t.ch)
  {
  }

  /** While the unit is off no clock and no write but one that switches it on reaches more than the lengths. */
  lemma {:induction false} OffRun(s: Control, es: seq<Event>)
    requires !s.power && forall k :: 0 <= k < |es| ==> !(es[k].Store? && es[k].i == 0x16 && es[k].v >= 0x80)
    ensures OffAs(s, Run(s, es))
    decreases |es|
  {
    if es != [] {
      OffRun(s, es[..|es| - 1]);
      OffEvent(s, Run(s, es[..|es| - 1]), es[|es| - 1]);
    }
  }
}
