/** The sound unit's registers: length counters, envelopes, the frequency sweep, and the frame
    sequencer that clocks them. */
module ApuControl {
  import opened Bytes

  datatype Channel = Channel(on: bool, dac: bool, length: nat, lengthEn: bool,
                             envPeriod: nat, envTimer: nat, envVol: nat, envDir: bool)

  datatype Sweep = Sweep(period: nat, timer: nat, shift: nat, dir: bool, enabled: bool, negUsed: bool, shadow: nat)

  type Channels = s: seq<Channel> | |s| == 4 witness seq(4, _ => Channel(false, false, 0, false, 0, 0, 0, false))

  type Registers = s: seq<uint8> | |s| == 0x17 witness seq(0x17, _ => 0)

  /** `reg` holds NR10..NR52, indexed from FF10. */
  datatype Control = Control(power: bool, fsStep: nat, divBitPrev: bool, ch: Channels, sweep: Sweep, reg: Registers)

  type Index = c: int | 0 <= c < 4

  function LengthMax(c: int): nat { if c == 2 then 256 else 64 }

  // ---- the clocked units ----

  function LengthTick(c: Channel): Channel {
    if !c.lengthEn || c.length == 0 then c
    else c.(length := c.length - 1, on := c.on && c.length != 1)
  }

  function LengthClock(ch: Channels): Channels {
    seq(4, c requires 0 <= c < 4 => LengthTick(ch[c]))
  }

  function EnvTick(c: Channel): Channel {
    if c.envPeriod == 0 then c
    else if c.envTimer > 1 then c.(envTimer := c.envTimer - 1)
    else c.(envTimer := c.envPeriod,
            envVol := if c.envDir && c.envVol < 15 then c.envVol + 1
                      else if !c.envDir && c.envVol > 0 then c.envVol - 1 else c.envVol)
  }

  /** The wave channel has no envelope. */
  function EnvClock(ch: Channels): Channels {
    seq(4, c requires 0 <= c < 4 => if c == 2 then ch[c] else EnvTick(ch[c]))
  }

  function SweepCalc(w: Sweep): int {
    if w.dir then w.shadow - w.shadow / Pow2(w.shift) else w.shadow + w.shadow / Pow2(w.shift)
  }

  function SwitchOff(s: Control, c: Index): Control { s.(ch := s.ch[c := s.ch[c].(on := false)]) }

  /** The sweep writes its new frequency back and checks the one after that. */
  function SweepStep(s: Control): Control {
    var f := SweepCalc(s.sweep);
    var w := s.sweep.(negUsed := s.sweep.negUsed || s.sweep.dir);
    if f > 2047 || f < 0 then SwitchOff(s.(sweep := w), 0)
    else if w.shift == 0 then s.(sweep := w)
    else
      var t := s.(sweep := w.(shadow := f),
                  reg := s.reg[3 := f % 0x100][4 := s.reg[4] - s.reg[4] % 8 + f / 0x100 % 8]);
      if SweepCalc(t.sweep) > 2047 then SwitchOff(t, 0) else t
  }

  function SweepClock(s: Control): Control {
    if s.sweep.timer > 1 then s.(sweep := s.sweep.(timer := s.sweep.timer - 1))
    else
      var t := s.(sweep := s.sweep.(timer := if s.sweep.period > 0 then s.sweep.period else 8));
      if t.sweep.enabled && t.sweep.period > 0 then SweepStep(t) else t
  }

  function FsStep(s: Control): Control {
    var n := (s.fsStep + 1) % 8;
    var t := s.(fsStep := n);
    if n == 0 || n == 4 then t.(ch := LengthClock(t.ch))
    else if n == 2 || n == 6 then SweepClock(t.(ch := LengthClock(t.ch)))
    else if n == 7 then t.(ch := EnvClock(t.ch))
    else t
  }

  /** DIV bit 12, or 13 in double speed. */
  function DivBit(div: uint16, doubleSpeed: bool): bool {
    div / (if doubleSpeed then 0x2000 else 0x1000) % 2 == 1
  }

  /** The sequencer steps when the bit falls, and only while the unit is on. */
  function Sampled(s: Control, bit: bool): Control {
    (if s.divBitPrev && !bit && s.power then FsStep(s) else s).(divBitPrev := bit)
  }

  function Tick(s: Control, div: uint16, doubleSpeed: bool): Control { Sampled(s, DivBit(div, doubleSpeed)) }

  // ---- register writes ----

  predicate NextClocksLength(s: Control) { (s.fsStep + 1) % 2 == 0 }

  function Frequency(reg: Registers, low: nat, high: nat): nat
    requires low < 0x17 && high < 0x17
  {
    var top: int := reg[high];
    reg[low] + top % 8 * 0x100
  }

  function EnvelopeRegister(c: Index): nat { if c == 0 then 0x02 else if c == 1 then 0x07 else 0x11 }

  function Retriggered(s: Control, c: Index): Channel {
    var k := s.ch[c].(on := s.ch[c].dac);
    var l := if k.length > 0 then k
             else k.(length := if k.lengthEn && !NextClocksLength(s) then LengthMax(c) - 1 else LengthMax(c));
    var v := s.reg[EnvelopeRegister(c)];
    if c == 2 then l
    else l.(envVol := v / 0x10, envDir := v / 8 % 2 == 1, envPeriod := v % 8, envTimer := v % 8)
  }

  function SweepInit(s: Control): Control {
    var v := s.reg[0];
    var period, shift := v / 0x10 % 8, v % 8;
    var w := Sweep(period, if period > 0 then period else 8, shift, v / 8 % 2 == 1, period > 0 || shift > 0, false,
                   Frequency(s.reg, 3, 4));
    var t := s.(sweep := if shift > 0 then w.(negUsed := w.dir) else w);
    if shift > 0 && SweepCalc(w) > 2047 then SwitchOff(t, 0) else t
  }

  function Trigger(s: Control, c: Index): Control {
    var t := s.(ch := s.ch[c := Retriggered(s, c)]);
    if c == 0 then SweepInit(t) else t
  }

  /** The channel a length register, an envelope (or DAC) register, a trigger register belongs to. */
  function LengthOwner(i: nat): Option<Index> {
    if i == 0x01 then Some(0) else if i == 0x06 then Some(1) else if i == 0x0B then Some(2)
    else if i == 0x10 then Some(3) else None
  }

  function DacOwner(i: nat): Option<Index> {
    if i == 0x02 then Some(0) else if i == 0x07 then Some(1) else if i == 0x0A then Some(2)
    else if i == 0x11 then Some(3) else None
  }

  function TriggerOwner(i: nat): Option<Index> {
    if i == 0x04 then Some(0) else if i == 0x09 then Some(1) else if i == 0x0E then Some(2)
    else if i == 0x13 then Some(3) else None
  }

  function LoadLength(s: Control, c: Index, v: uint8): Control {
    s.(ch := s.ch[c := s.ch[c].(length := LengthMax(c) - if c == 2 then v else v % 0x40)])
  }

  /** A DAC register, wave channel or not: switching the DAC off silences the channel. */
  function SetDac(s: Control, c: Index, v: uint8): Control {
    var dac := if c == 2 then v >= 0x80 else v >= 8;
    s.(ch := s.ch[c := s.ch[c].(dac := dac, on := s.ch[c].on && dac)])
  }

  /** Enabling the length counter may clock it at once. */
  function SetLengthEnable(s: Control, c: Index, v: uint8): Control {
    var k := s.ch[c];
    var en := v / 0x40 % 2 == 1;
    var l := k.(lengthEn := en);
    if !k.lengthEn && en && !NextClocksLength(s) && k.length > 0 then
      s.(ch := s.ch[c := l.(length := k.length - 1, on := k.on && (k.length != 1 || v >= 0x80))])
    else s.(ch := s.ch[c := l])
  }

  function PowerOff(s: Control): Control {
    s.(power := false,
       ch := seq(4, c requires 0 <= c < 4 => s.ch[c].(on := false, dac := false, lengthEn := false)),
       sweep := s.sweep.(enabled := false),
       reg := Zeros(0x16) + s.reg[0x16..])
  }

  function Write(s: Control, i: nat, v: uint8): Control {
    if i >= 0x17 then s
    else if i == 0x16 then
      if v < 0x80 then if s.power then PowerOff(s) else s
      else if s.power then s else s.(power := true, fsStep := 0)
    else if !s.power then
      if LengthOwner(i).Some? then LoadLength(s, LengthOwner(i).value, v) else s
    else
      var t := s.(reg := s.reg[i := v]);
      if LengthOwner(i).Some? then LoadLength(t, LengthOwner(i).value, v)
      else if DacOwner(i).Some? then SetDac(t, DacOwner(i).value, v)
      else if TriggerOwner(i).Some? then
        var c := TriggerOwner(i).value;
        var u := SetLengthEnable(t, c, v);
        if v >= 0x80 then Trigger(u, c) else u
      else t
  }

  // ---- what every reachable state satisfies ----

  predicate ChannelOk(k: Channel, c: int) {
    (k.on ==> k.dac) && k.length <= LengthMax(c) && k.envVol <= 15 && k.envPeriod <= 7 && k.envTimer <= 7
  }

  predicate SweepOk(w: Sweep) { w.period <= 7 && w.timer <= 8 && w.shift <= 7 && w.shadow <= 2047 }

  ghost predicate Ok(s: Control) {
    s.fsStep < 8 && SweepOk(s.sweep) && forall c :: 0 <= c < 4 ==> ChannelOk(s.ch[c], c)
  }

  datatype Event = Clock(div: uint16, doubleSpeed: bool) | Store(i: nat, v: uint8)

  function Apply(s: Control, e: Event): Control {
    match e
    case Clock(div, doubleSpeed) => Tick(s, div, doubleSpeed)
    case Store(i, v) => Write(s, i, v)
  }

  function Run(s: Control, es: seq<Event>): Control {
    if es == [] then s else Apply(Run(s, es[..|es| - 1]), es[|es| - 1])
  }

  lemma MultipleIsLarger(q: nat, d: nat)
    requires d > 0
    ensures q <= d * q
  {
  }

  lemma QuotientBounds(a: nat, d: nat)
    requires d > 0
    ensures 0 <= a / d <= a
  {
    var q := a / d;
    MultipleIsLarger(q, d);
    assert a == d * q + a % d;
  }

  lemma SweepCalcBounds(w: Sweep)
    requires w.shadow <= 2047
    ensures w.dir ==> 0 <= SweepCalc(w) <= w.shadow
    ensures !w.dir ==> w.shadow <= SweepCalc(w) <= 4094
  {
    QuotientBounds(w.shadow, Pow2(w.shift));
  }

  lemma FrequencyStored(reg: Registers, f: nat)
    requires f <= 2047
    ensures Frequency(reg[3 := f % 0x100][4 := reg[4] - reg[4] % 8 + f / 0x100 % 8], 3, 4) == f
  {
  }

  /** One clock of an upward sweep never lowers the frequency, one of a downward sweep never raises it, and
      a changed frequency is the one the registers show. */
  ghost predicate SweepMoves(s: Control, t: Control) {
    && Ok(t)
    && (s.sweep.dir ==> t.sweep.shadow <= s.sweep.shadow)
    && (!s.sweep.dir ==> t.sweep.shadow >= s.sweep.shadow)
    && (t.sweep.shadow != s.sweep.shadow ==> Frequency(t.reg, 3, 4) == t.sweep.shadow)
  }

  lemma SilencedMoves(s: Control, t: Control)
    requires SweepMoves(s, t)
    ensures SweepMoves(s, SwitchOff(t, 0))
  {
  }

  lemma SweepStepMoves(s: Control)
    requires Ok(s)
    ensures SweepMoves(s, SweepStep(s))
  {
    SweepCalcBounds(s.sweep);
    var f := SweepCalc(s.sweep);
    var t := s.(sweep := s.sweep.(negUsed := s.sweep.negUsed || s.sweep.dir));
    if f <= 2047 && s.sweep.shift > 0 {
      FrequencyStored(s.reg, f);
      t := t.(sweep := t.sweep.(shadow := f),
              reg := s.reg[3 := f % 0x100][4 := s.reg[4] - s.reg[4] % 8 + f / 0x100 % 8]);
    }
    assert SweepMoves(s, t);
    SilencedMoves(s, t);
    assert SweepStep(s) == t || SweepStep(s) == SwitchOff(t, 0);
  }

  lemma SweepMonotone(s: Control)
    requires Ok(s)
    ensures SweepMoves(s, SweepClock(s))
  {
    SweepStepMoves(s.(sweep := s.sweep.(timer := if s.sweep.period > 0 then s.sweep.period else 8)));
  }

  lemma TickKeepsOk(s: Control, div: uint16, doubleSpeed: bool)
    requires Ok(s)
    ensures Ok(Tick(s, div, doubleSpeed))
  {
    SweepMonotone(s.(fsStep := (s.fsStep + 1) % 8, ch := LengthClock(s.ch)));
  }

  lemma RetriggerKeepsOk(s: Control, c: Index)
    requires Ok(s)
    ensures ChannelOk(Retriggered(s, c), c)
  {
    assert ChannelOk(s.ch[c], c);
  }

  lemma SweepInitKeepsOk(s: Control)
    requires Ok(s)
    ensures Ok(SweepInit(s))
  {
  }

  lemma ChannelChanged(s: Control, c: Index, k: Channel)
    requires Ok(s) && ChannelOk(k, c)
    ensures Ok(s.(ch := s.ch[c := k]))
  {
  }

  lemma TriggerKeepsOk(s: Control, c: Index)
    requires Ok(s)
    ensures Ok(Trigger(s, c))
  {
    RetriggerKeepsOk(s, c);
    ChannelChanged(s, c, Retriggered(s, c));
    SweepInitKeepsOk(s.(ch := s.ch[c := Retriggered(s, c)]));
  }

  lemma LoadKeepsOk(s: Control, c: Index, v: uint8)
    requires Ok(s)
    ensures Ok(LoadLength(s, c, v))
  {
  }

  lemma DacKeepsOk(s: Control, c: Index, v: uint8)
    requires Ok(s)
    ensures Ok(SetDac(s, c, v))
  {
  }

  lemma EnableKeepsOk(s: Control, c: Index, v: uint8)
    requires Ok(s)
    ensures Ok(SetLengthEnable(s, c, v))
  {
  }

  lemma PowerOffKeepsOk(s: Control)
    requires Ok(s)
    ensures Ok(PowerOff(s))
  {
  }

  /** A write to a register of a channel, with the unit on. */
  lemma PoweredWriteKeepsOk(s: Control, i: nat, v: uint8)
    requires Ok(s) && s.power && i < 0x16
    ensures Ok(Write(s, i, v))
  {
    var t := s.(reg := s.reg[i := v]);
    if LengthOwner(i).Some? {
      LoadKeepsOk(t, LengthOwner(i).value, v);
    } else if DacOwner(i).Some? {
      DacKeepsOk(t, DacOwner(i).value, v);
    } else if TriggerOwner(i).Some? {
      EnableKeepsOk(t, TriggerOwner(i).value, v);
      TriggerKeepsOk(SetLengthEnable(t, TriggerOwner(i).value, v), TriggerOwner(i).value);
    }
  }

  lemma WriteKeepsOk(s: Control, i: nat, v: uint8)
    requires Ok(s)
    ensures Ok(Write(s, i, v))
  {
    if s.power && i < 0x16 {
      PoweredWriteKeepsOk(s, i, v);
    } else {
      PowerOffKeepsOk(s);
      if LengthOwner(i).Some? {
        LoadKeepsOk(s, LengthOwner(i).value, v);
      }
    }
  }

  /** Register and clock events in any order keep every channel within its bounds. */
  lemma {:induction false} RunKeepsOk(s: Control, es: seq<Event>)
    requires Ok(s)
    ensures Ok(Run(s, es))
    decreases |es|
  {
    if es != [] {
      var t := Run(s, es[..|es| - 1]);
      RunKeepsOk(s, es[..|es| - 1]);
      match es[|es| - 1] {
        case Clock(div, doubleSpeed) => TickKeepsOk(t, div, doubleSpeed);
        case Store(i, v) => WriteKeepsOk(t, i, v);
      }
    }
  }

  /** Nothing in `es` triggers channel 1, whose sweep a trigger sets up anew. */
  predicate NoSweepTrigger(es: seq<Event>) {
    forall k :: 0 <= k < |es| ==> !(es[k].Store? && es[k].i == 0x04 && es[k].v >= 0x80)
  }

  lemma WriteKeepsSweep(s: Control, i: nat, v: uint8)
    requires i != 0x04 || v < 0x80
    ensures Write(s, i, v).sweep == s.sweep.(enabled := Write(s, i, v).sweep.enabled)
  {
  }

  lemma TickMovesSweep(s: Control, div: uint16, doubleSpeed: bool)
    requires Ok(s)
    ensures var t := Tick(s, div, doubleSpeed);
      && t.sweep.dir == s.sweep.dir
      && (s.sweep.dir ==> t.sweep.shadow <= s.sweep.shadow)
      && (!s.sweep.dir ==> t.sweep.shadow >= s.sweep.shadow)
  {
    SweepMonotone(s.(fsStep := (s.fsStep + 1) % 8, ch := LengthClock(s.ch)));
  }

  /** Between triggers the sweep keeps its direction: the frequency only rises, or only falls. */
  lemma {:induction false} SweepRun(s: Control, es: seq<Event>)
    requires Ok(s) && NoSweepTrigger(es)
    ensures var t := Run(s, es);
      && t.sweep.dir == s.sweep.dir
      && (s.sweep.dir ==> t.sweep.shadow <= s.sweep.shadow)
      && (!s.sweep.dir ==> t.sweep.shadow >= s.sweep.shadow)
    decreases |es|
  {
    if es != [] {
      var most := es[..|es| - 1];
      SweepRun(s, most);
      RunKeepsOk(s, most);
      match es[|es| - 1] {
        case Clock(div, doubleSpeed) => TickMovesSweep(Run(s, most), div, doubleSpeed);
        case Store(i, v) => WriteKeepsSweep(Run(s, most), i, v);
      }
    }
  }

  // ---- how long a channel with a length counter sounds ----

  /** The sampled bit of DIV after `n` M-cycles at single speed: DIV advances by 4 before each of them. */
  predicate BitAt(div: uint16, n: nat) { DivBit((div + 4 * n) % 0x1_0000, false) }

  /** `n` M-cycles without register writes. */
  function Ticks(s: Control, div: uint16, n: nat): Control {
    if n == 0 then s else Tick(Ticks(s, div, n - 1), (div + 4 * n) % 0x1_0000, false)
  }

  /** Falling edges sampled within `n` M-cycles. */
  function EdgesSampled(div: uint16, n: nat): nat {
    if n == 0 then 0 else EdgesSampled(div, n - 1) + if BitAt(div, n - 1) && !BitAt(div, n) then 1 else 0
  }

  /** Where `e` edges take the sequencer, and how often they clock the length counters: every even step does. */
  function StepAfter(f: nat, e: nat): nat { if e == 0 then f else (StepAfter(f, e - 1) + 1) % 8 }

  function ClocksAfter(f: nat, e: nat): nat {
    if e == 0 then 0 else ClocksAfter(f, e - 1) + if StepAfter(f, e) % 2 == 0 then 1 else 0
  }

  // ---- the counts in closed form ----

  /** Falling edges of DIV bit 12 within `n` M-cycles, sampled or not. */
  function Edges(div: uint16, n: nat): nat { (div + 4 * n) / 0x2000 - div / 0x2000 }

  function LengthClocks(fsStep: nat, edges: nat): nat { (fsStep + edges) / 2 - fsStep / 2 }

  lemma EvenPart(q: nat, h: nat)
    ensures (0x10 * q + h) % 2 == h % 2
  {
  }

  lemma Quarters(a: nat)
    ensures a / 0x1000 == 0x10 * (a / 0x1_0000) + a % 0x1_0000 / 0x1000
  {
  }

  lemma WideBit(a: nat)
    ensures DivBit(a % 0x1_0000, false) <==> a / 0x1000 % 2 == 1
  {
    Quarters(a);
    EvenPart(a / 0x1_0000, a % 0x1_0000 / 0x1000);
  }

  lemma Halves(a: nat)
    ensures a / 0x2000 == a / 0x1000 / 2
    ensures a / 0x1000 <= (a + 4) / 0x1000 <= a / 0x1000 + 1
  {
  }

  lemma EdgeSeen(div: uint16, n: nat)
    ensures Edges(div, n + 1) == Edges(div, n) + if BitAt(div, n) && !BitAt(div, n + 1) then 1 else 0
  {
    var a := div + 4 * n;
    WideBit(a);
    WideBit(a + 4);
    Halves(a);
    Halves(a + 4);
  }

  /** Sampling once per M-cycle loses no edge. */
  lemma {:induction false} EdgesAreSampled(div: uint16, n: nat)
    ensures EdgesSampled(div, n) == Edges(div, n)
    decreases n
  {
    if n > 0 {
      EdgesAreSampled(div, n - 1);
      EdgeSeen(div, n - 1);
    }
  }

  lemma {:induction false} StepsWrap(f: nat, e: nat) returns (w: nat)
    requires f < 8
    ensures StepAfter(f, e) < 8 && StepAfter(f, e) + 8 * w == f + e
    decreases e
  {
    w := 0;
    if e > 0 {
      w := StepsWrap(f, e - 1);
      w := if StepAfter(f, e - 1) == 7 then w + 1 else w;
    }
  }

  lemma {:induction false} SameParity(a: nat, w: nat)
    ensures a % 2 == (a + 8 * w) % 2
    decreases w
  {
    if w > 0 {
      SameParity(a + 8, w - 1);
      assert (a + 8) + 8 * (w - 1) == a + 8 * w;
    }
  }

  lemma HalfOneMore(x: nat)
    ensures (x + 1) / 2 == x / 2 + if (x + 1) % 2 == 0 then 1 else 0
  {
  }

  lemma {:induction false} ClocksInClosedForm(f: nat, e: nat)
    requires f < 8
    ensures ClocksAfter(f, e) == LengthClocks(f, e)
    decreases e
  {
    if e > 0 {
      ClocksInClosedForm(f, e - 1);
      var w := StepsWrap(f, e);
      SameParity(StepAfter(f, e), w);
      HalfOneMore(f + (e - 1));
    }
  }

  // ---- what a channel does meanwhile ----

  /** The sweep cannot silence channel `c`: only the first has one. */
  predicate SweepIdle(w: Sweep, c: Index) { c > 0 || !w.enabled || w.period == 0 }

  /** Channel `c` after `k` length clocks, with the sequencer at step `f`. */
  ghost predicate Sounding(s: Control, t: Control, c: Index, f: nat, k: nat) {
    && t.power && t.fsStep == f < 8 && SweepIdle(t.sweep, c) && t.ch[c].lengthEn
    && t.ch[c].length == (if k < s.ch[c].length then s.ch[c].length - k else 0)
    && t.ch[c].on == (s.ch[c].on && k < s.ch[c].length)
  }

  /** A sequencer step with an idle sweep, as one channel's length counter sees it. */
  ghost predicate StepSeen(t: Control, u: Control, c: Index) {
    var n := (t.fsStep + 1) % 8;
    var k := if n % 2 == 0 then LengthTick(t.ch[c]) else t.ch[c];
    && u.power == t.power && u.fsStep == n && SweepIdle(u.sweep, c)
    && u.ch[c].length == k.length && u.ch[c].on == k.on && u.ch[c].lengthEn == k.lengthEn
  }

  lemma SweepClockSeen(t: Control, c: Index)
    requires SweepIdle(t.sweep, c)
    ensures var u := SweepClock(t);
      u.ch[c] == t.ch[c] && u.power == t.power && u.fsStep == t.fsStep && SweepIdle(u.sweep, c)
  {
  }

  lemma LengthSeen(t: Control, n: nat, c: Index)
    requires n == (t.fsStep + 1) % 8 && n % 2 == 0 && SweepIdle(t.sweep, c)
    ensures StepSeen(t, t.(fsStep := n, ch := LengthClock(t.ch)), c)
  {
  }

  lemma EnvelopeSeen(t: Control, n: nat, c: Index)
    requires n == (t.fsStep + 1) % 8 && n % 2 == 1 && SweepIdle(t.sweep, c)
    ensures StepSeen(t, t.(fsStep := n, ch := EnvClock(t.ch)), c)
  {
    assert EnvClock(t.ch)[c] == t.ch[c].(envTimer := EnvClock(t.ch)[c].envTimer, envVol := EnvClock(t.ch)[c].envVol);
  }

  lemma NothingSeen(t: Control, n: nat, c: Index)
    requires n == (t.fsStep + 1) % 8 && n % 2 == 1 && SweepIdle(t.sweep, c)
    ensures StepSeen(t, t.(fsStep := n), c)
  {
  }

  lemma SweepUnseen(t: Control, u: Control, w: Control, c: Index)
    requires StepSeen(t, u, c)
    requires w.ch[c] == u.ch[c] && w.power == u.power && w.fsStep == u.fsStep && SweepIdle(w.sweep, c)
    ensures StepSeen(t, w, c)
  {
  }

  lemma FsStepSeen(t: Control, c: Index) returns (u: Control)
    requires t.fsStep < 8 && SweepIdle(t.sweep, c)
    ensures u == FsStep(t) && StepSeen(t, u, c)
  {
    var n := (t.fsStep + 1) % 8;
    var l := t.(fsStep := n, ch := LengthClock(t.ch));
    if n % 2 == 0 {
      LengthSeen(t, n, c);
      u := l;
      if n == 2 || n == 6 {
        SweepClockSeen(l, c);
        SweepUnseen(t, l, SweepClock(l), c);
        u := SweepClock(l);
      }
    } else if n == 7 {
      EnvelopeSeen(t, n, c);
      u := t.(fsStep := n, ch := EnvClock(t.ch));
    } else {
      NothingSeen(t, n, c);
      u := t.(fsStep := n);
    }
  }

  lemma StepSounding(s: Control, t: Control, u: Control, c: Index, f: nat, k: nat)
    requires Sounding(s, t, c, f, k) && StepSeen(t, u, c)
    ensures Sounding(s, u, c, (f + 1) % 8, k + if (f + 1) % 8 % 2 == 0 then 1 else 0)
  {
  }

  lemma BitUnheard(s: Control, u: Control, c: Index, f: nat, k: nat, bit: bool)
    requires Sounding(s, u, c, f, k)
    ensures Sounding(s, u.(divBitPrev := bit), c, f, k)
  {
  }

  lemma SampleSounding(s: Control, t: Control, bit: bool, c: Index, f: nat, e: nat) returns (u: Control)
    requires Sounding(s, t, c, StepAfter(f, e), ClocksAfter(f, e))
    ensures u == Sampled(t, bit) && u.divBitPrev == bit
    ensures var e' := e + if t.divBitPrev && !bit then 1 else 0;
      Sounding(s, u, c, StepAfter(f, e'), ClocksAfter(f, e'))
  {
    u := t;
    var e' := e;
    if t.divBitPrev && !bit {
      u := FsStepSeen(t, c);
      StepSounding(s, t, u, c, StepAfter(f, e), ClocksAfter(f, e));
      e' := e + 1;
    }
    BitUnheard(s, u, c, StepAfter(f, e'), ClocksAfter(f, e'), bit);
    u := u.(divBitPrev := bit);
  }

  lemma {:induction false} TicksSound(s: Control, div: uint16, n: nat, c: Index) returns (t: Control)
    requires s.fsStep < 8 && s.power && s.divBitPrev == BitAt(div, 0)
    requires SweepIdle(s.sweep, c) && s.ch[c].lengthEn && s.ch[c].length > 0
    ensures t == Ticks(s, div, n) && t.divBitPrev == BitAt(div, n)
    ensures var e := EdgesSampled(div, n); Sounding(s, t, c, StepAfter(s.fsStep, e), ClocksAfter(s.fsStep, e))
    decreases n
  {
    t := s;
    if n > 0 {
      t := TicksSound(s, div, n - 1, c);
      t := SampleSounding(s, t, BitAt(div, n), c, s.fsStep, EdgesSampled(div, n - 1));
    }
  }

  /** Closed form of a channel's length counter. */
  lemma TicksSounding(s: Control, div: uint16, n: nat, c: Index)
    requires s.fsStep < 8 && s.power && s.divBitPrev == BitAt(div, 0)
    requires SweepIdle(s.sweep, c) && s.ch[c].lengthEn && s.ch[c].length > 0
    ensures var k := LengthClocks(s.fsStep, Edges(div, n));
      var t, l := Ticks(s, div, n).ch[c], s.ch[c].length;
      t.length == (if k < l then l - k else 0) && t.on == (s.ch[c].on && k < l)
  {
    var t := TicksSound(s, div, n, c);
    EdgesAreSampled(div, n);
    ClocksInClosedForm(s.fsStep, Edges(div, n));
  }

  /** The T-cycle at which the last length clock falls. */
  function Deadline(s: Control, div: uint16, c: Index): int {
    0x2000 * (2 * s.ch[c].length - s.fsStep % 2) - div % 0x2000
  }

  lemma ClocksReached(f: nat, e: nat, l: nat)
    ensures LengthClocks(f, e) >= l <==> e >= 2 * l - f % 2
  {
  }

  lemma EdgesReached(div: uint16, n: nat, m: int)
    ensures Edges(div, n) >= m <==> 4 * n >= 0x2000 * m - div % 0x2000
  {
  }

  /** An active channel with counter value L sounds until the L-th length clock, which falls within
      (16384 (L - 1), 16384 L] T-cycles. */
  lemma LengthDuration(s: Control, div: uint16, n: nat, c: Index)
    requires s.fsStep < 8 && s.power && s.divBitPrev == BitAt(div, 0)
    requires SweepIdle(s.sweep, c) && s.ch[c].on && s.ch[c].lengthEn && s.ch[c].length > 0
    ensures Ticks(s, div, n).ch[c].on <==> 4 * n < Deadline(s, div, c)
    ensures 0x4000 * (s.ch[c].length - 1) < Deadline(s, div, c) <= 0x4000 * s.ch[c].length
  {
    var l := s.ch[c].length;
    TicksSounding(s, div, n, c);
    ClocksReached(s.fsStep, Edges(div, n), l);
    EdgesReached(div, n, 2 * l - s.fsStep % 2);
  }
}
