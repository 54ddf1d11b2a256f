/** The OAM DMA unit: a startup delay, then one byte per M-cycle, restartable at any moment. */
module OamDma {
  import opened Bytes

  type Oam = s: seq<uint8> | |s| == 160 witness seq(160, _ => 0)

  /** What a bus read by the unit returns, by M-cycle and address. */
  type Memory = (nat, uint16) -> uint8

  /** `start` counts down the startup delay; `pos` is the next byte; `clock` counts M-cycles. */
  datatype State = State(reg: uint8, src: uint16, pending: uint16, pos: nat, start: nat, running: bool,
                         bus: uint8, oam: Oam, clock: nat)
  {
    /** Between M-cycles a transfer runs exactly while a byte is still due. */
    predicate Valid() {
      start <= 3 && pos <= 160 && (running <==> pos < 160) && src % 0x100 == 0 && pending % 0x100 == 0
    }
  }

  // ---- one M-cycle, one register write, one write to OAM by the program ----

  function Startup(s: State): State {
    if s.start == 0 then s
    else if s.start == 1 then s.(start := 0, src := s.pending, pos := 0, running := true)
    else s.(start := s.start - 1)
  }

  function CopyByte(s: State, mem: Memory): State
    requires s.Valid()
  {
    if !s.running then s
    else
      var b := mem(s.clock, s.src + s.pos);
      s.(bus := b, oam := s.oam[s.pos := b], pos := s.pos + 1, running := s.pos + 1 < 160)
  }

  function Cycle(s: State, mem: Memory): (t: State)
    requires s.Valid()
    ensures t.Valid()
  {
    var t := CopyByte(Startup(s), mem);
    t.(clock := s.clock + 1)
  }

  /** An M-cycle, a write to FF46, or a write to OAM, which the PPU lets through in some modes. */
  datatype Event = MCycle | Request(v: uint8) | OamWrite(i: nat, v: uint8, open: bool)

  function Apply(s: State, e: Event, mem: Memory): (t: State)
    requires s.Valid()
    ensures t.Valid()
  {
    match e
    case MCycle => Cycle(s, mem)
    case Request(v) => s.(reg := v, pending := v * 0x100, start := 3)
    case OamWrite(i, v, open) => if s.running || !open || i >= 160 then s else s.(oam := s.oam[i := v])
  }

  function Run(s: State, es: seq<Event>, mem: Memory): (t: State)
    requires s.Valid()
    ensures t.Valid()
  {
    if es == [] then s else Apply(Run(s, es[..|es| - 1], mem), es[|es| - 1], mem)
  }

  function Cycles(es: seq<Event>): nat {
    if es == [] then 0 else Cycles(es[..|es| - 1]) + if es[|es| - 1].MCycle? then 1 else 0
  }

  predicate Undisturbed(es: seq<Event>) {
    forall k :: 0 <= k < |es| ==> !es[k].Request?
  }

  // ---- the transfer ----

  /** `n` M-cycles after `v` was requested at `s`, with no later request. */
  ghost predicate Progress(s: State, v: uint8, r: State, n: nat, mem: Memory) {
    && r.Valid() && r.reg == v && r.pending == v * 0x100 && r.clock == s.clock + n
    && (n < 3 ==> r.start == 3 - n && s.pos <= r.pos <= s.pos + n && r.src == s.src)
    && (n >= 3 ==> r.start == 0 && r.src == v * 0x100 && r.pos == if n < 162 then n - 2 else 160)
    && (3 <= n < 162 ==> forall i :: 0 <= i < n - 2 ==> r.oam[i] == mem(s.clock + 2 + i, v * 0x100 + i))
  }

  lemma ProgressKept(s: State, v: uint8, q: State, n: nat, e: Event, mem: Memory)
    requires s.Valid() && Progress(s, v, q, n, mem) && !e.Request?
    ensures Progress(s, v, Apply(q, e, mem), n + if e.MCycle? then 1 else 0, mem)
  {
  }

  lemma {:induction false} TransferProgress(s: State, v: uint8, es: seq<Event>, mem: Memory)
    requires s.Valid() && Undisturbed(es)
    ensures Progress(s, v, Run(Apply(s, Request(v), mem), es, mem), Cycles(es), mem)
    decreases |es|
  {
    if es != [] {
      var most := es[..|es| - 1];
      TransferProgress(s, v, most, mem);
      ProgressKept(s, v, Run(Apply(s, Request(v), mem), most, mem), Cycles(most), es[|es| - 1], mem);
    }
  }

  /** Byte `i` is copied in M-cycle 3+i after the request; the 162nd M-cycle completes the transfer,
      whatever was in flight and whatever the program writes to OAM meanwhile. */
  lemma TransferCompletes(s: State, v: uint8, es: seq<Event>, mem: Memory)
    requires s.Valid() && Undisturbed(es) && es != [] && es[|es| - 1].MCycle? && Cycles(es) == 162
    ensures var r := Run(Apply(s, Request(v), mem), es, mem);
      && !r.running && r.start == 0 && r.bus == r.oam[159]
      && forall i :: 0 <= i < 160 ==> r.oam[i] == mem(s.clock + 2 + i, v * 0x100 + i)
  {
    var most := es[..|es| - 1];
    TransferProgress(s, v, most, mem);
  }

  function Sooner(a: nat, b: nat): nat { if a < b then a else b }

  lemma PureCycles(s: State, n: nat, mem: Memory)
    requires s.Valid()
    ensures Run(s, seq(n, _ => MCycle), mem) ==
            if n == 0 then s else Cycle(Run(s, seq(n - 1, _ => MCycle), mem), mem)
  {
    var es := seq(n, _ => MCycle);
    if n > 0 {
      assert es[..|es| - 1] == seq(n - 1, _ => MCycle);
    }
  }

  /** `k` M-cycles after a request at `s`, the transfer in flight still going on. */
  ghost predicate Coasting(s: State, r: State, k: nat, mem: Memory) {
    && r.Valid() && r.start == 3 - k && r.src == s.src && r.clock == s.clock + k
    && r.pos == (if s.running then Sooner(s.pos + k, 160) else s.pos)
    && forall i :: 0 <= i < 160 ==>
         r.oam[i] == if s.pos <= i < s.pos + k then mem(s.clock + i - s.pos, s.src + i) else s.oam[i]
  }

  lemma CoastOn(s: State, r: State, k: nat, mem: Memory)
    requires s.Valid() && k < 2 && Coasting(s, r, k, mem)
    ensures Coasting(s, Cycle(r, mem), k + 1, mem)
  {
  }

  /** Until its source takes over, a new request lets the old transfer copy at most two bytes more. */
  lemma {:induction false} InFlight(s: State, v: uint8, n: nat, mem: Memory)
    requires s.Valid() && n <= 2
    ensures Coasting(s, Run(Apply(s, Request(v), mem), seq(n, _ => MCycle), mem), n, mem)
    decreases n
  {
    var q := Apply(s, Request(v), mem);
    PureCycles(q, n, mem);
    if n > 0 {
      InFlight(s, v, n - 1, mem);
      CoastOn(s, Run(q, seq(n - 1, _ => MCycle), mem), n - 1, mem);
    }
  }

  // ---- the unit ----

  /** The fields of the console that the transfer uses. */
  class OamDmaUnit {
    var dmaReg: uint8
    var dmaSrc: uint16
    var dmaPendingSrc: uint16
    var dmaPos: nat
    var dmaStart: nat
    var dmaRunning: bool
    var dmaBusVal: uint8
    const oam: array<uint8>
    var clock: nat

    ghost function Value(): State
      requires oam.Length == 160
      reads this, oam
    {
      State(dmaReg, dmaSrc, dmaPendingSrc, dmaPos, dmaStart, dmaRunning, dmaBusVal, oam[..], clock)
    }

    ghost predicate Valid()
      reads this, oam
    {
      oam.Length == 160 && Value().Valid()
    }

    constructor ()
      ensures Valid() && fresh(oam) && !dmaRunning && dmaStart == 0
    {
      dmaReg, dmaSrc, dmaPendingSrc, dmaPos, dmaStart, dmaRunning, dmaBusVal := 0, 0, 0, 160, 0, false, 0;
      oam := new uint8[160](_ => 0);
      clock := 0;
    }

    method Write(v: uint8)
      requires Valid()
      modifies this
      ensures Valid() && forall mem: Memory :: Value() == Apply(old(Value()), Request(v), mem)
    {
      dmaReg := v;
      dmaPendingSrc := v * 0x100;
      dmaStart := 3;
    }

    /** OAM is locked to the program while a transfer runs, and unless the PPU leaves it `open`. */
    method WriteOam(i: nat, v: uint8, open: bool)
      requires Valid()
      modifies oam
      ensures Valid() && forall mem: Memory :: Value() == Apply(old(Value()), OamWrite(i, v, open), mem)
    {
      if !dmaRunning && open && i < 160 {
        oam[i] := v;
      }
    }

    method StepM(mem: Memory)
      requires Valid()
      modifies this, oam
      ensures Valid() && Value() == Cycle(old(Value()), mem)
    {
      if dmaStart > 0 {
        dmaStart := dmaStart - 1;
        if dmaStart == 0 {
          dmaSrc, dmaPos, dmaRunning := dmaPendingSrc, 0, true;
        }
      }
      if dmaRunning && dmaPos < 160 {
        var b := mem(clock, dmaSrc + dmaPos);
        dmaBusVal := b;
        oam[dmaPos] := b;
        dmaPos := dmaPos + 1;
        if dmaPos >= 160 {
          dmaRunning := false;
        }
      }
      clock := clock + 1;
    }

    method Tick(tcycles: nat, mem: Memory)
      requires Valid()
      modifies this, oam
      ensures Valid() && Value() == Run(old(Value()), seq(tcycles / 4, _ => MCycle), mem)
    {
      var m := 0;
      while m < tcycles / 4
        invariant 0 <= m <= tcycles / 4
        invariant Valid() && Value() == Run(old(Value()), seq(m, _ => MCycle), mem)
      {
        PureCycles(old(Value()), m + 1, mem);
        StepM(mem);
        m := m + 1;
      }
    }
  }
}
