/** The picture unit as the emulator keeps it: fields changed by the clock and by register
    writes.  Each method is tied to the dot clock of PpuTiming and the interrupt line of
    StatInterrupt, whose properties then hold of every run of ticks and writes. */
module PpuUnit {
  import opened Bytes
  import opened LineSpec
  import opened Scanline
  import opened PpuTiming
  import opened StatInterrupt

  /** The last line drawn for row y of the screen. */
  function LastDrawn(drawn: seq<Line>, y: int): Option<Line> {
    if drawn == [] then None
    else if drawn[|drawn| - 1].y == y then Some(drawn[|drawn| - 1])
    else LastDrawn(drawn[..|drawn| - 1], y)
  }

  ghost predicate RowShown(fb: seq<uint8>, drawn: seq<Line>, y: int)
    requires |fb| == 160 * 144 && 0 <= y < 144
  {
    LastDrawn(drawn, y).Some? ==>
      forall x :: 0 <= x < 160 ==> fb[y * 160 + x] == LastDrawn(drawn, y).value.ScanShade(x)
  }

  /** Every row of the frame buffer shows the last line drawn for it. */
  ghost predicate Shown(fb: seq<uint8>, drawn: seq<Line>)
    requires |fb| == 160 * 144
  {
    forall y :: 0 <= y < 144 ==> RowShown(fb, drawn, y)
  }

  lemma LastDrawnNext(drawn: seq<Line>, l: Line, y: int)
    ensures LastDrawn(drawn + [l], y) == if y == l.y then Some(l) else LastDrawn(drawn, y)
  {
    assert (drawn + [l])[..|drawn|] == drawn;
  }

  lemma RowKept(before: seq<uint8>, after: seq<uint8>, drawn: seq<Line>, l: Line, y: int)
    requires |before| == |after| == 160 * 144 && 0 <= y < 144 && 0 <= l.y < 144 && y != l.y
    requires RowShown(before, drawn, y) && OtherRowsKept(before, after, l.y)
    ensures RowShown(after, drawn + [l], y)
  {
    LastDrawnNext(drawn, l, y);
    forall k | y * 160 <= k < y * 160 + 160 ensures after[k] == before[k] {
      assert !(l.y * 160 <= k < l.y * 160 + 160);
    }
  }

  lemma ShownNext(before: seq<uint8>, after: seq<uint8>, drawn: seq<Line>, l: Line)
    requires |before| == |after| == 160 * 144 && Shown(before, drawn) && 0 <= l.y < 144
    requires OtherRowsKept(before, after, l.y)
    requires forall x :: 0 <= x < 160 ==> after[l.y * 160 + x] == l.ScanShade(x)
    ensures Shown(after, drawn + [l])
  {
    forall y | 0 <= y < 144 ensures RowShown(after, drawn + [l], y) {
      if y == l.y {
        LastDrawnNext(drawn, l, y);
      } else {
        RowKept(before, after, drawn, l, y);
      }
    }
  }

  lemma AtExtends(v: Video, inputs: seq<Input>, i: Input)
    ensures At(v, inputs + [i], |inputs| + 1) == PpuTiming.Tick(At(v, inputs, |inputs|), i)
  {
    AtWithin(v, inputs + [i], 0, inputs, |inputs|);
  }

  lemma StatExtends(v: Video, s: StatLine, inputs: seq<Input>, i: Input)
    ensures StatAt(v, s, inputs + [i], |inputs| + 1)
            == StatTick(StatAt(v, s, inputs, |inputs|), LevelAfter(v, inputs + [i], |inputs| + 1))
  {
    StatWithin(v, s, inputs + [i], 0, inputs, |inputs|);
  }

  /** A run continues with one more dot. */
  lemma RunExtends(v: Video, s: StatLine, inputs: seq<Input>, i: Input)
    requires Unchanged(inputs, i.regs)
    ensures
      var k, more := |inputs|, inputs + [i];
      var w := PpuTiming.Tick(At(v, inputs, k), i);
      && Unchanged(more, i.regs) && At(v, more, |more|) == w
      && StatAt(v, s, more, |more|)
         == StatTick(StatAt(v, s, inputs, k),
                      Level(SourcesOf(i.regs.stat), w.mode, At(v, inputs, k).dot / 456 == i.regs.lyc))
  {
    AtExtends(v, inputs, i);
    StatExtends(v, s, inputs, i);
    SameBefore(v, inputs, i, |inputs|);
  }

  /** So do the penalties its dots were offered. */
  lemma FromMemoryExtends(v: Video, inputs: seq<Input>, i: Input)
    requires FromMemory(v, inputs) && Offered(At(v, inputs, |inputs|), i)
    ensures FromMemory(v, inputs + [i])
  {
    var more := inputs + [i];
    forall k | 0 <= k < |more| ensures Offered(At(v, more, k), more[k]) {
      SameBefore(v, inputs, i, k);
      assert k < |inputs| ==> Offered(At(v, inputs, k), inputs[k]);
    }
  }

  lemma SameBefore(v: Video, inputs: seq<Input>, i: Input, k: nat)
    requires k <= |inputs|
    ensures At(v, inputs + [i], k) == At(v, inputs, k)
  {
    AtWithin(v, inputs + [i], 0, inputs, k);
  }

  lemma SameLine(r: Regs, y: nat, z: nat, winLine: uint8)
    requires y == z
    ensures LineOf(r, y, winLine) == LineOf(r, z, winLine)
  {
  }

  /** The fields after a dot, `y` being its line and `m` the mode it is found in. */
  lemma DotIsTick(v: Video, i: Input, y: nat, m: nat, w: Video)
    requires y == v.dot / 456 && m == ModeAt(y, v.dot % 456, i.regs.scx, v.pen)
    requires var line := LineOf(i.regs, y, v.winLine);
      && w.mode == m && w.pen == (if v.mode != 3 && m == 3 then i.linePen else v.pen)
      && w.drawn == (if v.mode == 3 && m == 0 then v.drawn + [line] else v.drawn)
      && w.winLine == (if v.dot == 0 then 0
                       else if v.mode == 3 && m == 0 && WindowUsed(line) then (v.winLine + 1) % 256 else v.winLine)
      && w.vblanks == v.vblanks + if v.mode != 1 && m == 1 then 1 else 0
    ensures w.(dot := if v.dot + 1 >= 70224 then 0 else v.dot + 1) == PpuTiming.Tick(v, i)
  {
  }

  class Ppu {
    var regs: Regs  // memory and the registers a program sets

    // clock
    var ppuDot: nat
    var ly: uint8
    var mode: nat
    var mode3ObjPen: Penalty
    var winLine: uint8
    var lcdOnFrame: bool
    var lyCoin: bool
    var statLine: bool

    // results
    const fb: array<uint8>
    var frameReady: bool
    var frameCount: nat
    var vblankRequested: bool
    var statRequested: bool

    ghost var drawn: seq<Line>    // lines drawn so far, as they were when drawn
    ghost var statRequests: nat   // STAT interrupts requested so far

    ghost predicate Valid()
      reads this, fb
    {
      fb.Length == 160 * 144 && ppuDot < 70224 && Shown(fb[..], drawn)
    }

    predicate LcdOn()
      reads this
    { regs.lcdc / 0x80 % 2 == 1 }

    ghost function VideoState(): Video
      reads this
    { Video(ppuDot, mode, mode3ObjPen, winLine, drawn, frameCount) }

    ghost function StatState(): StatLine
      reads this
    { StatLine(statLine, statRequests) }

    function CurrentLine(y: int): Line
      reads this
    { LineOf(regs, y, winLine) }

    /** What the next dot is given. */
    ghost function NextInput(): Input
      reads this
    { Input(regs, CurrentLine(ppuDot / 456).ObjPenalty()) }

    /** The mode bits of STAT as a program reads them. */
    function StatReportedMode(): (m: nat)
      reads this
      ensures m <= 3
    { if !LcdOn() then 0 else ReportedMode(ly, ppuDot, lcdOnFrame, regs.scx, mode3ObjPen) }

    /** A register read: in STAT the enabled sources, the coincidence, live or frozen, and the reported mode. */
    function Read(addr: int): (v: uint8)
      reads this
      ensures addr == 0xFF41 ==>
                && v >= 0x80 && v / 8 % 16 == regs.stat / 8 % 16 && v % 4 == StatReportedMode()
                && (v / 4 % 2 == 1 <==> if regs.lcdc >= 0x80 then ly == regs.lyc else lyCoin)
    {
      if addr == 0xFF41 then
        var coin := if LcdOn() then ly == regs.lyc else lyCoin;
        0x80 + regs.stat / 8 % 16 * 8 + (if coin then 4 else 0) + StatReportedMode()
      else if addr == 0xFF44 then ly
      else RegisterAt(regs, addr)
    }

    /** After the boot program: the LCD is on with the background, at the start of a frame. */
    constructor (vram: Vram, oam: Oam)
      ensures Valid() && fresh(fb) && LcdOn()
      ensures regs == Regs(vram, oam, 0x91, 0, 0, 0, 0, 0xFC, 0xFF, 0xFF, 0, 0)
      ensures VideoState() == Video(0, 2, 0, 0, [], 0) && StatState() == StatLine(false, 0) && ly == 0
      ensures !frameReady && !vblankRequested && !statRequested && !lcdOnFrame && !lyCoin
    {
      regs := Regs(vram, oam, 0x91, 0, 0, 0, 0, 0xFC, 0xFF, 0xFF, 0, 0);
      ppuDot, ly, mode, mode3ObjPen, winLine := 0, 0, 2, 0, 0;
      lcdOnFrame, lyCoin, statLine := false, false, false;
      fb := new uint8[160 * 144](_ => 0);
      frameReady, frameCount, vblankRequested, statRequested := false, 0, false, false;
      drawn, statRequests := [], 0;
    }

    /** The interrupt line is the OR of the enabled sources and requests when it rises. */
    method StatCheck()
      modifies `statLine, `statRequested, `statRequests
      ensures StatState() == StatTick(old(StatState()), Level(SourcesOf(regs.stat), mode, ly == regs.lyc))
      ensures statLine == (
                || (regs.stat / 0x08 % 2 == 1 && mode == 0) || (regs.stat / 0x10 % 2 == 1 && mode == 1)
                || (regs.stat / 0x20 % 2 == 1 && mode == 2) || (regs.stat / 0x40 % 2 == 1 && ly == regs.lyc))
      ensures statRequested == (old(statRequested) || statRequests > old(statRequests))
    {
      var line := false;
      if regs.stat / 0x08 % 2 == 1 && mode == 0 { line := true; }
      if regs.stat / 0x10 % 2 == 1 && mode == 1 { line := true; }
      if regs.stat / 0x20 % 2 == 1 && mode == 2 { line := true; }
      if regs.stat / 0x40 % 2 == 1 && ly == regs.lyc { line := true; }
      if line && !statLine {
        statRequested := true;
        statRequests := statRequests + 1;
      }
      statLine := line;
    }

    /** Draws line y from the current settings. */
    method RenderScanline(y: nat)
      requires Valid() && y < 144
      modifies fb, `winLine, `drawn
      ensures Valid() && drawn == old(drawn) + [old(CurrentLine(y))]
      ensures winLine == if WindowUsed(old(CurrentLine(y))) then (old(winLine) + 1) % 256 else old(winLine)
    {
      var l := CurrentLine(y);
      ghost var before := fb[..];
      var windowUsed := RenderLine(l, fb);
      ShownNext(before, fb[..], drawn, l);
      drawn := drawn + [l];
      if windowUsed {
        winLine := (winLine + 1) % 256;
      }
    }

    /** One dot, with the LCD on. */
    method TickDot()
      requires Valid() && LcdOn()
      modifies fb, `ppuDot, `ly, `lcdOnFrame, `winLine, `drawn, `mode, `mode3ObjPen,
               `frameReady, `frameCount, `vblankRequested, `statLine, `statRequested, `statRequests
      ensures Valid()
      ensures VideoState() == PpuTiming.Tick(old(VideoState()), old(NextInput()))
      ensures StatState() == StatTick(old(StatState()),
                                      Level(SourcesOf(regs.stat), mode, old(ppuDot) / 456 == regs.lyc))
      ensures ly == old(ppuDot) / 456 && lcdOnFrame == (old(lcdOnFrame) && ly == 0)
      ensures frameReady == (old(frameReady) || frameCount > old(frameCount))
      ensures vblankRequested == (old(vblankRequested) || frameCount > old(frameCount))
      ensures statRequested == (old(statRequested) || statRequests > old(statRequests))
    {
      UpdateMode();
      StatCheck();
      ppuDot := ppuDot + 1;
      if ppuDot >= 456 * 154 {
        ppuDot := 0;
      }
    }

    /** The part of a dot before the interrupt line is looked at. */
    method UpdateMode()
      requires Valid()
      modifies fb, `ly, `lcdOnFrame, `winLine, `drawn, `mode, `mode3ObjPen,
               `frameReady, `frameCount, `vblankRequested
      ensures Valid() && ly == ppuDot / 456 && lcdOnFrame == (old(lcdOnFrame) && ly == 0)
      ensures VideoState().(dot := if ppuDot + 1 >= 70224 then 0 else ppuDot + 1)
              == PpuTiming.Tick(old(VideoState()), old(NextInput()))
      ensures frameReady == (old(frameReady) || frameCount > old(frameCount))
      ensures vblankRequested == (old(vblankRequested) || frameCount > old(frameCount))
    {
      ly := ppuDot / 456;
      if ly != 0 {
        lcdOnFrame := false;
      }
      StepMode();
    }

    method StepMode()
      requires Valid() && ly == ppuDot / 456
      modifies fb, `winLine, `drawn, `mode, `mode3ObjPen, `frameReady, `frameCount, `vblankRequested
      ensures Valid()
      ensures VideoState().(dot := if ppuDot + 1 >= 70224 then 0 else ppuDot + 1)
              == PpuTiming.Tick(old(VideoState()), old(NextInput()))
      ensures frameReady == (old(frameReady) || frameCount > old(frameCount))
      ensures vblankRequested == (old(vblankRequested) || frameCount > old(frameCount))
    {
      ghost var v, i := VideoState(), NextInput();
      SameLine(regs, ly, ppuDot / 456, winLine);
      var lineDot := ppuDot % 456;
      var newMode := ModeAt(ly, lineDot, regs.scx, mode3ObjPen);
      if newMode != mode {
        ChangeMode(newMode);
      }
      if ly == 0 && lineDot == 0 {
        winLine := 0;
      }
      DotIsTick(v, i, ly, newMode, VideoState());
    }

    /** Entering mode 3 fixes the penalty, leaving it for HBlank draws the line, and
        entering mode 1 is the vertical blank. */
    method ChangeMode(newMode: nat)
      requires Valid() && newMode != mode && newMode <= 3 && ly == ppuDot / 456
      requires newMode == 0 ==> ly < 144
      modifies fb, `winLine, `drawn, `mode, `mode3ObjPen, `frameReady, `frameCount, `vblankRequested
      ensures Valid() && mode == newMode
      ensures mode3ObjPen == if newMode == 3 then old(CurrentLine(ly).ObjPenalty()) else old(mode3ObjPen)
      ensures drawn == if old(mode) == 3 && newMode == 0 then old(drawn) + [old(CurrentLine(ly))] else old(drawn)
      ensures winLine == if old(mode) == 3 && newMode == 0 && WindowUsed(old(CurrentLine(ly)))
                         then (old(winLine) + 1) % 256 else old(winLine)
      ensures frameCount == old(frameCount) + (if newMode == 1 then 1 else 0)
      ensures frameReady == (old(frameReady) || newMode == 1)
      ensures vblankRequested == (old(vblankRequested) || newMode == 1)
    {
      if newMode == 3 {
        mode3ObjPen := ObjMode3Penalty(CurrentLine(ly));
      }
      if mode == 3 && newMode == 0 {
        RenderScanline(ly);
      }
      mode := newMode;
      if newMode == 1 {
        vblankRequested := true;
        frameReady := true;
        frameCount := frameCount + 1;
      }
    }

    /** One more dot of a run that began at v0 and s0. */
    method ContinueRun(ghost v0: Video, ghost s0: StatLine, ghost inputs: seq<Input>) returns (ghost more: seq<Input>)
      requires Valid() && LcdOn()
      requires Unchanged(inputs, regs) && FromMemory(v0, inputs)
      requires VideoState() == At(v0, inputs, |inputs|) && StatState() == StatAt(v0, s0, inputs, |inputs|)
      modifies fb, `ppuDot, `ly, `lcdOnFrame, `winLine, `drawn, `mode, `mode3ObjPen,
               `frameReady, `frameCount, `vblankRequested, `statLine, `statRequested, `statRequests
      ensures Valid() && |more| == |inputs| + 1 && Unchanged(more, regs) && FromMemory(v0, more)
      ensures VideoState() == At(v0, more, |more|) && StatState() == StatAt(v0, s0, more, |more|)
    {
      ghost var input := NextInput();
      RunExtends(v0, s0, inputs, input);
      FromMemoryExtends(v0, inputs, input);
      more := inputs + [input];
      TickDot();
    }

    /** Advances the clock.  `inputs` records what each dot was given: the settings of the
        moment, which the clock leaves alone, and the object penalty they make. */
    method Tick(tcycles: nat) returns (ghost inputs: seq<Input>)
      requires Valid()
      modifies fb, `ppuDot, `ly, `lcdOnFrame, `winLine, `drawn, `mode, `mode3ObjPen,
               `frameReady, `frameCount, `vblankRequested, `statLine, `statRequested, `statRequests
      ensures Valid()
      ensures if LcdOn() then
                && |inputs| == tcycles && Unchanged(inputs, regs) && FromMemory(old(VideoState()), inputs)
                && VideoState() == At(old(VideoState()), inputs, tcycles)
                && StatState() == StatAt(old(VideoState()), old(StatState()), inputs, tcycles)
              else
                && VideoState() == old(VideoState()).(dot := 0, mode := 0, winLine := 0) && ly == 0
                && StatState() == old(StatState())
    {
      inputs := [];
      if !LcdOn() {
        ppuDot, ly, mode, winLine := 0, 0, 0, 0;
        return;
      }
      ghost var v0, s0 := VideoState(), StatState();
      var i := 0;
      while i < tcycles
        invariant 0 <= i <= tcycles && Valid() && |inputs| == i
        invariant Unchanged(inputs, regs) && FromMemory(v0, inputs)
        invariant VideoState() == At(v0, inputs, i) && StatState() == StatAt(v0, s0, inputs, i)
      {
        inputs := ContinueRun(v0, s0, inputs);
        i := i + 1;
      }
    }

    /** A register write.  Switching the LCD off puts the clock back to the start of a frame
        and leaves the interrupt line at its coincidence part; switching it on looks at the
        line again. */
    method Write(addr: int, val: uint8)
      requires Valid()
      modifies `regs, `ppuDot, `ly, `mode, `winLine, `lcdOnFrame, `lyCoin, `statLine, `statRequested, `statRequests
      ensures Valid() && regs == Written(old(regs), addr, val)
      ensures old(LcdOn()) && !LcdOn() ==>
                && VideoState() == old(VideoState()).(dot := 0, mode := 0, winLine := 0) && ly == 0
                && lyCoin == (old(ly) == old(regs).lyc) && lcdOnFrame == old(lcdOnFrame)
                && StatState() == StatLine(SourcesOf(old(regs).stat).coincidence && lyCoin, old(statRequests))
      ensures !old(LcdOn()) && LcdOn() ==>
                && VideoState() == old(VideoState()) && ly == old(ly) && lyCoin == old(lyCoin) && lcdOnFrame
                && StatState() == StatTick(old(StatState()), Level(SourcesOf(regs.stat), mode, ly == regs.lyc))
      ensures old(LcdOn()) == LcdOn() ==>
                && VideoState() == old(VideoState()) && StatState() == old(StatState())
                && ly == old(ly) && lyCoin == old(lyCoin) && lcdOnFrame == old(lcdOnFrame)
    {
      if addr != 0xFF40 {
        regs := Written(regs, addr, val);
        return;
      }
      var wasOn, nowOn := LcdOn(), val / 0x80 % 2 == 1;
      if wasOn && !nowOn {
        SwitchOff();
      }
      if !wasOn && nowOn {
        lcdOnFrame := true;
      }
      regs := regs.(lcdc := val);
      if !wasOn && nowOn {
        StatCheck();
      }
    }

    method SwitchOff()
      modifies `ppuDot, `ly, `mode, `winLine, `lyCoin, `statLine
      ensures VideoState() == old(VideoState()).(dot := 0, mode := 0, winLine := 0) && ly == 0
      ensures lyCoin == (old(ly) == regs.lyc)
      ensures StatState() == StatLine(SourcesOf(regs.stat).coincidence && lyCoin, statRequests)
    {
      lyCoin := ly == regs.lyc;
      statLine := regs.stat / 0x40 % 2 == 1 && lyCoin;
      ly, ppuDot, mode, winLine := 0, 0, 0, 0;
    }
  }

  /** The registers after a write; an address that is not one of theirs changes nothing. */
  function Written(r: Regs, addr: int, val: uint8): Regs {
    match addr
    case 0xFF40 => r.(lcdc := val)
    case 0xFF41 => r.(stat := val / 8 % 16 * 8)
    case 0xFF42 => r.(scy := val)
    case 0xFF43 => r.(scx := val)
    case 0xFF45 => r.(lyc := val)
    case 0xFF47 => r.(bgp := val)
    case 0xFF48 => r.(obp0 := val)
    case 0xFF49 => r.(obp1 := val)
    case 0xFF4A => r.(wy := val)
    case 0xFF4B => r.(wx := val)
    case _ => r
  }

  /** What a read of a register returns, STAT and LY apart. */
  function RegisterAt(r: Regs, addr: int): uint8 {
    match addr
    case 0xFF40 => r.lcdc
    case 0xFF42 => r.scy
    case 0xFF43 => r.scx
    case 0xFF45 => r.lyc
    case 0xFF47 => r.bgp
    case 0xFF48 => r.obp0
    case 0xFF49 => r.obp1
    case 0xFF4A => r.wy
    case 0xFF4B => r.wx
    case _ => 0xFF
  }

  predicate ReadsBack(addr: int) { 0xFF40 <= addr <= 0xFF4B && addr != 0xFF41 && addr != 0xFF44 && addr != 0xFF46 }

  /** A write is read back where it was made and nowhere else, and leaves memory alone; and each address is that of
      the register the drawing uses under its name. */
  lemma WriteThenRead(r: Regs, addr: int, val: uint8, other: int)
    requires ReadsBack(other)
    ensures RegisterAt(Written(r, addr, val), other) == if addr == other then val else RegisterAt(r, other)
    ensures Written(r, addr, val).vram == r.vram && Written(r, addr, val).oam == r.oam
    ensures Written(r, addr, val).stat == if addr == 0xFF41 then val / 8 % 16 * 8 else r.stat
    ensures r == Regs(r.vram, r.oam, RegisterAt(r, 0xFF40), RegisterAt(r, 0xFF42), RegisterAt(r, 0xFF43),
                      RegisterAt(r, 0xFF4A), RegisterAt(r, 0xFF4B), RegisterAt(r, 0xFF47), RegisterAt(r, 0xFF48),
                      RegisterAt(r, 0xFF49), RegisterAt(r, 0xFF45), r.stat)
  {
  }

  // ---- what is on the screen after a frame ----

  lemma {:induction false} LastOfFrame(before: seq<Line>, lines: seq<Line>, n: nat, y: int)
    requires n <= |lines| && 0 <= y < n && forall k :: 0 <= k < |lines| ==> lines[k].y == k
    ensures LastDrawn(before + lines[..n], y) == Some(lines[y])
  {
    var drawn := before + lines[..n];
    assert drawn[|drawn| - 1] == lines[n - 1];
    if y < n - 1 {
      LastOfFrame(before, lines, n - 1, y);
      assert drawn[..|drawn| - 1] == before + lines[..n - 1];
    }
  }

  lemma RowOnScreen(fb: seq<uint8>, before: seq<Line>, lines: seq<Line>, y: int)
    requires |fb| == 160 * 144 && Shown(fb, before + lines)
    requires |lines| == 144 && 0 <= y < 144 && forall k :: 0 <= k < |lines| ==> lines[k].y == k
    ensures forall x :: 0 <= x < 160 ==> fb[y * 160 + x] == lines[y].ScanShade(x)
  {
    LastOfFrame(before, lines, 144, y);
    assert lines[..144] == lines;
    assert RowShown(fb, before + lines, y);
  }

  /** Row y of the frame buffer is line y of the picture the settings describe, with the
      window's rows counted from the line WY on. */
  ghost predicate RowIsPicture(fb: seq<uint8>, r: Regs, y: int)
    requires |fb| == 160 * 144 && 0 <= y < 144
  {
    forall x :: 0 <= x < 160 ==> fb[y * 160 + x] == LineOf(r, y, WindowRow(r, y)).ScanShade(x)
  }

  /** After a frame during which the program changed nothing, the screen is the picture. */
  lemma PictureOnScreen(fb: seq<uint8>, v: Video, rs: seq<Input>, r: Regs)
    requires |fb| == 160 * 144 && v.dot == 0 && |rs| == 70224 && Unchanged(rs, r)
    requires Shown(fb, At(v, rs, |rs|).drawn)
    ensures forall y :: 0 <= y < 144 ==> RowIsPicture(fb, r, y)
  {
    UnchangedIsSteady(rs, r);
    FrameDrawsEveryLineOnce(v, rs);
    UnchangedPicture(v, rs, r, 144);
    var lines := FrameLines(v, rs, 144);
    forall y | 0 <= y < 144 ensures RowIsPicture(fb, r, y) {
      RowOnScreen(fb, v.drawn, lines, y);
    }
  }
}
