/** Modes and interrupts over dots, lines and frames: a line is 456 dots, a frame 154
    lines, and between any two dots the program may change memory and registers. */
module PpuTiming {
  import opened Bytes
  import opened LineSpec

  type Penalty = p: int | 0 <= p <= 107

  /** The memory and registers a program can change between dots. */
  datatype Regs = Regs(
    vram: Vram, oam: Oam, lcdc: uint8, scy: uint8, scx: uint8, wy: uint8, wx: uint8,
    bgp: uint8, obp0: uint8, obp1: uint8, lyc: uint8, stat: uint8)

  /** What one dot is given: the settings in force, and the object penalty its line gets if
      mode 3 begins with them. */
  datatype Input = Input(regs: Regs, linePen: Penalty)

  function LineOf(r: Regs, y: int, winLine: uint8): Line {
    Line(r.vram, r.oam, r.lcdc, r.scy, r.scx, r.wy, r.wx, r.bgp, r.obp0, r.obp1, winLine, y)
  }

  /** What the dot clock keeps: the dot within the frame, the mode, the object penalty of
      the current line, the window's line counter, and what has been drawn and counted. */
  datatype Video = Video(dot: nat, mode: nat, pen: Penalty, winLine: uint8, drawn: seq<Line>, vblanks: nat)

  function Mode3End(scx: uint8, pen: Penalty): nat { 80 + 172 + scx % 8 + pen }

  /** Mode while a dot of line y is processed. */
  function ModeAt(y: nat, d: nat, scx: uint8, pen: Penalty): (m: nat)
    ensures m <= 3
  {
    if y >= 144 then 1 else if d < 80 then 2 else if d < Mode3End(scx, pen) then 3 else 0
  }

  predicate WindowUsed(l: Line) { l.WindowOn() && l.wx <= 166 }

  /** One dot, with the LCD on. */
  function Tick(v: Video, i: Input): Video {
    var r, y, d := i.regs, v.dot / 456, v.dot % 456;
    var line := LineOf(r, y, v.winLine);
    var mode := ModeAt(y, d, r.scx, v.pen);
    var draws := v.mode == 3 && mode == 0;
    Video(
      if v.dot + 1 >= 70224 then 0 else v.dot + 1,
      mode,
      if mode == 3 && v.mode != 3 then i.linePen else v.pen,
      if v.dot == 0 then 0
      else if draws && WindowUsed(line) then (v.winLine + 1) % 256 else v.winLine,
      if draws then v.drawn + [line] else v.drawn,
      if mode == 1 && v.mode != 1 then v.vblanks + 1 else v.vblanks)
  }

  /** State after the first k dots. */
  function At(v: Video, rs: seq<Input>, k: nat): (w: Video)
    requires k <= |rs|
    decreases 2 * k
  {
    if k == 0 then v else Tick(At(v, rs, k - 1), rs[k - 1])
  }

  /** The penalty offered to a dot is the one its registers and memory give the current line. */
  ghost predicate Offered(v: Video, i: Input) {
    i.linePen == LineOf(i.regs, v.dot / 456, v.winLine).ObjPenalty()
  }

  /** So it is at every dot of a run. */
  ghost predicate FromMemory(v: Video, rs: seq<Input>) {
    forall k :: 0 <= k < |rs| ==> Offered(At(v, rs, k), rs[k])
  }

  /** A stretch of a run is a run of its own. */
  lemma {:induction false} AtWithin(v: Video, rs: seq<Input>, j: nat, part: seq<Input>, k: nat)
    requires j + |part| <= |rs| && part == rs[j..j + |part|] && k <= |part|
    ensures At(v, rs, j + k) == At(At(v, rs, j), part, k)
    decreases k
  {
    if k > 0 {
      AtWithin(v, rs, j, part, k - 1);
      assert part[k - 1] == rs[j + (k - 1)];
    }
  }

  // ---- a visible line whose fine scroll stays put ----

  /** The fine scroll does not change during a line. */
  predicate SteadyScx(rs: seq<Input>) {
    forall d :: 0 <= d < |rs| ==> rs[d].regs.scx % 8 == rs[0].regs.scx % 8
  }

  /** Window line the next line starts with: the counter restarts with the frame. */
  function StartWinLine(v: Video): uint8 { if v.dot == 0 then 0 else v.winLine }

  /** Penalty of the line about to start: fixed when its mode 3 begins. */
  function LinePenalty(rs: seq<Input>): Penalty
    requires |rs| == 456
  {
    rs[80].linePen
  }

  /** First dot of the line's HBlank. */
  function HBlankStart(rs: seq<Input>): (e: nat)
    requires |rs| == 456
    ensures 252 <= e <= 366
  {
    Mode3End(rs[0].regs.scx, LinePenalty(rs))
  }

  /** The line as it is when its HBlank begins. */
  function LineDrawn(v: Video, rs: seq<Input>): Line
    requires |rs| == 456
  {
    LineOf(rs[HBlankStart(rs)].regs, v.dot / 456, StartWinLine(v))
  }

  /** State after d dots of a visible line. */
  function LineProgress(v: Video, rs: seq<Input>, d: nat): Video
    requires |rs| == 456 && d <= 456
  {
    var w, p, e := StartWinLine(v), LinePenalty(rs), HBlankStart(rs);
    if d == 0 then v
    else if d <= 80 then v.(dot := v.dot + d, mode := 2, winLine := w)
    else if d <= e then v.(dot := v.dot + d, mode := 3, winLine := w, pen := p)
    else
      v.(dot := v.dot + d, mode := 0, pen := p, drawn := v.drawn + [LineDrawn(v, rs)],
         winLine := if WindowUsed(LineDrawn(v, rs)) then (w + 1) % 256 else w)
  }

  predicate LineStart(v: Video, y: nat) {
    y < 154 && v.dot == 456 * y
  }

  lemma {:induction false} SteadyLine(v: Video, y: nat, rs: seq<Input>, d: nat)
    requires LineStart(v, y) && y < 144 && |rs| == 456 && SteadyScx(rs) && d <= 456
    ensures At(v, rs, d) == LineProgress(v, rs, d)
  {
    if d > 0 {
      SteadyLine(v, y, rs, d - 1);
      SteadyDot(v, y, rs, d - 1);
    }
  }

  lemma SteadyDot(v: Video, y: nat, rs: seq<Input>, d: nat)
    requires LineStart(v, y) && y < 144 && |rs| == 456 && SteadyScx(rs) && d < 456
    ensures Tick(LineProgress(v, rs, d), rs[d]) == LineProgress(v, rs, d + 1)
  {
    var before := LineProgress(v, rs, d);
    assert before.dot / 456 == y && before.dot % 456 == d;
    assert rs[d].regs.scx % 8 == rs[0].regs.scx % 8;
  }

  lemma ProgressWhole(v: Video, y: nat, rs: seq<Input>)
    requires LineStart(v, y) && |rs| == 456
    ensures
      var w := LineProgress(v, rs, 456);
      && w.dot == 456 * (y + 1) && w.mode == 0 && w.vblanks == v.vblanks
      && w.drawn == v.drawn + [LineDrawn(v, rs)] && LineDrawn(v, rs).y == y
      && LineDrawn(v, rs).winLine == StartWinLine(v)
      && w.winLine == (if WindowUsed(LineDrawn(v, rs)) then (StartWinLine(v) + 1) % 256 else StartWinLine(v))
  {
  }

  /** What a whole visible line does. */
  lemma SteadyWhole(v: Video, y: nat, rs: seq<Input>)
    requires LineStart(v, y) && y < 144 && |rs| == 456 && SteadyScx(rs)
    ensures
      var w := At(v, rs, |rs|);
      && w.dot == 456 * (y + 1) && w.mode == 0 && w.vblanks == v.vblanks
      && w.drawn == v.drawn + [LineDrawn(v, rs)] && LineDrawn(v, rs).y == y
      && LineDrawn(v, rs).winLine == StartWinLine(v)
      && w.winLine == (if WindowUsed(LineDrawn(v, rs)) then (StartWinLine(v) + 1) % 256 else StartWinLine(v))
  {
    SteadyLine(v, y, rs, 456);
    ProgressWhole(v, y, rs);
  }

  // ---- any visible line ----

  /** State after d dots of a visible line on which the fine scroll may change at will. */
  ghost predicate LooseProgress(v: Video, y: nat, d: nat, w: Video) {
    && w.dot == v.dot + d && w.vblanks == v.vblanks
    && (d == 0 ==> w == v)
    && (1 <= d <= 80 ==> w.mode == 2 && w.drawn == v.drawn)
    && (d > 80 ==>
          && (w.mode == 0 || w.mode == 3)
          && v.drawn <= w.drawn
          && (forall k :: |v.drawn| <= k < |w.drawn| ==> w.drawn[k].y == y)
          && (w.mode == 0 ==> |w.drawn| > |v.drawn|))
    && (d == 81 ==> w.mode == 3)
    && (d > 366 ==> w.mode == 0)
  }

  lemma LooseDot(v: Video, y: nat, d: nat, w: Video, i: Input)
    requires LineStart(v, y) && y < 144 && d < 456 && LooseProgress(v, y, d, w)
    ensures LooseProgress(v, y, d + 1, Tick(w, i))
  {
    assert w.dot / 456 == y && w.dot % 456 == d;
  }

  /** A visible line is always drawn at least once, and from dot 366 on it is in HBlank,
      which therefore lasts at least ninety dots. */
  lemma {:induction false} LooseLine(v: Video, y: nat, rs: seq<Input>, d: nat)
    requires LineStart(v, y) && y < 144 && |rs| == 456 && d <= 456
    ensures LooseProgress(v, y, d, At(v, rs, d))
  {
    if d > 0 {
      LooseLine(v, y, rs, d - 1);
      LooseDot(v, y, d - 1, At(v, rs, d - 1), rs[d - 1]);
    }
  }

  // ---- when a line is drawn more than once ----

  /** Mode 3 would last through dot d under the scroll in force then. */
  predicate InMode3(rs: seq<Input>, d: nat)
    requires |rs| == 456 && d < 456
  {
    d < Mode3End(rs[d].regs.scx, LinePenalty(rs))
  }

  /** A rise of the fine scroll reopens mode 3 after it has ended. */
  predicate Reopens(rs: seq<Input>, n: nat)
    requires |rs| == 456 && n <= 456
  {
    exists d :: 81 <= d < n && !InMode3(rs, d - 1) && InMode3(rs, d)
  }

  /** Progress of a line up to its first reopening. */
  ghost predicate OpenOnce(v: Video, rs: seq<Input>, d: nat, w: Video)
    requires |rs| == 456 && 81 <= d <= 456
  {
    && w.dot == v.dot + d && w.pen == LinePenalty(rs)
    && (if InMode3(rs, d - 1) then w.mode == 3 && w.drawn == v.drawn
        else w.mode == 0 && |w.drawn| == |v.drawn| + 1)
  }

  lemma EntersMode3(v: Video, y: nat, rs: seq<Input>)
    requires LineStart(v, y) && y < 144 && |rs| == 456
    ensures OpenOnce(v, rs, 81, At(v, rs, 81))
  {
    LooseLine(v, y, rs, 80);
    var w := At(v, rs, 80);
    assert w.dot / 456 == y && w.dot % 456 == 80;
    assert At(v, rs, 81) == Tick(w, rs[80]);
  }

  lemma OpenDot(v: Video, y: nat, rs: seq<Input>, d: nat, w: Video)
    requires LineStart(v, y) && y < 144 && |rs| == 456 && 81 <= d < 456
    requires OpenOnce(v, rs, d, w) && (InMode3(rs, d) ==> InMode3(rs, d - 1))
    ensures OpenOnce(v, rs, d + 1, Tick(w, rs[d]))
  {
    assert w.dot / 456 == y && w.dot % 456 == d;
  }

  lemma {:induction false} UntilReopened(v: Video, y: nat, rs: seq<Input>, d: nat)
    requires LineStart(v, y) && y < 144 && |rs| == 456 && 81 <= d <= 456 && !Reopens(rs, d)
    ensures OpenOnce(v, rs, d, At(v, rs, d))
  {
    if d == 81 {
      EntersMode3(v, y, rs);
    } else {
      assert !Reopens(rs, d - 1);
      UntilReopened(v, y, rs, d - 1);
      OpenDot(v, y, rs, d - 1, At(v, rs, d - 1));
    }
  }

  /** A line that is in mode 3 will still be drawn. */
  lemma {:induction false} StillToDraw(v: Video, y: nat, rs: seq<Input>, d: nat, k: nat)
    requires LineStart(v, y) && y < 144 && |rs| == 456 && 81 <= d <= k <= 456 && At(v, rs, d).mode == 3
    ensures |At(v, rs, k).drawn| >= |At(v, rs, d).drawn|
    ensures At(v, rs, k).mode != 3 ==> |At(v, rs, k).drawn| > |At(v, rs, d).drawn|
  {
    LooseLine(v, y, rs, k);
    if d < k {
      LooseLine(v, y, rs, k - 1);
      StillToDraw(v, y, rs, d, k - 1);
    }
  }

  lemma {:induction false} FirstReopening(rs: seq<Input>, n: nat) returns (d: nat)
    requires |rs| == 456 && 81 <= n <= 456 && Reopens(rs, n)
    ensures 81 <= d < n && !InMode3(rs, d - 1) && InMode3(rs, d) && !Reopens(rs, d)
  {
    if Reopens(rs, n - 1) {
      d := FirstReopening(rs, n - 1);
    } else {
      d := n - 1;
    }
  }

  lemma ReopenedIsDrawnAgain(v: Video, y: nat, rs: seq<Input>)
    requires LineStart(v, y) && y < 144 && |rs| == 456 && Reopens(rs, |rs|)
    ensures |At(v, rs, |rs|).drawn| > |v.drawn| + 1
  {
    var d := FirstReopening(rs, |rs|);
    assert InMode3(rs, 80);
    assert d > 81;
    UntilReopened(v, y, rs, d);
    ReopensMode3(v, y, rs, d);
    StillToDraw(v, y, rs, d + 1, |rs|);
    LooseLine(v, y, rs, |rs|);
  }

  lemma ReopensMode3(v: Video, y: nat, rs: seq<Input>, d: nat)
    requires LineStart(v, y) && y < 144 && |rs| == 456 && 81 <= d < 456
    requires OpenOnce(v, rs, d, At(v, rs, d)) && !InMode3(rs, d - 1) && InMode3(rs, d)
    ensures At(v, rs, d + 1).mode == 3 && |At(v, rs, d + 1).drawn| == |v.drawn| + 1
  {
    var w := At(v, rs, d);
    assert w.dot / 456 == y && w.dot % 456 == d;
  }

  /** A visible line is drawn exactly once if and only if no change of the fine scroll
      during its HBlank reopens mode 3. */
  lemma DrawnOnceIff(v: Video, y: nat, rs: seq<Input>)
    requires LineStart(v, y) && y < 144 && |rs| == 456
    ensures |At(v, rs, |rs|).drawn| == |v.drawn| + 1 <==> !Reopens(rs, |rs|)
  {
    if Reopens(rs, |rs|) {
      ReopenedIsDrawnAgain(v, y, rs);
    } else {
      UntilReopened(v, y, rs, |rs|);
      assert !InMode3(rs, |rs| - 1);
    }
  }

  /** SCX rises from 0 to 7 four dots after HBlank began, no object being shown. */
  function LateScroll(r: Regs): (rs: seq<Input>)
    ensures |rs| == 456
  {
    seq(456, d => Input(r.(scx := if d < 256 then 0 else 7), 0))
  }

  lemma NoObjectsNoPenalty(l: Line)
    requires !l.ObjectsOn()
    ensures l.ObjPenalty() == 0
  {
    assert l.PriorityOrder() == [];
  }

  lemma LateScrollFromMemory(v: Video, r: Regs)
    requires r.lcdc / 0x02 % 2 == 0
    ensures FromMemory(v, LateScroll(r))
  {
    var rs := LateScroll(r);
    forall k | 0 <= k < |rs| ensures Offered(At(v, rs, k), rs[k]) {
      NoObjectsNoPenalty(LineOf(rs[k].regs, At(v, rs, k).dot / 456, At(v, rs, k).winLine));
    }
  }

  lemma LateScrollReopens(r: Regs)
    ensures Reopens(LateScroll(r), |LateScroll(r)|)
  {
    var rs := LateScroll(r);
    assert !InMode3(rs, 255) && InMode3(rs, 256);
  }

  /** So "once per line" does not hold for arbitrary writes: with objects off, whatever else is set,
      such a write gets the line drawn again. */
  lemma DrawnTwice(v: Video, y: nat, r: Regs)
    requires LineStart(v, y) && y < 144 && r.lcdc / 0x02 % 2 == 0
    ensures FromMemory(v, LateScroll(r))
    ensures |At(v, LateScroll(r), |LateScroll(r)|).drawn| > |v.drawn| + 1
  {
    LateScrollFromMemory(v, r);
    LateScrollReopens(r);
    ReopenedIsDrawnAgain(v, y, LateScroll(r));
  }

  // ---- vertical blank ----

  lemma {:induction false} BlankLine(v: Video, y: nat, rs: seq<Input>, d: nat)
    requires LineStart(v, y) && 144 <= y && |rs| == 456 && d <= 456
    ensures
      var w := At(v, rs, d);
      d > 0 ==> w == v.(dot := if v.dot + d == 70224 then 0 else v.dot + d, mode := 1,
                        vblanks := if v.mode != 1 then v.vblanks + 1 else v.vblanks)
  {
    if d > 0 {
      BlankLine(v, y, rs, d - 1);
      var w := At(v, rs, d - 1);
      assert w.dot == v.dot + (d - 1);
      assert w.dot / 456 == y;
    }
  }

  // ---- frames ----

  /** The inputs of line y of a frame. */
  function LineInputs(rs: seq<Input>, y: nat): (s: seq<Input>)
    requires |rs| == 70224 && y < 154
    ensures |s| == 456
  {
    rs[456 * y..456 * y + 456]
  }

  /** State when line y of a frame begins. */
  function LineBegin(v: Video, rs: seq<Input>, y: nat): Video
    requires |rs| == 70224 && y <= 154
  {
    At(v, rs, 456 * y)
  }

  lemma NextLine(v: Video, rs: seq<Input>, y: nat)
    requires |rs| == 70224 && y < 154
    ensures LineBegin(v, rs, y + 1) == At(LineBegin(v, rs, y), LineInputs(rs, y), |LineInputs(rs, y)|)
  {
    var line := LineInputs(rs, y);
    AtWithin(v, rs, 456 * y, line, |line|);
  }

  /** Every visible line keeps its fine scroll, though lines may differ. */
  ghost predicate SteadyFrame(rs: seq<Input>) {
    |rs| == 70224 && forall y :: 0 <= y < 144 ==> SteadyScx(LineInputs(rs, y))
  }

  /** The picture a frame draws: its lines 0..n-1 as they were when their HBlank began. */
  function FrameLines(v: Video, rs: seq<Input>, n: nat): (s: seq<Line>)
    requires |rs| == 70224 && n <= 144
    ensures |s| == n
    decreases 2 * n
  {
    if n == 0 then []
    else FrameLines(v, rs, n - 1) + [LineDrawn(LineBegin(v, rs, n - 1), LineInputs(rs, n - 1))]
  }

  lemma VisibleStep(v: Video, rs: seq<Input>, y: nat)
    requires |rs| == 70224 && y < 144 && SteadyScx(LineInputs(rs, y)) && LineBegin(v, rs, y).dot == 456 * y
    ensures
      var u, w := LineBegin(v, rs, y), LineBegin(v, rs, y + 1);
      && w.dot == 456 * (y + 1) && w.mode == 0 && w.vblanks == u.vblanks
      && w.drawn == u.drawn + [LineDrawn(u, LineInputs(rs, y))] && LineDrawn(u, LineInputs(rs, y)).y == y
  {
    NextLine(v, rs, y);
    SteadyWhole(LineBegin(v, rs, y), y, LineInputs(rs, y));
  }

  /** After n visible lines, of which `lines` were drawn. */
  ghost predicate VisibleAt(v: Video, w: Video, lines: seq<Line>, n: nat) {
    && w.dot == 456 * n && w.drawn == v.drawn + lines && w.vblanks == v.vblanks && (n > 0 ==> w.mode == 0)
    && |lines| == n && forall y :: 0 <= y < n ==> lines[y].y == y
  }

  lemma VisibleMore(v: Video, u: Video, w: Video, lines: seq<Line>, l: Line, n: nat)
    requires VisibleAt(v, u, lines, n)
    requires w.dot == 456 * (n + 1) && w.mode == 0 && w.vblanks == u.vblanks && w.drawn == u.drawn + [l] && l.y == n
    ensures VisibleAt(v, w, lines + [l], n + 1)
  {
  }

  lemma {:induction false} VisiblePart(v: Video, rs: seq<Input>, n: nat)
    requires v.dot == 0 && SteadyFrame(rs) && n <= 144
    ensures VisibleAt(v, LineBegin(v, rs, n), FrameLines(v, rs, n), n)
  {
    if n > 0 {
      VisiblePart(v, rs, n - 1);
      VisibleStep(v, rs, n - 1);
      var u, w := LineBegin(v, rs, n - 1), LineBegin(v, rs, n);
      var lines, l := FrameLines(v, rs, n - 1), LineDrawn(u, LineInputs(rs, n - 1));
      VisibleMore(v, u, w, lines, l, n - 1);
      assert FrameLines(v, rs, n) == lines + [l];
    }
  }

  lemma BlankWhole(v: Video, y: nat, rs: seq<Input>)
    requires LineStart(v, y) && 144 <= y && |rs| == 456
    ensures At(v, rs, |rs|) == v.(dot := if y == 153 then 0 else 456 * (y + 1), mode := 1,
                                  vblanks := if v.mode != 1 then v.vblanks + 1 else v.vblanks)
  {
    BlankLine(v, y, rs, 456);
  }

  lemma NextBlank(v: Video, rs: seq<Input>, y: nat)
    requires |rs| == 70224 && 144 <= y < 154 && LineBegin(v, rs, y).dot == 456 * y
    ensures
      var u, w := LineBegin(v, rs, y), LineBegin(v, rs, y + 1);
      w == u.(dot := if y == 153 then 0 else 456 * (y + 1), mode := 1,
              vblanks := if u.mode != 1 then u.vblanks + 1 else u.vblanks)
  {
    NextLine(v, rs, y);
    BlankWhole(LineBegin(v, rs, y), y, LineInputs(rs, y));
  }

  lemma {:induction false} BlankPart(v: Video, rs: seq<Input>, n: nat)
    requires |rs| == 70224 && 145 <= n <= 154
    requires LineBegin(v, rs, 144).dot == 456 * 144 && LineBegin(v, rs, 144).mode == 0
    ensures
      var w, u := LineBegin(v, rs, n), LineBegin(v, rs, 144);
      w == u.(dot := if n == 154 then 0 else 456 * n, mode := 1, vblanks := u.vblanks + 1)
  {
    if n > 145 {
      BlankPart(v, rs, n - 1);
    }
    NextBlank(v, rs, n - 1);
  }

  /** A frame with the LCD on and each line's fine scroll left alone draws lines 0 to 143
      once each and in order, raises one vertical blank, and ends where it began. */
  lemma FrameDrawsEveryLineOnce(v: Video, rs: seq<Input>)
    requires v.dot == 0 && SteadyFrame(rs)
    ensures
      var w := At(v, rs, |rs|);
      && w.dot == 0 && w.mode == 1 && w.vblanks == v.vblanks + 1
      && w.drawn == v.drawn + FrameLines(v, rs, 144)
    ensures forall y :: 0 <= y < 144 ==> FrameLines(v, rs, 144)[y].y == y
  {
    VisiblePart(v, rs, 144);
    BlankPart(v, rs, 154);
    assert LineBegin(v, rs, 154) == At(v, rs, |rs|);
  }

  // ---- any frame ----

  ghost predicate IsDrawn(lines: seq<Line>, y: int) {
    exists k :: 0 <= k < |lines| && lines[k].y == y
  }

  /** Lines drawn, in order, cover exactly lines 0..n-1, some perhaps more than once. */
  ghost predicate Covers(lines: seq<Line>, n: nat) {
    && (forall k :: 0 <= k < |lines| ==> 0 <= lines[k].y < n)
    && (forall j, k :: 0 <= j < k < |lines| ==> lines[j].y <= lines[k].y)
    && (forall y :: 0 <= y < n ==> IsDrawn(lines, y))
  }

  /** Each of lines 0..n-1 is drawn once: line y is the y-th drawn. */
  ghost predicate EachOnce(lines: seq<Line>, n: nat) {
    |lines| == n && forall y :: 0 <= y < n ==> lines[y].y == y
  }

  /** On none of lines 0..n-1 of the frame mode 3 reopens. */
  ghost predicate NoneReopens(rs: seq<Input>, n: nat)
    requires |rs| == 70224 && n <= 144
  {
    forall y :: 0 <= y < n ==> !Reopens(LineInputs(rs, y), 456)
  }

  lemma CoversMore(lines: seq<Line>, more: seq<Line>, n: nat)
    requires Covers(lines, n) && more != [] && forall k :: 0 <= k < |more| ==> more[k].y == n
    ensures Covers(lines + more, n + 1)
  {
    var all := lines + more;
    assert all[|lines|].y == n;
    forall y | 0 <= y < n ensures IsDrawn(all, y) {
      assert IsDrawn(lines, y);
      var k :| 0 <= k < |lines| && lines[k].y == y;
      assert all[k].y == y;
    }
  }

  lemma LooseEnd(u: Video, y: nat, w: Video) returns (more: seq<Line>)
    requires LooseProgress(u, y, 456, w)
    ensures
      && w.dot == u.dot + 456 && w.vblanks == u.vblanks && w.mode == 0
      && w.drawn == u.drawn + more && more != [] && (forall k :: 0 <= k < |more| ==> more[k].y == y)
  {
    more := w.drawn[|u.drawn|..];
  }

  lemma LineEnds(u: Video, y: nat, line: seq<Input>) returns (more: seq<Line>)
    requires LineStart(u, y) && y < 144 && |line| == 456
    ensures
      var w := At(u, line, |line|);
      && w.dot == u.dot + 456 && w.vblanks == u.vblanks && w.mode == 0
      && w.drawn == u.drawn + more && more != [] && (forall k :: 0 <= k < |more| ==> more[k].y == y)
  {
    LooseLine(u, y, line, |line|);
    more := LooseEnd(u, y, At(u, line, |line|));
  }

  /** What one visible line adds to the lines drawn. */
  lemma OneLine(u: Video, y: nat, line: seq<Input>) returns (more: seq<Line>)
    requires LineStart(u, y) && y < 144 && |line| == 456
    ensures
      var w := At(u, line, |line|);
      && w.dot == u.dot + 456 && w.vblanks == u.vblanks && w.mode == 0
      && w.drawn == u.drawn + more && more != [] && (forall k :: 0 <= k < |more| ==> more[k].y == y)
      && (|more| == 1 <==> !Reopens(line, |line|))
  {
    more := LineEnds(u, y, line);
    DrawnOnceIff(u, y, line);
  }

  /** What one visible line of any frame adds to the lines drawn. */
  lemma AnyLine(v: Video, rs: seq<Input>, y: nat) returns (more: seq<Line>)
    requires |rs| == 70224 && y < 144 && LineBegin(v, rs, y).dot == 456 * y
    ensures
      var u, w := LineBegin(v, rs, y), LineBegin(v, rs, y + 1);
      && w.dot == 456 * (y + 1) && w.vblanks == u.vblanks && w.mode == 0
      && w.drawn == u.drawn + more && more != [] && (forall k :: 0 <= k < |more| ==> more[k].y == y)
      && (|more| == 1 <==> !Reopens(LineInputs(rs, y), 456))
  {
    var u, w := LineBegin(v, rs, y), LineBegin(v, rs, y + 1);
    NextLine(v, rs, y);
    more := OneLine(u, y, LineInputs(rs, y));
  }

  /** After n visible lines of any frame; `steady` says that on none of them mode 3 reopened. */
  ghost predicate AnyVisibleAt(v: Video, w: Video, lines: seq<Line>, n: nat, steady: bool) {
    && w.dot == 456 * n && w.drawn == v.drawn + lines && w.vblanks == v.vblanks && (n > 0 ==> w.mode == 0)
    && Covers(lines, n) && |lines| >= n && (steady <==> |lines| == n) && (steady ==> EachOnce(lines, n))
  }

  lemma AnyVisibleMore(v: Video, u: Video, w: Video, lines: seq<Line>, more: seq<Line>, n: nat,
                       steady: bool, once: bool)
    requires AnyVisibleAt(v, u, lines, n, steady)
    requires w.dot == 456 * (n + 1) && w.mode == 0 && w.vblanks == u.vblanks && w.drawn == u.drawn + more
    requires more != [] && (forall k :: 0 <= k < |more| ==> more[k].y == n) && (once <==> |more| == 1)
    ensures AnyVisibleAt(v, w, lines + more, n + 1, steady && once)
  {
    CoversMore(lines, more, n);
    assert v.drawn + lines + more == v.drawn + (lines + more);
  }

  lemma {:induction false} AnyVisiblePart(v: Video, rs: seq<Input>, n: nat) returns (lines: seq<Line>)
    requires v.dot == 0 && |rs| == 70224 && n <= 144
    ensures AnyVisibleAt(v, LineBegin(v, rs, n), lines, n, NoneReopens(rs, n))
  {
    lines := [];
    if n > 0 {
      lines := AnyVisiblePart(v, rs, n - 1);
      var more := AnyLine(v, rs, n - 1);
      var once := !Reopens(LineInputs(rs, n - 1), 456);
      AnyVisibleMore(v, LineBegin(v, rs, n - 1), LineBegin(v, rs, n), lines, more, n - 1, NoneReopens(rs, n - 1), once);
      assert NoneReopens(rs, n) <==> NoneReopens(rs, n - 1) && once;
      lines := lines + more;
    }
  }

  /** Whatever is written during a frame, its lines are drawn in order, each at least once, and VBlank comes
      once; and each line is drawn exactly once if and only if on none of them mode 3 reopens. */
  lemma AnyFrame(v: Video, rs: seq<Input>) returns (lines: seq<Line>)
    requires v.dot == 0 && |rs| == 70224
    ensures
      var w := At(v, rs, |rs|);
      w.dot == 0 && w.mode == 1 && w.vblanks == v.vblanks + 1 && w.drawn == v.drawn + lines
    ensures Covers(lines, 144)
    ensures EachOnce(lines, 144) <==> NoneReopens(rs, 144)
  {
    lines := AnyVisiblePart(v, rs, 144);
    BlankPart(v, rs, 154);
    assert LineBegin(v, rs, 154) == At(v, rs, |rs|);
  }

  // ---- a frame during which nothing is changed ----

  /** Nothing is changed: every dot sees the same memory and registers. */
  predicate Unchanged(rs: seq<Input>, r: Regs) {
    forall k :: 0 <= k < |rs| ==> rs[k].regs == r
  }

  predicate WindowShown(r: Regs) {
    r.lcdc / 0x20 % 2 == 1 && r.lcdc % 2 == 1 && r.wx <= 166
  }

  /** Row of the window that line y shows, or would show. */
  function WindowRow(r: Regs, y: nat): (w: uint8)
    requires y <= 144
  {
    if WindowShown(r) && r.wy <= y then y - r.wy else 0
  }

  lemma UnchangedIsSteady(rs: seq<Input>, r: Regs)
    requires |rs| == 70224 && Unchanged(rs, r)
    ensures SteadyFrame(rs)
  {
    forall y, d | 0 <= y < 144 && 0 <= d < 456
      ensures LineInputs(rs, y)[d].regs.scx % 8 == LineInputs(rs, y)[0].regs.scx % 8
    {
      assert LineInputs(rs, y)[d] == rs[456 * y + d];
      assert rs[456 * y + d].regs == r;
      assert rs[456 * y].regs == r;
    }
  }

  lemma UnchangedLine(v: Video, y: nat, rs: seq<Input>, r: Regs)
    requires LineStart(v, y) && y < 144 && |rs| == 456 && Unchanged(rs, r)
    ensures LineDrawn(v, rs) == LineOf(r, y, StartWinLine(v))
    ensures WindowUsed(LineDrawn(v, rs)) == (WindowShown(r) && r.wy <= y)
  {
    assert rs[HBlankStart(rs)].regs == r;
  }

  lemma UnchangedWhole(v: Video, y: nat, rs: seq<Input>, r: Regs)
    requires LineStart(v, y) && y < 144 && |rs| == 456 && SteadyScx(rs) && Unchanged(rs, r)
    ensures
      var w, before := At(v, rs, |rs|), StartWinLine(v);
      StartWinLine(w) == if WindowShown(r) && r.wy <= y then (before + 1) % 256 else before
  {
    SteadyWhole(v, y, rs);
    UnchangedLine(v, y, rs, r);
  }

  lemma BeginDot(v: Video, rs: seq<Input>, y: nat)
    requires v.dot == 0 && SteadyFrame(rs) && y <= 144
    ensures LineBegin(v, rs, y).dot == 456 * y
  {
    VisiblePart(v, rs, y);
  }

  lemma NextWindowRow(v: Video, rs: seq<Input>, r: Regs, y: nat)
    requires v.dot == 0 && |rs| == 70224 && Unchanged(rs, r) && y < 144
    ensures
      var before := StartWinLine(LineBegin(v, rs, y));
      StartWinLine(LineBegin(v, rs, y + 1)) == if WindowShown(r) && r.wy <= y then (before + 1) % 256 else before
  {
    UnchangedIsSteady(rs, r);
    BeginDot(v, rs, y);
    NextLine(v, rs, y);
    UnchangedWhole(LineBegin(v, rs, y), y, LineInputs(rs, y), r);
  }

  lemma {:induction false} WindowRows(v: Video, rs: seq<Input>, r: Regs, n: nat)
    requires v.dot == 0 && |rs| == 70224 && Unchanged(rs, r) && n <= 144
    ensures StartWinLine(LineBegin(v, rs, n)) == WindowRow(r, n)
  {
    if n > 0 {
      WindowRows(v, rs, r, n - 1);
      NextWindowRow(v, rs, r, n - 1);
    }
  }

  /** A frame during which nothing is changed draws, on each line, that line of the
      picture; the window's rows follow one another from the line WY on. */
  lemma {:induction false} UnchangedPicture(v: Video, rs: seq<Input>, r: Regs, n: nat)
    requires v.dot == 0 && |rs| == 70224 && Unchanged(rs, r) && n <= 144
    ensures forall y :: 0 <= y < n ==> FrameLines(v, rs, n)[y] == LineOf(r, y, WindowRow(r, y))
  {
    if n > 0 {
      UnchangedPicture(v, rs, r, n - 1);
      UnchangedIsSteady(rs, r);
      WindowRows(v, rs, r, n - 1);
      VisiblePart(v, rs, n - 1);
      assert Unchanged(LineInputs(rs, n - 1), r);
      UnchangedLine(LineBegin(v, rs, n - 1), n - 1, LineInputs(rs, n - 1), r);
    }
  }

  // ---- the mode a program reads ----

  /** The mode bits of STAT just before a dot of the frame, with the LCD on. */
  function ReportedMode(ly: nat, dot: nat, firstFrame: bool, scx: uint8, pen: Penalty): (m: nat)
    ensures m <= 3
  {
    var d := dot % 456;
    if ly >= 144 then 1
    else if d < 8 then 0
    else if d < 88 then (if firstFrame && ly == 0 then 0 else 2)
    else if d < Mode3End(scx, pen) + 8 then 3
    else 0
  }

  lemma ReportedOf(v: Video, y: nat, rs: seq<Input>, d: nat, firstFrame: bool, scx: uint8)
    requires LineStart(v, y) && y < 144 && |rs| == 456 && 0 < d < 456 && scx % 8 == rs[0].regs.scx % 8
    ensures ReportedMode(y, LineProgress(v, rs, d).dot, firstFrame, scx, LineProgress(v, rs, d).pen)
            == Lagged(if d < 8 then 0 else LineProgress(v, rs, d - 7).mode, firstFrame && y == 0)
  {
    assert LineProgress(v, rs, d).dot % 456 == d;
  }

  /** The first object scan after the LCD is switched on reads as mode 0. */
  function Lagged(mode: nat, firstLine: bool): nat { if firstLine && mode == 2 then 0 else mode }

  /** On a line whose fine scroll stays put, what is read before dot d is the mode in which
      dot d - 8 was processed, and 0 for the first eight dots; but mode 2 reads as 0 on the
      first line after the LCD was switched on. */
  lemma ReportedModeLags(v: Video, y: nat, rs: seq<Input>, d: nat, firstFrame: bool)
    requires LineStart(v, y) && y < 144 && |rs| == 456 && SteadyScx(rs) && 0 < d < 456
    ensures ReportedMode(y, At(v, rs, d).dot, firstFrame, rs[d].regs.scx, At(v, rs, d).pen)
            == Lagged(if d < 8 then 0 else At(v, rs, d - 7).mode, firstFrame && y == 0)
  {
    SteadyLine(v, y, rs, d);
    if d >= 8 {
      SteadyLine(v, y, rs, d - 7);
    }
    ReportedOf(v, y, rs, d, firstFrame, rs[d].regs.scx);
  }
}
