/** The length of mode 3 on the dot clock against the length of the pixel pipeline's line. */
module LineTiming {
  import opened Bytes
  import opened LineSpec
  import opened PpuTiming
  import opened StatInterrupt
  import Renderers

  // ---- what adds to the pipeline's line ----

  /** The same line with the window's enable bit cleared. */
  function WithoutWindow(l: Line): Line {
    if l.lcdc / 0x20 % 2 == 1 then l.(lcdc := l.lcdc - 0x20) else l
  }

  lemma WindowBitAlone(v: uint8)
    requires v / 0x20 % 2 == 1
    ensures (v - 0x20) % 2 == v % 2 && (v - 0x20) / 0x02 % 2 == v / 0x02 % 2
    ensures (v - 0x20) / 0x04 % 2 == v / 0x04 % 2 && (v - 0x20) / 0x20 % 2 == 0
  {
    assert (v - 0x20) / 0x04 == v / 0x04 - 8;
    assert (v - 0x20) / 0x02 == v / 0x02 - 16;
  }

  lemma {:induction false} SameSelected(l: Line, m: Line, n: nat)
    requires m == l.(lcdc := m.lcdc) && m.TallObjects() == l.TallObjects() && 4 * n <= |l.oam|
    ensures m.Selected(n) == l.Selected(n)
    decreases n
  {
    if n > 0 {
      SameSelected(l, m, n - 1);
    }
  }

  lemma {:induction false} SameInsert(l: Line, m: Line, i: OamIndex, s: seq<OamIndex>)
    requires m == l.(lcdc := m.lcdc)
    ensures m.Insert(i, s) == l.Insert(i, s)
    decreases |s|
  {
    if s != [] && !l.Beats(i, s[0]) {
      SameInsert(l, m, i, s[1..]);
    }
  }

  lemma {:induction false} SameArranged(l: Line, m: Line, s: seq<OamIndex>)
    requires m == l.(lcdc := m.lcdc)
    ensures m.Arranged(s) == l.Arranged(s)
    decreases |s|
  {
    if s != [] {
      SameArranged(l, m, s[..|s| - 1]);
      SameInsert(l, m, s[|s| - 1], l.Arranged(s[..|s| - 1]));
    }
  }

  lemma {:induction false} SameStall(l: Line, m: Line, objs: seq<OamIndex>, k: nat)
    requires m == l.(lcdc := m.lcdc) && k <= |objs|
    ensures m.ObjectStall(objs, k) == l.ObjectStall(objs, k)
    decreases k
  {
    if k > 0 {
      SameStall(l, m, objs, k - 1);
      SameNext(l, m, objs, k - 1);
    }
  }

  lemma SameNext(l: Line, m: Line, objs: seq<OamIndex>, k: nat)
    requires m == l.(lcdc := m.lcdc) && k < |objs| && m.ObjectStall(objs, k) == l.ObjectStall(objs, k)
    ensures m.ObjectStall(objs, k + 1) == l.ObjectStall(objs, k + 1)
  {
    SameCost(l, m, objs, k);
    NextStall(l, objs, k);
    NextStall(m, objs, k);
  }

  lemma NextStall(l: Line, objs: seq<OamIndex>, k: nat)
    requires k < |objs|
    ensures l.ObjectStall(objs, k + 1) == l.ObjectStall(objs, k) + l.ObjCost(objs, k)
  {
  }

  lemma SameCost(l: Line, m: Line, objs: seq<OamIndex>, k: nat)
    requires m == l.(lcdc := m.lcdc) && k < |objs|
    ensures m.ObjCost(objs, k) == l.ObjCost(objs, k)
  {
    var tile := l.ObjTile(objs[k]);
    assert forall j :: 0 <= j < k ==>
      m.OffRight(objs[j]) == l.OffRight(objs[j]) && m.ObjTile(objs[j]) == l.ObjTile(objs[j]);
    assert m.TileSeen(objs, k, tile) == l.TileSeen(objs, k, tile);
  }

  lemma SameOrder(l: Line, m: Line)
    requires m == l.(lcdc := m.lcdc) && m.TallObjects() == l.TallObjects() && m.ObjectsOn() == l.ObjectsOn()
    ensures m.PriorityOrder() == l.PriorityOrder()
  {
    SameSelected(l, m, |l.oam| / 4);
    SameArranged(l, m, l.Selected(|l.oam| / 4));
  }

  /** The window costs no object anything. */
  lemma StallWithoutWindow(l: Line)
    ensures WithoutWindow(l).LineStall() == l.LineStall() && !WithoutWindow(l).WindowOn()
  {
    if l.lcdc / 0x20 % 2 == 1 {
      var m := WithoutWindow(l);
      WindowBitAlone(l.lcdc);
      SameOrder(l, m);
      SameStall(l, m, l.PriorityOrder(), |l.PriorityOrder()|);
    }
  }

  /** What the window adds to the pipeline's line: eleven dots when it takes over in the middle; from the left
      edge on, its own pixels left of the screen are discarded instead of the fine scroll. */
  lemma WindowCosts(l: Line)
    ensures l.FifoDots() - WithoutWindow(l).FifoDots() ==
      if l.lcdc % 2 != 1 || l.lcdc / 0x20 % 2 != 1 || l.y < l.wy then 0
      else if l.wx < 8 then 7 - l.wx - l.scx % 8
      else if l.wx <= 166 then 11 else 0
  {
    StallWithoutWindow(l);
    if l.lcdc / 0x20 % 2 == 1 {
      WindowBitAlone(l.lcdc);
    }
  }

  /** What an object costs the pipeline: nothing from X = 168 on; else six dots, and for the first object in its
      background tile as many more as the tile's pixels right of the object's left edge exceed two. */
  lemma StallRule(l: Line, objs: seq<OamIndex>, k: nat)
    requires k < |objs|
    ensures
      var x := l.ObjX(objs[k]);
      var seen := exists j :: 0 <= j < k && l.ObjX(objs[j]) < 168 && (l.ObjX(objs[j]) + l.scx) / 8 == (x + l.scx) / 8;
      l.ObjCost(objs, k) ==
        if x >= 168 then 0
        else if seen then 6
        else if x == 0 then 11
        else if (x + l.scx) % 8 < 5 then 11 - (x + l.scx) % 8 else 6
  {
    var x := l.ObjX(objs[k]);
    TileShift(x, l.scx);
    forall j | 0 <= j < k
      ensures l.ObjTile(objs[j]) == l.ObjTile(objs[k]) <==> (l.ObjX(objs[j]) + l.scx) / 8 == (x + l.scx) / 8
    {
      TileShift(l.ObjX(objs[j]), l.scx);
    }
  }

  lemma TileShift(x: uint8, scx: uint8)
    ensures (x - 8 + scx) / 8 == (x + scx) / 8 - 1 && (x - 8 + scx) % 8 == (x + scx) % 8
  {
  }

  // ---- mode 3 on the dot clock ----

  /** Dots of mode 3 on a line whose settings stay put: the pipeline's line without the window, one dot more when
      no object costs anything and two less otherwise. */
  function Mode3Dots(l: Line): int {
    WithoutWindow(l).FifoDots() + if l.LineStall() > 0 then -2 else 1
  }

  lemma Mode3EndIs(l: Line)
    ensures Mode3End(l.scx, l.ObjPenalty()) == 80 + Mode3Dots(l)
  {
    StallWithoutWindow(l);
    Renderers.TimingOffset(WithoutWindow(l));
  }

  lemma OfferedAt(v: Video, rs: seq<Input>, k: nat)
    requires FromMemory(v, rs) && k < |rs|
    ensures Offered(At(v, rs, k), rs[k])
  {
  }

  lemma LineOfDot(dot: nat, y: nat)
    requires dot == 456 * y + 80
    ensures dot / 456 == y
  {
  }

  lemma SamePenalty(r: Regs, a: int, b: int, winLine: uint8)
    requires a == b
    ensures LineOf(r, a, winLine).ObjPenalty() == LineOf(r, b, winLine).ObjPenalty()
  {
  }

  lemma OfferedOn(w: Video, i: Input, y: nat, winLine: uint8, r: Regs)
    requires Offered(w, i) && i.regs == r && w.dot == 456 * y + 80 && w.winLine == winLine
    ensures i.linePen == LineOf(r, y, winLine).ObjPenalty()
  {
    LineOfDot(w.dot, y);
    SamePenalty(r, w.dot / 456, y, winLine);
  }

  lemma ScanDone(v: Video, y: nat, rs: seq<Input>) returns (w: Video)
    requires LineStart(v, y) && y < 144 && |rs| == 456 && SteadyScx(rs)
    ensures w == At(v, rs, 80) && w.dot == 456 * y + 80 && w.winLine == StartWinLine(v)
  {
    SteadyLine(v, y, rs, 80);
    w := LineProgress(v, rs, 80);
  }

  lemma PenaltyOffered(v: Video, y: nat, rs: seq<Input>, r: Regs)
    requires LineStart(v, y) && y < 144 && |rs| == 456 && Unchanged(rs, r) && FromMemory(v, rs) && SteadyScx(rs)
    ensures LinePenalty(rs) == LineOf(r, y, StartWinLine(v)).ObjPenalty()
  {
    OfferedAt(v, rs, 80);
    var w := ScanDone(v, y, rs);
    OfferedOn(w, rs[80], y, StartWinLine(v), r);
  }

  lemma UnchangedScx(rs: seq<Input>, r: Regs)
    requires Unchanged(rs, r)
    ensures SteadyScx(rs)
  {
    forall d | 0 <= d < |rs| ensures rs[d].regs.scx % 8 == rs[0].regs.scx % 8 {
      assert rs[d].regs == r && rs[0].regs == r;
    }
  }

  lemma UnchangedStart(v: Video, rs: seq<Input>, r: Regs, pen: Penalty)
    requires |rs| == 456 && Unchanged(rs, r) && LinePenalty(rs) == pen
    ensures HBlankStart(rs) == Mode3End(r.scx, pen)
  {
    assert rs[0].regs == r;
  }

  lemma HBlankStartIs(v: Video, y: nat, rs: seq<Input>, r: Regs, l: Line)
    requires LineStart(v, y) && y < 144 && |rs| == 456 && Unchanged(rs, r) && FromMemory(v, rs)
    requires l == LineOf(r, y, StartWinLine(v))
    ensures HBlankStart(rs) == 80 + Mode3Dots(l)
  {
    UnchangedScx(rs, r);
    PenaltyOffered(v, y, rs, r);
    UnchangedStart(v, rs, r, l.ObjPenalty());
    Mode3EndIs(l);
  }

  /** Mode and lines drawn after d dots of a line of which mode 3 takes `n`. */
  lemma ProgressIs(v: Video, rs: seq<Input>, d: nat, l: Line, n: int)
    requires |rs| == 456 && 0 < d <= 456 && HBlankStart(rs) == 80 + n && LineDrawn(v, rs) == l
    ensures LineProgress(v, rs, d).mode == if d <= 80 then 2 else if d <= 80 + n then 3 else 0
    ensures LineProgress(v, rs, d).drawn == if d <= 80 + n then v.drawn else v.drawn + [l]
  {
  }

  /** On a visible line with fixed settings the unit is in mode 2 for 80 dots, then in mode 3 for as long as the
      pipeline takes without the window, one dot more when no object costs anything and two less otherwise,
      then in mode 0; the line is drawn at the first dot of mode 0. */
  lemma Mode3Length(v: Video, y: nat, rs: seq<Input>, r: Regs, d: nat, l: Line, n: int)
    requires v.dot == 456 * y && y < 144 && |rs| == 456 && Unchanged(rs, r) && FromMemory(v, rs) && 0 < d <= 456
    requires l == LineOf(r, y, if y == 0 then 0 else v.winLine)
    requires n == WithoutWindow(l).FifoDots() + if l.LineStall() > 0 then -2 else 1
    ensures At(v, rs, d).mode == if d <= 80 then 2 else if d <= 80 + n then 3 else 0
    ensures At(v, rs, d).drawn == if d <= 80 + n then v.drawn else v.drawn + [l]
  {
    UnchangedScx(rs, r);
    SteadyLine(v, y, rs, d);
    HBlankStartIs(v, y, rs, r, l);
    UnchangedLine(v, y, rs, r);
    ProgressIs(v, rs, d, l, n);
  }

  lemma HBlankLevel(s: StatLine, y: nat, lyc: uint8, e: nat, d: nat)
    requires d > 0
    ensures StatProgress(s, Sources(true, false, false, false), y, lyc, e, d)
            == if d <= e && d > 80 then StatLine(false, s.requests)
               else if d <= 80 then StatLine(false, s.requests) else StatLine(true, s.requests + 1)
  {
  }

  /** With only the mode-0 source enabled the interrupt comes when that pipeline's line would end: at the first
      dot after mode 3, and once. */
  lemma HBlankInterrupt(v: Video, s: StatLine, y: nat, rs: seq<Input>, r: Regs, d: nat, l: Line, n: int)
    requires v.dot == 456 * y && y < 144 && |rs| == 456 && Unchanged(rs, r) && FromMemory(v, rs) && 0 < d <= 456
    requires l == LineOf(r, y, if y == 0 then 0 else v.winLine)
    requires n == WithoutWindow(l).FifoDots() + if l.LineStall() > 0 then -2 else 1
    requires r.stat / 0x08 % 16 == 1
    ensures StatAt(v, s, rs, d) == if d <= 80 + n then StatLine(false, s.requests) else StatLine(true, s.requests + 1)
  {
    var c := Sources(true, false, false, false);
    UnchangedScx(rs, r);
    OnlyOne(r.stat);
    FixedSources(rs, r, c);
    HBlankStartIs(v, y, rs, r, l);
    HBlankLevel(s, y, r.lyc, 80 + n, d);
    SteadyStat(v, s, y, rs, c, r.lyc, d);
  }

  /** With only the coincidence source enabled the line is high exactly on line LYC, and with only the mode-2 source
      exactly for the 80 dots of the object scan; either requests when it rises. */
  lemma ScanInterrupt(v: Video, s: StatLine, y: nat, rs: seq<Input>, r: Regs, d: nat)
    requires v.dot == 456 * y && y < 144 && |rs| == 456 && Unchanged(rs, r) && 0 < d <= 456
    ensures r.stat / 0x08 % 16 == 8 ==>
              StatAt(v, s, rs, d) == StatLine(y == r.lyc, s.requests + if y == r.lyc && !s.level then 1 else 0)
    ensures r.stat / 0x08 % 16 == 4 ==>
              StatAt(v, s, rs, d) == StatLine(d <= 80, s.requests + if s.level then 0 else 1)
  {
    UnchangedScx(rs, r);
    if r.stat / 0x08 % 16 == 8 {
      OnlyOne(r.stat);
      FixedSources(rs, r, Sources(false, false, false, true));
      SteadyStat(v, s, y, rs, Sources(false, false, false, true), r.lyc, d);
    } else if r.stat / 0x08 % 16 == 4 {
      OnlyOne(r.stat);
      FixedSources(rs, r, Sources(false, false, true, false));
      SteadyStat(v, s, y, rs, Sources(false, false, true, false), r.lyc, d);
    }
  }

  lemma FixedSources(rs: seq<Input>, r: Regs, c: Sources)
    requires Unchanged(rs, r) && SourcesOf(r.stat) == c
    ensures SameSources(rs, c, r.lyc)
  {
    forall k | 0 <= k < |rs| ensures SourcesOf(rs[k].regs.stat) == c && rs[k].regs.lyc == r.lyc {
      assert rs[k].regs == r;
    }
  }

  lemma OnlyOne(stat: uint8)
    ensures stat / 0x08 % 16 == 1 ==> SourcesOf(stat) == Sources(true, false, false, false)
    ensures stat / 0x08 % 16 == 4 ==> SourcesOf(stat) == Sources(false, false, true, false)
    ensures stat / 0x08 % 16 == 8 ==> SourcesOf(stat) == Sources(false, false, false, true)
  {
    var q := stat / 0x08;
    assert stat / 0x10 == q / 2 && stat / 0x20 == q / 4 && stat / 0x40 == q / 8;
  }

  // ---- frames ----

  lemma SameOffer(a: Video, b: Video, i: Input, j: Input)
    requires a == b && i == j && Offered(a, i)
    ensures Offered(b, j)
  {
  }

  lemma OfferedWithin(v: Video, rs: seq<Input>, j: nat, part: seq<Input>, k: nat)
    requires FromMemory(v, rs) && j + |part| <= |rs| && part == rs[j..j + |part|] && k < |part|
    ensures Offered(At(At(v, rs, j), part, k), part[k])
  {
    OfferedAt(v, rs, j + k);
    AtWithin(v, rs, j, part, k);
    SameOffer(At(v, rs, j + k), At(At(v, rs, j), part, k), rs[j + k], part[k]);
  }

  lemma LineFromMemory(v: Video, rs: seq<Input>, y: nat)
    requires |rs| == 70224 && y < 154 && FromMemory(v, rs)
    ensures FromMemory(LineBegin(v, rs, y), LineInputs(rs, y))
  {
    var line := LineInputs(rs, y);
    forall k | 0 <= k < |line| ensures Offered(At(LineBegin(v, rs, y), line, k), line[k]) {
      OfferedWithin(v, rs, 456 * y, line, k);
    }
  }

  lemma LineOfFrame(v: Video, rs: seq<Input>, r: Regs, y: nat)
    requires v.dot == 0 && |rs| == 70224 && Unchanged(rs, r) && FromMemory(v, rs) && y < 144
    ensures
      var u := LineBegin(v, rs, y);
      && u.dot == 456 * y && (if y == 0 then 0 else u.winLine) == WindowRow(r, y)
      && Unchanged(LineInputs(rs, y), r) && FromMemory(u, LineInputs(rs, y))
  {
    UnchangedIsSteady(rs, r);
    BeginDot(v, rs, y);
    WindowRows(v, rs, r, y);
    LineFromMemory(v, rs, y);
  }

  lemma DotOfLine(v: Video, rs: seq<Input>, y: nat, d: nat, k: nat)
    requires |rs| == 70224 && y < 144 && d <= 456 && k == 456 * y + d
    ensures k <= |rs| && At(v, rs, k) == At(LineBegin(v, rs, y), LineInputs(rs, y), d)
  {
    AtWithin(v, rs, 456 * y, LineInputs(rs, y), d);
  }

  /** So it is on every visible line of a frame during which nothing is changed. */
  lemma Mode3OfFrame(v: Video, rs: seq<Input>, r: Regs, y: nat, d: nat, k: nat, l: Line, n: int)
    requires v.dot == 0 && |rs| == 70224 && Unchanged(rs, r) && FromMemory(v, rs)
    requires y < 144 && 0 < d <= 456 && k == 456 * y + d
    requires l == LineOf(r, y, WindowRow(r, y))
    requires n == WithoutWindow(l).FifoDots() + if l.LineStall() > 0 then -2 else 1
    ensures k <= |rs| && At(v, rs, k).mode == if d <= 80 then 2 else if d <= 80 + n then 3 else 0
  {
    LineOfFrame(v, rs, r, y);
    DotOfLine(v, rs, y, d, k);
    Mode3Length(LineBegin(v, rs, y), y, LineInputs(rs, y), r, d, l, n);
  }

  /** And the lines such a frame draws are those of the settings, the window's rows counted from line WY on. */
  lemma PictureOfFrame(v: Video, rs: seq<Input>, r: Regs, n: nat, y: nat)
    requires v.dot == 0 && |rs| == 70224 && Unchanged(rs, r) && y < n <= 144
    ensures FrameLines(v, rs, n)[y] ==
            LineOf(r, y, if r.lcdc % 2 == 1 && r.lcdc / 0x20 % 2 == 1 && r.wx <= 166 && r.wy <= y then y - r.wy else 0)
  {
    UnchangedPicture(v, rs, r, n);
  }
}
