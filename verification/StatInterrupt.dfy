/** The STAT interrupt line: the OR of the enabled sources, which requests an interrupt
    only when it rises. */
module StatInterrupt {
  import opened Bytes
  import opened LineSpec
  import opened PpuTiming

  /** The line's level and the requests made so far. */
  datatype StatLine = StatLine(level: bool, requests: nat)

  /** The sources a STAT value enables. */
  datatype Sources = Sources(hblank: bool, vblank: bool, oam: bool, coincidence: bool)

  function SourcesOf(stat: uint8): Sources {
    Sources(stat / 0x08 % 2 == 1, stat / 0x10 % 2 == 1, stat / 0x20 % 2 == 1, stat / 0x40 % 2 == 1)
  }

  predicate Level(c: Sources, mode: nat, match': bool) {
    (c.hblank && mode == 0) || (c.vblank && mode == 1) || (c.oam && mode == 2) || (c.coincidence && match')
  }

  function StatTick(s: StatLine, level: bool): StatLine {
    StatLine(level, if level && !s.level then s.requests + 1 else s.requests)
  }

  /** The level after the dot that input k-1 belongs to. */
  predicate LevelAfter(v: Video, rs: seq<Input>, k: nat)
    requires 0 < k <= |rs|
  {
    var r := rs[k - 1].regs;
    Level(SourcesOf(r.stat), At(v, rs, k).mode, At(v, rs, k - 1).dot / 456 == r.lyc)
  }

  function StatAt(v: Video, s: StatLine, rs: seq<Input>, k: nat): StatLine
    requires k <= |rs|
    decreases 2 * k
  {
    if k == 0 then s else StatTick(StatAt(v, s, rs, k - 1), LevelAfter(v, rs, k))
  }

  // ---- one line ----

  /** The program leaves STAT and LYC alone. */
  predicate SameSources(rs: seq<Input>, c: Sources, lyc: uint8) {
    forall k :: 0 <= k < |rs| ==> SourcesOf(rs[k].regs.stat) == c && rs[k].regs.lyc == lyc
  }

  function One(b: bool): nat { if b then 1 else 0 }

  /** Rising edges during a line, given the level it starts with. */
  function LineEdges(c: Sources, y: nat, lyc: uint8, before: bool): nat {
    var hit := c.coincidence && y == lyc;
    if y >= 144 then One((c.vblank || hit) && !before)
    else One((c.oam || hit) && !before) + One(c.hblank && !hit)
  }

  /** Level a line ends with. */
  predicate LineLevel(c: Sources, y: nat, lyc: uint8) {
    (c.coincidence && y == lyc) || (if y >= 144 then c.vblank else c.hblank)
  }

  /** STAT line after d dots of a visible line. */
  function StatProgress(s: StatLine, c: Sources, y: nat, lyc: uint8, e: nat, d: nat): StatLine {
    var hit := c.coincidence && y == lyc;
    if d == 0 then s
    else
      var scan := One((c.oam || hit) && !s.level);
      if d <= 80 then StatLine(c.oam || hit, s.requests + scan)
      else if d <= e then StatLine(hit, s.requests + scan)
      else StatLine(c.hblank || hit, s.requests + scan + One(c.hblank && !hit))
  }

  lemma {:induction false} SteadyStat(v: Video, s: StatLine, y: nat, rs: seq<Input>, c: Sources, lyc: uint8, d: nat)
    requires LineStart(v, y) && y < 144 && |rs| == 456 && SteadyScx(rs) && SameSources(rs, c, lyc) && d <= 456
    ensures StatAt(v, s, rs, d) == StatProgress(s, c, y, lyc, HBlankStart(rs), d)
  {
    if d > 0 {
      SteadyStat(v, s, y, rs, c, lyc, d - 1);
      SteadyMode(v, y, rs, d);
      StatDot(s, c, y, lyc, HBlankStart(rs), d, At(v, rs, d).mode);
    }
  }

  lemma SteadyMode(v: Video, y: nat, rs: seq<Input>, d: nat)
    requires LineStart(v, y) && y < 144 && |rs| == 456 && SteadyScx(rs) && 0 < d <= 456
    ensures At(v, rs, d - 1).dot / 456 == y
    ensures At(v, rs, d).mode == if d <= 80 then 2 else if d <= HBlankStart(rs) then 3 else 0
  {
    SteadyLine(v, y, rs, d - 1);
    SteadyLine(v, y, rs, d);
    assert (v.dot + (d - 1)) / 456 == y;
  }

  lemma StatDot(s: StatLine, c: Sources, y: nat, lyc: uint8, e: nat, d: nat, mode: nat)
    requires 80 < e && 0 < d && mode == if d <= 80 then 2 else if d <= e then 3 else 0
    ensures StatTick(StatProgress(s, c, y, lyc, e, d - 1), Level(c, mode, y == lyc)) == StatProgress(s, c, y, lyc, e, d)
  {
  }

  lemma BlankMode(v: Video, y: nat, rs: seq<Input>, d: nat)
    requires LineStart(v, y) && 144 <= y && |rs| == 456 && 0 < d <= 456
    ensures At(v, rs, d - 1).dot / 456 == y && At(v, rs, d).mode == 1
  {
    BlankLine(v, y, rs, d);
    BlankLine(v, y, rs, d - 1);
    assert (v.dot + (d - 1)) / 456 == y;
  }

  lemma {:induction false} BlankStat(v: Video, s: StatLine, y: nat, rs: seq<Input>, c: Sources, lyc: uint8, d: nat)
    requires LineStart(v, y) && 144 <= y && |rs| == 456 && SameSources(rs, c, lyc) && 0 < d <= 456
    ensures StatAt(v, s, rs, d) == StatLine(LineLevel(c, y, lyc), s.requests + LineEdges(c, y, lyc, s.level))
  {
    BlankMode(v, y, rs, d);
    BlankDot(c, y, lyc);
    assert LevelAfter(v, rs, d) == LineLevel(c, y, lyc);
    if d > 1 {
      BlankStat(v, s, y, rs, c, lyc, d - 1);
    }
  }

  lemma BlankDot(c: Sources, y: nat, lyc: uint8)
    requires 144 <= y
    ensures Level(c, 1, y == lyc) == LineLevel(c, y, lyc)
  {
  }

  /** A whole line, visible or not, adds its rising edges. */
  lemma WholeLineStat(v: Video, s: StatLine, y: nat, rs: seq<Input>, c: Sources, lyc: uint8)
    requires LineStart(v, y) && |rs| == 456 && SameSources(rs, c, lyc) && (y < 144 ==> SteadyScx(rs))
    ensures StatAt(v, s, rs, |rs|) == StatLine(LineLevel(c, y, lyc), s.requests + LineEdges(c, y, lyc, s.level))
  {
    if y < 144 {
      SteadyStat(v, s, y, rs, c, lyc, |rs|);
    } else {
      BlankStat(v, s, y, rs, c, lyc, |rs|);
    }
  }

  // ---- a frame ----

  lemma StatStep(v: Video, s: StatLine, rs: seq<Input>, k: nat)
    requires 0 < k <= |rs|
    ensures StatAt(v, s, rs, k) == StatTick(StatAt(v, s, rs, k - 1), LevelAfter(v, rs, k))
  {
  }

  /** A stretch of a run is a run of its own. */
  lemma {:induction false} StatWithin(v: Video, s: StatLine, rs: seq<Input>, j: nat, part: seq<Input>, k: nat)
    requires j + |part| <= |rs| && part == rs[j..j + |part|] && k <= |part|
    ensures StatAt(v, s, rs, j + k) == StatAt(At(v, rs, j), StatAt(v, s, rs, j), part, k)
    decreases k
  {
    if k > 0 {
      StatWithin(v, s, rs, j, part, k - 1);
      LevelWithin(v, rs, j, part, k);
      StatStep(v, s, rs, j + k);
      StatStep(At(v, rs, j), StatAt(v, s, rs, j), part, k);
    }
  }

  lemma LevelWithin(v: Video, rs: seq<Input>, j: nat, part: seq<Input>, k: nat)
    requires j + |part| <= |rs| && part == rs[j..j + |part|] && 0 < k <= |part|
    ensures LevelAfter(v, rs, j + k) == LevelAfter(At(v, rs, j), part, k)
  {
    AtWithin(v, rs, j, part, k - 1);
    AtWithin(v, rs, j, part, k);
    assert part[k - 1] == rs[j + k - 1];
  }

  function StatBegin(v: Video, s: StatLine, rs: seq<Input>, y: nat): StatLine
    requires |rs| == 70224 && y <= 154
  {
    StatAt(v, s, rs, 456 * y)
  }

  lemma NextStatLine(v: Video, s: StatLine, rs: seq<Input>, y: nat)
    requires |rs| == 70224 && y < 154
    ensures StatBegin(v, s, rs, y + 1) ==
            StatAt(LineBegin(v, rs, y), StatBegin(v, s, rs, y), LineInputs(rs, y), |LineInputs(rs, y)|)
  {
    var line := LineInputs(rs, y);
    StatWithin(v, s, rs, 456 * y, line, |line|);
  }

  /** Level line y starts with, in a frame that starts with level `before`. */
  predicate LevelBefore(c: Sources, y: nat, lyc: uint8, before: bool) {
    if y == 0 then before else LineLevel(c, y - 1, lyc)
  }

  /** Rising edges during lines 0..n-1 of a frame. */
  function FrameEdges(c: Sources, lyc: uint8, before: bool, n: nat): nat
    decreases 2 * n
  {
    if n == 0 then 0
    else FrameEdges(c, lyc, before, n - 1) + LineEdges(c, n - 1, lyc, LevelBefore(c, n - 1, lyc, before))
  }

  lemma LineKeeps(rs: seq<Input>, c: Sources, lyc: uint8, y: nat)
    requires SteadyFrame(rs) && SameSources(rs, c, lyc) && y < 154
    ensures SameSources(LineInputs(rs, y), c, lyc) && (y < 144 ==> SteadyScx(LineInputs(rs, y)))
  {
  }

  lemma LineOfFrameStat(v: Video, s: StatLine, rs: seq<Input>, c: Sources, lyc: uint8, y: nat)
    requires v.dot == 0 && SteadyFrame(rs) && SameSources(rs, c, lyc) && y < 154
    ensures StatBegin(v, s, rs, y + 1) ==
            var t := StatBegin(v, s, rs, y);
            StatLine(LineLevel(c, y, lyc), t.requests + LineEdges(c, y, lyc, t.level))
  {
    LineBeginDot(v, rs, y);
    NextStatLine(v, s, rs, y);
    LineKeeps(rs, c, lyc, y);
    WholeLineStat(LineBegin(v, rs, y), StatBegin(v, s, rs, y), y, LineInputs(rs, y), c, lyc);
  }

  lemma {:induction false} FrameStat(v: Video, s: StatLine, rs: seq<Input>, c: Sources, lyc: uint8, n: nat)
    requires v.dot == 0 && SteadyFrame(rs) && SameSources(rs, c, lyc) && n <= 154
    ensures StatBegin(v, s, rs, n) ==
            StatLine(LevelBefore(c, n, lyc, s.level), s.requests + FrameEdges(c, lyc, s.level, n))
  {
    if n > 0 {
      FrameStat(v, s, rs, c, lyc, n - 1);
      LineOfFrameStat(v, s, rs, c, lyc, n - 1);
    }
  }

  lemma LineBeginDot(v: Video, rs: seq<Input>, y: nat)
    requires v.dot == 0 && SteadyFrame(rs) && y < 154
    ensures LineStart(LineBegin(v, rs, y), y)
  {
    VisiblePart(v, rs, if y <= 144 then y else 144);
    if y > 144 {
      VisiblePart(v, rs, 144);
      BlankPart(v, rs, y);
    }
  }

  // ---- the counts ----

  /** Rising edges of line y when the coincidence source plays no part. */
  function PlainEdges(c: Sources, y: nat, before: bool): nat {
    if y == 0 then One(c.oam && !before) + One(c.hblank)
    else if y < 144 then One(c.oam && !c.hblank) + One(c.hblank)
    else if y == 144 then One(c.vblank && !c.hblank)
    else 0
  }

  predicate NoCoincidence(c: Sources, lyc: uint8) { !c.coincidence || lyc >= 154 }

  lemma {:induction false} PlainFrame(c: Sources, lyc: uint8, before: bool, n: nat)
    requires NoCoincidence(c, lyc) && 0 < n <= 154
    ensures FrameEdges(c, lyc, before, n) ==
            One(c.oam && !before) + One(c.hblank)
            + ((if n <= 144 then n else 144) - 1) * One(c.oam || c.hblank)
            + (if n > 144 then One(c.vblank && !c.hblank) else 0)
  {
    if n > 1 {
      PlainFrame(c, lyc, before, n - 1);
    } else {
      assert FrameEdges(c, lyc, before, 0) == 0;
    }
  }

  lemma PlainLine(c: Sources, y: nat, lyc: uint8, before: bool)
    requires !c.coincidence && y < 154
    ensures LineEdges(c, y, lyc, LevelBefore(c, y, lyc, before)) == PlainEdges(c, y, before)
  {
  }

  /** What the coincidence source changes: on its own line there is one edge unless the
      line was high already, and the next line starts high. */
  function CoincidenceEdges(c: Sources, y: nat, lyc: uint8, before: bool): nat {
    if y == lyc then One(!(if y == 0 then before else if y <= 144 then c.hblank else c.vblank))
    else if y == lyc + 1 then (if y < 144 then One(c.hblank) else 0)
    else PlainEdges(c, y, before)
  }

  lemma CoincidenceLine(c: Sources, y: nat, lyc: uint8, before: bool)
    requires c.coincidence && y < 154
    ensures LineEdges(c, y, lyc, LevelBefore(c, y, lyc, before)) == CoincidenceEdges(c, y, lyc, before)
  {
  }

  /** What the coincidence source adds to line y, or takes away from it. */
  function CoincidenceGain(c: Sources, y: nat, lyc: uint8, before: bool): int {
    CoincidenceEdges(c, y, lyc, before) - PlainEdges(c, y, before)
  }

  lemma GainPerLine(c: Sources, y: nat, lyc: uint8, before: bool)
    requires c.coincidence && y < 154
    ensures LineEdges(c, y, lyc, LevelBefore(c, y, lyc, before)) ==
            LineEdges(c.(coincidence := false), y, lyc, LevelBefore(c.(coincidence := false), y, lyc, before))
            + CoincidenceGain(c, y, lyc, before)
    ensures y != lyc && y != lyc + 1 ==> CoincidenceGain(c, y, lyc, before) == 0
  {
    CoincidenceLine(c, y, lyc, before);
    PlainLine(c.(coincidence := false), y, lyc, before);
  }

  /** So two lines of the frame count differently. */
  lemma {:induction false} CoincidenceFrame(c: Sources, lyc: uint8, before: bool, n: nat)
    requires c.coincidence && n <= 154
    ensures FrameEdges(c, lyc, before, n) ==
            FrameEdges(c.(coincidence := false), lyc, before, n)
            + (if lyc < n then CoincidenceGain(c, lyc, lyc, before) else 0)
            + (if lyc + 1 < n then CoincidenceGain(c, lyc + 1, lyc, before) else 0)
  {
    if n > 0 {
      CoincidenceFrame(c, lyc, before, n - 1);
      GainPerLine(c, n - 1, lyc, before);
    }
  }

  /** What the mode sources request in a frame, by themselves. */
  function ModeShare(c: Sources, before: bool): nat {
    One(c.oam && !before) + One(c.hblank) + 143 * One(c.oam || c.hblank) + One(c.vblank && !c.hblank)
  }

  /** What coincidence changes, on its own line and on the next. */
  function CoincidenceShare(c: Sources, lyc: uint8, before: bool): int {
    if NoCoincidence(c, lyc) then 0
    else CoincidenceGain(c, lyc, lyc, before) + if lyc < 153 then CoincidenceGain(c, lyc + 1, lyc, before) else 0
  }

  /** Requests of a frame in the steady state, for any sources. */
  function SteadyRequests(c: Sources, lyc: uint8): int {
    ModeShare(c, LineLevel(c, 153, lyc)) + CoincidenceShare(c, lyc, LineLevel(c, 153, lyc))
  }

  lemma PlainSteady(c: Sources, lyc: uint8, before: bool, n: nat)
    requires NoCoincidence(c, lyc) && n == 154
    ensures FrameEdges(c, lyc, before, n) == ModeShare(c, before)
  {
    PlainFrame(c, lyc, before, n);
  }

  lemma CoincidenceSteady(c: Sources, plain: Sources, lyc: uint8, before: bool, n: nat)
    requires !NoCoincidence(c, lyc) && plain == c.(coincidence := false) && n == 154
    ensures FrameEdges(c, lyc, before, n) == FrameEdges(plain, lyc, before, n) + CoincidenceShare(c, lyc, before)
    ensures ModeShare(plain, before) == ModeShare(c, before)
  {
    CoincidenceFrame(c, lyc, before, n);
  }

  lemma SteadyFrameEdges(c: Sources, lyc: uint8, before: bool, n: nat)
    requires n == 154
    ensures FrameEdges(c, lyc, before, n) == ModeShare(c, before) + CoincidenceShare(c, lyc, before)
  {
    if NoCoincidence(c, lyc) {
      PlainSteady(c, lyc, before, n);
    } else {
      var plain := c.(coincidence := false);
      CoincidenceSteady(c, plain, lyc, before, n);
      PlainSteady(plain, lyc, before, n);
    }
  }

  /** STAT requests over a frame during which STAT and LYC stay put, in the steady state. */
  lemma RequestsPerFrame(v: Video, s: StatLine, rs: seq<Input>, c: Sources, lyc: uint8)
    requires v.dot == 0 && SteadyFrame(rs) && SameSources(rs, c, lyc)
    requires s.level == LineLevel(c, 153, lyc)
    ensures
      var t := StatAt(v, s, rs, |rs|);
      t.level == s.level && t.requests == s.requests + SteadyRequests(c, lyc)
  {
    var n := 154;
    FrameStat(v, s, rs, c, lyc, n);
    assert StatBegin(v, s, rs, n) == StatAt(v, s, rs, |rs|);
    SteadyFrameEdges(c, lyc, LineLevel(c, 153, lyc), n);
  }

  /** The counts for each combination of mode sources, for coincidence alone, and for coincidence
      beside the HBlank source. */
  predicate Listed(c: Sources, lyc: uint8, requests: int) {
    match c
    case Sources(true, false, false, false) => requests == 144
    case Sources(false, true, false, false) => requests == 1
    case Sources(false, false, true, false) => requests == 144
    case Sources(true, true, false, false) => requests == 144
    case Sources(true, false, true, false) => requests == 145
    case Sources(false, true, true, false) => requests == 144
    case Sources(true, true, true, false) => requests == 144
    case Sources(false, false, false, true) => requests == if lyc < 154 then 1 else 0
    case Sources(true, false, false, true) =>
      requests == if lyc == 0 || lyc == 144 || lyc >= 154 then 144 else if lyc < 144 then 143 else 145
    case _ => true
  }

  lemma SharesListed(c: Sources, lyc: uint8, before: bool)
    requires before == LineLevel(c, 153, lyc)
    ensures Listed(c, lyc, ModeShare(c, before) + CoincidenceShare(c, lyc, before))
  {
  }

  /** The rising edges of a frame in the steady state, by their number. */
  lemma RequestCounts(c: Sources, lyc: uint8, before: bool, n: nat)
    requires before == LineLevel(c, 153, lyc) && n == 154
    ensures Listed(c, lyc, FrameEdges(c, lyc, before, n))
  {
    SteadyFrameEdges(c, lyc, before, n);
    SharesListed(c, lyc, before);
  }
}
