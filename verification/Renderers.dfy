/** The two renderers side by side: which object a column shows, where the pictures
    differ, and how the object penalty of one follows from the stalls of the other. */
module Renderers {
  import opened Bytes
  import opened LineSpec
  import opened ObjectOrder

  // ---- the priority order, without reference to sorting ----

  /** Objects on the line among OAM entries 0..n-1. */
  function OnLineBefore(l: Line, n: nat): (c: nat)
    requires 4 * n <= |l.oam|
    ensures c <= n
  {
    if n == 0 then 0 else OnLineBefore(l, n - 1) + (if l.OnLine(n - 1) then 1 else 0)
  }

  lemma {:induction false} SelectedCount(l: Line, n: nat)
    requires 4 * n <= |l.oam|
    ensures |l.Selected(n)| == if OnLineBefore(l, n) < 10 then OnLineBefore(l, n) else 10
  {
    if n > 0 {
      SelectedCount(l, n - 1);
    }
  }

  lemma {:induction false} SelectedIff(l: Line, n: nat, i: OamIndex)
    requires 4 * n <= |l.oam|
    ensures i in l.Selected(n) <==> i < n && l.OnLine(i) && OnLineBefore(l, i) < 10
  {
    if n > 0 {
      SelectedIff(l, n - 1, i);
      SelectedCount(l, n - 1);
    }
  }

  /** An object takes part exactly when it crosses the line and fewer than ten objects
      before it in OAM do. */
  lemma TakesPart(l: Line, i: OamIndex)
    ensures i in l.PriorityOrder() <==> l.ObjectsOn() && l.OnLine(i) && OnLineBefore(l, i) < 10
  {
    var sel := l.Selected(|l.oam| / 4);
    SelectedIff(l, |l.oam| / 4, i);
    assert i in l.Arranged(sel) <==> i in sel by {
      ArrangedPermutes(l, sel);
      assert i in l.Arranged(sel) <==> i in multiset(l.Arranged(sel));
      assert i in sel <==> i in multiset(sel);
    }
  }

  lemma {:induction false} SelectedIncreases(l: Line, n: nat)
    requires 4 * n <= |l.oam|
    ensures forall k :: 0 <= k < |l.Selected(n)| ==> l.Selected(n)[k] < n
    ensures forall j, k :: 0 <= j < k < |l.Selected(n)| ==> l.Selected(n)[j] < l.Selected(n)[k]
  {
    if n > 0 {
      SelectedIncreases(l, n - 1);
    }
  }

  lemma {:induction false} IncreasingOnce(s: seq<OamIndex>, v: OamIndex)
    requires forall j, k :: 0 <= j < k < |s| ==> s[j] < s[k]
    ensures multiset(s)[v] <= 1
  {
    if s != [] {
      var front: seq<OamIndex>, last := s[..|s| - 1], s[|s| - 1];
      assert s == front + [last];
      IncreasingOnce(front, v);
      if v == last {
        assert v !in front;
        assert multiset(front)[v] == 0;
      }
    }
  }

  lemma TwiceInMultiset(s: seq<OamIndex>, j: nat, k: nat)
    requires j < k < |s| && s[j] == s[k]
    ensures multiset(s)[s[j]] >= 2
  {
    assert s == s[..k] + [s[k]] + s[k + 1..];
    assert s[j] in s[..k];
  }

  lemma ArrangedBeats(l: Line, sel: seq<OamIndex>, j: nat, k: nat)
    requires forall a, b :: 0 <= a < b < |sel| ==> sel[a] < sel[b]
    requires j < k < |sel|
    ensures l.Beats(l.Arranged(sel)[j], l.Arranged(sel)[k])
  {
    var order := l.Arranged(sel);
    ArrangedIsRanked(l, sel);
    assert Rank(Entry(l, order[j])) <= Rank(Entry(l, order[k]));
    if order[j] == order[k] {
      ArrangedPermutes(l, sel);
      TwiceInMultiset(order, j, k);
      IncreasingOnce(sel, order[j]);
    }
  }

  // ---- which object a column shows ----

  /** Object i could be seen at column x over a background of colour bg. */
  predicate Candidate(l: Line, objs: seq<OamIndex>, i: OamIndex, x: int, bg: Colour) {
    i in objs && l.ObjColour(i, x) != 0 && !l.Hidden(i, bg)
  }

  ghost predicate Strict(l: Line, objs: seq<OamIndex>) {
    forall j, k :: 0 <= j < k < |objs| ==> l.Beats(objs[j], objs[k])
  }

  lemma {:induction false} FirstVisibleIndex(l: Line, objs: seq<OamIndex>, x: int, bg: Colour) returns (k: nat)
    ensures k <= |objs|
    ensures forall j :: 0 <= j < k ==> l.ObjColour(objs[j], x) == 0 || l.Hidden(objs[j], bg)
    ensures if k < |objs|
            then l.FirstVisible(objs, x, bg) == Some(objs[k]) && l.ObjColour(objs[k], x) != 0 && !l.Hidden(objs[k], bg)
            else l.FirstVisible(objs, x, bg) == None
  {
    if objs == [] || (l.ObjColour(objs[0], x) != 0 && !l.Hidden(objs[0], bg)) {
      k := 0;
    } else {
      var rest := FirstVisibleIndex(l, objs[1..], x, bg);
      k := rest + 1;
      forall j | 0 <= j < k ensures l.ObjColour(objs[j], x) == 0 || l.Hidden(objs[j], bg) {
        assert j > 0 ==> objs[j] == objs[1..][j - 1];
      }
    }
  }

  /** In the priority order each object beats all that come after it. */
  lemma PriorityOrderStrict(l: Line)
    ensures Strict(l, l.PriorityOrder())
  {
    if l.ObjectsOn() {
      var sel := l.Selected(|l.oam| / 4);
      SelectedIncreases(l, |l.oam| / 4);
      forall j, k | 0 <= j < k < |l.Arranged(sel)| ensures l.Beats(l.Arranged(sel)[j], l.Arranged(sel)[k]) {
        ArrangedBeats(l, sel, j, k);
      }
    }
  }

  lemma CandidateIndex(l: Line, objs: seq<OamIndex>, x: int, bg: Colour, k: nat, j: OamIndex)
    requires Strict(l, objs) && Candidate(l, objs, j, x, bg)
    requires k <= |objs| && forall m :: 0 <= m < k ==> l.ObjColour(objs[m], x) == 0 || l.Hidden(objs[m], bg)
    ensures k < |objs| && (j == objs[k] || l.Beats(objs[k], j))
  {
    var m :| 0 <= m < |objs| && objs[m] == j;
    assert k <= m;
  }

  /** Object i is a candidate and beats every other one. */
  ghost predicate Best(l: Line, objs: seq<OamIndex>, x: int, bg: Colour, i: OamIndex) {
    Candidate(l, objs, i, x, bg) && forall j :: Candidate(l, objs, j, x, bg) && j != i ==> l.Beats(i, j)
  }

  lemma OneBest(l: Line, objs: seq<OamIndex>, x: int, bg: Colour, i: OamIndex, j: OamIndex)
    requires Best(l, objs, x, bg, i) && Best(l, objs, x, bg, j)
    ensures i == j
  {
    assert i != j ==> l.Beats(i, j);
    assert i != j ==> l.Beats(j, i);
  }

  lemma SeenIsBest(l: Line, objs: seq<OamIndex>, x: int, bg: Colour, i: OamIndex)
    requires Strict(l, objs)
    ensures l.FirstVisible(objs, x, bg) == Some(i) <==> Best(l, objs, x, bg, i)
    ensures l.FirstVisible(objs, x, bg) == None ==> !Candidate(l, objs, i, x, bg)
  {
    var k := FirstVisibleIndex(l, objs, x, bg);
    forall j | Candidate(l, objs, j, x, bg) ensures k < |objs| && (j == objs[k] || l.Beats(objs[k], j)) {
      CandidateIndex(l, objs, x, bg, k, j);
    }
    if k < |objs| {
      assert Best(l, objs, x, bg, objs[k]);
      if Best(l, objs, x, bg, i) {
        OneBest(l, objs, x, bg, i, objs[k]);
      }
    }
  }

  /** The object seen is the candidate that beats every other candidate, and there is one
      whenever there is a candidate. */
  lemma SeenObject(l: Line, x: int, bg: Colour, i: OamIndex)
    ensures l.FirstVisible(l.PriorityOrder(), x, bg) == Some(i) <==> Best(l, l.PriorityOrder(), x, bg, i)
    ensures l.FirstVisible(l.PriorityOrder(), x, bg) == None ==> !Candidate(l, l.PriorityOrder(), i, x, bg)
  {
    PriorityOrderStrict(l);
    SeenIsBest(l, l.PriorityOrder(), x, bg, i);
  }

  /** The pipeline's choice ignores the background: it is the highest opaque object. */
  lemma {:induction false} OpaqueIsVisibleOverNothing(l: Line, objs: seq<OamIndex>, x: int)
    ensures l.FirstOpaque(objs, x) == l.FirstVisible(objs, x, 0)
  {
    if objs != [] {
      OpaqueIsVisibleOverNothing(l, objs[1..], x);
    }
  }

  // ---- where the pictures differ ----

  /** The highest opaque object at x gives way to the background, and an object below it
      that does not would put a different shade there. */
  predicate ShowsThrough(l: Line, x: int)
    requires 0 <= x < SCREEN_WIDTH
  {
    var bg := l.BgColour(x);
    var top := l.FirstOpaque(l.PriorityOrder(), x);
    var below := l.FirstVisible(l.PriorityOrder(), x, bg);
    top.Some? && l.Hidden(top.value, bg) && below.Some? && l.ObjShade(below.value, x) != Shade(l.bgp, bg)
  }

  lemma {:induction false} VisibleAfterOpaque(l: Line, objs: seq<OamIndex>, x: int, bg: Colour)
    ensures l.FirstOpaque(objs, x) == None ==> l.FirstVisible(objs, x, bg) == None
    ensures l.FirstOpaque(objs, x).Some? && !l.Hidden(l.FirstOpaque(objs, x).value, bg) ==>
              l.FirstVisible(objs, x, bg) == l.FirstOpaque(objs, x)
  {
    if objs != [] {
      VisibleAfterOpaque(l, objs[1..], x, bg);
    }
  }

  /** With the background on, the renderers differ at a column exactly when a lower object
      shows through. */
  lemma RenderersDifferIff(l: Line, x: int)
    requires 0 <= x < SCREEN_WIDTH && l.BgOn()
    ensures l.FifoShade(x) != l.ScanShade(x) <==> ShowsThrough(l, x)
  {
    VisibleAfterOpaque(l, l.PriorityOrder(), x, l.BgColour(x));
  }

  /** In particular they agree on every line whose objects all stay in front. */
  lemma AgreeWithoutBehind(l: Line)
    requires l.BgOn()
    requires forall i :: i in l.PriorityOrder() ==> !l.BehindBg(i)
    ensures forall x :: 0 <= x < SCREEN_WIDTH ==> l.FifoShade(x) == l.ScanShade(x)
  {
    forall x | 0 <= x < SCREEN_WIDTH ensures l.FifoShade(x) == l.ScanShade(x) {
      RenderersDifferIff(l, x);
    }
  }

  /** Two objects at the same place on a dark background, the upper one behind it. */
  predicate TwoObjects(l: Line) {
    && (forall a :: 0 <= a < 0x4000 ==> l.vram[a] == 0xFF)
    && l.oam[..8] == [16, 8, 0, 0x80, 16, 8, 0, 0]
    && (forall a :: 8 <= a < 0xA0 ==> l.oam[a] == 0)
    && l.lcdc == 0x93 && l.scy == 0 && l.scx == 0 && l.wy == 0 && l.wx == 0
    && l.bgp == 0xE4 && l.obp0 == 0 && l.obp1 == 0 && l.winLine == 0 && l.y == 0
  }

  lemma TwoObjectsExist() returns (l: Line)
    ensures TwoObjects(l)
  {
    var first: seq<uint8> := [16, 8, 0, 0x80, 16, 8, 0, 0];
    l := Line(seq(0x4000, _ => 0xFF), first + seq(0x98, _ => 0), 0x93, 0, 0, 0, 0, 0xE4, 0, 0, 0, 0);
  }

  lemma TwoObjectsBytes(l: Line)
    requires TwoObjects(l)
    ensures l.oam[0] == 16 && l.oam[1] == 8 && l.oam[2] == 0 && l.oam[3] == 0x80
    ensures l.oam[4] == 16 && l.oam[5] == 8 && l.oam[6] == 0 && l.oam[7] == 0
  {
    assert forall a :: 0 <= a < 8 ==> l.oam[a] == l.oam[..8][a];
  }

  lemma TwoObjectsOnLine(l: Line, i: OamIndex)
    requires TwoObjects(l)
    ensures i in l.PriorityOrder() <==> i < 2
  {
    TakesPart(l, i);
    TwoObjectsBytes(l);
    assert i >= 2 ==> l.oam[4 * i] == 0;
  }

  lemma FullBits()
    ensures BitOf(0xFF, 7) == 1 && BitOf(0xFF, 0) == 1 && Shade(0xE4, 3) == 3 && Shade(0, 3) == 0
  {
    assert Pow2(7) == 128 && Pow2(6) == 64;
  }

  lemma TwoObjectsBackground(l: Line)
    requires TwoObjects(l)
    ensures l.BgColour(0) == 3
  {
    FullBits();
    var row := l.TileOffset(l.vram[l.BgMap()]);
    assert l.vram[row] == 0xFF && l.vram[row + 1] == 0xFF;
    assert l.MapColour(l.BgMap(), 0, 0) == ColourNumber(l.vram[row], l.vram[row + 1], 7);
  }

  lemma TwoObjectsColours(l: Line, i: OamIndex)
    requires TwoObjects(l) && i < 2
    ensures l.ObjColour(i, 0) == 3 && l.ObjShade(i, 0) == 0 && (l.Hidden(i, 3) <==> i == 0)
  {
    FullBits();
    TwoObjectsBytes(l);
    var a := l.ObjRowOffset(i);
    assert l.vram[a] == 0xFF && l.vram[a + 1] == 0xFF;
    assert l.ObjColour(i, 0) == ColourNumber(l.vram[a], l.vram[a + 1], 7);
    assert l.ObjPalette(i) == 0;
  }

  /** Object 0 above object 1, and nothing else on the line. */
  lemma UpperHidden(l: Line, order: seq<OamIndex>, bg: Colour)
    requires Strict(l, order) && forall i: OamIndex :: i in order <==> i < 2
    requires l.Beats(0, 1) && l.Hidden(0, bg) && !l.Hidden(1, bg) && l.ObjColour(0, 0) != 0 && l.ObjColour(1, 0) != 0
    ensures l.FirstOpaque(order, 0) == Some(0) && l.FirstVisible(order, 0, bg) == Some(1)
  {
    OpaqueIsVisibleOverNothing(l, order, 0);
    SeenIsBest(l, order, 0, 0, 0);
    SeenIsBest(l, order, 0, bg, 1);
  }

  /** So the two renderers are not equal everywhere: there is a line on which the pipeline
      shows the background and the scanline renderer the lower object. */
  lemma RenderersCanDiffer() returns (l: Line)
    ensures l.BgOn() && l.FifoShade(0) == 3 && l.ScanShade(0) == 0
  {
    l := TwoObjectsExist();
    TwoObjectsDiffer(l);
  }

  lemma TwoObjectsDiffer(l: Line)
    requires TwoObjects(l)
    ensures l.BgOn() && l.FifoShade(0) == 3 && l.ScanShade(0) == 0
  {
    TwoObjectsBytes(l);
    TwoObjectsBackground(l);
    TwoObjectsColours(l, 0);
    TwoObjectsColours(l, 1);
    FullBits();
    PriorityOrderStrict(l);
    forall i: OamIndex ensures i in l.PriorityOrder() <==> i < 2 {
      TwoObjectsOnLine(l, i);
    }
    ShadesWhenUpperHidden(l, l.PriorityOrder());
  }

  lemma ShadesWhenUpperHidden(l: Line, order: seq<OamIndex>)
    requires Strict(l, order) && (forall i: OamIndex :: i in order <==> i < 2) && l.Beats(0, 1) && l.BgOn()
    requires l.BgColour(0) == 3 && l.Hidden(0, 3) && !l.Hidden(1, 3)
    requires l.ObjColour(0, 0) == 3 && l.ObjColour(1, 0) == 3
    ensures l.PipelineShade(order, 0) == Shade(l.bgp, 3)
    ensures l.FirstVisible(order, 0, l.ScanBgColour(0)) == Some(1)
  {
    UpperHidden(l, order, 3);
  }

  // ---- timing ----

  /** The same line with the object enable bit cleared. */
  function WithoutObjects(l: Line): Line
    requires l.ObjectsOn()
  {
    l.(lcdc := l.lcdc - 2)
  }

  /** What switching objects on adds to the pipeline's line is the scanline penalty plus the
      three dots it had been reduced by. */
  lemma PenaltyEmerges(l: Line)
    requires l.ObjectsOn()
    ensures l.FifoDots() - WithoutObjects(l).FifoDots() == if l.ObjPenalty() > 0 then l.ObjPenalty() + 3 else 0
  {
    var off := WithoutObjects(l);
    ObjectBitAlone(l.lcdc);
    assert off.WindowOn() == l.WindowOn() && off.Lead() == l.Lead();
    assert off.PriorityOrder() == [];
  }

  lemma ObjectBitAlone(v: uint8)
    requires v / 2 % 2 == 1
    ensures (v - 2) % 2 == v % 2 && (v - 2) / 2 % 2 == 0 && (v - 2) / 0x20 % 2 == v / 0x20 % 2
  {
  }

  /** Without a window the scanline timing's 172 dots, fine scroll and penalty are one dot more than the
      pipeline takes when no object costs anything, and two dots less when one does. */
  lemma TimingOffset(l: Line)
    requires !l.WindowOn()
    ensures l.FifoDots() == 172 + l.scx % 8 + l.ObjPenalty() + if l.ObjPenalty() > 0 then 2 else -1
  {
  }
}
