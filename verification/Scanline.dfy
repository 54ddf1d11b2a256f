/** The scanline renderer: a whole line at once, background first and then the objects
    from the lowest priority to the highest, and the object penalty its timing uses. */
module Scanline {
  import opened Bytes
  import opened LineSpec
  import opened ObjectOrder
  import opened FifoSpec

  /** All rows of the frame buffer but row y are as they were. */
  ghost predicate OtherRowsKept(before: seq<uint8>, after: seq<uint8>, y: int)
    requires 0 <= y < 144 && |before| == |after| == 160 * 144
  {
    forall k :: 0 <= k < 160 * 144 && !(y * 160 <= k < y * 160 + 160) ==> after[k] == before[k]
  }

  /** Colour number of one background or window pixel, and which of the two it is. */
  method BgPixel(l: Line, x: nat) returns (c: Colour, inWindow: bool)
    requires x < 160
    ensures c == l.ScanBgColour(x) && inWindow == l.InWindow(x)
  {
    inWindow := l.WindowOn() && x + 7 >= l.wx;
    if !l.BgOn() {
      c := 0;
    } else if inWindow {
      c := l.MapColour(l.WindowMap(), l.winLine, x - (l.wx - 7));
    } else {
      c := l.MapColour(l.BgMap(), (l.y + l.scy) % 256, (x + l.scx) % 256);
    }
  }

  /** Background and window of line l.y into the frame buffer and `colnum`; reports whether
      any window pixel was drawn. */
  method RenderBgWindow(l: Line, fb: array<uint8>, colnum: array<uint8>) returns (windowUsed: bool)
    requires 0 <= l.y < 144 && fb.Length == 160 * 144 && colnum.Length == 160 && fb != colnum
    modifies fb, colnum
    ensures forall x :: 0 <= x < 160 ==>
              colnum[x] == l.ScanBgColour(x) && fb[l.y * 160 + x] == Shade(l.bgp, l.ScanBgColour(x))
    ensures OtherRowsKept(old(fb[..]), fb[..], l.y)
    ensures windowUsed == (l.WindowOn() && l.wx <= 166)
  {
    windowUsed := false;
    var x := 0;
    while x < 160
      invariant 0 <= x <= 160
      invariant forall i :: 0 <= i < x ==>
                  colnum[i] == l.ScanBgColour(i) && fb[l.y * 160 + i] == Shade(l.bgp, l.ScanBgColour(i))
      invariant forall k :: 0 <= k < fb.Length && !(l.y * 160 <= k < l.y * 160 + x) ==> fb[k] == old(fb[k])
      invariant windowUsed == (l.WindowOn() && x > 0 && x - 1 + 7 >= l.wx)
    {
      var c, inWindow := BgPixel(l, x);
      windowUsed := windowUsed || inWindow;
      colnum[x] := c;
      fb[l.y * 160 + x] := Shade(l.bgp, c);
      x := x + 1;
    }
  }

  /** What column x shows once the objects `objs` are drawn over a background of colour bg. */
  function Painted(l: Line, objs: seq<OamIndex>, x: int, bg: Colour): Colour {
    match l.FirstVisible(objs, x, bg)
    case Some(i) => l.ObjShade(i, x)
    case None => Shade(l.bgp, bg)
  }

  /** Object i shows at column x unless an object drawn later is in front of it. */
  predicate Shows(l: Line, i: OamIndex, x: int)
    requires 0 <= x < 160
  {
    l.ObjColour(i, x) != 0 && !l.Hidden(i, l.ScanBgColour(x))
  }

  /** Drawing one more object, of higher priority than those already drawn. */
  lemma PaintOver(l: Line, i: OamIndex, objs: seq<OamIndex>, x: int)
    requires 0 <= x < 160
    ensures Painted(l, [i] + objs, x, l.ScanBgColour(x)) ==
            if Shows(l, i, x) then l.ObjShade(i, x) else Painted(l, objs, x, l.ScanBgColour(x))
  {
    assert ([i] + objs)[1..] == objs;
  }

  /** The frame buffer once column x of object i is drawn over it. */
  function Pixel(l: Line, i: OamIndex, fb: seq<uint8>, x: int): (r: seq<uint8>)
    requires 0 <= l.y < 144 && |fb| == 160 * 144 && 0 <= x < 160
    ensures |r| == |fb|
  {
    if Shows(l, i, x) then fb[l.y * 160 + x := l.ObjShade(i, x)] else fb
  }

  /** Column x of the row when object i has been drawn over it up to column `upto`. */
  predicate ColumnOk(l: Line, i: OamIndex, was: seq<uint8>, fb: seq<uint8>, upto: int, x: int)
    requires 0 <= l.y < 144 && |was| == |fb| == 160 * 144 && 0 <= x < 160
  {
    fb[l.y * 160 + x] == if x < upto && Shows(l, i, x) then l.ObjShade(i, x) else was[l.y * 160 + x]
  }

  /** Object i is drawn over the row up to column `upto`, and nothing else has changed. */
  ghost predicate DrawnUpTo(l: Line, i: OamIndex, was: seq<uint8>, fb: seq<uint8>, upto: int)
    requires 0 <= l.y < 144 && |was| == |fb| == 160 * 144
  {
    OtherRowsKept(was, fb, l.y) && forall x :: 0 <= x < 160 ==> ColumnOk(l, i, was, fb, upto, x)
  }

  lemma DrawnToNext(l: Line, i: OamIndex, was: seq<uint8>, fb: seq<uint8>, x: int)
    requires 0 <= l.y < 144 && |was| == |fb| == 160 * 144 && DrawnUpTo(l, i, was, fb, x)
    ensures DrawnUpTo(l, i, was, if 0 <= x < 160 then Pixel(l, i, fb, x) else fb, x + 1)
  {
    var after := if 0 <= x < 160 then Pixel(l, i, fb, x) else fb;
    var upto := x + 1;
    forall z | 0 <= z < 160 ensures ColumnOk(l, i, was, after, upto, z) {
      assert ColumnOk(l, i, was, fb, x, z);
    }
  }

  lemma NothingDrawn(l: Line, i: OamIndex, fb: seq<uint8>)
    requires 0 <= l.y < 144 && |fb| == 160 * 144
    ensures DrawnUpTo(l, i, fb, fb, l.ObjX(i) - 8)
  {
    var left := l.ObjX(i) - 8;
    forall x | 0 <= x < 160 ensures ColumnOk(l, i, fb, fb, left, x) {
      if x < l.ObjX(i) - 8 {
        BesideObject(l, i, x);
      }
    }
  }

  lemma BesideObject(l: Line, i: OamIndex, x: int)
    requires 0 <= x < 160 && !(l.ObjX(i) - 8 <= x < l.ObjX(i))
    ensures !Shows(l, i, x)
  {
  }

  lemma ObjectDrawn(l: Line, i: OamIndex, was: seq<uint8>, fb: seq<uint8>, below: seq<OamIndex>)
    requires 0 <= l.y < 144 && |was| == |fb| == 160 * 144 && DrawnUpTo(l, i, was, fb, l.ObjX(i))
    requires forall x :: 0 <= x < 160 ==> was[l.y * 160 + x] == Painted(l, below, x, l.ScanBgColour(x))
    ensures forall x :: 0 <= x < 160 ==> fb[l.y * 160 + x] == Painted(l, [i] + below, x, l.ScanBgColour(x))
  {
    forall x | 0 <= x < 160 ensures fb[l.y * 160 + x] == Painted(l, [i] + below, x, l.ScanBgColour(x)) {
      assert ColumnOk(l, i, was, fb, l.ObjX(i), x);
      PaintOver(l, i, below, x);
      if x >= l.ObjX(i) {
        BesideObject(l, i, x);
      }
    }
  }

  /** One pixel of an object, `lo` and `hi` being the bit planes of its row. */
  method DrawPixel(l: Line, e: Sprite, lo: uint8, hi: uint8, px: nat, fb: array<uint8>, colnum: array<uint8>)
    requires 0 <= l.y < 144 && fb.Length == 160 * 144 && colnum.Length == 160 && fb != colnum
    requires e == Entry(l, e.oam) && px < 8 && 0 <= e.x - 8 + px < 160
    requires lo == l.vram[l.ObjRowOffset(e.oam)] && hi == l.vram[l.ObjRowOffset(e.oam) + 1]
    requires forall x :: 0 <= x < 160 ==> colnum[x] == l.ScanBgColour(x)
    modifies fb
    ensures fb[..] == Pixel(l, e.oam, old(fb[..]), e.x - 8 + px)
  {
    var palette := if e.attr / 0x10 % 2 == 1 then l.obp1 else l.obp0;
    var behind := e.attr / 0x80 % 2 == 1;
    var sx := e.x - 8 + px;
    var bit := if e.attr / 0x20 % 2 == 1 then px else 7 - px;
    var c := ColourNumber(lo, hi, bit);
    assert c == l.ObjColour(e.oam, sx);
    if c != 0 && !(behind && colnum[sx] != 0) {
      fb[l.y * 160 + sx] := Shade(palette, c);
    }
  }

  /** Draws one object over the row; `below` are the objects drawn before it. */
  method DrawObject(l: Line, e: Sprite, fb: array<uint8>, colnum: array<uint8>, ghost below: seq<OamIndex>)
    requires 0 <= l.y < 144 && fb.Length == 160 * 144 && colnum.Length == 160 && fb != colnum
    requires e == Entry(l, e.oam) && l.OnLine(e.oam)
    requires forall x :: 0 <= x < 160 ==>
               colnum[x] == l.ScanBgColour(x) && fb[l.y * 160 + x] == Painted(l, below, x, l.ScanBgColour(x))
    modifies fb
    ensures forall x :: 0 <= x < 160 ==> fb[l.y * 160 + x] == Painted(l, [e.oam] + below, x, l.ScanBgColour(x))
    ensures OtherRowsKept(old(fb[..]), fb[..], l.y)
  {
    ghost var was := fb[..];
    NothingDrawn(l, e.oam, was);
    var lo, hi := RowBytes(l, e);
    var px := 0;
    while px < 8
      invariant 0 <= px <= 8 && DrawnUpTo(l, e.oam, was, fb[..], e.x - 8 + px)
    {
      DrawnToNext(l, e.oam, was, fb[..], e.x - 8 + px);
      if 0 <= e.x - 8 + px < 160 {
        DrawPixel(l, e, lo, hi, px, fb, colnum);
      }
      px := px + 1;
    }
    ObjectDrawn(l, e.oam, was, fb[..], below);
  }

  /** Objects are drawn from the last to the first, so the first visible one stays. */
  method DrawObjects(l: Line, sel: array<Sprite>, n: nat, fb: array<uint8>, colnum: array<uint8>,
                     ghost order: seq<OamIndex>)
    requires 0 <= l.y < 144 && fb.Length == 160 * 144 && colnum.Length == 160 && fb != colnum
    requires n == |order| <= sel.Length && sel[..n] == Entries(l, order)
    requires forall k :: 0 <= k < n ==> l.OnLine(order[k])
    requires forall x :: 0 <= x < 160 ==>
               colnum[x] == l.ScanBgColour(x) && fb[l.y * 160 + x] == Shade(l.bgp, l.ScanBgColour(x))
    modifies fb
    ensures forall x :: 0 <= x < 160 ==> fb[l.y * 160 + x] == Painted(l, order, x, l.ScanBgColour(x))
    ensures OtherRowsKept(old(fb[..]), fb[..], l.y)
  {
    assert order[n..] == [];
    var s: int := n - 1;
    while s >= 0
      invariant -1 <= s < n && sel[..n] == Entries(l, order)
      invariant forall x :: 0 <= x < 160 ==>
                  fb[l.y * 160 + x] == Painted(l, order[s + 1..], x, l.ScanBgColour(x))
      invariant OtherRowsKept(old(fb[..]), fb[..], l.y)
    {
      EntryAt(l, order, s);
      assert sel[s] == sel[..n][s];
      DrawObject(l, sel[s], fb, colnum, order[s + 1..]);
      assert order[s..] == [order[s]] + order[s + 1..];
      s := s - 1;
    }
    assert order[0..] == order;
  }

  method RenderSprites(l: Line, fb: array<uint8>, colnum: array<uint8>)
    requires 0 <= l.y < 144 && fb.Length == 160 * 144 && colnum.Length == 160 && fb != colnum
    requires forall x :: 0 <= x < 160 ==>
               colnum[x] == l.ScanBgColour(x) && fb[l.y * 160 + x] == Shade(l.bgp, l.ScanBgColour(x))
    modifies fb
    ensures forall x :: 0 <= x < 160 ==> fb[l.y * 160 + x] == l.ScanShade(x)
    ensures OtherRowsKept(old(fb[..]), fb[..], l.y)
  {
    var sel, n := SortedObjects(l);
    assert |sel[..n]| == n == |l.PriorityOrder()|;
    forall k | 0 <= k < n ensures l.OnLine(l.PriorityOrder()[k]) {
      OrderIsOnLine(l, k);
    }
    DrawObjects(l, sel, n, fb, colnum, l.PriorityOrder());
  }

  /** Draws line l.y; `windowUsed` tells whether the window's own line counter moves on. */
  method RenderLine(l: Line, fb: array<uint8>) returns (windowUsed: bool)
    requires 0 <= l.y < 144 && fb.Length == 160 * 144
    modifies fb
    ensures forall x :: 0 <= x < 160 ==> fb[l.y * 160 + x] == l.ScanShade(x)
    ensures OtherRowsKept(old(fb[..]), fb[..], l.y)
    ensures windowUsed == (l.WindowOn() && l.wx <= 166)
  {
    var colnum := new uint8[160];
    windowUsed := RenderBgWindow(l, fb, colnum);
    RenderSprites(l, fb, colnum);
  }

  /** The calibrated penalty: what the objects cost, less three dots if that is anything. */
  method ObjMode3Penalty(l: Line) returns (penalty: nat)
    ensures penalty == l.ObjPenalty()
  {
    var sp, n := SortedObjects(l);
    assert |sp[..n]| == n == |l.PriorityOrder()|;
    penalty := AddPenalties(l, sp, n, l.PriorityOrder());
    if penalty > 0 {
      penalty := penalty - 3;
    }
  }

  /** What object `e`, the next of `order`, costs: alignment when it is the first in its tile. */
  method PayFor(l: Line, e: Sprite, seen: array<int>, ns: nat, ghost order: seq<OamIndex>, ghost i: nat)
      returns (cost: nat, ns': nat)
    requires i < |order| <= 10 == seen.Length && ns <= i && e == Entry(l, order[i]) && e.x < 168
    requires SeenFor(l, order, seen[..ns], i)
    modifies seen
    ensures ns' <= i + 1 && SeenFor(l, order, seen[..ns'], i + 1)
    ensures cost == l.ObjCost(order, i)
  {
    cost, ns' := 0, ns;
    var bgPos := e.x - 8 + l.scx;
    var considered := FindTile(seen, ns, bgPos / 8);
    TileSeenExtend(l, order, i);
    if !considered {
      seen[ns] := bgPos / 8;
      ns' := ns + 1;
      assert seen[..ns'] == old(seen[..ns]) + [bgPos / 8];
      var off := if e.x == 0 then 0 else bgPos % 8;
      var pen := 7 - off - 2;
      if pen > 0 {
        cost := cost + pen;
      }
    }
    cost := cost + 6;
  }

  lemma OffScreenIsFree(l: Line, order: seq<OamIndex>, tiles: seq<int>, i: nat)
    requires i < |order| && l.OffRight(order[i]) && SeenFor(l, order, tiles, i)
    ensures SeenFor(l, order, tiles, i + 1)
  {
    TileSeenExtend(l, order, i);
  }

  /** Six dots an object, and an alignment cost for the first in each background tile. */
  method AddPenalties(l: Line, sp: array<Sprite>, n: nat, ghost order: seq<OamIndex>) returns (penalty: nat)
    requires n == |order| <= 10 == sp.Length && sp[..n] == Entries(l, order)
    ensures penalty == l.ObjectStall(order, n)
  {
    var seen, ns := new int[10], 0;
    penalty := 0;
    assert seen[..0] == [];
    var i := 0;
    while i < n
      invariant 0 <= i <= n && 0 <= ns <= i && sp[..n] == Entries(l, order)
      invariant SeenFor(l, order, seen[..ns], i)
      invariant penalty == l.ObjectStall(order, i)
    {
      EntryAt(l, order, i);
      assert sp[i] == sp[..n][i];
      if sp[i].x < 168 {
        var cost;
        cost, ns := PayFor(l, sp[i], seen, ns, order, i);
        penalty := penalty + cost;
      } else {
        OffScreenIsFree(l, order, seen[..ns], i);
      }
      i := i + 1;
    }
  }

  method FindTile(seen: array<int>, ns: nat, tile: int) returns (considered: bool)
    requires ns <= seen.Length
    ensures considered == (tile in seen[..ns])
  {
    var k := 0;
    considered := false;
    while k < ns && !considered
      invariant 0 <= k <= ns
      invariant considered ==> tile in seen[..ns]
      invariant !considered ==> tile !in seen[..k]
    {
      considered := seen[k] == tile;
      k := k + 1;
    }
  }
}
