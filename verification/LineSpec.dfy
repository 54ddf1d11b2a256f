/** What one DMG scanline should look like, stated per pixel and without any
    pipeline, loop or drawing order.  Both renderers are proved against this. */
module LineSpec {
  import opened Bytes

  type Vram = v: seq<uint8> | |v| == 0x4000 witness seq(0x4000, _ => 0)
  type Oam = o: seq<uint8> | |o| == 0xA0 witness seq(0xA0, _ => 0)

  type OamIndex = i: int | 0 <= i < 40

  const SCREEN_WIDTH: int := 160
  const MAX_OBJECTS: int := 10

  /** Everything a renderer reads for one line: video memory, object memory, the
      registers, the window's own line counter and the line number. */
  datatype Line = Line(
    vram: Vram, oam: Oam, lcdc: uint8, scy: uint8, scx: uint8, wy: uint8, wx: uint8,
    bgp: uint8, obp0: uint8, obp1: uint8, winLine: uint8, y: int)
  {
    predicate BgOn() { lcdc % 2 == 1 }
    predicate ObjectsOn() { lcdc / 0x02 % 2 == 1 }
    predicate TallObjects() { lcdc / 0x04 % 2 == 1 }
    predicate UnsignedTiles() { lcdc / 0x10 % 2 == 1 }

    /** The window is enabled for this line, wherever its left edge is. */
    predicate WindowOn() { lcdc / 0x20 % 2 == 1 && BgOn() && y >= wy }

    /** First screen column of the window, when it starts on the screen. */
    function WindowStart(): (s: nat) { if wx < 7 then 0 else wx - 7 }

    function BgMap(): (m: int)
      ensures 0x1800 <= m <= 0x1C00
    { if lcdc / 0x08 % 2 == 1 then 0x1C00 else 0x1800 }

    function WindowMap(): (m: int)
      ensures 0x1800 <= m <= 0x1C00
    { if lcdc / 0x40 % 2 == 1 then 0x1C00 else 0x1800 }

    function BgRow(): (r: uint8) { (scy + y) % 256 }

    function ObjectHeight(): (h: int)
      ensures h == 8 || h == 16
    { if TallObjects() then 16 else 8 }

    // ---- background and window ----

    /** Offset in video memory of a background tile's sixteen bytes. */
    function TileOffset(id: uint8): (a: int)
      ensures 0 <= a <= 0x17F0
    {
      if UnsignedTiles() then id * 16
      else if id < 128 then 0x1000 + id * 16 else 0x1000 + (id - 256) * 16
    }

    /** Colour number at column px, row py of the 256 by 256 picture the tile map at `base` describes. */
    function MapColour(base: int, py: uint8, px: uint8): Colour
      requires 0x1800 <= base <= 0x1C00
    {
      var row := TileOffset(vram[base + py / 8 * 32 + px / 8]) + py % 8 * 2;
      ColourNumber(vram[row], vram[row + 1], 7 - px % 8)
    }

    predicate InWindow(x: int) { WindowOn() && x + 7 >= wx }

    /** Background or window colour number at screen column x. */
    function BgColour(x: int): Colour
      requires 0 <= x < SCREEN_WIDTH
    {
      if InWindow(x) then MapColour(WindowMap(), winLine, x + 7 - wx)
      else MapColour(BgMap(), BgRow(), (x + scx) % 256)
    }

    // ---- objects ----

    function ObjTop(i: OamIndex): (t: int)
    { var top: int := oam[4 * i]; top - 16 }

    function ObjX(i: OamIndex): (x: uint8)
    { oam[4 * i + 1] }

    function ObjAttr(i: OamIndex): (a: uint8)
    { oam[4 * i + 3] }

    predicate OnLine(i: OamIndex)
    { ObjTop(i) <= y < ObjTop(i) + ObjectHeight() }

    predicate BehindBg(i: OamIndex)
    { ObjAttr(i) / 0x80 % 2 == 1 }

    function ObjPalette(i: OamIndex): (p: uint8)
    { if ObjAttr(i) / 0x10 % 2 == 1 then obp1 else obp0 }

    /** Row of the object's picture that crosses this line, after the vertical flip. */
    function ObjRow(i: OamIndex): (r: int)
      ensures 0 <= r < ObjectHeight()
    {
      if !OnLine(i) then 0
      else if ObjAttr(i) / 0x40 % 2 == 1 then ObjectHeight() - 1 - (y - ObjTop(i)) else y - ObjTop(i)
    }

    /** Offset of the two bytes of that row.  A tall object's tile number has its low
        bit replaced by which half of the picture the row is in. */
    function ObjRowOffset(i: OamIndex): (a: int)
      ensures 0 <= a < 0x1000
    {
      var tile := oam[4 * i + 2];
      if ObjectHeight() == 16 then (tile - tile % 2) * 16 + ObjRow(i) * 2
      else tile * 16 + ObjRow(i) * 2
    }

    /** Colour number object i puts at screen column x; 0 where it is transparent or absent. */
    function ObjColour(i: OamIndex, x: int): Colour
    {
      var p := x - (ObjX(i) - 8);
      if 0 <= p < 8 then
        var a := ObjRowOffset(i);
        ColourNumber(vram[a], vram[a + 1], if ObjAttr(i) / 0x20 % 2 == 1 then p else 7 - p)
      else 0
    }

    /** Smaller X wins, and the smaller OAM index wins a tie. */
    predicate Beats(i: OamIndex, j: OamIndex)
    { ObjX(i) < ObjX(j) || (ObjX(i) == ObjX(j) && i < j) }

    /** The first ten objects of OAM entries 0..n-1 that cross this line. */
    function Selected(n: nat): (s: seq<OamIndex>)
      requires 4 * n <= |oam|
      ensures |s| <= MAX_OBJECTS && |s| <= n
    {
      if n == 0 then []
      else
        var s := Selected(n - 1);
        if |s| < MAX_OBJECTS && OnLine(n - 1) then s + [n - 1] else s
    }

    /** `i` put in front of the first object it beats. */
    function Insert(i: OamIndex, s: seq<OamIndex>): (r: seq<OamIndex>)
      ensures |r| == |s| + 1
    {
      if s == [] then [i]
      else if Beats(i, s[0]) then [i] + s
      else [s[0]] + Insert(i, s[1..])
    }

    function Arranged(s: seq<OamIndex>): (r: seq<OamIndex>)
      ensures |r| == |s|
    {
      if s == [] then []
      else Insert(s[|s| - 1], Arranged(s[..|s| - 1]))
    }

    /** The line's objects, the one with the highest priority first. */
    function PriorityOrder(): (r: seq<OamIndex>)
      ensures |r| <= MAX_OBJECTS
    {
      if ObjectsOn() then Arranged(Selected(|oam| / 4)) else []
    }

    // ---- which object is seen ----

    /** First object of `objs` that is not transparent at column x. */
    function FirstOpaque(objs: seq<OamIndex>, x: int): (w: Option<OamIndex>)
      ensures w.Some? ==> w.value in objs && ObjColour(w.value, x) != 0
    {
      if objs == [] then None
      else if ObjColour(objs[0], x) != 0 then Some(objs[0])
      else FirstOpaque(objs[1..], x)
    }

    /** An object that gives way to a non-zero background at a column of colour `bg`. */
    predicate Hidden(i: OamIndex, bg: Colour)
    { BehindBg(i) && bg != 0 }

    /** First object of `objs` that is neither transparent nor hidden at column x. */
    function FirstVisible(objs: seq<OamIndex>, x: int, bg: Colour): (w: Option<OamIndex>)
      ensures w.Some? ==> w.value in objs && ObjColour(w.value, x) != 0 && !Hidden(w.value, bg)
    {
      if objs == [] then None
      else if ObjColour(objs[0], x) != 0 && !Hidden(objs[0], bg) then Some(objs[0])
      else FirstVisible(objs[1..], x, bg)
    }

    function ObjShade(i: OamIndex, x: int): Colour
    { Shade(ObjPalette(i), ObjColour(i, x)) }

    /** Pixel pipeline: the highest-priority opaque object takes the column, and only
        then may the background win it back. */
    function FifoShade(x: int): Colour
      requires 0 <= x < SCREEN_WIDTH
    { PipelineShade(PriorityOrder(), x) }

    function PipelineShade(order: seq<OamIndex>, x: int): Colour
      requires 0 <= x < SCREEN_WIDTH
    {
      var bg := BgColour(x);
      match FirstOpaque(order, x)
      case Some(i) => if Hidden(i, bg) then Shade(bgp, bg) else ObjShade(i, x)
      case None => Shade(bgp, bg)
    }

    /** Scanline renderer's background: colour 0 everywhere when it is switched off. */
    function ScanBgColour(x: int): Colour
      requires 0 <= x < SCREEN_WIDTH
    { if BgOn() then BgColour(x) else 0 }

    /** Scanline renderer: hidden objects are skipped, so one below may show. */
    function ScanShade(x: int): Colour
      requires 0 <= x < SCREEN_WIDTH
    {
      var bg := ScanBgColour(x);
      match FirstVisible(PriorityOrder(), x, bg)
      case Some(i) => ObjShade(i, x)
      case None => Shade(bgp, bg)
    }

    // ---- what objects cost ----

    /** An object at X >= 168 starts right of the screen and is never fetched. */
    predicate OffRight(i: OamIndex)
    { ObjX(i) >= 168 }

    /** Background tile column the object's left edge falls in (possibly negative). */
    function ObjTile(i: OamIndex): int
    { (ObjX(i) - 8 + scx) / 8 }

    function TileOffsetOf(i: OamIndex): (o: int)
      ensures 0 <= o < 8
    { if ObjX(i) == 0 then 0 else (ObjX(i) - 8 + scx) % 8 }

    /** Has one of the first k objects already paid for this tile? */
    predicate TileSeen(objs: seq<OamIndex>, k: nat, tile: int)
      requires k <= |objs|
    {
      exists j :: 0 <= j < k && !OffRight(objs[j]) && ObjTile(objs[j]) == tile
    }

    /** Dots the k-th object costs: six, and an alignment cost if it is first in its tile. */
    function ObjCost(objs: seq<OamIndex>, k: nat): (c: nat)
      requires k < |objs|
      ensures c == 0 || 6 <= c <= 11
    {
      if OffRight(objs[k]) then 0
      else if TileSeen(objs, k, ObjTile(objs[k])) || TileOffsetOf(objs[k]) >= 5 then 6
      else 6 + 5 - TileOffsetOf(objs[k])
    }

    function ObjectStall(objs: seq<OamIndex>, k: nat): (c: nat)
      requires k <= |objs|
      ensures (c == 0 || c >= 6) && c <= 11 * k
    {
      if k == 0 then 0 else ObjectStall(objs, k - 1) + ObjCost(objs, k - 1)
    }

    /** All the stalls of the line. */
    function LineStall(): (c: nat)
      ensures (c == 0 || c >= 6) && c <= 110
    { ObjectStall(PriorityOrder(), |PriorityOrder()|) }

    // ---- how long the pipeline takes ----

    /** Pixels thrown away before the first one is shown. */
    function Lead(): (d: nat)
      ensures d <= 7
    { if WindowOn() && wx <= 7 then 7 - wx else scx % 8 }

    /** The window takes over in the middle of the line. */
    predicate RestartsMidLine() { WindowOn() && 8 <= wx <= 166 }

    function FifoDots(): (d: nat)
      ensures 171 <= d <= 299
    { 171 + Lead() + (if RestartsMidLine() then 11 else 0) + LineStall() }

    /** The penalty the scanline timing uses: three dots less than the stalls. */
    function ObjPenalty(): (p: nat)
      ensures p <= 107
    { if LineStall() > 0 then LineStall() - 3 else 0 }
  }
}
