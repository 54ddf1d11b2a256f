/** Video memory read back from the picture: the colours the renderers are proved against
    determine the bytes they come from. */
module PixelBytes {
  import opened Bytes
  import opened LineSpec
  import opened ObjectOrder
  import opened FifoSpec
  import opened Renderers

  // ---- bit planes ----

  /** Eight colour numbers, the leftmost first, and the two bytes that hold them: the first
      byte has the low bits, the second the high bits, the leftmost pixel in bit 7. */
  ghost predicate Planes(c: seq<int>, lo: uint8, hi: uint8)
    requires |c| == 8
  {
    && lo == 128 * (c[0] % 2) + 64 * (c[1] % 2) + 32 * (c[2] % 2) + 16 * (c[3] % 2)
             + 8 * (c[4] % 2) + 4 * (c[5] % 2) + 2 * (c[6] % 2) + c[7] % 2
    && hi == 128 * (c[0] / 2) + 64 * (c[1] / 2) + 32 * (c[2] / 2) + 16 * (c[3] / 2)
             + 8 * (c[4] / 2) + 4 * (c[5] / 2) + 2 * (c[6] / 2) + c[7] / 2
  }

  lemma Weights()
    ensures Pow2(0) == 1 && Pow2(1) == 2 && Pow2(2) == 4 && Pow2(3) == 8
    ensures Pow2(4) == 16 && Pow2(5) == 32 && Pow2(6) == 64 && Pow2(7) == 128
  {
  }

  lemma Halved(v: uint8)
    ensures v / 4 == v / 2 / 2 && v / 8 == v / 4 / 2 && v / 16 == v / 8 / 2
  {
  }

  lemma HalvedOn(v: uint8)
    ensures v / 32 == v / 16 / 2 && v / 64 == v / 32 / 2 && v / 128 == v / 64 / 2
  {
  }

  lemma Parity(v: nat)
    ensures v == 2 * (v / 2) + v % 2
  {
  }

  lemma BitsOf(v: uint8)
    ensures BitOf(v, 0) == v % 2 && BitOf(v, 1) == v / 2 % 2 && BitOf(v, 2) == v / 4 % 2 && BitOf(v, 3) == v / 8 % 2
    ensures BitOf(v, 4) == v / 16 % 2 && BitOf(v, 5) == v / 32 % 2 && BitOf(v, 6) == v / 64 % 2
    ensures BitOf(v, 7) == v / 128
  {
    Weights();
  }

  lemma ByteOfBits(v: uint8)
    ensures v == 128 * BitOf(v, 7) + 64 * BitOf(v, 6) + 32 * BitOf(v, 5) + 16 * BitOf(v, 4)
                 + 8 * BitOf(v, 3) + 4 * BitOf(v, 2) + 2 * BitOf(v, 1) + BitOf(v, 0)
  {
    BitsOf(v);
    Halved(v);
    HalvedOn(v);
    Parity(v);
    Parity(v / 2);
    Parity(v / 4);
    Parity(v / 8);
    Parity(v / 16);
    Parity(v / 32);
    Parity(v / 64);
  }

  lemma BitPlanes(lo: uint8, hi: uint8, k: nat)
    ensures ColourNumber(lo, hi, k) % 2 == BitOf(lo, k) && ColourNumber(lo, hi, k) / 2 == BitOf(hi, k)
  {
  }

  /** Colours taken from one pair of bytes, bit 7 first, determine the bytes. */
  lemma PlanesOf(c: seq<int>, lo: uint8, hi: uint8)
    requires |c| == 8 && forall p :: 0 <= p < 8 ==> c[p] == ColourNumber(lo, hi, 7 - p)
    ensures Planes(c, lo, hi)
  {
    ByteOfBits(lo);
    ByteOfBits(hi);
    forall p | 0 <= p < 8 ensures c[p] % 2 == BitOf(lo, 7 - p) && c[p] / 2 == BitOf(hi, 7 - p) {
      BitPlanes(lo, hi, 7 - p);
    }
  }

  /** The eight colours of a tile row, in the order the fetcher pushes them, determine its two bytes. */
  lemma TileRowBytes(lo: uint8, hi: uint8)
    ensures Planes(TilePixels(lo, hi), lo, hi)
  {
    PlanesOf(TilePixels(lo, hi), lo, hi);
  }

  lemma ShadeBits(palette: uint8)
    ensures Shade(palette, 0) == palette % 4 && Shade(palette, 1) == palette / 4 % 4
    ensures Shade(palette, 2) == palette / 16 % 4 && Shade(palette, 3) == palette / 64
  {
    Weights();
  }

  lemma Quartered(v: nat)
    ensures v == 4 * (v / 4) + v % 4 && v / 4 == 4 * (v / 16) + v / 4 % 4 && v / 16 == 4 * (v / 64) + v / 16 % 4
  {
  }

  /** The shades of the four colour numbers determine the palette register. */
  lemma PaletteByte(palette: uint8)
    ensures palette == Shade(palette, 0) + 4 * Shade(palette, 1) + 16 * Shade(palette, 2) + 64 * Shade(palette, 3)
  {
    ShadeBits(palette);
    Quartered(palette);
  }

  // ---- background and window ----

  /** The eight pixels of tile `col` in row `py` of the map at `base`. */
  function MapColumns(l: Line, base: nat, py: uint8, col: nat): (c: seq<int>)
    requires 0x1800 <= base <= 0x1C00 && col < 32
    ensures |c| == 8
  {
    seq(8, p requires 0 <= p < 8 => l.MapColour(base, py, 8 * col + p))
  }

  /** They determine the two bytes that row of the tile occupies, for either way of numbering tiles. */
  lemma MapTileBytes(l: Line, base: nat, py: uint8, col: nat) returns (id: uint8, a: nat)
    requires 0x1800 <= base <= 0x1C00 && col < 32
    ensures id == l.vram[base + 32 * (py / 8) + col]
    ensures a == (if l.lcdc / 0x10 % 2 == 1 || id >= 128 then 16 * id else 0x1000 + 16 * id) + 2 * (py % 8)
    ensures a + 1 < 0x4000 && Planes(MapColumns(l, base, py, col), l.vram[a], l.vram[a + 1])
  {
    id := l.vram[base + 32 * (py / 8) + col];
    a := TileAt(l, id);
    a := a + 2 * (py % 8);
    var c := MapColumns(l, base, py, col);
    forall p | 0 <= p < 8 ensures c[p] == ColourNumber(l.vram[a], l.vram[a + 1], 7 - p) {
      MapPixel(l, base, py, col, p);
    }
    PlanesOf(c, l.vram[a], l.vram[a + 1]);
  }

  lemma TileAt(l: Line, id: uint8) returns (a: nat)
    ensures a == l.TileOffset(id) == if l.lcdc / 0x10 % 2 == 1 || id >= 128 then 16 * id else 0x1000 + 16 * id
  {
    a := l.TileOffset(id);
  }

  lemma MapPixel(l: Line, base: nat, py: uint8, col: nat, p: nat)
    requires 0x1800 <= base <= 0x1C00 && col < 32 && p < 8
    ensures var a := l.TileOffset(l.vram[base + 32 * (py / 8) + col]) + 2 * (py % 8);
      l.MapColour(base, py, 8 * col + p) == ColourNumber(l.vram[a], l.vram[a + 1], 7 - p)
  {
    TileAndPixel(col, p);
  }

  /** Where a screen column looks: in the window's map at the window's own line from the column the window
      starts at, else in the background's map, scrolled and wrapped. */
  lemma ScreenColumn(l: Line, x: nat)
    requires x < 160
    ensures l.BgColour(x) ==
      if l.lcdc % 2 == 1 && l.lcdc / 0x20 % 2 == 1 && l.y >= l.wy && x + 7 >= l.wx then
        l.MapColour(if l.lcdc / 0x40 % 2 == 1 then 0x1C00 else 0x1800, l.winLine, x + 7 - l.wx)
      else
        l.MapColour(if l.lcdc / 0x08 % 2 == 1 then 0x1C00 else 0x1800, (l.scy + l.y) % 256, (l.scx + x) % 256)
  {
  }

  /** The byte address and bit of a map's pixel. */
  lemma MapBit(l: Line, base: nat, py: uint8, px: uint8) returns (id: uint8, a: nat)
    requires 0x1800 <= base <= 0x1C00
    ensures id == l.vram[base + 32 * (py / 8) + px / 8]
    ensures a == (if l.lcdc / 0x10 % 2 == 1 || id >= 128 then 16 * id else 0x1000 + 16 * id) + 2 * (py % 8)
    ensures a + 1 < 0x4000
    ensures l.MapColour(base, py, px) == 2 * BitOf(l.vram[a + 1], 7 - px % 8) + BitOf(l.vram[a], 7 - px % 8)
  {
    id := l.vram[base + 32 * (py / 8) + px / 8];
    a := TileAt(l, id);
    a := a + 2 * (py % 8);
    BitPlanes(l.vram[a], l.vram[a + 1], 7 - px % 8);
  }

  /** From a screen column to two bits of video memory: the tile's number in the map the column looks into, the
      tile's row, and in its two bytes the bit of the column, the first byte having the low one. */
  lemma ScreenPixel(l: Line, x: nat) returns (base: nat, py: uint8, px: uint8, id: uint8, a: nat)
    requires x < 160
    ensures
      if l.lcdc % 2 == 1 && l.lcdc / 0x20 % 2 == 1 && l.y >= l.wy && x + 7 >= l.wx then
        base == (if l.lcdc / 0x40 % 2 == 1 then 0x1C00 else 0x1800) && py == l.winLine && px == x + 7 - l.wx
      else
        base == (if l.lcdc / 0x08 % 2 == 1 then 0x1C00 else 0x1800)
        && py == (l.scy + l.y) % 256 && px == (l.scx + x) % 256
    ensures base <= 0x1C00 && id == l.vram[base + 32 * (py / 8) + px / 8]
    ensures a == (if l.lcdc / 0x10 % 2 == 1 || id >= 128 then 16 * id else 0x1000 + 16 * id) + 2 * (py % 8)
    ensures a + 1 < 0x4000 && l.BgColour(x) == 2 * BitOf(l.vram[a + 1], 7 - px % 8) + BitOf(l.vram[a], 7 - px % 8)
  {
    ScreenColumn(l, x);
    if l.lcdc % 2 == 1 && l.lcdc / 0x20 % 2 == 1 && l.y >= l.wy && x + 7 >= l.wx {
      base, py, px := if l.lcdc / 0x40 % 2 == 1 then 0x1C00 else 0x1800, l.winLine, x + 7 - l.wx;
    } else {
      base, py, px := if l.lcdc / 0x08 % 2 == 1 then 0x1C00 else 0x1800, (l.scy + l.y) % 256, (l.scx + x) % 256;
    }
    id, a := MapBit(l, base, py, px);
  }

  /** The scanline renderer shows that, or colour 0 everywhere when the background is off. */
  lemma ScanlineColumn(l: Line, x: nat)
    requires x < 160
    ensures l.ScanBgColour(x) == if l.lcdc % 2 == 1 then l.BgColour(x) else 0
    ensures l.PriorityOrder() == [] ==> l.ScanShade(x) == Shade(l.bgp, l.ScanBgColour(x))
    ensures l.PriorityOrder() == [] ==> l.FifoShade(x) == Shade(l.bgp, l.BgColour(x))
  {
  }

  /** The eight pixels of the col-th tile fetched. */
  function StreamColumns(l: Line, inWin: bool, col: nat): (c: seq<int>)
    ensures |c| == 8
  {
    seq(8, p requires 0 <= p < 8 => StreamColour(l, inWin, 8 * col + p))
  }

  lemma StreamColumn(l: Line, inWin: bool, col: nat, p: nat, lo: uint8, hi: uint8)
    requires p < 8 && lo == l.vram[StreamRow(l, inWin, col)] && hi == l.vram[StreamRow(l, inWin, col) + 1]
    ensures StreamColumns(l, inWin, col)[p] == ColourNumber(lo, hi, 7 - p)
  {
    TileAndPixel(col, p);
  }

  /** The fetcher's pixels determine the bytes it read. */
  lemma StreamTileBytes(l: Line, inWin: bool, col: nat)
    ensures Planes(StreamColumns(l, inWin, col), l.vram[StreamRow(l, inWin, col)], l.vram[StreamRow(l, inWin, col) + 1])
  {
    var lo, hi := l.vram[StreamRow(l, inWin, col)], l.vram[StreamRow(l, inWin, col) + 1];
    var c := StreamColumns(l, inWin, col);
    forall p | 0 <= p < 8 ensures c[p] == ColourNumber(lo, hi, 7 - p) {
      StreamColumn(l, inWin, col, p, lo, hi);
    }
    PlanesOf(c, lo, hi);
  }

  // ---- objects ----

  /** The eight columns of object i, the leftmost first. */
  function ObjectColumns(l: Line, i: OamIndex): (c: seq<int>)
    ensures |c| == 8
  {
    seq(8, p requires 0 <= p < 8 => l.ObjColour(i, l.oam[4 * i + 1] - 8 + p))
  }

  function Backwards(c: seq<int>): (r: seq<int>)
    ensures |r| == |c|
  {
    seq(|c|, k requires 0 <= k < |c| => c[|c| - 1 - k])
  }

  /** An object on the line, eight or sixteen rows tall, flipped or not: its eight columns determine
      the two bytes of the row that crosses the line. */
  lemma ObjectBytes(l: Line, i: OamIndex)
    requires
      var top: int := l.oam[4 * i];
      top - 16 <= l.y < top - 16 + if l.lcdc / 0x04 % 2 == 1 then 16 else 8
    ensures
      var top: int, tile: int, attr := l.oam[4 * i], l.oam[4 * i + 2], l.oam[4 * i + 3];
      var h := if l.lcdc / 0x04 % 2 == 1 then 16 else 8;
      var row := if attr / 0x40 % 2 == 1 then h - 1 - (l.y - (top - 16)) else l.y - (top - 16);
      var a := 16 * (if h == 16 then 2 * (tile / 2) else tile) + 2 * row;
      0 <= a && a + 1 < 0x4000
      && Planes(if attr / 0x20 % 2 == 1 then Backwards(ObjectColumns(l, i)) else ObjectColumns(l, i),
                l.vram[a], l.vram[a + 1])
  {
    var a := ObjectRow(l, i);
    if l.oam[4 * i + 3] / 0x20 % 2 == 1 {
      FlippedColumns(l, i, a);
    } else {
      PlainColumns(l, i, a);
    }
  }

  lemma ObjectRow(l: Line, i: OamIndex) returns (a: nat)
    requires l.OnLine(i)
    ensures a == l.ObjRowOffset(i) < 0x1000
    ensures
      var top: int, tile: int := l.oam[4 * i], l.oam[4 * i + 2];
      var h := if l.lcdc / 0x04 % 2 == 1 then 16 else 8;
      var row := if l.oam[4 * i + 3] / 0x40 % 2 == 1 then h - 1 - (l.y - (top - 16)) else l.y - (top - 16);
      a == 16 * (if h == 16 then 2 * (tile / 2) else tile) + 2 * row
  {
    a := l.ObjRowOffset(i);
  }

  lemma PlainColumns(l: Line, i: OamIndex, a: nat)
    requires a == l.ObjRowOffset(i) && l.oam[4 * i + 3] / 0x20 % 2 != 1
    ensures a < 0x1000 && Planes(ObjectColumns(l, i), l.vram[a], l.vram[a + 1])
  {
    var c := ObjectColumns(l, i);
    forall p | 0 <= p < 8 ensures c[p] == ColourNumber(l.vram[a], l.vram[a + 1], 7 - p) {
      ObjectColumn(l, i, p);
    }
    PlanesOf(c, l.vram[a], l.vram[a + 1]);
  }

  lemma FlippedColumns(l: Line, i: OamIndex, a: nat)
    requires a == l.ObjRowOffset(i) && l.oam[4 * i + 3] / 0x20 % 2 == 1
    ensures a < 0x1000 && Planes(Backwards(ObjectColumns(l, i)), l.vram[a], l.vram[a + 1])
  {
    var c := Backwards(ObjectColumns(l, i));
    forall p | 0 <= p < 8 ensures c[p] == ColourNumber(l.vram[a], l.vram[a + 1], 7 - p) {
      ObjectColumn(l, i, 7 - p);
    }
    PlanesOf(c, l.vram[a], l.vram[a + 1]);
  }

  lemma ObjectColumn(l: Line, i: OamIndex, p: nat)
    requires p < 8
    ensures var a := l.ObjRowOffset(i);
      ObjectColumns(l, i)[p]
      == ColourNumber(l.vram[a], l.vram[a + 1], if l.oam[4 * i + 3] / 0x20 % 2 == 1 then p else 7 - p)
  {
    var x := l.ObjX(i) - 8 + p;
    assert ObjectColumns(l, i)[p] == l.ObjColour(i, x);
  }

  /** Objects take part in the line they cross, at most ten, and only with their enable bit. */
  lemma ObjectTakesPart(l: Line, i: OamIndex)
    ensures
      var top: int := l.oam[4 * i];
      i in l.PriorityOrder() <==>
        && l.lcdc / 0x02 % 2 == 1 && OnLineBefore(l, i) < 10
        && top - 16 <= l.y < top - 16 + (if l.lcdc / 0x04 % 2 == 1 then 16 else 8)
  {
    TakesPart(l, i);
  }

  /** The attribute byte chooses the palette and whether the background may cover the object. */
  lemma ObjectAttributes(l: Line, i: OamIndex, x: int, bg: Colour)
    ensures l.ObjShade(i, x) == Shade(if l.oam[4 * i + 3] / 0x10 % 2 == 1 then l.obp1 else l.obp0, l.ObjColour(i, x))
    ensures l.Hidden(i, bg) <==> l.oam[4 * i + 3] >= 0x80 && bg > 0
  {
  }
}
