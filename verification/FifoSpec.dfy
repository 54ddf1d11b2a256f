/** The pixel stream the fetcher produces, and how it lines up with the screen. */
module FifoSpec {
  import opened Bytes
  import opened LineSpec
  import opened ObjectOrder

  /** An object waiting to be fetched. */
  datatype ObjSel = ObjSel(x: uint8, fetched: bool, lo: uint8, hi: uint8, attr: uint8)

  /** Colour number of the object's pixel p, counted from its left edge. */
  function SelPixel(o: ObjSel, p: nat): Colour
    requires p < 8
  {
    ColourNumber(o.lo, o.hi, if o.attr / 0x20 % 2 == 1 then p else 7 - p)
  }

  function Selection(l: Line, i: OamIndex, fetched: bool): (o: ObjSel)
  {
    var a := l.ObjRowOffset(i);
    ObjSel(l.ObjX(i), fetched, l.vram[a], l.vram[a + 1], l.ObjAttr(i))
  }

  function StreamMap(l: Line, inWin: bool): (m: int)
    ensures 0x1800 <= m <= 0x1C00
  { if inWin then l.WindowMap() else l.BgMap() }

  function StreamY(l: Line, inWin: bool): (r: uint8) {
    if inWin then l.winLine else l.BgRow()
  }

  /** Offset of the col-th tile fetched since the fetcher (re)started. */
  function StreamTile(l: Line, inWin: bool, col: nat): (a: int)
    ensures 0 <= a <= 0x17F0
  {
    var mapx := if inWin then col % 32 else (l.scx / 8 + col) % 32;
    l.TileOffset(l.vram[StreamMap(l, inWin) + StreamY(l, inWin) / 8 * 32 + mapx])
  }

  lemma MapRow(y: uint8)
    ensures y / 8 % 32 == y / 8
  {
  }

  function StreamRow(l: Line, inWin: bool, col: nat): (a: int)
    ensures 0 <= a < 0x17FF
  {
    StreamTile(l, inWin, col) + StreamY(l, inWin) % 8 * 2
  }

  function TilePixels(lo: uint8, hi: uint8): (s: seq<uint8>)
    ensures |s| == 8
  {
    seq(8, p requires 0 <= p < 8 => ColourNumber(lo, hi, 7 - p))
  }

  /** The n-th pixel produced since the fetcher (re)started. */
  function StreamColour(l: Line, inWin: bool, n: nat): Colour {
    var row := StreamRow(l, inWin, n / 8);
    ColourNumber(l.vram[row], l.vram[row + 1], 7 - n % 8)
  }

  lemma TileAndPixel(col: nat, p: nat)
    requires p < 8
    ensures (8 * col + p) / 8 == col && (8 * col + p) % 8 == p
  {
  }

  lemma TileIsStream(l: Line, inWin: bool, col: nat, lo: uint8, hi: uint8)
    requires lo == l.vram[StreamRow(l, inWin, col)] && hi == l.vram[StreamRow(l, inWin, col) + 1]
    ensures forall p :: 0 <= p < 8 ==> TilePixels(lo, hi)[p] == StreamColour(l, inWin, 8 * col + p)
  {
    var t := TilePixels(lo, hi);
    forall p | 0 <= p < 8 ensures t[p] == StreamColour(l, inWin, 8 * col + p) {
      TileAndPixel(col, p);
    }
  }

  /** Position in the stream of the pixel for screen column x. */
  function StreamIndex(l: Line, x: int): (n: nat)
    requires 0 <= x < SCREEN_WIDTH
  {
    if l.InWindow(x) then x + 7 - l.wx else x + l.scx % 8
  }

  /** Ring position of the i-th entry after `head`. */
  function Slot(head: nat, i: nat): (k: nat)
    requires head < 16 && i < 16
    ensures k < 16 && k == (head + i) % 16
  {
    if head + i < 16 then head + i else head + i - 16
  }

  lemma FineScroll(scx: uint8, x: nat)
    ensures (x + scx) / 8 == scx / 8 + (x + scx % 8) / 8
    ensures (x + scx) % 8 == (x + scx % 8) % 8
  {
  }

  lemma WrappedColumn(t: nat)
    ensures t % 256 / 8 == t / 8 % 32
    ensures t % 256 % 8 == t % 8
  {
  }

  /** Tile column and pixel of a scrolled position, split at the fine scroll. */
  lemma ScrolledColumn(scx: uint8, x: nat)
    ensures (scx / 8 + (x + scx % 8) / 8) % 32 == (x + scx) % 256 / 8
    ensures (x + scx % 8) % 8 == (x + scx) % 256 % 8
  {
    FineScroll(scx, x);
    WrappedColumn(x + scx);
  }

  lemma StreamPixel(l: Line, inWin: bool, n: nat, px: uint8)
    requires px / 8 == if inWin then n / 8 % 32 else (l.scx / 8 + n / 8) % 32
    requires px % 8 == n % 8
    ensures StreamColour(l, inWin, n) == l.MapColour(StreamMap(l, inWin), StreamY(l, inWin), px)
  {
  }

  lemma WindowStream(l: Line, x: int)
    requires 0 <= x < SCREEN_WIDTH && l.InWindow(x)
    ensures StreamColour(l, true, StreamIndex(l, x)) == l.BgColour(x)
  {
    var n: uint8 := x + 7 - l.wx;
    StreamPixel(l, true, n, n);
  }

  lemma BackgroundStream(l: Line, x: int)
    requires 0 <= x < SCREEN_WIDTH && !l.InWindow(x)
    ensures StreamColour(l, false, StreamIndex(l, x)) == l.BgColour(x)
  {
    ScrolledColumn(l.scx, x);
    StreamPixel(l, false, x + l.scx % 8, (x + l.scx) % 256);
  }

  /** The stream, read at a column's position, is the background or window there. */
  lemma StreamIsBackground(l: Line, x: int)
    requires 0 <= x < SCREEN_WIDTH
    ensures StreamColour(l, l.InWindow(x), StreamIndex(l, x)) == l.BgColour(x)
  {
    if l.InWindow(x) {
      WindowStream(l, x);
    } else {
      BackgroundStream(l, x);
    }
  }

  // ---- prefixes of the priority order ----

  lemma {:induction false} FirstOpaqueExtend(l: Line, objs: seq<OamIndex>, i: OamIndex, x: int)
    ensures l.FirstOpaque(objs + [i], x) ==
            if l.FirstOpaque(objs, x).Some? then l.FirstOpaque(objs, x)
            else if l.ObjColour(i, x) != 0 then Some(i) else None
  {
    if objs == [] {
      assert [i][1..] == [];
    } else {
      FirstOpaqueExtend(l, objs[1..], i, x);
      assert (objs + [i])[1..] == objs[1..] + [i];
    }
  }

  // ---- the object FIFO ----

  /** One entry: colour number (0 when empty), palette register, behind-background flag. */
  datatype ObjPixel = ObjPixel(cn: uint8, pal: uint8, bh: bool)

  const NO_PIXEL := ObjPixel(0, 0, false)

  function EmptySlots(): (s: seq<ObjPixel>)
    ensures |s| == 8 && forall p :: 0 <= p < 8 ==> s[p] == NO_PIXEL
  {
    seq(8, _ => NO_PIXEL)
  }

  function PixelOf(l: Line, o: ObjSel, p: nat): ObjPixel
    requires p < 8
  {
    ObjPixel(SelPixel(o, p), if o.attr / 0x10 % 2 == 1 then l.obp1 else l.obp0, o.attr / 0x80 % 2 == 1)
  }

  /** An object's pixels from the soff-th on go into the slots that are still empty. */
  function Merged(l: Line, slots: seq<ObjPixel>, o: ObjSel, soff: nat): (r: seq<ObjPixel>)
    requires |slots| == 8
    ensures |r| == 8
  {
    seq(8, p requires 0 <= p < 8 =>
      if p + soff < 8 && SelPixel(o, p + soff) != 0 && slots[p].cn == 0 then PixelOf(l, o, p + soff)
      else slots[p])
  }

  /** A slot shows the first opaque one of `objs` at column x. */
  ghost predicate Shows(l: Line, objs: seq<OamIndex>, x: int, e: ObjPixel) {
    match l.FirstOpaque(objs, x)
    case Some(i) => e == ObjPixel(l.ObjColour(i, x), l.ObjPalette(i), l.BehindBg(i))
    case None => e.cn == 0
  }

  /** Merging leaves an occupied slot alone and fills an empty one, so a slot keeps
      showing the first opaque object as objects arrive in priority order. */
  lemma ShowsExtend(l: Line, objs: seq<OamIndex>, i: OamIndex, x: int, e: ObjPixel, e': ObjPixel)
    requires Shows(l, objs, x, e)
    requires e' == if l.ObjColour(i, x) != 0 && e.cn == 0
                   then ObjPixel(l.ObjColour(i, x), l.ObjPalette(i), l.BehindBg(i)) else e
    ensures Shows(l, objs + [i], x, e')
  {
    FirstOpaqueExtend(l, objs, i, x);
  }

  /** Slot p is for column x + p. */
  ghost predicate SlotsShow(l: Line, objs: seq<OamIndex>, x: int, slots: seq<ObjPixel>) {
    |slots| == 8 && forall p :: 0 <= p < 8 ==> Shows(l, objs, x + p, slots[p])
  }

  /** Where a fetched object's pixel lands. */
  lemma MergedPixel(l: Line, i: OamIndex, x: int, soff: nat, p: nat, o: ObjSel)
    requires p < 8 && o == Selection(l, i, true) && soff == x - (l.ObjX(i) - 8)
    ensures l.ObjColour(i, x + p) == if p + soff < 8 then SelPixel(o, p + soff) else 0
    ensures p + soff < 8 ==>
              PixelOf(l, o, p + soff) == ObjPixel(l.ObjColour(i, x + p), l.ObjPalette(i), l.BehindBg(i))
  {
  }

  lemma MergeKeepsSlots(l: Line, objs: seq<OamIndex>, i: OamIndex, x: int, slots: seq<ObjPixel>, soff: nat)
    requires SlotsShow(l, objs, x, slots) && soff == x - (l.ObjX(i) - 8)
    ensures SlotsShow(l, objs + [i], x, Merged(l, slots, Selection(l, i, true), soff))
  {
    var o := Selection(l, i, true);
    var slots' := Merged(l, slots, o, soff);
    forall p | 0 <= p < 8 ensures Shows(l, objs + [i], x + p, slots'[p]) {
      MergedPixel(l, i, x, soff, p, o);
      ShowsExtend(l, objs, i, x + p, slots[p], slots'[p]);
    }
  }

  /** The object FIFO follows the column when it moves on by one: no fetched object
      reaches the new last slot. */
  lemma ShiftKeepsSlots(l: Line, order: seq<OamIndex>, k: nat, x: int, slots: seq<ObjPixel>)
    requires k <= |order| && ReachedFor(l, order, k, x)
    requires SlotsShow(l, order[..k], x, slots)
    ensures SlotsShow(l, order[..k], x + 1, slots[1..] + [NO_PIXEL])
  {
    var objs := order[..k];
    FirstOpaqueNone(l, objs, x + 8);
    var slots' := slots[1..] + [NO_PIXEL];
    forall p | 0 <= p < 8 ensures Shows(l, objs, x + 1 + p, slots'[p]) {
      if p < 7 {
        assert Shows(l, objs, x + (p + 1), slots[p + 1]);
      }
    }
  }

  // ---- which objects have been fetched ----

  /** The selection with its first k objects fetched. */
  function SelectionAt(l: Line, order: seq<OamIndex>, k: nat): (s: seq<ObjSel>)
    ensures |s| == |order|
  {
    seq(|order|, s requires 0 <= s < |order| => Selection(l, order[s], s < k))
  }

  /** The first k objects start at or left of column x; the others do not start left of
      it, except that at column 0 they may. */
  ghost predicate ReachedFor(l: Line, order: seq<OamIndex>, k: nat, x: int) {
    && k <= |order|
    && (forall s :: 0 <= s < k ==> !l.OffRight(order[s]) && l.ObjX(order[s]) - 8 <= x)
    && (forall s :: k <= s < |order| ==> l.OffRight(order[s]) || l.ObjX(order[s]) - 8 >= x || x == 0)
  }

  /** Every object from the k-th on starts right of column x. */
  ghost predicate NoneWaiting(l: Line, order: seq<OamIndex>, k: nat, x: int) {
    forall s :: k <= s < |order| ==> l.OffRight(order[s]) || l.ObjX(order[s]) - 8 > x
  }

  lemma ReachedMove(l: Line, order: seq<OamIndex>, k: nat, x: int)
    requires ReachedFor(l, order, k, x) && NoneWaiting(l, order, k, x)
    ensures ReachedFor(l, order, k, x + 1)
  {
  }

  /** With k objects fetched, the object FIFO is right for column x. */
  ghost predicate FetchedAt(l: Line, order: seq<OamIndex>, k: nat, x: int, slots: seq<ObjPixel>) {
    ReachedFor(l, order, k, x) && SlotsShow(l, order[..k], x, slots)
  }

  lemma FetchedAtStart(l: Line, order: seq<OamIndex>)
    ensures FetchedAt(l, order, 0, 0, EmptySlots()) && SeenFor(l, order, [], 0)
  {
  }

  lemma FetchNext(l: Line, order: seq<OamIndex>, k: nat, x: int, slots: seq<ObjPixel>, soff: nat)
    requires FetchedAt(l, order, k, x, slots) && k < |order|
    requires !l.OffRight(order[k])
    requires soff == x - (l.ObjX(order[k]) - 8)
    ensures FetchedAt(l, order, k + 1, x, Merged(l, slots, Selection(l, order[k], true), soff))
  {
    assert order[..k + 1] == order[..k] + [order[k]];
    MergeKeepsSlots(l, order[..k], order[k], x, slots, soff);
  }

  lemma FetchedMove(l: Line, order: seq<OamIndex>, k: nat, x: int, slots: seq<ObjPixel>)
    requires FetchedAt(l, order, k, x, slots) && NoneWaiting(l, order, k, x)
    ensures FetchedAt(l, order, k, x + 1, slots[1..] + [NO_PIXEL])
  {
    ReachedMove(l, order, k, x);
    ShiftKeepsSlots(l, order, k, x, slots);
  }

  lemma SelectionEntry(l: Line, order: seq<OamIndex>, k: nat, s: nat)
    requires s < |order|
    ensures SelectionAt(l, order, k)[s].x == l.ObjX(order[s])
    ensures SelectionAt(l, order, k)[s].fetched == (s < k)
  {
  }

  lemma SelectionNext(l: Line, order: seq<OamIndex>, k: nat)
    requires k < |order|
    ensures SelectionAt(l, order, k + 1) == SelectionAt(l, order, k)[k := Selection(l, order[k], true)]
  {
    var s, t := SelectionAt(l, order, k), SelectionAt(l, order, k + 1);
    forall i | 0 <= i < |order| ensures t[i] == if i == k then Selection(l, order[k], true) else s[i] {
      assert t[i] == Selection(l, order[i], i < k + 1) && s[i] == Selection(l, order[i], i < k);
    }
  }

  /** Objects j..k-1 of the priority order are right of the screen. */
  ghost predicate AllRight(l: Line, order: seq<OamIndex>, j: nat, k: nat) {
    k <= |order| && forall t :: j <= t < k ==> l.OffRight(order[t])
  }

  lemma AllRightNext(l: Line, order: seq<OamIndex>, j: nat, s: nat)
    requires s < |order| && AllRight(l, order, j, s)
    requires s < j || l.OffRight(order[s])
    ensures AllRight(l, order, j, s + 1)
  {
  }

  lemma RestIsRight(l: Line, order: seq<OamIndex>, s: nat, x: int)
    requires ByX(l, order) && s < |order| && l.ObjX(order[s]) - 8 > x
    ensures NoneWaiting(l, order, s, x)
  {
  }

  /** An object on the screen that follows only objects right of the screen is the next. */
  lemma ScanFinds(l: Line, order: seq<OamIndex>, reached: nat, s: nat)
    requires ByX(l, order) && s < |order| && AllRight(l, order, reached, s)
    requires reached <= s && !l.OffRight(order[s])
    ensures s == reached
  {
    XAtMost(l, order, reached, s);
  }

  /** At column x only fetched objects can show. */
  lemma FetchedSuffice(l: Line, order: seq<OamIndex>, k: nat, x: int)
    requires k <= |order| && NoneWaiting(l, order, k, x) && x < 160
    ensures l.FirstOpaque(order, x) == l.FirstOpaque(order[..k], x)
  {
    FirstOpaquePrefix(l, order, k, x);
  }

  /** `tiles` lists the tiles that the first k objects have paid for. */
  ghost predicate SeenFor(l: Line, order: seq<OamIndex>, tiles: seq<int>, k: nat) {
    && |tiles| <= k <= |order|
    && forall tile :: tile in tiles <==> l.TileSeen(order, k, tile)
  }

  // ---- the fetcher and the background FIFO ----

  /** `queue` is the next stretch of the pixel stream, and ends on a tile boundary. */
  ghost predicate StreamOk(l: Line, inWin: bool, queue: seq<uint8>, popped: nat, fetchCol: nat) {
    && popped + |queue| == 8 * fetchCol
    && forall i :: 0 <= i < |queue| ==> queue[i] == StreamColour(l, inWin, popped + i)
  }

  lemma StreamPush(l: Line, inWin: bool, queue: seq<uint8>, popped: nat, fetchCol: nat, lo: uint8, hi: uint8)
    requires StreamOk(l, inWin, queue, popped, fetchCol)
    requires lo == l.vram[StreamRow(l, inWin, fetchCol)] && hi == l.vram[StreamRow(l, inWin, fetchCol) + 1]
    ensures StreamOk(l, inWin, queue + TilePixels(lo, hi), popped, fetchCol + 1)
  {
    TileIsStream(l, inWin, fetchCol, lo, hi);
  }

  lemma StreamPop(l: Line, inWin: bool, queue: seq<uint8>, popped: nat, fetchCol: nat)
    requires StreamOk(l, inWin, queue, popped, fetchCol) && queue != []
    ensures queue[0] == StreamColour(l, inWin, popped)
    ensures StreamOk(l, inWin, queue[1..], popped + 1, fetchCol)
  {
    assert queue[0] == StreamColour(l, inWin, popped + 0);
    forall i | 0 <= i < |queue| - 1 ensures queue[1..][i] == StreamColour(l, inWin, popped + 1 + i) {
      assert queue[i + 1] == StreamColour(l, inWin, popped + (i + 1));
    }
  }

  /** Objects that do not reach column x do not matter there. */
  lemma {:induction false} FirstOpaquePrefix(l: Line, objs: seq<OamIndex>, k: nat, x: int)
    requires k <= |objs|
    requires forall j :: k <= j < |objs| ==> l.ObjColour(objs[j], x) == 0
    ensures l.FirstOpaque(objs, x) == l.FirstOpaque(objs[..k], x)
    decreases |objs|
  {
    if k < |objs| {
      var front := objs[..|objs| - 1];
      FirstOpaqueExtend(l, front, objs[|objs| - 1], x);
      assert front + [objs[|objs| - 1]] == objs;
      FirstOpaquePrefix(l, front, k, x);
      assert front[..k] == objs[..k];
    } else {
      assert objs[..k] == objs;
    }
  }

  lemma {:induction false} FirstOpaqueNone(l: Line, objs: seq<OamIndex>, x: int)
    requires forall j :: 0 <= j < |objs| ==> l.ObjColour(objs[j], x) == 0
    ensures l.FirstOpaque(objs, x) == None
  {
    FirstOpaquePrefix(l, objs, 0, x);
  }

  lemma TileSeenExtend(l: Line, objs: seq<OamIndex>, k: nat)
    requires k < |objs|
    ensures forall tile :: l.TileSeen(objs, k + 1, tile) <==>
              l.TileSeen(objs, k, tile) || (!l.OffRight(objs[k]) && l.ObjTile(objs[k]) == tile)
  {
  }

  /** X never decreases along `order`. */
  ghost predicate ByX(l: Line, order: seq<OamIndex>) {
    forall i, j :: 0 <= i < j < |order| ==> l.ObjX(order[i]) <= l.ObjX(order[j])
  }

  lemma XAtMost(l: Line, order: seq<OamIndex>, j: nat, k: nat)
    requires ByX(l, order) && j <= k < |order|
    ensures l.ObjX(order[j]) <= l.ObjX(order[k])
  {
  }

  lemma PriorityOrderByX(l: Line)
    ensures ByX(l, l.PriorityOrder())
  {
    if l.ObjectsOn() {
      RankedByX(l, l.Selected(|l.oam| / 4));
    }
  }

  lemma RankedByX(l: Line, sel: seq<OamIndex>)
    ensures ByX(l, l.Arranged(sel))
  {
    ArrangedIsRanked(l, sel);
    var order := l.Arranged(sel);
    forall i, j | 0 <= i < j < |order| ensures l.ObjX(order[i]) <= l.ObjX(order[j]) {
      assert Rank(Entry(l, order[i])) <= Rank(Entry(l, order[j]));
    }
  }

  lemma {:induction false} StallsGrow(l: Line, objs: seq<OamIndex>, j: nat, k: nat)
    requires j <= k <= |objs|
    ensures l.ObjectStall(objs, j) <= l.ObjectStall(objs, k)
    decreases k - j
  {
    if j < k {
      StallsGrow(l, objs, j, k - 1);
    }
  }

  /** Objects right of the screen cost nothing. */
  lemma {:induction false} StallsEnd(l: Line, objs: seq<OamIndex>, j: nat, k: nat)
    requires j <= k <= |objs|
    requires forall s :: j <= s < k ==> l.OffRight(objs[s])
    ensures l.ObjectStall(objs, j) == l.ObjectStall(objs, k)
    decreases k - j
  {
    if j < k {
      StallsEnd(l, objs, j, k - 1);
    }
  }

  // ---- position and time ----

  /** Where in the pixel stream the next pixel, for column x, sits. */
  ghost predicate PositionOk(l: Line, inWin: bool, popped: nat, discard: nat, x: int) {
    && popped + discard == (if inWin then x + 7 - l.wx else x + l.scx % 8)
    && (discard > 0 ==> x == if inWin then l.WindowStart() else 0)
    && (inWin ==> l.WindowOn() && l.WindowStart() <= x && l.wx <= 166)
  }

  /** Dots the part of the line before a mid-line restart took, stalls apart. */
  function BeforeRestart(l: Line, inWin: bool): nat {
    if inWin && l.wx >= 8 then l.wx - 7 + l.scx % 8 + 11 else 0
  }

  function StallUpTo(l: Line, order: seq<OamIndex>, reached: nat): nat
    requires reached <= |order|
  {
    l.ObjectStall(order, reached)
  }

  /** The clock between dots. `flowing` says that a tile has been pushed since the last
      restart, `fill` counts the dots since then without a pixel. */
  ghost predicate ClockOk(l: Line, order: seq<OamIndex>, inWin: bool, flowing: bool, popped: nat, fill: nat,
                          reached: nat, discard: nat, stall: nat, x: nat, dot: nat)
  {
    && x <= 160 && reached <= |order|
    && PositionOk(l, inWin, popped, discard, x)
    && (if flowing then fill == 11 else fill <= 11 && popped == 0)
    // the window may be about to start, but is never overdue
    && (l.WindowOn() && !inWin && dot > 0 ==> 8 <= l.wx && x + 7 <= l.wx)
    // a stall begins with nothing left to fetch at this column
    && (stall > 0 ==> x < 160 && NoneWaiting(l, order, reached, x) && inWin == l.InWindow(x) && flowing)
    && dot == BeforeRestart(l, inWin) + popped + fill + StallUpTo(l, order, reached) - stall
    && (dot == 0 ==> x == popped == fill == reached == stall == 0)
  }

  /** The clock inside a dot without a stall, after the fetcher's share of it. */
  ghost predicate ClockAfterFetch(l: Line, order: seq<OamIndex>, inWin: bool, flowing: bool, popped: nat, fill: nat,
                                  reached: nat, discard: nat, x: nat, dot: nat)
  {
    && x < 160 && reached <= |order| && inWin == l.InWindow(x)
    && PositionOk(l, inWin, popped, discard, x)
    && (if flowing then fill == 11 else fill <= 11 && popped == 0)
    && dot + (if flowing then 0 else 1) == BeforeRestart(l, inWin) + popped + fill + StallUpTo(l, order, reached)
  }

  // How a dot without a stall ends: still filling, a pixel discarded, a pixel shown, or
  // an object fetch begun.

  lemma DotFills(l: Line, order: seq<OamIndex>, inWin: bool, popped: nat, fill: nat,
                 reached: nat, discard: nat, x: nat, dot: nat)
    requires ClockAfterFetch(l, order, inWin, false, popped, fill, reached, discard, x, dot)
    ensures ClockOk(l, order, inWin, false, popped, fill, reached, discard, 0, x, dot + 1)
  {
  }

  lemma DotDiscards(l: Line, order: seq<OamIndex>, inWin: bool, popped: nat, fill: nat,
                    reached: nat, discard: nat, x: nat, dot: nat)
    requires ClockAfterFetch(l, order, inWin, true, popped, fill, reached, discard, x, dot) && discard > 0
    ensures ClockOk(l, order, inWin, true, popped + 1, fill, reached, discard - 1, 0, x, dot + 1)
  {
  }

  lemma DotShows(l: Line, order: seq<OamIndex>, inWin: bool, popped: nat, fill: nat,
                 reached: nat, x: nat, dot: nat)
    requires ClockAfterFetch(l, order, inWin, true, popped, fill, reached, 0, x, dot)
    ensures ClockOk(l, order, inWin, true, popped + 1, fill, reached, 0, 0, x + 1, dot + 1)
  {
  }

  lemma StallBegins(l: Line, order: seq<OamIndex>, inWin: bool, popped: nat, fill: nat,
                    reached: nat, reached': nat, st: nat,
                    x: nat, dot: nat)
    requires ClockAfterFetch(l, order, inWin, true, popped, fill, reached, 0, x, dot)
    requires reached' <= |order| && StallUpTo(l, order, reached') == StallUpTo(l, order, reached) + st && st > 0
    requires NoneWaiting(l, order, reached', x)
    ensures ClockOk(l, order, inWin, true, popped, fill, reached', 0, st - 1, x, dot + 1)
  {
  }

  /** The window starts in mid-line exactly seven columns left of WX, and otherwise only
      before the first dot. */
  lemma RestartClock(l: Line, order: seq<OamIndex>, flowing: bool, popped: nat, fill: nat,
                     reached: nat, discard: nat, stall: nat, x: nat, dot: nat)
    requires ClockOk(l, order, false, flowing, popped, fill, reached, discard, stall, x, dot)
    requires l.InWindow(x) && x < 160
    ensures ClockOk(l, order, true, false, 0, 0, reached, if l.wx < 7 then 7 - l.wx else 0, stall, x, dot)
    ensures stall == 0
  {
  }

  /** The line is done after exactly FifoDots() dots, and not before. */
  lemma ClockEnds(l: Line, order: seq<OamIndex>, inWin: bool, flowing: bool, popped: nat, fill: nat,
                  reached: nat, discard: nat, stall: nat, x: nat, dot: nat)
    requires ClockOk(l, order, inWin, flowing, popped, fill, reached, discard, stall, x, dot)
    requires order == l.PriorityOrder() && ReachedFor(l, order, reached, x)
    ensures if x < 160 then dot < l.FifoDots() else dot == l.FifoDots()
  {
    StallsGrow(l, order, reached, |order|);
    if x == 160 {
      StallsEnd(l, order, reached, |order|);
    }
  }
}
