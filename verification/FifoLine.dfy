/** The per-dot pixel pipeline of one scanline: a fetcher that takes two dots a step, a
    sixteen-entry background FIFO, fine-scroll discard, a window restart in mid-line,
    object stalls and an eight-entry object FIFO. */
module FifoLine {
  import opened Bytes
  import opened LineSpec
  import opened ObjectOrder
  import opened FifoSpec

  /** The background FIFO: a ring of sixteen colour numbers. */
  class PixelRing {
    const fifo: array<uint8>
    var fhead: nat
    var flen: nat
    ghost var queue: seq<uint8>  // the entries, oldest first

    ghost predicate Valid()
      reads this, fifo
    {
      && fifo.Length == 16 && fhead < 16 && flen == |queue| <= 16
      && forall i :: 0 <= i < flen ==> fifo[Slot(fhead, i)] == queue[i]
    }

    constructor ()
      ensures Valid() && queue == [] && fresh(fifo)
    {
      fifo := new uint8[16];
      fhead, flen, queue := 0, 0, [];
    }

    method Clear()
      requires Valid()
      modifies this
      ensures Valid() && queue == []
    {
      flen, fhead, queue := 0, 0, [];
    }

    method PushTile(flo: uint8, fhi: uint8)
      requires Valid() && flen <= 8
      modifies this, fifo
      ensures Valid() && queue == old(queue) + TilePixels(flo, fhi)
    {
      ghost var pixels := TilePixels(flo, fhi);
      var p := 0;
      while p < 8
        invariant 0 <= p <= 8
        invariant forall i :: 0 <= i < flen ==> fifo[Slot(fhead, i)] == queue[i]
        invariant forall i :: 0 <= i < p ==> fifo[Slot(fhead, flen + i)] == pixels[i]
        modifies fifo
      {
        fifo[Slot(fhead, flen + p)] := ColourNumber(flo, fhi, 7 - p);
        p := p + 1;
      }
      flen := flen + 8;
      queue := queue + pixels;
    }

    method Pop() returns (c: uint8)
      requires Valid() && flen > 0
      modifies this
      ensures Valid() && c == old(queue)[0] && queue == old(queue)[1..]
    {
      c := fifo[fhead];
      assert fifo[Slot(fhead, 0)] == queue[0];
      fhead := Slot(fhead, 1);
      flen := flen - 1;
      queue := queue[1..];
      forall i | 0 <= i < flen ensures fifo[Slot(fhead, i)] == queue[i] {
        assert fifo[Slot(old(fhead), i + 1)] == old(queue)[i + 1];
      }
    }
  }

  /** The object FIFO: eight slots, for the next eight columns. */
  class ObjectFifo {
    const objCn: array<uint8>
    const objPal: array<uint8>
    const objBh: array<bool>
    ghost var slots: seq<ObjPixel>

    ghost predicate Valid()
      reads this, objCn, objPal, objBh
    {
      && objCn.Length == objPal.Length == objBh.Length == |slots| == 8 && objCn != objPal
      && forall p :: 0 <= p < 8 ==> slots[p] == ObjPixel(objCn[p], objPal[p], objBh[p])
    }

    constructor ()
      ensures Valid() && slots == EmptySlots()
      ensures fresh(objCn) && fresh(objPal) && fresh(objBh)
    {
      objCn := new uint8[8](_ => 0);
      objPal := new uint8[8](_ => 0);
      objBh := new bool[8](_ => false);
      slots := EmptySlots();
    }

    method Merge(l: Line, o: ObjSel, soff: nat)
      requires Valid()
      modifies this, objCn, objPal, objBh
      ensures Valid() && slots == Merged(l, old(slots), o, soff)
    {
      ghost var after := Merged(l, slots, o, soff);
      var p := soff;
      while p < 8
        invariant soff <= p
        invariant forall q :: 0 <= q < 8 ==>
          ObjPixel(objCn[q], objPal[q], objBh[q]) == if q + soff < p then after[q] else slots[q]
        modifies objCn, objPal, objBh
      {
        var bit := if o.attr / 0x20 % 2 == 1 then p else 7 - p;
        var c := ColourNumber(o.lo, o.hi, bit);
        var pos := p - soff;
        if c != 0 && objCn[pos] == 0 {
          objCn[pos] := c;
          objPal[pos] := if o.attr / 0x10 % 2 == 1 then l.obp1 else l.obp0;
          objBh[pos] := o.attr / 0x80 % 2 == 1;
        }
        p := p + 1;
      }
      slots := after;
    }

    method Shift()
      requires Valid()
      modifies this, objCn, objPal, objBh
      ensures Valid() && slots == old(slots)[1..] + [NO_PIXEL]
    {
      var p := 0;
      while p < 7
        invariant 0 <= p <= 7
        invariant forall q :: 0 <= q < p ==> ObjPixel(objCn[q], objPal[q], objBh[q]) == slots[q + 1]
        invariant forall q :: p <= q < 8 ==> ObjPixel(objCn[q], objPal[q], objBh[q]) == slots[q]
        modifies objCn, objPal, objBh
      {
        objCn[p], objPal[p], objBh[p] := objCn[p + 1], objPal[p + 1], objBh[p + 1];
        p := p + 1;
      }
      objCn[7], objPal[7], objBh[7] := 0, 0, false;
      slots := slots[1..] + [NO_PIXEL];
    }
  }

  /** The selected objects in priority order, and the tiles already paid for. */
  class ObjectFetcher {
    const l: Line
    ghost const order: seq<OamIndex>  // the objects, highest priority first
    const sp: array<ObjSel>
    const nsp: nat
    const seen: array<int>
    var ns: nat
    const objects: ObjectFifo
    ghost var reached: nat  // objects fetched so far

    ghost predicate Valid()
      reads this, sp, seen, objects, objects.objCn, objects.objPal, objects.objBh
    {
      && sp.Length == seen.Length == 10 && ns <= 10 && objects.Valid()
      && nsp == |order| <= 10 && reached <= nsp && ByX(l, order)
      && sp[..nsp] == SelectionAt(l, order, reached)
      && SeenFor(l, order, seen[..ns], reached)
    }

    ghost function Repr(): set<object> {
      {this, sp, seen, objects, objects.objCn, objects.objPal, objects.objBh}
    }

    /** What the object FIFO shows and which objects are fetched fit the next column. */
    ghost predicate At(x: int)
      reads this, objects
    {
      FetchedAt(l, order, reached, x, objects.slots)
    }

    constructor (l: Line, sp: array<ObjSel>, nsp: nat, ghost order: seq<OamIndex>)
      requires sp.Length == 10 && nsp == |order| <= 10 && ByX(l, order) && sp[..nsp] == SelectionAt(l, order, 0)
      ensures Valid() && this.l == l && this.order == order && this.sp == sp && reached == 0 && At(0)
      ensures fresh(seen) && fresh(objects) && fresh(objects.objCn) && fresh(objects.objPal) && fresh(objects.objBh)
    {
      this.l, this.order, this.sp, this.nsp := l, order, sp, nsp;
      seen := new int[10];
      ns, reached := 0, 0;
      objects := new ObjectFifo();
      new;
      assert seen[..ns] == [];
      FetchedAtStart(l, order);
    }

    /** An object of a tile nobody has paid for yet costs up to five dots of alignment. */
    method PayForTile(s: nat) returns (st: nat)
      requires sp.Length == seen.Length == 10 && ns <= 10 && s < nsp == |order| <= 10
      requires sp[s].x == l.ObjX(order[s]) && !l.OffRight(order[s])
      requires SeenFor(l, order, seen[..ns], s)
      modifies seen, `ns
      ensures ns <= 10 && SeenFor(l, order, seen[..ns], s + 1)
      ensures 6 + st == l.ObjCost(order, s)
    {
      st := 0;
      var bgp := sp[s].x - 8 + l.scx;
      var tile := bgp / 8;
      var considered := false;
      var k := 0;
      while k < ns && !considered
        invariant 0 <= k <= ns
        invariant considered ==> tile in seen[..ns]
        invariant !considered ==> tile !in seen[..k]
      {
        if seen[k] == tile {
          considered := true;
        }
        k := k + 1;
      }
      assert considered <==> tile in seen[..ns];
      TileSeenExtend(l, order, s);
      if !considered {
        seen[ns] := tile;
        ns := ns + 1;
        assert seen[..ns] == old(seen[..ns]) + [tile];
        var off := if sp[s].x == 0 then 0 else bgp % 8;
        var p := 7 - off - 2;
        if p > 0 {
          st := p;
        }
      }
    }

    /** The object's pixels from column x on, into the slots that are still empty. */
    method MergeObject(s: nat, x: nat)
      requires objects.Valid() && s < nsp == |order| <= sp.Length && sp[s] == Selection(l, order[s], true)
      requires !l.OffRight(order[s]) && sp[s].x - 8 <= x && FetchedAt(l, order, s, x, objects.slots)
      modifies objects, objects.objCn, objects.objPal, objects.objBh
      ensures objects.Valid() && FetchedAt(l, order, s + 1, x, objects.slots)
    {
      var left := sp[s].x - 8;
      var soff := if left < x then x - left else 0;
      FetchNext(l, order, s, x, objects.slots, soff);
      objects.Merge(l, sp[s], soff);
    }

    /** Fetches the next object in priority order; `st` is what it costs. */
    method FetchObject(s: nat, x: nat) returns (st: nat)
      requires Valid() && At(x)
      requires s == reached < nsp && !l.OffRight(order[s]) && sp[s].x - 8 <= x
      modifies Repr()
      ensures Valid() && At(x)
      ensures reached == s + 1 && st == l.ObjCost(order, s)
    {
      assert sp[s] == sp[..nsp][s] == Selection(l, order[s], false);
      SelectionNext(l, order, s);
      st := PayForTile(s);
      st := st + 6;
      sp[s] := sp[s].(fetched := true);
      assert sp[..nsp] == old(sp[..nsp])[s := sp[s]];
      MergeObject(s, x);
      reached := reached + 1;
    }

    /** One step of the scan: fetches object s if it is waiting and column x has reached
        it, and stops the scan if it is waiting further right. */
    method Visit(s: nat, x: nat) returns (st: nat, stop: bool)
      requires Valid() && At(x) && s < nsp && AllRight(l, order, reached, s)
      modifies Repr()
      ensures Valid() && At(x)
      ensures if stop then NoneWaiting(l, order, reached, x) else AllRight(l, order, reached, s + 1)
      ensures reached == old(reached) + (if st > 0 then 1 else 0)
      ensures st == l.ObjectStall(order, reached) - l.ObjectStall(order, old(reached))
    {
      SelectionEntry(l, order, reached, s);
      assert sp[s] == sp[..nsp][s];
      st, stop := 0, false;
      if sp[s].fetched || sp[s].x >= 168 {
        AllRightNext(l, order, reached, s);
      } else {
        ScanFinds(l, order, reached, s);
        if sp[s].x - 8 > x {
          RestIsRight(l, order, s, x);
          stop := true;
        } else {
          st := FetchObject(s, x);
        }
      }
    }

    /** Fetches, in priority order, every object that starts at or left of column x. */
    method FetchObjects(x: nat) returns (st: nat)
      requires Valid() && At(x)
      modifies this, sp, seen, objects, objects.objCn, objects.objPal, objects.objBh
      ensures Valid() && At(x) && NoneWaiting(l, order, reached, x)
      ensures old(reached) <= reached && (st == 0 ==> reached == old(reached))
      ensures st == l.ObjectStall(order, reached) - l.ObjectStall(order, old(reached))
    {
      st := 0;
      var s, stop := 0, false;
      while s < nsp && !stop
        invariant 0 <= s <= nsp && Valid() && At(x)
        invariant if stop then NoneWaiting(l, order, reached, x) else AllRight(l, order, reached, s)
        invariant old(reached) <= reached && (st == 0 ==> reached == old(reached))
        invariant st == l.ObjectStall(order, reached) - l.ObjectStall(order, old(reached))
        decreases nsp - s, !stop
      {
        var cost;
        cost, stop := Visit(s, x);
        st := st + cost;
        if !stop {
          s := s + 1;
        }
      }
    }

    /** The object FIFO shifts by one slot as column x is left. */
    method NextColumn(ghost x: nat)
      requires Valid() && At(x) && NoneWaiting(l, order, reached, x)
      modifies objects, objects.objCn, objects.objPal, objects.objBh
      ensures Valid() && At(x + 1)
    {
      FetchedMove(l, order, reached, x, objects.slots);
      objects.Shift();
    }
  }

  /** The background fetcher and the FIFO it fills. */
  class BackgroundFetcher {
    const l: Line
    const ring: PixelRing
    var fetchCol: nat
    var fstate: nat
    var ftimer: nat
    var ftaddr: int
    var flo: uint8
    var fhi: uint8
    var warmup: bool
    var inWin: bool
    ghost var popped: nat  // pixels taken from the ring since the last restart

    /** The ring holds the stream, the fetcher is part-way through a tile, and once pixels
        flow enough are queued to last until the next push: `margin` is 5 between dots,
        and 6 within a dot, after the fetcher and before the mixer. */
    ghost predicate Valid(margin: nat)
      reads this, ring, ring.fifo
    {
      && ring.Valid() && StreamOk(l, inWin, ring.queue, popped, fetchCol)
      && FetchRead() && ftimer <= 1
      && (warmup ==> fetchCol == 0)
      && (if fetchCol == 0 then fstate <= 2
          else if fstate <= 2 then ring.flen + 2 * fstate + ftimer >= margin
          else ring.flen + ftimer >= margin + 3)
    }

    /** What the fetcher has read so far belongs to tile `fetchCol`. */
    ghost predicate FetchRead()
      reads this
    {
      && fstate <= 3
      && (fstate >= 1 ==> ftaddr == StreamTile(l, inWin, fetchCol))
      && (fstate >= 2 ==> flo == l.vram[StreamRow(l, inWin, fetchCol)])
      && (fstate == 3 ==> fhi == l.vram[StreamRow(l, inWin, fetchCol) + 1])
    }

    /** Dots spent since the last restart without a pixel coming out. */
    ghost function Fill(): nat
      reads this
    {
      if fetchCol > 0 then 11 else (if warmup then 0 else 6) + 2 * fstate + ftimer
    }

    constructor (l: Line)
      ensures Valid(5) && this.l == l && !inWin && Fill() == 0 && popped == 0
      ensures fresh(ring) && fresh(ring.fifo)
    {
      this.l := l;
      ring := new PixelRing();
      fetchCol, fstate, ftimer, ftaddr, flo, fhi := 0, 0, 0, 0, 0, 0;
      warmup, inWin, popped := true, false, 0;
    }

    /** The window starts: empty the FIFO and fetch from the window's map. */
    method RestartInWindow()
      requires Valid(5)
      modifies this, ring
      ensures Valid(5) && inWin && Fill() == 0 && popped == 0
    {
      inWin := true;
      ring.Clear();
      fstate, ftimer := 0, 0;
      fetchCol, warmup, popped := 0, true, 0;
    }

    /** One dot: every second dot the fetcher takes a step. */
    method FetchDot()
      requires Valid(5)
      modifies ring, ring.fifo, `fetchCol, `fstate, `ftimer, `ftaddr, `flo, `fhi, `warmup
      ensures Valid(6)
      ensures if fetchCol == 0 then ring.flen == 0 && Fill() == old(Fill()) + 1
              else 0 < ring.flen <= 16 && old(Fill()) == 11
    {
      ftimer := ftimer + 1;
      if ftimer >= 2 {
        ftimer := 0;
        ReadStep();
        if fstate == 3 {
          FinishTile();
        }
      }
    }

    /** Tile number, then low byte, then high byte; nothing while a full tile waits. */
    method ReadStep()
      requires FetchRead()
      modifies `fstate, `ftaddr, `flo, `fhi
      ensures FetchRead()
      ensures fstate == if old(fstate) < 3 then old(fstate) + 1 else 3
    {
      var y := if inWin then l.winLine else l.BgRow();
      if fstate == 0 {
        var mapx := if inWin then fetchCol % 32 else (l.scx / 8 + fetchCol) % 32;
        var mapBase := if inWin then l.WindowMap() else l.BgMap();
        MapRow(y);
        ftaddr := l.TileOffset(l.vram[mapBase + y / 8 % 32 * 32 + mapx]);
        fstate := 1;
      } else if fstate == 1 {
        flo := l.vram[ftaddr + y % 8 * 2];
        fstate := 2;
      } else if fstate == 2 {
        fhi := l.vram[ftaddr + y % 8 * 2 + 1];
        fstate := 3;
      }
    }

    /** The warm-up tile is dropped; any other is pushed once at most eight pixels are left. */
    method FinishTile()
      requires ring.Valid() && StreamOk(l, inWin, ring.queue, popped, fetchCol)
      requires FetchRead() && fstate == 3 && (warmup ==> fetchCol == 0)
      modifies ring, ring.fifo, `fetchCol, `fstate, `warmup
      ensures ring.Valid() && StreamOk(l, inWin, ring.queue, popped, fetchCol)
      ensures FetchRead() && !warmup
      ensures if old(warmup) then ring.queue == old(ring.queue) && fetchCol == old(fetchCol) && fstate == 0
              else if old(ring.flen) <= 8 then
                ring.flen == old(ring.flen) + 8 && fetchCol == old(fetchCol) + 1 && fstate == 0
              else ring.flen == old(ring.flen) && fetchCol == old(fetchCol) && fstate == 3
    {
      if warmup {
        warmup := false;
        fstate := 0;
      } else if ring.flen <= 8 {
        StreamPush(l, inWin, ring.queue, popped, fetchCol, flo, fhi);
        ring.PushTile(flo, fhi);
        fetchCol := fetchCol + 1;
        fstate := 0;
      }
    }

    /** The mixer takes the oldest pixel: there always is one once a tile has been pushed. */
    method TakePixel() returns (c: uint8)
      requires Valid(6) && fetchCol > 0
      modifies ring, `popped
      ensures Valid(5) && c == StreamColour(l, inWin, old(popped)) && popped == old(popped) + 1
    {
      StreamPop(l, inWin, ring.queue, popped, fetchCol);
      c := ring.Pop();
      popped := popped + 1;
    }
  }

  /** The background pixel against slot 0 of the object FIFO. */
  method Mix(l: Line, fetcher: ObjectFetcher, x: nat, cn: uint8) returns (shade: uint8)
    requires fetcher.l == l && fetcher.Valid() && fetcher.At(x) && NoneWaiting(l, fetcher.order, fetcher.reached, x)
    requires x < 160 && cn == l.BgColour(x)
    ensures shade == l.PipelineShade(fetcher.order, x)
  {
    FetchedSuffice(l, fetcher.order, fetcher.reached, x);
    var o := fetcher.objects;
    assert Shows(l, fetcher.order[..fetcher.reached], x + 0, o.slots[0]);
    assert o.slots[0] == ObjPixel(o.objCn[0], o.objPal[0], o.objBh[0]);
    if o.objCn[0] != 0 && !(o.objBh[0] && cn != 0) {
      shade := Shade(o.objPal[0], o.objCn[0]);
    } else {
      shade := Shade(l.bgp, cn);
    }
  }

  /** No two parts share an object. */
  ghost predicate Apart(bg: BackgroundFetcher, fetcher: ObjectFetcher, out: array<uint8>) {
    out != bg.ring.fifo && Foreign(bg, fetcher) && Foreign(bg.ring, fetcher) && Foreign(bg.ring.fifo, fetcher)
    && Foreign(out, fetcher)
  }

  ghost predicate Foreign(o: object, fetcher: ObjectFetcher) {
    && o != fetcher && o != fetcher.sp && o != fetcher.seen
    && o != fetcher.objects && o != fetcher.objects.objCn && o != fetcher.objects.objPal && o != fetcher.objects.objBh
  }

  /** The selected objects as the pipeline keeps them: none fetched, row bytes at hand. */
  method PrepareObjects(l: Line) returns (sp: array<ObjSel>, nsp: nat)
    ensures fresh(sp) && sp.Length == 10 && nsp == |l.PriorityOrder()|
    ensures sp[..nsp] == SelectionAt(l, l.PriorityOrder(), 0)
  {
    var sel;
    sel, nsp := SortedObjects(l);
    assert nsp == |sel[..nsp]| == |l.PriorityOrder()|;
    forall k | 0 <= k < nsp ensures l.OnLine(l.PriorityOrder()[k]) {
      OrderIsOnLine(l, k);
    }
    sp := ReadRows(l, sel, nsp, l.PriorityOrder());
  }

  method ReadRows(l: Line, sel: array<Sprite>, nsp: nat, ghost order: seq<OamIndex>) returns (sp: array<ObjSel>)
    requires nsp == |order| <= 10 == sel.Length && sel[..nsp] == Entries(l, order)
    requires forall k :: 0 <= k < nsp ==> l.OnLine(order[k])
    ensures fresh(sp) && sp.Length == 10 && sp[..nsp] == SelectionAt(l, order, 0)
  {
    sp := new ObjSel[10](_ => ObjSel(0, false, 0, 0, 0));
    var s := 0;
    while s < nsp
      invariant 0 <= s <= nsp && sel[..nsp] == Entries(l, order)
      invariant forall k :: 0 <= k < s ==> sp[k] == Selection(l, order[k], false)
      modifies sp
    {
      EntryAt(l, order, s);
      assert sel[s] == sel[..nsp][s];
      var lo, hi := RowBytes(l, sel[s]);
      sp[s] := ObjSel(sel[s].x, false, lo, hi, sel[s].attr);
      s := s + 1;
    }
  }

  /** The first x pixels are right. */
  ghost predicate PixelsDone(l: Line, order: seq<OamIndex>, pixels: seq<uint8>, x: nat) {
    |pixels| == 160 && forall i :: 0 <= i < x <= 160 ==> pixels[i] == l.PipelineShade(order, i)
  }

  lemma PixelsNext(l: Line, order: seq<OamIndex>, pixels: seq<uint8>, x: nat)
    requires PixelsDone(l, order, pixels, x) && x < 160
    ensures PixelsDone(l, order, pixels[x := l.PipelineShade(order, x)], x + 1)
  {
  }

  /** The parts agree with each other and with the screen: the next column is x. */
  ghost predicate Parts(l: Line, bg: BackgroundFetcher, fetcher: ObjectFetcher, out: array<uint8>,
                        x: nat, margin: nat)
    reads bg, bg.ring, bg.ring.fifo, fetcher, fetcher.Repr(), out
  {
    && bg.l == l == fetcher.l && Apart(bg, fetcher, out)
    && bg.Valid(margin) && fetcher.Valid() && fetcher.At(x)
    && PixelsDone(l, fetcher.order, out[..], x)
  }

  /** Everything that holds between dots. */
  ghost predicate LineInv(l: Line, bg: BackgroundFetcher, fetcher: ObjectFetcher, out: array<uint8>,
                          discard: nat, stall: nat, x: nat, dot: nat)
    reads bg, bg.ring, bg.ring.fifo, fetcher, fetcher.Repr(), out
  {
    && Parts(l, bg, fetcher, out, x, 5)
    && ClockOk(l, fetcher.order, bg.inWin, bg.fetchCol > 0, bg.popped, bg.Fill(), fetcher.reached,
               discard, stall, x, dot)
  }

  method BeginLine(l: Line, out: array<uint8>) returns (bg: BackgroundFetcher, fetcher: ObjectFetcher)
    requires out.Length == 160
    ensures LineInv(l, bg, fetcher, out, l.scx % 8, 0, 0, 0) && fetcher.order == l.PriorityOrder()
    ensures fresh(bg) && fresh(bg.ring) && fresh(bg.ring.fifo)
    ensures fresh(fetcher) && fresh(fetcher.sp) && fresh(fetcher.seen) && fresh(fetcher.objects)
    ensures fresh(fetcher.objects.objCn) && fresh(fetcher.objects.objPal) && fresh(fetcher.objects.objBh)
  {
    var sp, nsp := PrepareObjects(l);
    bg := new BackgroundFetcher(l);
    PriorityOrderByX(l);
    fetcher := new ObjectFetcher(l, sp, nsp, l.PriorityOrder());
  }

  /** Draws a line: every pixel, and the number of dots it takes. */
  method FifoBgLine(l: Line, out: array<uint8>) returns (dot: nat)
    requires out.Length == 160
    modifies out
    ensures forall x :: 0 <= x < 160 ==> out[x] == l.FifoShade(x)
    ensures dot == l.FifoDots()
  {
    var bg, fetcher := BeginLine(l, out);
    var discard: nat, stall: nat, outX: nat := l.scx % 8, 0, 0;
    dot := 0;
    while outX < 160
      invariant LineInv(l, bg, fetcher, out, discard, stall, outX, dot)
      decreases l.FifoDots() - dot
    {
      ClockEnds(l, fetcher.order, bg.inWin, bg.fetchCol > 0, bg.popped, bg.Fill(), fetcher.reached,
                discard, stall, outX, dot);
      discard, stall, outX := Dot(l, bg, fetcher, out, discard, stall, outX, dot);
      dot := dot + 1;
    }
    ClockEnds(l, fetcher.order, bg.inWin, bg.fetchCol > 0, bg.popped, bg.Fill(), fetcher.reached,
                discard, stall, outX, dot);
  }

  /** The window starts once the next column is inside it: the fetcher restarts, and if
      the window began left of the screen its first columns are discarded. */
  method StartWindow(l: Line, bg: BackgroundFetcher, ghost fetcher: ObjectFetcher, ghost out: array<uint8>,
                     discard: nat, ghost stall: nat, x: nat, ghost dot: nat)
      returns (lead: nat)
    requires LineInv(l, bg, fetcher, out, discard, stall, x, dot) && x < 160
    modifies bg, bg.ring
    ensures LineInv(l, bg, fetcher, out, lead, stall, x, dot) && bg.inWin == l.InWindow(x)
  {
    lead := discard;
    if l.WindowOn() && !bg.inWin && x + 7 >= l.wx {
      RestartClock(l, fetcher.order, bg.fetchCol > 0, bg.popped, bg.Fill(), fetcher.reached, discard, stall, x, dot);
      bg.RestartInWindow();
      lead := if l.wx < 7 then 7 - l.wx else 0;
    }
  }

  /** Fine scroll: a pixel is taken and dropped. */
  method DropPixel(ghost l: Line, bg: BackgroundFetcher, ghost fetcher: ObjectFetcher, ghost out: array<uint8>,
                   ghost x: nat)
    requires Parts(l, bg, fetcher, out, x, 6) && bg.fetchCol > 0
    modifies bg`popped, bg.ring
    ensures Parts(l, bg, fetcher, out, x, 5) && bg.popped == old(bg.popped) + 1
  {
    var _ := bg.TakePixel();
  }

  /** A column whose objects are all fetched gets its pixel. */
  method EmitPixel(l: Line, bg: BackgroundFetcher, fetcher: ObjectFetcher, out: array<uint8>, x: nat)
    requires Parts(l, bg, fetcher, out, x, 6) && bg.fetchCol > 0 && NoneWaiting(l, fetcher.order, fetcher.reached, x)
    requires x < 160 && bg.inWin == l.InWindow(x) && PositionOk(l, bg.inWin, bg.popped, 0, x)
    modifies bg`popped, bg.ring, out
    modifies fetcher.objects, fetcher.objects.objCn, fetcher.objects.objPal, fetcher.objects.objBh
    ensures Parts(l, bg, fetcher, out, x + 1, 5) && bg.popped == old(bg.popped) + 1
  {
    StreamIsBackground(l, x);
    var cn := bg.TakePixel();
    var shade := Mix(l, fetcher, x, cn);
    PixelsNext(l, fetcher.order, out[..], x);
    out[x] := shade;
    fetcher.NextColumn(x);
  }

  /** Fetches the objects that start at this column; `st` is the stall they cause, which
      begins with this dot. */
  method ReachColumn(l: Line, ghost bg: BackgroundFetcher, fetcher: ObjectFetcher, ghost out: array<uint8>, x: nat,
                     ghost dot: nat)
      returns (st: nat)
    requires Parts(l, bg, fetcher, out, x, 6) && bg.fetchCol > 0
    requires ClockAfterFetch(l, fetcher.order, bg.inWin, true, bg.popped, 11, fetcher.reached, 0, x, dot)
    modifies fetcher, fetcher.sp, fetcher.seen,
             fetcher.objects, fetcher.objects.objCn, fetcher.objects.objPal, fetcher.objects.objBh
    ensures st > 0 ==> LineInv(l, bg, fetcher, out, 0, st - 1, x, dot + 1)
    ensures st == 0 ==>
              Parts(l, bg, fetcher, out, x, 6) && fetcher.reached == old(fetcher.reached)
              && NoneWaiting(l, fetcher.order, fetcher.reached, x)
  {
    ghost var reached := fetcher.reached;
    st := fetcher.FetchObjects(x);
    if st > 0 {
      StallBegins(l, fetcher.order, bg.inWin, bg.popped, 11, reached, fetcher.reached, st, x, dot);
    }
  }

  /** A dot that shows a pixel. */
  method ShowDot(l: Line, bg: BackgroundFetcher, fetcher: ObjectFetcher, out: array<uint8>, x: nat, ghost dot: nat)
    requires Parts(l, bg, fetcher, out, x, 6) && bg.fetchCol > 0 && NoneWaiting(l, fetcher.order, fetcher.reached, x)
    requires ClockAfterFetch(l, fetcher.order, bg.inWin, true, bg.popped, 11, fetcher.reached, 0, x, dot)
    modifies bg`popped, bg.ring, out
    modifies fetcher.objects, fetcher.objects.objCn, fetcher.objects.objPal, fetcher.objects.objBh
    ensures LineInv(l, bg, fetcher, out, 0, 0, x + 1, dot + 1)
  {
    DotShows(l, fetcher.order, bg.inWin, bg.popped, 11, fetcher.reached, x, dot);
    EmitPixel(l, bg, fetcher, out, x);
  }

  /** The mixer at a column, with nothing left to discard: it begins an object fetch or
      shows the pixel. */
  method MixDot(l: Line, bg: BackgroundFetcher, fetcher: ObjectFetcher, out: array<uint8>, x: nat, ghost dot: nat)
      returns (stall': nat, x': nat)
    requires Parts(l, bg, fetcher, out, x, 6) && bg.fetchCol > 0
    requires ClockAfterFetch(l, fetcher.order, bg.inWin, true, bg.popped, 11, fetcher.reached, 0, x, dot)
    modifies bg`popped, bg.ring, out
    modifies fetcher, fetcher.sp, fetcher.seen,
             fetcher.objects, fetcher.objects.objCn, fetcher.objects.objPal, fetcher.objects.objBh
    ensures LineInv(l, bg, fetcher, out, 0, stall', x', dot + 1)
  {
    var st := ReachColumn(l, bg, fetcher, out, x, dot);
    stall', x' := if st > 0 then st - 1 else 0, if st > 0 then x else x + 1;
    if st == 0 {
      ShowDot(l, bg, fetcher, out, x, dot);
    }
  }

  /** A dot without a stall: the fetcher's share, then the mixer's if there is a pixel. */
  method RunDot(l: Line, bg: BackgroundFetcher, fetcher: ObjectFetcher, out: array<uint8>,
                discard: nat, x: nat, ghost dot: nat)
      returns (discard': nat, stall': nat, x': nat)
    requires LineInv(l, bg, fetcher, out, discard, 0, x, dot) && x < 160 && bg.inWin == l.InWindow(x)
    modifies bg, bg.ring, bg.ring.fifo, out
    modifies fetcher, fetcher.sp, fetcher.seen,
             fetcher.objects, fetcher.objects.objCn, fetcher.objects.objPal, fetcher.objects.objBh
    ensures LineInv(l, bg, fetcher, out, discard', stall', x', dot + 1)
  {
    bg.FetchDot();
    if bg.ring.flen == 0 {
      DotFills(l, fetcher.order, bg.inWin, bg.popped, bg.Fill(), fetcher.reached, discard, x, dot);
      return discard, 0, x;
    }
    if discard > 0 {
      DotDiscards(l, fetcher.order, bg.inWin, bg.popped, bg.Fill(), fetcher.reached, discard, x, dot);
      DropPixel(l, bg, fetcher, out, x);
      return discard - 1, 0, x;
    }
    discard' := 0;
    stall', x' := MixDot(l, bg, fetcher, out, x, dot);
  }

  /** One iteration of the line's loop; during a stall both fetcher and mixer wait. */
  method Dot(l: Line, bg: BackgroundFetcher, fetcher: ObjectFetcher, out: array<uint8>,
             discard: nat, stall: nat, x: nat, ghost dot: nat)
      returns (discard': nat, stall': nat, x': nat)
    requires LineInv(l, bg, fetcher, out, discard, stall, x, dot) && x < 160
    modifies bg, bg.ring, bg.ring.fifo, out
    modifies fetcher, fetcher.sp, fetcher.seen,
             fetcher.objects, fetcher.objects.objCn, fetcher.objects.objPal, fetcher.objects.objBh
    ensures LineInv(l, bg, fetcher, out, discard', stall', x', dot + 1)
  {
    var lead := StartWindow(l, bg, fetcher, out, discard, stall, x, dot);
    if stall > 0 {
      return lead, stall - 1, x;
    }
    discard', stall', x' := RunDot(l, bg, fetcher, out, lead, x, dot);
  }
}
