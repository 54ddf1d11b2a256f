/** VRAM DMA of the colour console: 16 bytes per HBlank, or everything at once. */
module VramDma {
  import opened Bytes

  type VideoMemory = v: seq<uint8> | |v| == 0x4000 witness seq(0x4000, _ => 0)

  /** Main memory as the unit reads it: outside VRAM, and unchanged meanwhile. */
  type Source = uint16 -> uint8

  /** The address registers FF51..FF54, and the transfer: `length` is one less than the blocks left. */
  datatype State = State(hdma1: uint8, hdma2: uint8, hdma3: uint8, hdma4: uint8, src: uint16, dst: uint16,
                         length: uint8, active: bool, vram: VideoMemory)

  /** Where the selected bank begins. */
  function Base(vbk: uint8): nat { vbk % 2 * 0x2000 }

  // ---- the operations ----

  /** How far into a transfer address `a` of the bank is reached. */
  function Offset(a: nat, base: nat, dst: uint16): nat { (a - base - dst) % 0x2000 }

  /** VRAM after the first `n` bytes from `src` went to `dst`, which wraps inside its bank. */
  function Copied(v: VideoMemory, base: nat, dst: uint16, src: uint16, n: nat, read: Source): VideoMemory {
    seq(0x4000, a requires 0 <= a < 0x4000 =>
      if base <= a < base + 0x2000 && Offset(a, base, dst) < n
      then read((src + Offset(a, base, dst)) % 0x1_0000) else v[a])
  }

  function Block(s: State, vbk: uint8, read: Source): State {
    s.(src := (s.src + 0x10) % 0x1_0000, dst := (s.dst + 0x10) % 0x1_0000,
       vram := Copied(s.vram, Base(vbk), s.dst, s.src, 0x10, read))
  }

  function Blocks(s: State, k: nat, vbk: uint8, read: Source): State {
    if k == 0 then s else Block(Blocks(s, k - 1, vbk, read), vbk, read)
  }

  function Addressed(s: State): State {
    s.(src := s.hdma1 * 0x100 + (s.hdma2 - s.hdma2 % 0x10),
       dst := 0x8000 + s.hdma3 % 0x20 * 0x100 + (s.hdma4 - s.hdma4 % 0x10))
  }

  /** A write to FF55: stop, copy everything, or start an HBlank transfer. */
  function Trigger(s: State, v: uint8, vbk: uint8, read: Source): State {
    if v < 0x80 then
      if s.active then s.(active := false, length := s.length % 0x80 + 0x80)
      else Blocks(Addressed(s), v + 1, vbk, read).(length := 0xFF)
    else Addressed(s).(length := v - 0x80, active := true)
  }

  function HBlank(s: State, vbk: uint8, read: Source): State {
    if !s.active then s
    else
      var t := Block(s, vbk, read);
      if t.length == 0 then t.(active := false, length := 0xFF) else t.(length := t.length - 1)
  }

  function HBlanks(s: State, k: nat, vbk: uint8, read: Source): State {
    if k == 0 then s else HBlank(HBlanks(s, k - 1, vbk, read), vbk, read)
  }

  /** A read of FF55. */
  function Status(s: State): uint8 { if s.active then s.length % 0x80 else 0xFF }

  // ---- blocks add up ----

  lemma OffsetMoves(a: nat, base: nat, dst: uint16, n: nat)
    requires n + 0x10 <= 0x2000
    ensures Offset(a, base, (dst + n) % 0x1_0000) == (Offset(a, base, dst) - n) % 0x2000
    ensures Offset(a, base, dst) < n ==> Offset(a, base, (dst + n) % 0x1_0000) >= 0x10
    ensures Offset(a, base, dst) >= n ==> Offset(a, base, (dst + n) % 0x1_0000) == Offset(a, base, dst) - n
  {
  }

  lemma SourceMoves(src: uint16, n: nat, d: nat)
    ensures d >= n ==> ((src + n) % 0x1_0000 + (d - n)) % 0x1_0000 == (src + d) % 0x1_0000
  {
  }

  /** A transfer shorter than the bank never meets its own bytes. */
  lemma CopiedMore(v: VideoMemory, base: nat, dst: uint16, src: uint16, n: nat, read: Source)
    requires n + 0x10 <= 0x2000
    ensures Copied(Copied(v, base, dst, src, n, read), base, (dst + n) % 0x1_0000, (src + n) % 0x1_0000, 0x10, read) ==
            Copied(v, base, dst, src, n + 0x10, read)
  {
    var first := Copied(v, base, dst, src, n, read);
    var twice := Copied(first, base, (dst + n) % 0x1_0000, (src + n) % 0x1_0000, 0x10, read);
    var once := Copied(v, base, dst, src, n + 0x10, read);
    forall a: nat | a < 0x4000 ensures twice[a] == once[a] {
      OffsetMoves(a, base, dst, n);
      SourceMoves(src, n, Offset(a, base, dst));
    }
  }

  /** The state of the transfer that began at `s`, after `k` blocks. */
  function Moved(s: State, k: nat, vbk: uint8, read: Source): State {
    s.(src := (s.src + 0x10 * k) % 0x1_0000, dst := (s.dst + 0x10 * k) % 0x1_0000,
       vram := Copied(s.vram, Base(vbk), s.dst, s.src, 0x10 * k, read))
  }

  lemma AddressMoves(a: uint16, n: nat)
    ensures ((a + n) % 0x1_0000 + 0x10) % 0x1_0000 == (a + (n + 0x10)) % 0x1_0000
  {
  }

  lemma MovedNext(s: State, k: nat, vbk: uint8, read: Source)
    requires k < 0x200
    ensures Block(Moved(s, k, vbk, read), vbk, read) == Moved(s, k + 1, vbk, read)
  {
    assert 0x10 * k + 0x10 == 0x10 * (k + 1);
    AddressMoves(s.src, 0x10 * k);
    AddressMoves(s.dst, 0x10 * k);
    CopiedMore(s.vram, Base(vbk), s.dst, s.src, 0x10 * k, read);
  }

  /** Closed form of `k` blocks, wherever source and destination wrap. */
  lemma {:induction false} BlocksMove(s: State, k: nat, vbk: uint8, read: Source)
    requires k <= 0x200
    ensures Blocks(s, k, vbk, read) == Moved(s, k, vbk, read)
    decreases k
  {
    if k == 0 {
      assert Copied(s.vram, Base(vbk), s.dst, s.src, 0, read) == s.vram;
    } else {
      BlocksMove(s, k - 1, vbk, read);
      MovedNext(s, k - 1, vbk, read);
    }
  }

  lemma CopiedAt(v: VideoMemory, vbk: uint8, dst: uint16, src: uint16, n: nat, read: Source, i: nat, a: nat)
    requires n <= 0x2000 && i < 0x2000 && a == Base(vbk) + (dst + i) % 0x2000
    ensures Copied(v, Base(vbk), dst, src, n, read)[a] == if i < n then read((src + i) % 0x1_0000) else v[a]
  {
    OffsetIs((dst + i) % 0x2000, dst, i);
  }

  lemma InBank(dst: nat, i: nat)
    ensures (0x8000 + dst + i) % 0x2000 == (dst + i) % 0x2000
  {
  }

  lemma AddressBytes(s: State) returns (src: nat, dst: nat)
    ensures src == 256 * (s.hdma1 as int) + 16 * (s.hdma2 / 16) == Addressed(s).src
    ensures dst == 256 * (s.hdma3 as int % 32) + 16 * (s.hdma4 / 16) && Addressed(s).dst == 0x8000 + dst
  {
    src, dst := Addressed(s).src, Addressed(s).dst - 0x8000;
  }

  /** The one-shot transfer by the bytes of FF51 to FF55: 16 (v + 1) bytes from a source rounded down to 16 bytes go to
      the selected bank, from a destination rounded down likewise on, wrapping inside it; nothing else changes. */
  lemma OneShotBytes(s: State, v: uint8, vbk: uint8, read: Source, i: nat) returns (src: nat, dst: nat, a: nat, o: nat)
    requires v < 0x80 && !s.active && i < 0x2000
    ensures src == 256 * (s.hdma1 as int) + 16 * (s.hdma2 / 16)
    ensures dst == 256 * (s.hdma3 as int % 32) + 16 * (s.hdma4 / 16)
    ensures a == (dst + i) % 0x2000 + (if vbk % 2 == 1 then 0x2000 else 0) < 0x4000
    ensures o == i + (if vbk % 2 == 1 then 0 else 0x2000) < 0x4000
    ensures Trigger(s, v, vbk, read).vram[a] ==
            if i < 16 * (v as int + 1) then read((src + i) % 0x1_0000) else s.vram[a]
    ensures Trigger(s, v, vbk, read).vram[o] == s.vram[o]
  {
    src, dst := AddressBytes(s);
    InBank(dst, i);
    a, o := Base(vbk) + (dst + i) % 0x2000, i + if vbk % 2 == 1 then 0 else 0x2000;
    BlocksMove(Addressed(s), v + 1, vbk, read);
    CopiedAt(s.vram, vbk, Addressed(s).dst, Addressed(s).src, 0x10 * (v + 1), read, i, a);
  }

  // ---- an HBlank transfer against the one-shot transfer ----

  /** `k` blocks are there, and FF55 counts down to "done". */
  ghost predicate Counting(s: State, v: uint8, k: nat, t: State, vbk: uint8, read: Source) {
    && t == Blocks(Addressed(s), k, vbk, read).(active := t.active, length := t.length)
    && (t.active <==> k <= v - 0x80)
    && t.length == (if t.active then v - 0x80 - k else 0xFF)
    && Status(t) == t.length
  }

  lemma HBlankCounts(s: State, v: uint8, k: nat, t: State, vbk: uint8, read: Source)
    requires v >= 0x80 && k <= v - 0x80 && Counting(s, v, k, t, vbk, read)
    ensures Counting(s, v, k + 1, HBlank(t, vbk, read), vbk, read)
  {
    var b := Blocks(Addressed(s), k, vbk, read);
    assert Block(t, vbk, read) == Block(b, vbk, read).(active := t.active, length := t.length);
  }

  lemma {:induction false} HBlanksMove(s: State, v: uint8, k: nat, vbk: uint8, read: Source)
    requires v >= 0x80 && k <= v - 0x80 + 1
    ensures Counting(s, v, k, HBlanks(Trigger(s, v, vbk, read), k, vbk, read), vbk, read)
    decreases k
  {
    if k > 0 {
      HBlanksMove(s, v, k - 1, vbk, read);
      HBlankCounts(s, v, k - 1, HBlanks(Trigger(s, v, vbk, read), k - 1, vbk, read), vbk, read);
    }
  }

  /** Stepped to exhaustion an HBlank transfer takes exactly one HBlank per block and ends in the state
      the one-shot transfer reaches; further HBlanks do nothing. */
  lemma StepwiseIsOneShot(s: State, v: uint8, extra: nat, vbk: uint8, read: Source)
    requires v >= 0x80 && !s.active
    ensures HBlanks(Trigger(s, v, vbk, read), v - 0x80 + 1 + extra, vbk, read) == Trigger(s, v - 0x80, vbk, read)
    ensures forall k: nat :: k <= v - 0x80 ==> HBlanks(Trigger(s, v, vbk, read), k, vbk, read).active
    decreases extra
  {
    forall k: nat | k <= v - 0x80 ensures HBlanks(Trigger(s, v, vbk, read), k, vbk, read).active {
      HBlanksMove(s, v, k, vbk, read);
    }
    BlocksMove(Addressed(s), v - 0x80 + 1, vbk, read);
    if extra == 0 {
      HBlanksMove(s, v, v - 0x80 + 1, vbk, read);
    } else {
      StepwiseIsOneShot(s, v, extra - 1, vbk, read);
    }
  }

  /** Stopping an HBlank transfer after `k` HBlanks leaves exactly the first `k` blocks. */
  lemma StopKeepsPrefix(s: State, v: uint8, k: nat, stop: uint8, vbk: uint8, read: Source)
    requires v >= 0x80 && k <= v - 0x80 && stop < 0x80
    ensures var t := Trigger(HBlanks(Trigger(s, v, vbk, read), k, vbk, read), stop, vbk, read);
      && !t.active && Status(t) == 0xFF
      && t.vram == Copied(s.vram, Base(vbk), Addressed(s).dst, Addressed(s).src, 0x10 * k, read)
  {
    HBlanksMove(s, v, k, vbk, read);
    BlocksMove(Addressed(s), k, vbk, read);
  }

  // ---- the unit ----

  lemma OffsetIs(a: nat, dst: uint16, n: nat)
    requires a < 0x2000 && n < 0x2000
    ensures (a - dst) % 0x2000 == n <==> a == (dst + n) % 0x2000
  {
  }

  lemma CopiedNextAt(v: VideoMemory, vbk: uint8, dst: uint16, src: uint16, n: nat, read: Source, a: nat)
    requires n < 0x2000 && a < 0x4000
    ensures Copied(v, Base(vbk), dst, src, n + 1, read)[a] ==
            if a == Base(vbk) + (dst + n) % 0x2000 then read((src + n) % 0x1_0000)
            else Copied(v, Base(vbk), dst, src, n, read)[a]
  {
    if Base(vbk) <= a < Base(vbk) + 0x2000 {
      OffsetIs(a - Base(vbk), dst, n);
    }
  }

  lemma CopiedNext(v: VideoMemory, vbk: uint8, dst: uint16, src: uint16, n: nat, read: Source)
    requires n < 0x2000
    ensures Copied(v, Base(vbk), dst, src, n + 1, read) ==
            Copied(v, Base(vbk), dst, src, n, read)[Base(vbk) + (dst + n) % 0x2000 := read((src + n) % 0x1_0000)]
  {
    var next := Copied(v, Base(vbk), dst, src, n + 1, read);
    var now := Copied(v, Base(vbk), dst, src, n, read)[Base(vbk) + (dst + n) % 0x2000 := read((src + n) % 0x1_0000)];
    forall a: nat | a < 0x4000 ensures next[a] == now[a] {
      CopiedNextAt(v, vbk, dst, src, n, read, a);
    }
  }

  /** The fields of the console that the transfer uses. */
  class VramDmaUnit {
    var io51: uint8
    var io52: uint8
    var io53: uint8
    var io54: uint8
    var vbk: uint8
    var hdmaSrc: uint16
    var hdmaDst: uint16
    var hdmaLen: uint8
    var hdmaActive: bool
    const vram: array<uint8>

    ghost predicate Valid()
      reads this
    {
      vram.Length == 0x4000
    }

    ghost function Value(): State
      requires Valid()
      reads this, vram
    {
      State(io51, io52, io53, io54, hdmaSrc, hdmaDst, hdmaLen, hdmaActive, vram[..])
    }

    constructor ()
      ensures Valid() && fresh(vram) && !hdmaActive
    {
      io51, io52, io53, io54, vbk := 0, 0, 0, 0, 0;
      hdmaSrc, hdmaDst, hdmaLen, hdmaActive := 0, 0, 0xFF, false;
      vram := new uint8[0x4000](_ => 0);
    }

    method CopyByte(ghost was: VideoMemory, i: nat, read: Source)
      requires Valid() && i < 0x10 && vram[..] == Copied(was, Base(vbk), hdmaDst, hdmaSrc, i, read)
      modifies vram
      ensures vram[..] == Copied(was, Base(vbk), hdmaDst, hdmaSrc, i + 1, read)
    {
      CopiedNext(was, vbk, hdmaDst, hdmaSrc, i, read);
      vram[Base(vbk) + (hdmaDst + i) % 0x2000] := read((hdmaSrc + i) % 0x1_0000);
    }

    method CopyBlock(read: Source)
      requires Valid()
      modifies this`hdmaSrc, this`hdmaDst, vram
      ensures Value() == Block(old(Value()), vbk, read)
    {
      ghost var was: VideoMemory := vram[..];
      assert Copied(was, Base(vbk), hdmaDst, hdmaSrc, 0, read) == was;
      for i := 0 to 0x10
        invariant vram[..] == Copied(was, Base(vbk), hdmaDst, hdmaSrc, i, read)
        invariant hdmaSrc == old(hdmaSrc) && hdmaDst == old(hdmaDst)
      {
        CopyByte(was, i, read);
      }
      hdmaSrc := (hdmaSrc + 0x10) % 0x1_0000;
      hdmaDst := (hdmaDst + 0x10) % 0x1_0000;
    }

    method Write55(v: uint8, read: Source)
      requires Valid()
      modifies this`hdmaSrc, this`hdmaDst, this`hdmaLen, this`hdmaActive, vram
      ensures Value() == Trigger(old(Value()), v, vbk, read)
    {
      var src := io51 * 0x100 + (io52 - io52 % 0x10);
      var dst := 0x8000 + io53 % 0x20 * 0x100 + (io54 - io54 % 0x10);
      if v < 0x80 {
        if hdmaActive {
          hdmaActive, hdmaLen := false, hdmaLen % 0x80 + 0x80;
          return;
        }
        hdmaSrc, hdmaDst := src, dst;
        ghost var start := Value();
        for b := 0 to v + 1
          invariant Value() == Blocks(start, b, vbk, read)
        {
          CopyBlock(read);
        }
        hdmaLen := 0xFF;
      } else {
        hdmaSrc, hdmaDst := src, dst;
        hdmaLen, hdmaActive := v - 0x80, true;
      }
    }

    method HBlankStep(read: Source)
      requires Valid()
      modifies this`hdmaSrc, this`hdmaDst, this`hdmaLen, this`hdmaActive, vram
      ensures Value() == HBlank(old(Value()), vbk, read)
    {
      if !hdmaActive {
        return;
      }
      CopyBlock(read);
      if hdmaLen == 0 {
        hdmaActive, hdmaLen := false, 0xFF;
      } else {
        hdmaLen := hdmaLen - 1;
      }
    }
  }
}
