/** The checksum of a PNG chunk: the program's table of 256 entries computes the bit-serial shift
    register of section 3.4 of RFC 2083. */
module Crc {
  import opened Bytes

  const POLYNOMIAL: bv32 := 0xEDB8_8320

  function Xor(a: bv32, b: bv32): bv32 { a ^ b }

  predicate Odd(c: bv32) { c & 1 == 1 }

  function Half(c: bv32): bv32 { c >> 1 }

  /** One step of the shift register: the bit that falls out decides the feedback. */
  function Shift(c: bv32): bv32 {
    if Odd(c) then Xor(POLYNOMIAL, Half(c)) else Half(c)
  }

  /** `step` applied `k` times. */
  function Iterate<T>(step: T -> T, c: T, k: nat): T
    decreases 2 * k
  {
    if k == 0 then c else Iterate(step, step(c), k - 1)
  }

  function LowBit(b: bv32): bv32 { b & 1 }

  /** Bit-serial: the register and the message bits still to enter, the lowest bit first. */
  function SerialStep(s: (bv32, bv32)): (bv32, bv32) {
    (Shift(Xor(s.0, LowBit(s.1))), Half(s.1))
  }

  function SerialByte(c: bv32, b: uint8): bv32 {
    Iterate(SerialStep, (c, b as bv32), 8).0
  }

  function SerialBytes(p: seq<uint8>): bv32 {
    if p == [] then 0xFFFF_FFFF else SerialByte(SerialBytes(p[..|p| - 1]), p[|p| - 1])
  }

  /** The checksum of a message. */
  function Checksum(p: seq<uint8>): bv32 { Xor(SerialBytes(p), 0xFFFF_FFFF) }

  // ---- one step is linear over a summand that does not touch the feedback ----

  lemma FeedbackStays(x: bv32, h: bv32)
    requires !Odd(h)
    ensures Odd(Xor(x, h)) == Odd(x)
  {
  }

  lemma HalvesApart(x: bv32, h: bv32)
    ensures Half(Xor(x, h)) == Xor(Half(x), Half(h))
  {
  }

  lemma XorAssociates(p: bv32, x: bv32, h: bv32)
    ensures Xor(p, Xor(x, h)) == Xor(Xor(p, x), h)
  {
    assert p ^ (x ^ h) == (p ^ x) ^ h;
  }

  lemma ShiftAcross(x: bv32, h: bv32)
    requires !Odd(h)
    ensures Shift(Xor(x, h)) == Xor(Shift(x), Half(h))
  {
    FeedbackStays(x, h);
    HalvesApart(x, h);
    XorAssociates(POLYNOMIAL, Half(x), Half(h));
  }

  /** Register and message as one word, and the message bits that are left. */
  function Joined(s: (bv32, bv32)): bv32 { Xor(s.0, s.1) }

  function Remaining(s: (bv32, bv32)): bv32 { s.1 }

  /** The message without its lowest bit. */
  function Rest(b: bv32): bv32 { b & 0xFFFF_FFFE }

  lemma LowBitOut(b: bv32)
    ensures Xor(LowBit(b), Rest(b)) == b && !Odd(Rest(b)) && Half(Rest(b)) == Half(b)
  {
  }

  /** A serial step moves the exclusive or of register and message by one plain step. */
  lemma SerialStepIsShift(s: (bv32, bv32))
    ensures Joined(SerialStep(s)) == Shift(Joined(s))
  {
    LowBitOut(s.1);
    XorAssociates(s.0, LowBit(s.1), Rest(s.1));
    ShiftAcross(Xor(s.0, LowBit(s.1)), Rest(s.1));
  }

  // ---- eight steps at once ----

  predicate Even(c: bv32) { !Odd(c) }

  predicate Throughout<T>(p: T -> bool, step: T -> T, c: T, k: nat)
    decreases 2 * k
  {
    k > 0 ==> p(c) && Throughout(p, step, step(c), k - 1)
  }

  /** A summand over which one step of `f` passes by applying `g` to it is passed by any number. */
  lemma {:induction false} PassesOver<T(!new)>(f: T -> T, g: T -> T, plus: (T, T) -> T, p: T -> bool,
                                               x: T, h: T, k: nat)
    requires forall a, b :: p(b) ==> f(plus(a, b)) == plus(f(a), g(b))
    requires Throughout(p, g, h, k)
    ensures Iterate(f, plus(x, h), k) == plus(Iterate(f, x, k), Iterate(g, h, k))
    decreases k
  {
    if k > 0 {
      PassesOver(f, g, plus, p, f(x), g(h), k - 1);
    }
  }

  /** A view of the state that follows one step of `f` follows any number. */
  lemma {:induction false} Follows<S(!new), T>(step: S -> S, view: S -> T, f: T -> T, s: S, k: nat)
    requires forall q :: view(step(q)) == f(view(q))
    ensures view(Iterate(step, s, k)) == Iterate(f, view(s), k)
    decreases k
  {
    if k > 0 {
      Follows(step, view, f, step(s), k - 1);
    }
  }

  function LowByte(x: bv32): bv32 { x & 0xFF }

  function HighPart(x: bv32): bv32 { x & 0xFFFF_FF00 }

  function Eighth(x: bv32): bv32 { x >> 8 }

  lemma Halvings(h: bv32)
    ensures Iterate(Half, h, 8) == Eighth(h)
  {
  }

  lemma HighPartIsEven(x: bv32)
    ensures Throughout(Even, Half, HighPart(x), 8)
  {
  }

  lemma Parts(x: bv32)
    ensures Xor(LowByte(x), HighPart(x)) == x && Eighth(HighPart(x)) == Eighth(x)
    ensures LowByte(x) <= 0xFF
  {
  }

  lemma ByteIsSmall(b: uint8)
    ensures Eighth(b as bv32) == 0
  {
  }

  lemma NothingLeft(s: (bv32, bv32))
    requires Remaining(s) == 0
    ensures s.0 == Joined(s)
  {
  }

  /** The bits of a byte may enter all at once before the eight steps. */
  lemma ByteAtOnce(c: bv32, b: uint8)
    ensures SerialByte(c, b) == Iterate(Shift, Joined((c, b as bv32)), 8)
  {
    var s := (c, b as bv32);
    forall q ensures Joined(SerialStep(q)) == Shift(Joined(q)) {
      SerialStepIsShift(q);
    }
    Follows(SerialStep, Joined, Shift, s, 8);
    Follows(SerialStep, Remaining, Half, s, 8);
    Halvings(Remaining(s));
    ByteIsSmall(b);
    NothingLeft(Iterate(SerialStep, s, 8));
  }

  lemma EvenIsPassed()
    ensures forall a, b :: Even(b) ==> Shift(Xor(a, b)) == Xor(Shift(a), Half(b))
  {
    forall a, b | Even(b) ensures Shift(Xor(a, b)) == Xor(Shift(a), Half(b)) {
      ShiftAcross(a, b);
    }
  }

  /** Eight steps depend on the low byte through the table; the other bits only move down. */
  lemma LowByteDecides(x: bv32)
    ensures Iterate(Shift, x, 8) == Xor(Iterate(Shift, LowByte(x), 8), Eighth(x))
  {
    EvenIsPassed();
    Parts(x);
    Halvings(HighPart(x));
    HighPartIsEven(x);
    PassesOver(Shift, Half, Xor, Even, LowByte(x), HighPart(x), 8);
  }

  lemma ByteLeavesRest(c: bv32, b: bv32)
    requires Eighth(b) == 0
    ensures Eighth(Xor(c, b)) == Eighth(c)
  {
  }

  /** One step of the program's loop. */
  lemma TableStep(c: bv32, b: uint8)
    ensures SerialByte(c, b) == Xor(Iterate(Shift, LowByte(Joined((c, b as bv32))), 8), Eighth(c))
  {
    ByteAtOnce(c, b);
    LowByteDecides(Joined((c, b as bv32)));
    ByteIsSmall(b);
    ByteLeavesRest(c, b as bv32);
  }

  // ---- the program's table and loop ----

  lemma Extend(p: seq<uint8>, i: nat)
    requires i < |p|
    ensures SerialBytes(p[..i + 1]) == SerialByte(SerialBytes(p[..i]), p[i])
  {
    assert p[..i + 1][..i] == p[..i];
  }

  /** What eight steps make of byte `m`. */
  function Image(m: int): bv32 { if 0 <= m < 256 then Iterate(Shift, m as bv32, 8) else 0 }

  lemma ImageOf(low: bv32)
    requires low <= 0xFF
    ensures 0 <= low as int < 256 && Image(low as int) == Iterate(Shift, low, 8)
  {
  }

  /** The first `n` entries of a table tabulate `f`. */
  ghost predicate Tabulates<T>(t: seq<T>, f: int -> T, n: nat) {
    n <= |t| && forall m :: 0 <= m < n ==> t[m] == f(m)
  }

  lemma TabulatesMore<T>(t: seq<T>, f: int -> T, n: nat)
    requires n < |t| && Tabulates(t, f, n)
    ensures Tabulates(t[n := f(n)], f, n + 1)
  {
  }

  /** The static table and its ready flag. */
  class Table {
    const entries: array<bv32>
    var ready: bool

    ghost predicate Valid()
      reads this, entries
    {
      entries.Length == 256 && (ready ==> Tabulates(entries[..], Image, 256))
    }

    constructor ()
      ensures Valid() && fresh(entries) && !ready
    {
      entries := new bv32[256];
      ready := false;
    }

    static method Entry(n: bv32) returns (c: bv32)
      ensures c == Iterate(Shift, n, 8)
    {
      c := n;
      var k := 0;
      while k < 8
        invariant 0 <= k <= 8
        invariant Iterate(Shift, c, 8 - k) == Iterate(Shift, n, 8)
      {
        c := Shift(c);
        k := k + 1;
      }
    }

    method Fill(n: nat)
      requires n < entries.Length == 256 && Tabulates(entries[..], Image, n)
      modifies entries
      ensures Tabulates(entries[..], Image, n + 1)
    {
      TabulatesMore(entries[..], Image, n);
      var c := Entry(n as bv32);
      entries[n] := c;
    }

    method Init()
      requires entries.Length == 256
      modifies this, entries
      ensures Valid() && ready
    {
      for n := 0 to 256
        invariant Tabulates(entries[..], Image, n)
      {
        Fill(n);
      }
      ready := true;
    }

    method Lookup(low: bv32) returns (e: bv32)
      requires Valid() && ready && low <= 0xFF
      ensures e == Iterate(Shift, low, 8)
    {
      ImageOf(low);
      e := entries[low as int];
      assert e == entries[..][low as int];
    }

    method Step(c: bv32, b: uint8) returns (r: bv32)
      requires Valid() && ready
      ensures r == SerialByte(c, b)
    {
      var x := Joined((c, b as bv32));
      Parts(x);
      var e := Lookup(LowByte(x));
      r := Xor(e, Eighth(c));
      TableStep(c, b);
    }

    method Crc32(p: seq<uint8>) returns (r: bv32)
      requires Valid()
      modifies this, entries
      ensures Valid() && ready
      ensures r == Checksum(p)
    {
      if !ready {
        Init();
      }
      var c: bv32 := 0xFFFF_FFFF;
      for i := 0 to |p|
        invariant Valid() && ready
        invariant c == SerialBytes(p[..i])
      {
        Extend(p, i);
        c := Step(c, p[i]);
      }
      assert p[..|p|] == p;
      r := Xor(c, 0xFFFF_FFFF);
    }
  }
}
