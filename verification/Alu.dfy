/** The adder of the CPU and its decimal adjustment, chained over numbers of any length. */
module Alu {
  import opened Bytes

  /** The accumulator and the four flags. */
  datatype State = State(a: uint8, z: bool, n: bool, h: bool, c: bool)

  function Bit(b: bool): int { if b then 1 else 0 }

  // ---- the operations ----

  function Adc(s: State, v: uint8): State {
    var r := s.a as int + v + Bit(s.c);
    State(r % 0x100, r % 0x100 == 0, false, s.a % 0x10 + v % 0x10 + Bit(s.c) > 0xF, r > 0xFF)
  }

  function Sbc(s: State, v: uint8): State {
    var r := s.a as int - v - Bit(s.c);
    State(r % 0x100, r % 0x100 == 0, true, s.a as int % 0x10 - v % 0x10 - Bit(s.c) < 0, r < 0)
  }

  function Add(s: State, v: uint8): State { Adc(s.(c := false), v) }

  function Sub(s: State, v: uint8): State { Sbc(s.(c := false), v) }

  /** What decimal adjustment adds after an addition, or takes away after a subtraction. */
  function Adjustment(s: State): nat {
    (if s.h || (!s.n && s.a % 0x10 > 9) then 0x06 else 0) + (if s.c || (!s.n && s.a > 0x99) then 0x60 else 0)
  }

  function Daa(s: State): State {
    var r := if s.n then (s.a as int - Adjustment(s)) % 0x100 else (s.a as int + Adjustment(s)) % 0x100;
    State(r, r == 0, s.n, false, s.c || (!s.n && s.a > 0x99))
  }

  // ---- numbers of any length, the lowest byte first ----

  function Number(value: uint8 -> nat, base: nat, d: seq<uint8>): nat {
    if d == [] then 0 else value(d[0]) + base * Number(value, base, d[1..])
  }

  function Power(base: nat, n: nat): nat { if n == 0 then 1 else base * Power(base, n - 1) }

  /** A program that runs `op` on one byte pair after the other, the flags surviving in between. */
  function Chain(op: (State, uint8) -> State, x: seq<uint8>, y: seq<uint8>, s: State): (seq<uint8>, State)
    requires |x| == |y|
    decreases |x|
  {
    if x == [] then ([], s)
    else
      var t := op(s.(a := x[0]), y[0]);
      var r := Chain(op, x[1..], y[1..], t);
      ([t.a] + r.0, r.1)
  }

  /** One step adds (sign 1) or subtracts (sign -1) with carry, in the given number base. */
  ghost predicate Steps(op: (State, uint8) -> State, digit: uint8 -> bool, value: uint8 -> nat, base: nat, sign: int) {
    forall s: State, v: uint8 :: digit(s.a) && digit(v) ==>
      digit(op(s, v).a)
      && Balanced(value(op(s, v).a), Bit(op(s, v).c), base, value(s.a), value(v) + Bit(s.c), sign)
  }

  predicate All(digit: uint8 -> bool, d: seq<uint8>) {
    forall k :: 0 <= k < |d| ==> digit(d[k])
  }

  /** What a chain over `x` and `y` must compute: the number `low` with final carry `last`. */
  ghost predicate Balanced(low: int, last: int, power: int, x: int, y: int, sign: int) {
    low + sign * (power * last) == x + sign * y
  }

  lemma Carry(base: nat, sign: int, low: int, c: int, x: int, y: int,
              high: int, last: int, power: nat, xs: int, ys: int)
    requires Balanced(low, c, base, x, y, sign) && Balanced(high, last, power, xs, ys + c, sign)
    ensures Balanced(low + base * high, last, base * power, x + base * xs, y + base * ys, sign)
  {
    calc {
      low + base * high + sign * ((base * power) * last);
      low + base * (high + sign * (power * last));
      low + base * (xs + sign * (ys + c));
      low + sign * (base * c) + base * xs + sign * (base * ys);
      x + sign * y + base * xs + sign * (base * ys);
      x + base * xs + sign * (y + base * ys);
    }
  }

  /** A chain keeps to digits and computes its sum or difference, carry in and carry out included. */
  ghost predicate Computes(op: (State, uint8) -> State, digit: uint8 -> bool, value: uint8 -> nat, base: nat, sign: int,
                           x: seq<uint8>, y: seq<uint8>, s: State)
    requires |x| == |y|
  {
    var r := Chain(op, x, y, s);
    && |r.0| == |x| && All(digit, r.0)
    && Balanced(Number(value, base, r.0), Bit(r.1.c), Power(base, |x|),
                Number(value, base, x), Number(value, base, y) + Bit(s.c), sign)
  }

  lemma NumberOf(value: uint8 -> nat, base: nat, low: uint8, high: seq<uint8>)
    ensures Number(value, base, [low] + high) == value(low) + base * Number(value, base, high)
  {
    assert ([low] + high)[1..] == high;
  }

  lemma ComputesMore(op: (State, uint8) -> State, digit: uint8 -> bool, value: uint8 -> nat, base: nat, sign: int,
                     x: seq<uint8>, y: seq<uint8>, s: State, t: State)
    requires |x| == |y| > 0 && t == op(s.(a := x[0]), y[0]) && digit(t.a)
    requires Balanced(value(t.a), Bit(t.c), base, value(x[0]), value(y[0]) + Bit(s.c), sign)
    requires Computes(op, digit, value, base, sign, x[1..], y[1..], t)
    ensures Computes(op, digit, value, base, sign, x, y, s)
  {
    var r := Chain(op, x[1..], y[1..], t);
    NumberOf(value, base, t.a, r.0);
    Carry(base, sign, value(t.a), Bit(t.c), value(x[0]), value(y[0]) + Bit(s.c),
          Number(value, base, r.0), Bit(r.1.c), Power(base, |x| - 1),
          Number(value, base, x[1..]), Number(value, base, y[1..]));
  }

  lemma {:induction false} ChainComputes(op: (State, uint8) -> State, digit: uint8 -> bool, value: uint8 -> nat,
                                         base: nat, sign: int, x: seq<uint8>, y: seq<uint8>, s: State)
    requires Steps(op, digit, value, base, sign) && |x| == |y| && All(digit, x) && All(digit, y)
    ensures Computes(op, digit, value, base, sign, x, y, s)
    decreases |x|
  {
    if x != [] {
      var t := op(s.(a := x[0]), y[0]);
      ChainComputes(op, digit, value, base, sign, x[1..], y[1..], t);
      ComputesMore(op, digit, value, base, sign, x, y, s, t);
    }
  }

  // ---- binary and packed decimal ----

  predicate AnyByte(v: uint8) { true }

  function Plain(v: uint8): nat { v }

  /** Two decimal digits in one byte. */
  predicate Packed(v: uint8) { v / 0x10 <= 9 && v % 0x10 <= 9 }

  function Decimal(v: uint8): nat { v / 0x10 * 10 + v % 0x10 }

  function AdcDaa(s: State, v: uint8): State { Daa(Adc(s, v)) }

  function SbcDaa(s: State, v: uint8): State { Daa(Sbc(s, v)) }

  lemma Nibbles(v: int, high: int, low: int)
    requires v == 0x10 * high + low && 0 <= low < 0x10
    ensures v / 0x10 == high && v % 0x10 == low
  {
  }

  /** The binary sum of two packed bytes: `low` and `high` are the sums of their digits. */
  lemma AdcOfPacked(s: State, v: uint8, low: int, high: int)
    requires Packed(s.a) && Packed(v)
    requires low == s.a % 0x10 + v % 0x10 + Bit(s.c) && high == s.a / 0x10 + v / 0x10
    ensures var t := Adc(s, v);
      && 0 <= low <= 19 && 0 <= high <= 18 && !t.n
      && t.a as int + 0x100 * Bit(t.c) == 0x10 * high + low
      && t.h == (low > 15) && t.a % 0x10 == low % 0x10
  {
    var r := s.a as int + v + Bit(s.c);
    assert r == 0x10 * high + low;
    assert 0 <= low <= 19 && 0 <= high <= 18;
    ByteAndCarry(r);
    LowNibble(high, low);
    LowNibbleOfByte(r);
  }

  lemma ByteAndCarry(r: int)
    requires 0 <= r < 0x200
    ensures r % 0x100 + 0x100 * Bit(r > 0xFF) == r
  {
  }

  lemma ByteAndBorrow(r: int)
    requires -0x100 <= r < 0x100
    ensures r % 0x100 - 0x100 * Bit(r < 0) == r
  {
  }

  lemma LowNibble(high: int, low: int)
    ensures (0x10 * high + low) % 0x10 == low % 0x10
  {
  }

  lemma LowNibbleOfByte(r: int)
    ensures r % 0x100 % 0x10 == r % 0x10
  {
  }

  lemma LowDigit(t: State, low: int)
    requires 0 <= low <= 19 && t.h == (low > 15) && t.a % 0x10 == low % 0x10
    ensures (t.h || t.a % 0x10 > 9) <==> low > 9
  {
  }

  /** The adjustment carries in each digit exactly when its sum is above nine. */
  lemma DaaAfterAdc(t: State, low: int, high: int)
    requires 0 <= low <= 19 && 0 <= high <= 18 && !t.n
    requires t.a as int + 0x100 * Bit(t.c) == 0x10 * high + low
    requires t.h == (low > 15) && t.a % 0x10 == low % 0x10
    ensures Packed(Daa(t).a) && Decimal(Daa(t).a) + 100 * Bit(Daa(t).c) == 10 * high + low
  {
    var l := if low > 9 then low - 10 else low;
    var h := if low > 9 then high + 1 else high;
    var top := if h > 9 then h - 10 else h;
    LowDigit(t, low);
    HighDigit(t, low, high, h);
    var sum := t.a as int + Adjustment(t);
    assert sum + 0x100 * Bit(t.c) == 0x10 * top + l + 0x100 * Bit(h > 9);
    ByteOf(sum, 0x10 * top + l);
    Nibbles(0x10 * top + l, top, l);
  }

  lemma ByteOf(r: int, v: int)
    requires 0 <= v < 0x100 && (r == v || r == v + 0x100 || r == v - 0x100)
    ensures r % 0x100 == v
  {
  }

  lemma HighDigit(t: State, low: int, high: int, h: int)
    requires 0 <= low <= 19 && 0 <= high <= 18 && h == (if low > 9 then high + 1 else high)
    requires t.a as int + 0x100 * Bit(t.c) == 0x10 * high + low
    ensures (t.c || t.a > 0x99) <==> h > 9
  {
  }

  lemma DecimalAddStep(s: State, v: uint8)
    requires Packed(s.a) && Packed(v)
    ensures Packed(AdcDaa(s, v).a)
    ensures Decimal(AdcDaa(s, v).a) + 100 * Bit(AdcDaa(s, v).c) == Decimal(s.a) + Decimal(v) + Bit(s.c)
  {
    var low, high := s.a % 0x10 + v % 0x10 + Bit(s.c), s.a / 0x10 + v / 0x10;
    AdcOfPacked(s, v, low, high);
    DaaAfterAdc(Adc(s, v), low, high);
  }

  /** The binary difference of two packed bytes. */
  lemma SbcOfPacked(s: State, v: uint8, low: int, high: int)
    requires Packed(s.a) && Packed(v)
    requires low == s.a as int % 0x10 - v % 0x10 - Bit(s.c) && high == s.a as int / 0x10 - v / 0x10
    ensures var t := Sbc(s, v);
      && -10 <= low <= 9 && -9 <= high <= 9 && t.n
      && t.a as int - 0x100 * Bit(t.c) == 0x10 * high + low
      && t.h == (low < 0)
  {
    var r := s.a as int - v - Bit(s.c);
    assert r == 0x10 * high + low;
    ByteAndBorrow(r);
  }

  lemma HighBorrow(t: State, low: int, high: int, h: int)
    requires -10 <= low <= 9 && -9 <= high <= 9 && h == (if low < 0 then high - 1 else high)
    requires t.a as int - 0x100 * Bit(t.c) == 0x10 * high + low
    ensures t.c <==> h < 0
  {
  }

  /** The adjustment borrows in each digit exactly when its difference is negative. */
  lemma DaaAfterSbc(t: State, low: int, high: int)
    requires -10 <= low <= 9 && -9 <= high <= 9 && t.n
    requires t.a as int - 0x100 * Bit(t.c) == 0x10 * high + low && t.h == (low < 0)
    ensures Packed(Daa(t).a) && Decimal(Daa(t).a) - 100 * Bit(Daa(t).c) == 10 * high + low
  {
    var l := if low < 0 then low + 10 else low;
    var h := if low < 0 then high - 1 else high;
    var top := if h < 0 then h + 10 else h;
    HighBorrow(t, low, high, h);
    var rest := t.a as int - Adjustment(t);
    assert rest - 0x100 * Bit(t.c) == 0x10 * top + l - 0x100 * Bit(h < 0);
    ByteOf(rest, 0x10 * top + l);
    Nibbles(0x10 * top + l, top, l);
  }

  lemma DecimalSubStep(s: State, v: uint8)
    requires Packed(s.a) && Packed(v)
    ensures Packed(SbcDaa(s, v).a)
    ensures Decimal(SbcDaa(s, v).a) - 100 * Bit(SbcDaa(s, v).c) == Decimal(s.a) - Decimal(v) - Bit(s.c)
  {
    var low, high := s.a as int % 0x10 - v % 0x10 - Bit(s.c), s.a as int / 0x10 - v / 0x10;
    SbcOfPacked(s, v, low, high);
    DaaAfterSbc(Sbc(s, v), low, high);
  }

  lemma Below(base: nat, v: nat, high: nat, power: nat)
    requires v < base && high < power
    ensures v + base * high < base * power
  {
    assert base * (high + 1) <= base * power;
  }

  lemma {:induction false} NumberBelow(digit: uint8 -> bool, value: uint8 -> nat, base: nat, d: seq<uint8>)
    requires base > 0 && All(digit, d) && forall v :: digit(v) ==> value(v) < base
    ensures Number(value, base, d) < Power(base, |d|)
    decreases |d|
  {
    if d != [] {
      NumberBelow(digit, value, base, d[1..]);
      assert digit(d[0]);
      Below(base, value(d[0]), Number(value, base, d[1..]), Power(base, |d| - 1));
    }
  }

  function Binary(d: seq<uint8>): nat { Number(Plain, 0x100, d) }

  function PackedDecimal(d: seq<uint8>): nat { Number(Decimal, 100, d) }

  lemma AdcSteps()
    ensures Steps(Adc, AnyByte, Plain, 0x100, 1)
  {
    forall s: State, v: uint8 ensures Balanced(Adc(s, v).a, Bit(Adc(s, v).c), 0x100, s.a, v + Bit(s.c), 1) {
      var r := s.a as int + v + Bit(s.c);
      assert r == 0x100 * Bit(r > 0xFF) + r % 0x100;
    }
  }

  lemma SbcSteps()
    ensures Steps(Sbc, AnyByte, Plain, 0x100, -1)
  {
    forall s: State, v: uint8 ensures Balanced(Sbc(s, v).a, Bit(Sbc(s, v).c), 0x100, s.a, v + Bit(s.c), -1) {
      var r := s.a as int - v - Bit(s.c);
      assert r == r % 0x100 - 0x100 * Bit(r < 0);
    }
  }

  lemma AdcDaaSteps()
    ensures Steps(AdcDaa, Packed, Decimal, 100, 1)
  {
    forall s: State, v: uint8 | Packed(s.a) && Packed(v)
      ensures Packed(AdcDaa(s, v).a)
      ensures Balanced(Decimal(AdcDaa(s, v).a), Bit(AdcDaa(s, v).c), 100, Decimal(s.a), Decimal(v) + Bit(s.c), 1)
    {
      DecimalAddStep(s, v);
    }
  }

  lemma SbcDaaSteps()
    ensures Steps(SbcDaa, Packed, Decimal, 100, -1)
  {
    forall s: State, v: uint8 | Packed(s.a) && Packed(v)
      ensures Packed(SbcDaa(s, v).a)
      ensures Balanced(Decimal(SbcDaa(s, v).a), Bit(SbcDaa(s, v).c), 100, Decimal(s.a), Decimal(v) + Bit(s.c), -1)
    {
      DecimalSubStep(s, v);
    }
  }

  /** Chained ADC adds numbers of any length; the carry says that the sum needs one byte more. */
  lemma BinaryAddition(x: seq<uint8>, y: seq<uint8>, s: State)
    requires |x| == |y|
    ensures var r := Chain(Adc, x, y, s);
      && |r.0| == |x| && Binary(r.0) + Power(0x100, |x|) * Bit(r.1.c) == Binary(x) + Binary(y) + Bit(s.c)
      && (r.1.c <==> Binary(x) + Binary(y) + Bit(s.c) >= Power(0x100, |x|))
  {
    AdcSteps();
    ChainComputes(Adc, AnyByte, Plain, 0x100, 1, x, y, s);
    NumberBelow(AnyByte, Plain, 0x100, Chain(Adc, x, y, s).0);
  }

  /** Chained SBC subtracts numbers of any length; the carry is the borrow. */
  lemma BinarySubtraction(x: seq<uint8>, y: seq<uint8>, s: State)
    requires |x| == |y|
    ensures var r := Chain(Sbc, x, y, s);
      && |r.0| == |x| && Binary(r.0) - Power(0x100, |x|) * Bit(r.1.c) == Binary(x) - Binary(y) - Bit(s.c)
      && (r.1.c <==> Binary(x) < Binary(y) + Bit(s.c))
  {
    SbcSteps();
    ChainComputes(Sbc, AnyByte, Plain, 0x100, -1, x, y, s);
    NumberBelow(AnyByte, Plain, 0x100, Chain(Sbc, x, y, s).0);
  }

  /** ADC followed by DAA in every step adds packed decimal numbers of any length. */
  lemma DecimalAddition(x: seq<uint8>, y: seq<uint8>, s: State)
    requires |x| == |y| && All(Packed, x) && All(Packed, y)
    ensures var r := Chain(AdcDaa, x, y, s);
      && |r.0| == |x| && All(Packed, r.0)
      && PackedDecimal(r.0) + Power(100, |x|) * Bit(r.1.c) == PackedDecimal(x) + PackedDecimal(y) + Bit(s.c)
      && (r.1.c <==> PackedDecimal(x) + PackedDecimal(y) + Bit(s.c) >= Power(100, |x|))
  {
    AdcDaaSteps();
    ChainComputes(AdcDaa, Packed, Decimal, 100, 1, x, y, s);
    NumberBelow(Packed, Decimal, 100, Chain(AdcDaa, x, y, s).0);
  }

  /** SBC followed by DAA in every step subtracts packed decimal numbers of any length. */
  lemma DecimalSubtraction(x: seq<uint8>, y: seq<uint8>, s: State)
    requires |x| == |y| && All(Packed, x) && All(Packed, y)
    ensures var r := Chain(SbcDaa, x, y, s);
      && |r.0| == |x| && All(Packed, r.0)
      && PackedDecimal(r.0) - Power(100, |x|) * Bit(r.1.c) == PackedDecimal(x) - PackedDecimal(y) - Bit(s.c)
      && (r.1.c <==> PackedDecimal(x) < PackedDecimal(y) + Bit(s.c))
  {
    SbcDaaSteps();
    ChainComputes(SbcDaa, Packed, Decimal, 100, -1, x, y, s);
    NumberBelow(Packed, Decimal, 100, Chain(SbcDaa, x, y, s).0);
  }

  // ---- sixteen bits at once ----

  /** ADD HL: the zero flag survives, the others are those of bit 11 and bit 15. */
  function AddHl(hl: uint16, s: State, v: uint16): (uint16, State) {
    var r: int := hl + v;
    (r % 0x1_0000, s.(n := false, h := hl % 0x1000 + v % 0x1000 > 0xFFF, c := r > 0xFFFF))
  }

  /** One ADD HL does what an ADD of the low bytes and an ADC of the high bytes do, but for the zero flag. */
  lemma AddHlIsAddAdc(hl: uint16, s: State, v: uint16)
    ensures var low := Add(s.(a := hl % 0x100), v % 0x100);
      var high := Adc(low.(a := hl / 0x100), v / 0x100);
      var wide := AddHl(hl, s, v);
      && wide.0 == high.a as int * 0x100 + low.a
      && wide.1.h == high.h && wide.1.c == high.c && wide.1.n == high.n
  {
    var x0, x1, y0, y1 := hl % 0x100, hl / 0x100, v % 0x100, v / 0x100;
    TwoBytes(hl);
    TwoBytes(v);
    AddBytes(x0, x1, y0, y1);
  }

  lemma TwoBytes(v: uint16)
    ensures v == 0x100 * (v / 0x100) + v % 0x100
    ensures v % 0x1000 == 0x100 * (v / 0x100 % 0x10) + v % 0x100
  {
  }

  /** The sum of two pairs of bytes, with the carries out of bits 7, 11 and 15. */
  lemma AddBytes(x0: uint8, x1: uint8, y0: uint8, y1: uint8)
    ensures var k := if x0 + y0 > 0xFF then 1 else 0;
      var r := 0x100 * (x1 + y1) + x0 + y0;
      && (r > 0xFFFF <==> x1 + y1 + k > 0xFF)
      && r % 0x1_0000 == 0x100 * ((x1 + y1 + k) % 0x100) + (x0 + y0) % 0x100
      && (0x100 * (x1 % 0x10 + y1 % 0x10) + x0 + y0 > 0xFFF <==> x1 % 0x10 + y1 % 0x10 + k > 0xF)
  {
    var low, high := x0 + y0, x1 + y1 + if x0 + y0 > 0xFF then 1 else 0;
    ByteAndCarry(low);
    ByteAndCarry(high);
    WordOf(0x100 * (x1 + y1) + low, high, low % 0x100);
  }

  lemma WordOf(r: int, high: int, low: uint8)
    requires 0 <= high < 0x200 && r == 0x100 * high + low
    ensures r % 0x1_0000 == 0x100 * (high % 0x100) + low
  {
    ByteAndCarry(high);
  }

  // ---- the processor ----

  const FLAG_Z: bv8 := 0x80
  const FLAG_N: bv8 := 0x40
  const FLAG_H: bv8 := 0x20
  const FLAG_C: bv8 := 0x10

  predicate FlagMask(mask: bv8) { mask == FLAG_Z || mask == FLAG_N || mask == FLAG_H || mask == FLAG_C }

  function With(f: bv8, mask: bv8, on: bool): bv8 { (if on then f | mask else f & !mask) & 0xF0 }

  lemma SetOne(f: bv8, mask: bv8, m: bv8, on: bool)
    requires FlagMask(mask) && FlagMask(m)
    ensures With(f, mask, on) & 0x0F == 0
    ensures With(f, mask, on) & m != 0 <==> if m == mask then on else f & m != 0
  {
  }

  lemma SetEach(f: bv8, mask: bv8, on: bool)
    requires FlagMask(mask)
    ensures With(f, mask, on) & 0x0F == 0
    ensures forall m :: FlagMask(m) ==> (With(f, mask, on) & m != 0 <==> if m == mask then on else f & m != 0)
  {
    SetOne(f, mask, mask, on);
    forall m | FlagMask(m)
      ensures With(f, mask, on) & m != 0 <==> if m == mask then on else f & m != 0
    {
      SetOne(f, mask, m, on);
    }
  }

  class Cpu {
    var a: uint8
    var f: bv8
    var hl: uint16

    ghost function Value(): State
      reads this
    {
      State(a, Flag(FLAG_Z), Flag(FLAG_N), Flag(FLAG_H), Flag(FLAG_C))
    }

    constructor ()
      ensures f & 0x0F == 0
    {
      a, f, hl := 0x01, 0xB0, 0x014D;
    }

    predicate Flag(mask: bv8)
      reads this
    {
      f & mask != 0
    }

    method SetFlag(mask: bv8, on: bool)
      requires FlagMask(mask)
      modifies this`f
      ensures f & 0x0F == 0
      ensures forall m :: FlagMask(m) ==> (Flag(m) <==> if m == mask then on else old(Flag(m)))
    {
      SetEach(f, mask, on);
      f := With(f, mask, on);
    }

    method AluAdc(v: uint8)
      modifies this`a, this`f
      ensures Value() == Adc(old(Value()), v) && f & 0x0F == 0
    {
      var c := if Flag(FLAG_C) then 1 else 0;
      var r := a as int + v + c;
      SetFlag(FLAG_H, a % 0x10 + v % 0x10 + c > 0xF);
      SetFlag(FLAG_C, r > 0xFF);
      a := r % 0x100;
      SetFlag(FLAG_Z, a == 0);
      SetFlag(FLAG_N, false);
    }

    method AluAdd(v: uint8)
      modifies this`a, this`f
      ensures Value() == Add(old(Value()), v)
    {
      var r := a as int + v;
      SetFlag(FLAG_H, a % 0x10 + v % 0x10 > 0xF);
      SetFlag(FLAG_C, r > 0xFF);
      a := r % 0x100;
      SetFlag(FLAG_Z, a == 0);
      SetFlag(FLAG_N, false);
    }

    method AluSbc(v: uint8)
      modifies this`a, this`f
      ensures Value() == Sbc(old(Value()), v)
    {
      var c := if Flag(FLAG_C) then 1 else 0;
      var r := a as int - v - c;
      SetFlag(FLAG_H, a as int % 0x10 - v % 0x10 - c < 0);
      SetFlag(FLAG_C, r < 0);
      a := r % 0x100;
      SetFlag(FLAG_Z, a == 0);
      SetFlag(FLAG_N, true);
    }

    method AluSub(v: uint8)
      modifies this`a, this`f
      ensures Value() == Sub(old(Value()), v)
    {
      SetFlag(FLAG_H, a % 0x10 < v % 0x10);
      SetFlag(FLAG_C, a < v);
      a := (a as int - v) % 0x100;
      SetFlag(FLAG_Z, a == 0);
      SetFlag(FLAG_N, true);
    }

    method AddToHl(v: uint16)
      modifies this`hl, this`f
      ensures (hl, Value()) == AddHl(old(hl), old(Value()), v)
    {
      var r: int := hl + v;
      SetFlag(FLAG_N, false);
      SetFlag(FLAG_H, hl % 0x1000 + v % 0x1000 > 0xFFF);
      SetFlag(FLAG_C, r > 0xFFFF);
      hl := r % 0x1_0000;
    }

    method DecimalAdjust()
      modifies this`a, this`f
      ensures Value() == Daa(old(Value()))
    {
      var r, adjust := a as int, 0;
      var c := Flag(FLAG_C);
      if !Flag(FLAG_N) {
        if Flag(FLAG_H) || r % 0x10 > 9 {
          adjust := adjust + 0x06;
        }
        if c || r > 0x99 {
          adjust := adjust + 0x60;
          c := true;
        }
        r := r + adjust;
      } else {
        if Flag(FLAG_H) {
          adjust := adjust + 0x06;
        }
        if c {
          adjust := adjust + 0x60;
        }
        r := r - adjust;
      }
      a := r % 0x100;
      SetFlag(FLAG_Z, a == 0);
      SetFlag(FLAG_H, false);
      SetFlag(FLAG_C, c);
    }
  }
}
