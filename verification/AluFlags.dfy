/** What the flags say about the numbers, and where they are in the flag register. */
module AluFlags {
  import opened Bytes
  import opened Alu

  /** A subtraction compares: the zero flag says equal, the carry less, the half carry less in the low digit. */
  lemma Comparison(s: State, v: uint8)
    ensures var t := Sub(s, v);
      (t.z <==> s.a == v) && (t.c <==> s.a < v) && (t.h <==> s.a % 0x10 < v % 0x10) && t.n
  {
  }

  /** With a borrow from below it compares with one more; the result may also be zero by wrapping. */
  lemma BorrowingComparison(s: State, v: uint8)
    requires s.c
    ensures var t := Sbc(s, v);
      && (t.z <==> s.a as int == v as int + 1 || (s.a == 0 && v == 0xFF)) && (t.c <==> s.a <= v) && t.n
      && (t.h <==> s.a % 0x10 <= v % 0x10)
  {
  }

  /** After an addition the zero flag says that both summands and the carry were zero or that they filled the byte
      exactly; then the carry flag tells which. */
  lemma ZeroSum(s: State, v: uint8)
    ensures var t := Adc(s, v);
      && (t.z <==> (s.a == 0 && v == 0 && !s.c) || s.a as int + v + Bit(s.c) == 0x100)
      && (t.c ==> s.a as int + v + Bit(s.c) >= 0x100) && !t.n
      && (t.h <==> s.a % 0x10 + v % 0x10 + Bit(s.c) >= 0x10)
      && (t.z && !t.c ==> s.a == 0 && v == 0 && !s.c)
  {
  }

  /** Z, N, H and C are bits 7 to 4, and the register holds nothing else. */
  lemma FlagRegister(cpu: Cpu)
    requires cpu.f & 0x0F == 0
    ensures var s := cpu.Value();
      cpu.f == (if s.z then 0x80 else 0) | (if s.n then 0x40 else 0) | (if s.h then 0x20 else 0)
               | (if s.c then 0x10 else 0)
  {
  }
}
