/** DIV and TIMA: the counter that steps on falling edges of a DIV bit, its delayed reload,
    and the register writes that can make or suppress an edge. */
module Timer {
  import opened Bytes

  /** The timer between T-cycles, with the steps and interrupt requests counted so far. */
  datatype State = State(
    div: uint16, tima: uint8, tma: uint8, tac: uint8,
    overflow: bool, delay: nat, reloaded: bool, steps: nat, requests: nat)

  /** Value of the DIV bit that TAC selects: 2 to the power 9, 3, 5 or 7. */
  function HalfPeriod(tac: uint8): (h: nat)
    ensures h > 0
  {
    match tac % 4
    case 0 => 512
    case 1 => 8
    case 2 => 32
    case _ => 128
  }

  predicate Enabled(tac: uint8) { tac / 4 % 2 == 1 }

  /** The selected DIV bit, masked by the enable bit. */
  predicate Signal(div: uint16, tac: uint8) {
    div / HalfPeriod(tac) % 2 == 1 && Enabled(tac)
  }

  /** TIMA counts one edge; 0xFF becomes 0 with a reload four T-cycles away. */
  function TimaStep(s: State): State {
    if s.tima == 0xFF then s.(tima := 0, delay := 4, overflow := true, steps := s.steps + 1)
    else s.(tima := s.tima + 1, steps := s.steps + 1)
  }

  /** The reload counts down, and on its last T-cycle TMA is loaded and an interrupt requested. */
  function Reload(s: State): State {
    if s.delay == 0 then s
    else if s.delay > 1 then s.(delay := s.delay - 1)
    else s.(delay := 0, tima := s.tma, overflow := false, reloaded := true, requests := s.requests + 1)
  }

  /** One T-cycle. */
  function Cycle(s: State): State {
    var div := (s.div + 1) % 0x1_0000;
    var r := Reload(s.(div := div));
    if Signal(s.div, s.tac) && !Signal(div, s.tac) then TimaStep(r) else r
  }

  /** What can happen to the timer: a T-cycle, the start of a machine cycle, a write. */
  datatype Event = TCycle | MachineCycle | WriteDiv | WriteTima(v: uint8) | WriteTma(v: uint8) | WriteTac(v: uint8)

  function StepIfFell(before: State, after: State): State {
    if Signal(before.div, before.tac) && !Signal(after.div, after.tac) then TimaStep(after) else after
  }

  function Apply(s: State, e: Event): State {
    match e
    case TCycle => Cycle(s)
    case MachineCycle => s.(reloaded := false)
    case WriteDiv => StepIfFell(s, s.(div := 0))
    case WriteTima(v) =>
      if s.reloaded then s
      else if s.delay > 0 then s.(delay := 0, overflow := false, tima := v)
      else s.(tima := v)
    case WriteTma(v) => if s.reloaded then s.(tma := v, tima := v) else s.(tma := v)
    case WriteTac(v) => StepIfFell(s, s.(tac := v % 8))
  }

  function Run(s: State, es: seq<Event>): State
    decreases |es|
  {
    if es == [] then s else Apply(Run(s, es[..|es| - 1]), es[|es| - 1])
  }

  // ---- the timer as the emulator keeps it ----

  class TimerUnit {
    var divCounter: uint16
    var tima: uint8
    var tma: uint8
    var tac: uint8
    var timaOverflow: bool
    var timaReloadDelay: nat
    var timaReloaded: bool
    var timerRequested: bool
    ghost var steps: nat
    ghost var requests: nat

    ghost function Abs(): State
      reads this
    { State(divCounter, tima, tma, tac, timaOverflow, timaReloadDelay, timaReloaded, steps, requests) }

    function TimerSignal(): bool
      reads this
    { divCounter / HalfPeriod(tac) % 2 == 1 && tac / 4 % 2 == 1 }

    method Step()
      modifies `tima, `timaReloadDelay, `timaOverflow, `steps
      ensures Abs() == TimaStep(old(Abs()))
    {
      if tima == 0xFF {
        tima, timaReloadDelay, timaOverflow := 0, 4, true;
      } else {
        tima := tima + 1;
      }
      steps := steps + 1;
    }

    method Increment()
      modifies this
      ensures Abs() == Cycle(old(Abs()))
      ensures timerRequested == (old(timerRequested) || requests > old(requests))
    {
      var before := TimerSignal();
      divCounter := (divCounter + 1) % 0x1_0000;
      if timaReloadDelay > 0 {
        timaReloadDelay := timaReloadDelay - 1;
        if timaReloadDelay == 0 {
          tima, timaOverflow, timaReloaded, timerRequested := tma, false, true, true;
          requests := requests + 1;
        }
      }
      if before && !TimerSignal() {
        Step();
      }
    }

    /** One machine cycle of `tcycles` T-cycles. */
    method Tick(tcycles: nat)
      modifies this
      ensures Abs() == Run(old(Abs()), [MachineCycle] + seq(tcycles, _ => TCycle))
    {
      ghost var s0, events := Abs(), [MachineCycle];
      timaReloaded := false;
      assert Run(s0, events[..0]) == s0;
      var i := 0;
      while i < tcycles
        invariant 0 <= i <= tcycles && events == [MachineCycle] + seq(i, _ => TCycle)
        invariant Abs() == Run(s0, events)
      {
        Increment();
        ghost var more := events + [TCycle];
        assert more[..|events|] == events;
        events := more;
        i := i + 1;
      }
    }

    method Write(addr: int, val: uint8)
      modifies this
      ensures Abs() == match addr
                       case 0xFF04 => Apply(old(Abs()), WriteDiv)
                       case 0xFF05 => Apply(old(Abs()), WriteTima(val))
                       case 0xFF06 => Apply(old(Abs()), WriteTma(val))
                       case 0xFF07 => Apply(old(Abs()), WriteTac(val))
                       case _ => old(Abs())
    {
      if addr == 0xFF04 {
        var oldSig := TimerSignal();
        divCounter := 0;
        if oldSig && !TimerSignal() {
          Step();
        }
      } else if addr == 0xFF05 {
        if timaReloaded {
          // the reload wins
        } else if timaReloadDelay > 0 {
          timaReloadDelay, timaOverflow, tima := 0, false, val;
        } else {
          tima := val;
        }
      } else if addr == 0xFF06 {
        tma := val;
        if timaReloaded {
          tima := val;
        }
      } else if addr == 0xFF07 {
        var oldSig := TimerSignal();
        tac := val % 8;
        if oldSig && !TimerSignal() {
          Step();
        }
      }
    }
  }

  // ---- edges, over any interleaving of cycles and writes ----

  /** Falling edges of the signal during a run. */
  function Falls(s: State, es: seq<Event>): nat
    decreases |es|
  {
    if es == [] then 0
    else
      var before, after := Run(s, es[..|es| - 1]), Run(s, es);
      Falls(s, es[..|es| - 1])
      + (if Signal(before.div, before.tac) && !Signal(after.div, after.tac) then 1 else 0)
  }

  /** A reload is pending exactly while the overflow flag is set, for at most four cycles. */
  predicate Consistent(s: State) { s.delay <= 4 && (s.overflow <==> s.delay > 0) }

  lemma ApplyCounts(s: State, e: Event)
    requires Consistent(s)
    ensures
      var t := Apply(s, e);
      && Consistent(t)
      && t.steps == s.steps + (if Signal(s.div, s.tac) && !Signal(t.div, t.tac) then 1 else 0)
  {
  }

  /** Whatever the program does, TIMA is stepped once per falling edge. */
  lemma {:induction false} StepsAreFalls(s: State, es: seq<Event>)
    requires Consistent(s)
    ensures Consistent(Run(s, es)) && Run(s, es).steps == s.steps + Falls(s, es)
  {
    if es != [] {
      StepsAreFalls(s, es[..|es| - 1]);
      ApplyCounts(Run(s, es[..|es| - 1]), es[|es| - 1]);
    }
  }

  // ---- closed form, without writes ----

  function Cycles(s: State, n: nat): State
    decreases 2 * n
  {
    if n == 0 then s else Cycle(Cycles(s, n - 1))
  }

  function Period(tac: uint8): (p: nat)
    ensures p >= 16
  { 2 * HalfPeriod(tac) }

  /** The timer once the counter stands at d, `e` edges after state s and `since` cycles
      after the last of them. */
  function AfterEdges(s: State, d: uint16, e: nat, since: nat): State {
    var m, v := 256 - s.tma, s.tima + e;
    var t := s.(div := d, steps := s.steps + e);
    if v < 256 then t.(tima := v)
    else
      var rounds, w := (v - 256) / m, (v - 256) % m;
      if w == 0 && since < 4 then
        t.(tima := 0, delay := 4 - since, overflow := true, requests := s.requests + rounds,
           reloaded := s.reloaded || rounds > 0)
      else
        t.(tima := s.tma + w, requests := s.requests + rounds + 1, reloaded := true)
  }

  /** The timer n T-cycles after an enabled state with no reload pending: with x the phase
      of the counter n cycles on, x / p edges have come, and x % p cycles have gone by since
      the last one. */
  function ClosedForm(s: State, n: nat): State {
    AfterEdges(s, (s.div + n) % 0x1_0000, EdgesBy(s, n), Since(s, n))
  }

  function EdgesBy(s: State, n: nat): nat { (s.div % Period(s.tac) + n) / Period(s.tac) }

  function Since(s: State, n: nat): nat { (s.div % Period(s.tac) + n) % Period(s.tac) }

  lemma NextMultiple(q: nat, m: nat)
    ensures (q + 1) * m == q * m + m
  {
  }

  lemma DivNext(x: nat, m: nat)
    requires m > 0
    ensures if x % m == m - 1 then (x + 1) % m == 0 && (x + 1) / m == x / m + 1
            else (x + 1) % m == x % m + 1 && (x + 1) / m == x / m
  {
    var q, r := x / m, x % m;
    assert x == q * m + r;
    NextMultiple(q, m);
    if r == m - 1 {
      DivExact(x + 1, m, q + 1, 0);
    } else {
      DivExact(x + 1, m, q, r + 1);
    }
  }

  lemma DivExact(x: nat, m: nat, q: nat, r: nat)
    requires m > 0 && r < m && x == q * m + r
    ensures x / m == q && x % m == r
  {
    var q', r' := x / m, x % m;
    assert q' * m + r' == q * m + r;
    assert q < q' ==> (q + 1) * m <= q' * m;
    assert q' < q ==> (q' + 1) * m <= q * m;
  }

  lemma BitFalls512(y: uint16)
    ensures y / 512 % 2 == 1 && (y + 1) % 0x1_0000 / 512 % 2 != 1 <==> (y + 1) % 1024 == 0
  {
  }

  lemma BitFalls8(y: uint16)
    ensures y / 8 % 2 == 1 && (y + 1) % 0x1_0000 / 8 % 2 != 1 <==> (y + 1) % 16 == 0
  {
  }

  lemma BitFalls32(y: uint16)
    ensures y / 32 % 2 == 1 && (y + 1) % 0x1_0000 / 32 % 2 != 1 <==> (y + 1) % 64 == 0
  {
  }

  lemma BitFalls128(y: uint16)
    ensures y / 128 % 2 == 1 && (y + 1) % 0x1_0000 / 128 % 2 != 1 <==> (y + 1) % 256 == 0
  {
  }

  /** The selected bit falls when the counter reaches a multiple of the period. */
  lemma SignalFalls(y: uint16, tac: uint8)
    requires Enabled(tac)
    ensures Signal(y, tac) && !Signal((y + 1) % 0x1_0000, tac) <==> (y + 1) % Period(tac) == 0
  {
    BitFalls512(y);
    BitFalls8(y);
    BitFalls32(y);
    BitFalls128(y);
  }

  lemma LastPhase(tac: uint8)
    ensures 0xFFFF % Period(tac) == Period(tac) - 1
  {
  }

  lemma CounterStep(x: nat)
    ensures (x + 1) % 0x1_0000 == if x % 0x1_0000 == 0xFFFF then 0 else x % 0x1_0000 + 1
  {
  }

  lemma PhaseAfter(x: nat, y: nat, p: nat)
    requires p > 0 && x % p == y % p
    ensures (x + 1) % p == (y + 1) % p
  {
    DivNext(x, p);
    DivNext(y, p);
  }

  lemma PhaseAfterLast(y: nat, p: nat)
    requires p > 0 && y % p == p - 1
    ensures (y + 1) % p == 0
  {
    DivNext(y, p);
  }

  lemma PhaseStep(before: nat, after: nat, y: nat, p: nat)
    requires p > 0 && 0xFFFF % p == p - 1 && before % p == y % p
    requires after == if before == 0xFFFF then 0 else before + 1
    ensures after % p == (y + 1) % p
  {
    if before == 0xFFFF {
      PhaseAfterLast(y, p);
    } else {
      PhaseAfter(before, y, p);
    }
  }

  lemma SamePhase(d: nat, p: nat)
    requires p > 0
    ensures d % p % p == d % p
  {
    DivExact(d % p, p, 0, d % p);
  }

  /** The counter's width is a multiple of the period, so its phase never jumps. */
  lemma {:induction false} PhaseInStep(d: uint16, n: nat, p: nat)
    requires p > 0 && 0xFFFF % p == p - 1
    ensures (d + n) % 0x1_0000 % p == (d % p + n) % p
    decreases n
  {
    if n == 0 {
      SamePhase(d, p);
    } else {
      PhaseInStep(d, n - 1, p);
      CounterStep(d + (n - 1));
      PhaseStep((d + (n - 1)) % 0x1_0000, (d + n) % 0x1_0000, d % p + (n - 1), p);
    }
  }

  /** The number of edges is the number of multiples of the period passed. */
  lemma EdgesPassed(d: nat, n: nat, p: nat)
    requires p > 0
    ensures (d % p + n) / p == (d + n) / p - d / p
  {
    var q, a := d / p, (d % p + n) / p;
    Whole(d, p);
    Whole(d % p + n, p);
    SumTimes(q, a, p);
    DivExact(d + n, p, q + a, (d % p + n) % p);
  }

  lemma Whole(x: nat, p: nat)
    requires p > 0
    ensures x == x / p * p + x % p && x % p < p
  {
  }

  lemma SumTimes(q: nat, a: nat, p: nat)
    ensures (q + a) * p == q * p + a * p
  {
  }

  lemma CounterNext(d: uint16, n: nat)
    ensures (d + n + 1) % 0x1_0000 == ((d + n) % 0x1_0000 + 1) % 0x1_0000
  {
  }

  lemma LastOfPeriod(d: nat, p: nat)
    requires p > 0
    ensures (d + 1) % p == 0 <==> d % p == p - 1
  {
    DivNext(d, p);
  }

  /** One cycle moves the phase on by one, and there is an edge when it wraps. */
  lemma PhaseNext(s: State, n: nat)
    requires Enabled(s.tac)
    ensures
      var p, x := Period(s.tac), s.div % Period(s.tac) + n;
      var d, d' := (s.div + n) % 0x1_0000, (s.div + n + 1) % 0x1_0000;
      && d' == (d + 1) % 0x1_0000
      && (Signal(d, s.tac) && !Signal(d', s.tac) <==> x % p == p - 1)
      && (if x % p == p - 1 then (x + 1) % p == 0 && (x + 1) / p == x / p + 1
          else (x + 1) % p == x % p + 1 && (x + 1) / p == x / p)
  {
    var p, d := Period(s.tac), (s.div + n) % 0x1_0000;
    CounterNext(s.div, n);
    SignalFalls(d, s.tac);
    LastOfPeriod(d, p);
    LastPhase(s.tac);
    PhaseInStep(s.div, n, p);
    DivNext(s.div % p + n, p);
  }

  lemma CycleBetweenEdges(s: State, d: uint16, e: nat, since: nat)
    requires !s.overflow && s.delay == 0
    requires var d' := (d + 1) % 0x1_0000; !(Signal(d, s.tac) && !Signal(d', s.tac))
    ensures Cycle(AfterEdges(s, d, e, since)) == AfterEdges(s, (d + 1) % 0x1_0000, e, since + 1)
  {
  }

  lemma CycleAtEdge(s: State, d: uint16, e: nat, since: nat)
    requires !s.overflow && s.delay == 0 && since >= 4
    requires var d' := (d + 1) % 0x1_0000; Signal(d, s.tac) && !Signal(d', s.tac)
    ensures Cycle(AfterEdges(s, d, e, since)) == AfterEdges(s, (d + 1) % 0x1_0000, e + 1, 0)
  {
    var v := s.tima + e;
    if v >= 256 {
      DivNext(v - 256, 256 - s.tma);
    }
  }

  /** Edges passed and cycles since, at the next cycle. */
  lemma PhaseAt(s: State, n: nat) returns (e: nat, since: nat, edge: bool)
    requires Enabled(s.tac)
    ensures
      var d, d' := (s.div + n) % 0x1_0000, (s.div + n + 1) % 0x1_0000;
      d' == (d + 1) % 0x1_0000 && (edge <==> Signal(d, s.tac) && !Signal(d', s.tac)) && (edge ==> since >= 4)
    ensures EdgesBy(s, n) == e && Since(s, n) == since
    ensures EdgesBy(s, n + 1) == (if edge then e + 1 else e) && Since(s, n + 1) == if edge then 0 else since + 1
  {
    var p := Period(s.tac);
    PhaseNext(s, n);
    e, since := EdgesBy(s, n), Since(s, n);
    edge := since == p - 1;
  }

  lemma ClosedFormNext(s: State, n: nat)
    requires Enabled(s.tac) && !s.overflow && s.delay == 0
    ensures Cycle(ClosedForm(s, n)) == ClosedForm(s, n + 1)
  {
    var e, since, edge := PhaseAt(s, n);
    var d := (s.div + n) % 0x1_0000;
    if edge {
      CycleAtEdge(s, d, e, since);
    } else {
      CycleBetweenEdges(s, d, e, since);
    }
  }

  lemma ClosedFormStart(s: State)
    requires !s.overflow && s.delay == 0
    ensures ClosedForm(s, 0) == s
  {
    DivExact(s.div % Period(s.tac), Period(s.tac), 0, s.div % Period(s.tac));
  }

  lemma {:induction false} CyclesInClosedForm(s: State, n: nat)
    requires Enabled(s.tac) && !s.overflow && s.delay == 0
    ensures Cycles(s, n) == ClosedForm(s, n)
    decreases n
  {
    if n > 0 {
      CyclesInClosedForm(s, n - 1);
      ClosedFormNext(s, n - 1);
    } else {
      ClosedFormStart(s);
    }
  }

  /** Closed form of any number of T-cycles, with the edges counted by multiples of the period passed. */
  lemma TimerClosedForm(s: State, n: nat)
    requires s.tac / 4 % 2 == 1 && !s.overflow && s.delay == 0
    ensures Cycles(s, n) == ClosedForm(s, n)
    ensures s.tac % 4 == 0 ==> EdgesBy(s, n) == (s.div + n) / 1024 - s.div / 1024
    ensures s.tac % 4 == 1 ==> EdgesBy(s, n) == (s.div + n) / 16 - s.div / 16
    ensures s.tac % 4 == 2 ==> EdgesBy(s, n) == (s.div + n) / 64 - s.div / 64
    ensures s.tac % 4 == 3 ==> EdgesBy(s, n) == (s.div + n) / 256 - s.div / 256
  {
    CyclesInClosedForm(s, n);
    EdgesInPeriods(s, n, Period(s.tac));
  }

  lemma EdgesInPeriods(s: State, n: nat, p: nat)
    requires p == Period(s.tac)
    ensures EdgesBy(s, n) == (s.div + n) / p - s.div / p
  {
    EdgesPassed(s.div, n, p);
  }

  // ---- grouped into machine cycles ----

  function TCycles(es: seq<Event>): nat
    decreases |es|
  {
    if es == [] then 0 else TCycles(es[..|es| - 1]) + (if es[|es| - 1] == TCycle then 1 else 0)
  }

  /** How the T-cycles are grouped only shows in the flag that a write consults. */
  lemma {:induction false} GroupingIsImmaterial(s: State, es: seq<Event>)
    requires Enabled(s.tac) && !s.overflow && s.delay == 0
    requires forall k :: 0 <= k < |es| ==> es[k] == TCycle || es[k] == MachineCycle
    ensures Run(s, es).(reloaded := false) == ClosedForm(s, TCycles(es)).(reloaded := false)
  {
    if es == [] {
      ClosedFormStart(s);
    } else {
      var front := es[..|es| - 1];
      GroupingIsImmaterial(s, front);
      if es[|es| - 1] == TCycle {
        FlagIsImmaterial(Run(s, front), ClosedForm(s, TCycles(front)));
        ClosedFormNext(s, TCycles(front));
      }
    }
  }

  lemma FlagIsImmaterial(s: State, t: State)
    requires s.(reloaded := false) == t.(reloaded := false)
    ensures Cycle(s).(reloaded := false) == Cycle(t).(reloaded := false)
  {
  }
}
