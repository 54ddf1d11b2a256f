/** What becomes of a TIMA overflow, over any interleaving of cycles and writes: a reload with its interrupt, unless
    a write to TIMA cancels it in time. */
module TimerReload {
  import opened Bytes
  import opened Timer

  function One(b: bool): nat { if b then 1 else 0 }

  /** TIMA just before the step of event e: the reload comes first. */
  function TimaBefore(s: State, e: Event): uint8 { if e == TCycle && s.delay == 1 then s.tma else s.tima }

  /** Event e makes TIMA overflow: it brings a falling edge, and TIMA stands at 0xFF. */
  predicate Overflows(s: State, e: Event) {
    Signal(s.div, s.tac) && !Signal(Apply(s, e).div, Apply(s, e).tac) && TimaBefore(s, e) == 0xFF
  }

  /** A write to TIMA that meets a pending reload, other than in the machine cycle of a reload. */
  predicate Cancels(s: State, e: Event) { e.WriteTima? && s.overflow && !s.reloaded }

  /** An overflow that meets a pending reload, which starts again. */
  predicate Restarts(s: State, e: Event) { Overflows(s, e) && s.overflow && !(e == TCycle && s.delay == 1) }

  function Count(p: (State, Event) -> bool, s: State, es: seq<Event>): nat
    decreases |es|
  {
    if es == [] then 0
    else Count(p, s, es[..|es| - 1]) + One(p(Run(s, es[..|es| - 1]), es[|es| - 1]))
  }

  lemma OneEvent(s: State, e: Event)
    requires Consistent(s)
    ensures Consistent(Apply(s, e))
    ensures s.requests + One(s.overflow) + One(Overflows(s, e)) ==
            Apply(s, e).requests + One(Apply(s, e).overflow) + One(Cancels(s, e)) + One(Restarts(s, e))
  {
  }

  /** Every overflow is accounted for: it has led to an interrupt request, or its reload is still pending, or a write
      cancelled it, or another overflow took its place. */
  lemma {:induction false} OverflowAccount(s: State, es: seq<Event>)
    requires Consistent(s)
    ensures Consistent(Run(s, es))
    ensures s.requests + One(s.overflow) + Count(Overflows, s, es) ==
            Run(s, es).requests + One(Run(s, es).overflow) + Count(Cancels, s, es) + Count(Restarts, s, es)
    decreases |es|
  {
    if es != [] {
      var most := es[..|es| - 1];
      OverflowAccount(s, most);
      OneEvent(Run(s, most), es[|es| - 1]);
    }
  }

  lemma OneMore(s: State, es: seq<Event>, e: Event)
    ensures Run(s, es + [e]) == Apply(Run(s, es), e)
    ensures forall p :: Count(p, s, es + [e]) == Count(p, s, es) + One(p(Run(s, es), e))
  {
    assert (es + [e])[..|es|] == es;
  }

  // ---- a program writes once a machine cycle at most ----

  predicate IsWrite(e: Event) { e != TCycle && e != MachineCycle }

  /** Machine cycles of four T-cycles, each followed by a write or by none. */
  function Program(ws: seq<Option<Event>>): seq<Event> {
    if ws == [] then []
    else
      var es := Program(ws[..|ws| - 1]) + [MachineCycle] + [TCycle] + [TCycle] + [TCycle] + [TCycle];
      match ws[|ws| - 1]
      case None => es
      case Some(w) => es + [w]
  }

  /** No falling edge within the next n cycles. */
  predicate Quiet(div: uint16, tac: uint8, n: nat) {
    forall i :: 0 <= i < n ==> !FallsAt(div, tac, i)
  }

  predicate FallsAt(div: uint16, tac: uint8, i: nat) {
    Signal((div + i) % 0x1_0000, tac) && !Signal((div + i + 1) % 0x1_0000, tac)
  }

  lemma NotYet(p: nat, y: nat, i: nat)
    requires i < 4 && p > 4 && y % p == 0
    ensures (y + i + 1) % p == i + 1
  {
    Whole(y, p);
    DivExact(y + i + 1, p, y / p, i + 1);
  }

  lemma RoomForFour(y: uint16, i: nat)
    requires i < 4 && y % 16 == 0
    ensures y + i + 1 < 0x1_0000
  {
  }

  lemma FallsUnwrapped(y: uint16, tac: uint8, i: nat)
    requires y + i + 1 < 0x1_0000
    ensures FallsAt(y, tac, i) <==> Signal(y + i, tac) && !Signal((y + i + 1) % 0x1_0000, tac)
  {
  }

  lemma NoEdgeYet(y: uint16, tac: uint8, i: nat)
    requires Enabled(tac) && i < 4 && y % Period(tac) == 0 && y % 16 == 0
    ensures !FallsAt(y, tac, i)
  {
    RoomForFour(y, i);
    FallsUnwrapped(y, tac, i);
    SignalFalls(y + i, tac);
    NotYet(Period(tac), y, i);
  }

  lemma Sixteens(k: nat)
    ensures 16 * k % 16 == 0
  {
  }

  lemma Multiple(y: nat, p: nat, m: nat) returns (k: nat)
    requires p == 16 * m && m > 0 && y % p == 0
    ensures y == 16 * k
  {
    k := m * (y / p);
    assert y == p * (y / p);
    Regroup(m, y / p);
  }

  lemma Regroup(m: nat, q: nat)
    ensures 16 * m * q == 16 * (m * q)
  {
  }

  lemma NoRemainder(p: nat)
    requires p > 0
    ensures 0 % p == 0
  {
  }

  lemma ZeroPhase(div: uint16, p: nat, y: uint16)
    requires (p == 16 || p == 64 || p == 256 || p == 1024) && (div + 1) % p == 0
    requires y == if div == 0xFFFF then 0 else div + 1
    ensures y % p == 0 && y % 16 == 0
  {
    NoRemainder(p);
    var k := Multiple(y, p, p / 16);
    Sixteens(k);
  }

  /** Right after an edge there is none for at least four cycles. */
  lemma QuietAfterEdge(div: uint16, tac: uint8, y: uint16)
    requires y == (div + 1) % 0x1_0000 && Signal(div, tac) && !Signal(y, tac)
    ensures Quiet(y, tac, 4)
  {
    SignalFalls(div, tac);
    ZeroPhase(div, Period(tac), y);
    forall i | 0 <= i < 4 ensures !FallsAt(y, tac, i) {
      NoEdgeYet(y, tac, i);
    }
  }

  lemma QuietNext(div: uint16, tac: uint8, n: nat, y: uint16)
    requires y == (div + 1) % 0x1_0000 && n > 0 && Quiet(div, tac, n)
    ensures !(Signal(div, tac) && !Signal(y, tac)) && Quiet(y, tac, n - 1)
  {
    FallsNow(div, tac, y);
    assert !FallsAt(div, tac, 0);
    forall i | 0 <= i < n - 1 ensures !FallsAt(y, tac, i) {
      var j := i + 1;
      assert !FallsAt(div, tac, j);
      FallsOnward(div, tac, i, j, y);
    }
  }

  lemma FallsNow(div: uint16, tac: uint8, y: uint16)
    requires y == (div + 1) % 0x1_0000
    ensures FallsAt(div, tac, 0) <==> Signal(div, tac) && !Signal(y, tac)
  {
  }

  lemma FallsOnward(div: uint16, tac: uint8, i: nat, j: nat, y: uint16)
    requires y == (div + 1) % 0x1_0000 && j == i + 1
    ensures FallsAt(y, tac, i) <==> FallsAt(div, tac, j)
  {
    Onward(div, i);
  }

  lemma Onward(div: uint16, i: nat)
    ensures ((div + 1) % 0x1_0000 + i) % 0x1_0000 == (div + (i + 1)) % 0x1_0000
    ensures ((div + 1) % 0x1_0000 + i + 1) % 0x1_0000 == (div + (i + 1) + 1) % 0x1_0000
  {
  }

  /** A reload pending after k cycles of a machine cycle either comes from an overflow within them, or is older and
      comes due within the machine cycle, before TIMA can be at 0xFF again. */
  predicate Pending(s: State, k: nat) {
    s.overflow ==>
      || (s.tima == 0 && Quiet(s.div, s.tac, s.delay))
      || (s.delay + k <= 4 && (Quiet(s.div, s.tac, s.delay) || s.tima + s.delay <= 6))
  }

  lemma CycleAtEdge(s: State, k: nat)
    requires Consistent(s) && Pending(s, k) && k < 4
    requires Signal(s.div, s.tac) && !Signal((s.div + 1) % 0x1_0000, s.tac)
    ensures Pending(Cycle(s), k + 1) && !Restarts(s, TCycle)
  {
    var y := (s.div + 1) % 0x1_0000;
    QuietAfterEdge(s.div, s.tac, y);
    if s.delay > 0 && Quiet(s.div, s.tac, s.delay) {
      QuietNext(s.div, s.tac, s.delay, y);
    }
    assert s.delay > 1 ==> s.tima + s.delay <= 6;
  }

  lemma CycleBetween(s: State, k: nat)
    requires Consistent(s) && Pending(s, k) && k < 4
    requires !(Signal(s.div, s.tac) && !Signal((s.div + 1) % 0x1_0000, s.tac))
    ensures Pending(Cycle(s), k + 1) && !Restarts(s, TCycle)
  {
    if s.delay > 0 && Quiet(s.div, s.tac, s.delay) {
      QuietNext(s.div, s.tac, s.delay, (s.div + 1) % 0x1_0000);
    }
  }

  lemma CyclePending(s: State, k: nat)
    requires Consistent(s) && Pending(s, k) && k < 4
    ensures Pending(Cycle(s), k + 1) && !Restarts(s, TCycle)
  {
    if Signal(s.div, s.tac) && !Signal((s.div + 1) % 0x1_0000, s.tac) {
      CycleAtEdge(s, k);
    } else {
      CycleBetween(s, k);
    }
  }

  lemma WritePending(s: State, w: Event)
    requires Consistent(s) && Pending(s, 4) && IsWrite(w)
    ensures Pending(Apply(s, w), 0) && !Restarts(s, w)
  {
  }

  lemma Unstarted(s: State, es: seq<Event>, e: Event, k: nat)
    requires Consistent(Run(s, es)) && Pending(Run(s, es), k) && Count(Restarts, s, es) == 0
    requires (e == TCycle && k < 4) || (IsWrite(e) && k == 4)
    ensures Consistent(Run(s, es + [e])) && Count(Restarts, s, es + [e]) == 0
    ensures Pending(Run(s, es + [e]), if e == TCycle then k + 1 else 0)
  {
    OneMore(s, es, e);
    OneEvent(Run(s, es), e);
    if e == TCycle {
      CyclePending(Run(s, es), k);
    } else {
      WritePending(Run(s, es), e);
    }
  }

  /** So no overflow ever meets a pending reload. */
  lemma {:induction false} NoRestarts(s: State, ws: seq<Option<Event>>)
    requires Consistent(s) && !s.overflow
    requires forall k :: 0 <= k < |ws| && ws[k].Some? ==> IsWrite(ws[k].value)
    ensures var es := Program(ws);
      Consistent(Run(s, es)) && Pending(Run(s, es), 0) && Count(Restarts, s, es) == 0
    decreases |ws|
  {
    if ws != [] {
      NoRestarts(s, ws[..|ws| - 1]);
      var es := Program(ws[..|ws| - 1]);
      OneMore(s, es, MachineCycle);
      es := es + [MachineCycle];
      Unstarted(s, es, TCycle, 0);
      Unstarted(s, es + [TCycle], TCycle, 1);
      Unstarted(s, es + [TCycle] + [TCycle], TCycle, 2);
      Unstarted(s, es + [TCycle] + [TCycle] + [TCycle], TCycle, 3);
      es := es + [TCycle] + [TCycle] + [TCycle] + [TCycle];
      if ws[|ws| - 1].Some? {
        Unstarted(s, es, ws[|ws| - 1].value, 4);
      } else {
        NoWrite(Run(s, es));
      }
    }
  }

  lemma NoWrite(s: State)
    requires Pending(s, 4) && Consistent(s)
    ensures Pending(s, 0)
  {
  }

  /** Over any program from a state without a pending reload: every overflow has led to exactly one interrupt
      request, or is still pending, or was cancelled. */
  lemma ProgramAccount(s: State, ws: seq<Option<Event>>)
    requires Consistent(s) && !s.overflow
    requires forall k :: 0 <= k < |ws| && ws[k].Some? ==> IsWrite(ws[k].value)
    ensures var es := Program(ws);
      Count(Overflows, s, es) ==
      Run(s, es).requests - s.requests + One(Run(s, es).overflow) + Count(Cancels, s, es)
  {
    NoRestarts(s, ws);
    OverflowAccount(s, Program(ws));
  }

  // ---- what a write leaves behind ----

  /** TIMA stands at v with nothing pending, and no interrupt was requested beyond the first `n`. */
  predicate Holding(r: State, v: uint8, n: nat) {
    r.tima == v && r.requests == n && r.delay == 0 && !r.overflow && !r.reloaded
  }

  lemma HoldsOn(r: State, e: Event, v: uint8, n: nat)
    requires Holding(r, v, n) && !e.WriteTima?
    requires !(Signal(r.div, r.tac) && !Signal(Apply(r, e).div, Apply(r, e).tac))
    ensures Holding(Apply(r, e), v, n)
  {
  }

  lemma NoFall(s: State, es: seq<Event>) returns (before: State)
    requires es != [] && Falls(s, es) == 0
    ensures before == Run(s, es[..|es| - 1]) && Falls(s, es[..|es| - 1]) == 0
    ensures var after := Apply(before, es[|es| - 1]);
      after == Run(s, es) && !(Signal(before.div, before.tac) && !Signal(after.div, after.tac))
  {
    before := Run(s, es[..|es| - 1]);
  }

  lemma {:induction false} StaysHeld(s: State, es: seq<Event>, v: uint8, n: nat)
    requires Holding(s, v, n) && Falls(s, es) == 0 && forall k :: 0 <= k < |es| ==> !es[k].WriteTima?
    ensures Holding(Run(s, es), v, n)
    decreases |es|
  {
    if es != [] {
      var before := NoFall(s, es);
      StaysHeld(s, es[..|es| - 1], v, n);
      HoldsOn(before, es[|es| - 1], v, n);
    }
  }

  /** A write to TIMA that is not too late holds until the next falling edge, and no interrupt comes of the overflow
      it met. */
  lemma WriteHolds(s: State, v: uint8, es: seq<Event>)
    requires Consistent(s) && !s.reloaded && Falls(Apply(s, WriteTima(v)), es) == 0
    requires forall k :: 0 <= k < |es| ==> !es[k].WriteTima?
    ensures var r := Run(Apply(s, WriteTima(v)), es);
      r.tima == v && r.requests == s.requests && r.delay == 0 && !r.overflow && !r.reloaded
  {
    StaysHeld(Apply(s, WriteTima(v)), es, v, s.requests);
  }

  /** The reload flag says whether a reload came within the machine cycle. */
  lemma {:induction false} ReloadedIff(s: State, es: seq<Event>)
    requires Consistent(s) && forall k :: 0 <= k < |es| ==> es[k] != MachineCycle
    ensures var r := Run(Apply(s, MachineCycle), es);
      Consistent(r) && r.requests >= s.requests && (r.reloaded <==> r.requests > s.requests)
    decreases |es|
  {
    if es != [] {
      ReloadedIff(s, es[..|es| - 1]);
      OneEvent(Run(Apply(s, MachineCycle), es[..|es| - 1]), es[|es| - 1]);
    }
  }

  /** In the machine cycle of a reload a write to TIMA is lost and one to TMA reaches TIMA as well; in any other a
      write to TIMA takes effect and ends a pending reload, and one to TMA leaves TIMA alone. */
  lemma WriteAfterReload(s: State, es: seq<Event>, v: uint8)
    requires Consistent(s) && forall k :: 0 <= k < |es| ==> es[k] != MachineCycle
    ensures var r := Run(Apply(s, MachineCycle), es);
      if r.requests > s.requests then
        Apply(r, WriteTima(v)) == r && Apply(r, WriteTma(v)) == r.(tma := v, tima := v)
      else
        && Apply(r, WriteTima(v)) == r.(tima := v, delay := 0, overflow := false)
        && Apply(r, WriteTma(v)) == r.(tma := v)
  {
    ReloadedIff(s, es);
  }

  /** Without writes a reload comes four cycles after the overflow, and TIMA reads 0 until then. */
  lemma ReloadAfterFour(s: State, n: nat)
    requires s.delay == 0 && !s.overflow && s.tima == 0xFF && s.tac / 4 % 2 == 1 && 0 < n <= 5
    requires Signal(s.div, s.tac) && !Signal((s.div + 1) % 0x1_0000, s.tac)
    ensures Cycles(s, n).tima == if n < 5 then 0 else s.tma
    ensures Cycles(s, n).requests == s.requests + if n < 5 then 0 else 1
  {
    CyclesInClosedForm(s, n);
    FirstEdge(s, n);
  }

  lemma FirstEdge(s: State, n: nat)
    requires Enabled(s.tac) && 0 < n <= 5 && Signal(s.div, s.tac) && !Signal((s.div + 1) % 0x1_0000, s.tac)
    ensures EdgesBy(s, n) == 1 && Since(s, n) == n - 1
  {
    var p := Period(s.tac);
    SignalFalls(s.div, s.tac);
    LastOfPeriod(s.div, p);
    DivExact(s.div % p + n, p, 1, n - 1);
  }

  /** A write to DIV starts the divider, and with it the timer's period, anew. */
  lemma AfterDivWrite(s: State, n: nat) returns (t: State)
    requires s.tac / 4 % 2 == 1
    requires var t := Apply(s, WriteDiv); !t.overflow && t.delay == 0
    ensures t == Cycles(Apply(s, WriteDiv), n) && t.div == n % 0x1_0000
    ensures s.tac % 4 == 0 ==> t.steps == Apply(s, WriteDiv).steps + n / 1024
    ensures s.tac % 4 == 1 ==> t.steps == Apply(s, WriteDiv).steps + n / 16
    ensures s.tac % 4 == 2 ==> t.steps == Apply(s, WriteDiv).steps + n / 64
    ensures s.tac % 4 == 3 ==> t.steps == Apply(s, WriteDiv).steps + n / 256
  {
    var u := Apply(s, WriteDiv);
    TimerClosedForm(u, n);
    t := ClosedForm(u, n);
    CountedSteps(u, n, t);
  }

  lemma CountedSteps(u: State, n: nat, t: State)
    requires t == ClosedForm(u, n)
    ensures t.steps == u.steps + EdgesBy(u, n) && t.div == (u.div + n) % 0x1_0000
  {
  }

  /** A write to TAC keeps three bits, and no write but that to DIV touches the divider. */
  lemma AfterTacWrite(s: State, v: uint8)
    ensures Apply(s, WriteTac(v)).tac == v % 8 && Apply(s, WriteTac(v)).tma == s.tma
    ensures forall e :: IsWrite(e) && e != WriteDiv ==> Apply(s, e).div == s.div
  {
  }
}
