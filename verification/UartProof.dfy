// Every byte that the transmitter accepts comes out of the receiver once, in order, for any clocks per bit from two.
module UartProof {
  import opened Uart

  // ---- The line, bit by bit ----

  function Width(s: Setup): nat requires GoodSetup(s) { 8 - s.short }
  function ParityAt(s: Setup): nat requires GoodSetup(s) { 1 + Width(s) }
  function StopAt(s: Setup): nat requires GoodSetup(s) { ParityAt(s) + if s.useParity then 1 else 0 }
  function FrameLen(s: Setup): nat requires GoodSetup(s) { StopAt(s) + if s.dblstop then 2 else 1 }

  predicate Xor(b: Octet, n: nat)
    requires n <= 8
  {
    n > 0 && Xor(b, n - 1) != b[n - 1]
  }

  predicate ParityBit(s: Setup, b: Octet)
    requires GoodSetup(s)
  {
    if s.fixdParity then s.even else s.even != Xor(b, Width(s))
  }

  // Bit j of the frame that carries b: start, data, parity, stops.
  predicate LineBit(s: Setup, b: Octet, j: nat)
    requires GoodSetup(s)
  {
    if j == 0 then false
    else if j <= Width(s) then b[j - 1]
    else if j == ParityAt(s) && s.useParity then ParityBit(s, b)
    else true
  }

  // Where the line is: between frames, or u clocks into bit j.
  datatype Phase = Quiet | At(b: Octet, j: nat, u: nat)

  predicate Line(s: Setup, ph: Phase)
    requires GoodSetup(s)
  {
    ph.At? ==> LineBit(s, ph.b, ph.j)
  }

  predicate InFrame(s: Setup, ph: Phase)
    requires GoodSetup(s)
  {
    ph.At? ==> ph.j < FrameLen(s) && ph.u < s.baud
  }

  function Onward(s: Setup, ph: Phase): Phase
    requires GoodSetup(s)
  {
    if ph.Quiet? then Quiet
    else if ph.u + 1 < s.baud then At(ph.b, ph.j, ph.u + 1)
    else if ph.j + 1 < FrameLen(s) then At(ph.b, ph.j + 1, 0)
    else Quiet
  }

  predicate Starts(ph: Phase) { ph.At? && ph.j == 0 && ph.u == 0 }

  // A frame goes on to its end; another may start only on a quiet line.
  predicate Follows(s: Setup, was: Phase, now: Phase)
    requires GoodSetup(s)
  {
    now == Onward(s, was) || (was.Quiet? && Starts(now))
  }

  // The state in which bit n of a frame is awaited.
  function Code(s: Setup, n: nat): nat
    requires GoodSetup(s)
  {
    if n == 0 || n >= FrameLen(s) then IDLE
    else if n <= Width(s) then s.short + n - 1
    else if n == ParityAt(s) && s.useParity then PARITY
    else if n == StopAt(s) then STOP
    else SECOND_STOP
  }

  // ---- The transmitter ----

  ghost predicate TxInv(s: Setup, t: Tx, ph: Phase)
    requires GoodSetup(s)
  {
    && t.setup == s && t.line == Line(s, ph) && (s.fixdParity ==> t.parity == s.even) && InFrame(s, ph)
    && match ph
       case Quiet => t.state == IDLE && t.zero
       case At(b, j, u) =>
         && t.busy && t.state == Code(s, j + 1) && t.counter == s.baud - 1 - u && (t.zero <==> u == s.baud - 1)
         && (j <= Width(s) ==> t.lcl[..Width(s) - j] == b[j..Width(s)]
                               && (!s.fixdParity ==> t.parity == (s.even != Xor(b, j))))
  }

  predicate Working(i: TxIn, s: Setup) { !i.reset && !i.brk && i.setup == s }

  predicate Accepts(t: Tx, i: TxIn) { i.wr && !t.busy }

  lemma {:induction false} TxQuiet(s: Setup, t: Tx, i: TxIn)
    requires GoodSetup(s) && s.baud >= 2 && TxInv(s, t, Quiet) && Working(i, s)
    ensures TxInv(s, TxStep(t, i), if Accepts(t, i) then At(i.data, 0, 0) else Quiet)
  {
  }

  lemma {:induction false} TxHolds(s: Setup, t: Tx, b: Octet, j: nat, u: nat, i: TxIn)
    requires GoodSetup(s) && s.baud >= 2 && TxInv(s, t, At(b, j, u)) && u + 1 < s.baud && Working(i, s)
    ensures TxInv(s, TxStep(t, i), At(b, j, u + 1))
  {
    hide Code, Xor, LineBit;
  }

  // The end of a start or data bit, with another data bit to follow.
  lemma {:induction false} TxShifts(s: Setup, t: Tx, b: Octet, j: nat, i: TxIn)
    requires GoodSetup(s) && s.baud >= 2 && TxInv(s, t, At(b, j, s.baud - 1)) && j < Width(s) && Working(i, s)
    ensures TxInv(s, TxStep(t, i), At(b, j + 1, 0))
  {
    var w, n := Width(s), TxStep(t, i);
    assert t.state == s.short + j && t.zero;
    assert t.lcl[..w - j][0] == b[j..w][0];
    assert n.lcl[..w - j - 1] == t.lcl[..w - j][1..] == b[j..w][1..] == b[j + 1..w];
    assert n.state == Code(s, j + 2);
  }

  // The end of the last data bit, or of a bit after it.
  lemma {:induction false} TxCloses(s: Setup, t: Tx, b: Octet, j: nat, i: TxIn)
    requires GoodSetup(s) && s.baud >= 2 && TxInv(s, t, At(b, j, s.baud - 1)) && j >= Width(s) && Working(i, s)
    ensures TxInv(s, TxStep(t, i), if j + 1 < FrameLen(s) then At(b, j + 1, 0) else Quiet)
  {
    hide Xor;
  }

  lemma {:induction false} TxFrame(s: Setup, t: Tx, ph: Phase, i: TxIn)
    requires GoodSetup(s) && s.baud >= 2 && TxInv(s, t, ph) && ph.At? && Working(i, s)
    ensures !Accepts(t, i) && TxInv(s, TxStep(t, i), Onward(s, ph))
  {
    assert t.busy;
    hide TxInv, TxStep;
    if ph.u + 1 < s.baud { TxHolds(s, t, ph.b, ph.j, ph.u, i); }
    else if ph.j < Width(s) { TxShifts(s, t, ph.b, ph.j, i); }
    else { TxCloses(s, t, ph.b, ph.j, i); }
  }

  // ---- The receiver ----

  function Middle(s: Setup): nat { s.baud / 2 }

  // The bit of the frame to be sampled next.
  function Due(s: Setup, ph: Phase): nat {
    if ph.Quiet? then 0 else if ph.u > Middle(s) then ph.j + 1 else ph.j
  }

  // Where the receiver's end of the line is, ph, decides everything about the edge registers that matters.
  ghost predicate EdgeInv(s: Setup, e: Edge, ph: Phase)
    requires GoodSetup(s)
  {
    && e.ck == Line(s, ph) && !e.brk
    && match ph
       case Quiet => true
       case At(_, j, u) => e.chg <= j * s.baud + u && (j == 0 ==> e.chg == u && e.half == (u >= Middle(s)))
  }

  ghost predicate FrameInv(s: Setup, f: Frame, ph: Phase)
    requires GoodSetup(s)
  {
    var n := Due(s, ph);
    && f.setup == s && f.state == Code(s, n)
    && (f.zero <==> f.state != IDLE && ph.At? && ph.j == n && ph.u == Middle(s))
    && f.counter == (if f.state == IDLE then s.baud - 1
                     else if ph.u <= Middle(s) then Middle(s) - ph.u else s.baud + Middle(s) - ph.u)
    && (1 <= n <= StopAt(s) ==> var m := if n <= ParityAt(s) then n - 1 else Width(s);
                                f.data[8 - m..] == ph.b[..m])
    && (1 <= n <= ParityAt(s) ==> f.parity == Xor(ph.b, n - 1))
  }

  ghost predicate OutInv(s: Setup, o: Out, f: Frame, ph: Phase)
    requires GoodSetup(s)
  {
    var n := Due(s, ph);
    && !o.frameErr
    && (o.preWr ==> if s.dblstop then f.state == SECOND_STOP else f.state == IDLE)
    && (f.state == SECOND_STOP ==> o.preWr)
    && (f.state != IDLE ==> o.parityErr == (s.useParity && !s.fixdParity && n > ParityAt(s)))
  }

  // ---- One clock of the receiver ----

  ghost predicate RxInv(s: Setup, r: Rx, ph: Phase, next: Phase)
    requires GoodSetup(s)
  {
    && InFrame(s, ph) && InFrame(s, next) && Follows(s, ph, next)
    && EdgeInv(s, r.e, ph) && r.e.qq == Line(s, next) && FrameInv(s, r.f, ph) && OutInv(s, r.o, r.f, ph)
  }

  lemma {:induction false} Elapsed(b: nat, j: nat, u: nat)
    requires j <= 11 && u < b
    ensures j * b + u < 12 * b && (j + 1) * b == j * b + b
  {
    if j < 11 { assert j * b <= 11 * b; }
  }

  lemma {:induction false} EdgeClock(s: Setup, r: Rx, ph: Phase, next: Phase, i: RxIn)
    requires GoodSetup(s) && s.baud >= 2 && RxInv(s, r, ph, next) && !i.reset
    ensures EdgeInv(s, EdgeStep(r.e, s, i), next)
  {
    if ph.At? { Elapsed(s.baud, ph.j, ph.u); }
    hide LineBit;
  }

  // Waiting for the middle of a start bit, or leaving it.
  lemma {:induction false} FrameIdles(s: Setup, r: Rx, ph: Phase, next: Phase, i: RxIn)
    requires GoodSetup(s) && s.baud >= 2 && RxInv(s, r, ph, next) && !i.reset && i.setup == s && r.f.state == IDLE
    ensures FrameInv(s, FrameStep(r.e, r.f, i), next)
  {
    assert Xor(r.f.data, 0) == false;
    hide LineBit;
  }

  // Between samples.
  lemma {:induction false} FrameWaits(s: Setup, r: Rx, ph: Phase, next: Phase, i: RxIn)
    requires GoodSetup(s) && s.baud >= 2 && RxInv(s, r, ph, next) && !i.reset && i.setup == s
    requires r.f.state != IDLE && !r.f.zero
    ensures FrameInv(s, FrameStep(r.e, r.f, i), next)
  {
    assert !r.e.brk;
    hide EdgeInv, OutInv, EdgeStep, OutStep, LineBit;
    assert next == Onward(s, ph) && Due(s, next) == Due(s, ph);
    hide LineBit, Xor;
  }

  // The middle of a data bit: it joins the others at the top of the register.
  lemma {:induction false} FrameTakesData(s: Setup, r: Rx, ph: Phase, next: Phase, i: RxIn)
    requires GoodSetup(s) && s.baud >= 2 && RxInv(s, r, ph, next) && !i.reset && i.setup == s
    requires r.f.zero && ph.At? && ph.j <= Width(s)
    ensures FrameInv(s, FrameStep(r.e, r.f, i), next)
  {
    assert !r.e.brk;
    hide EdgeInv, OutInv, EdgeStep, OutStep, LineBit;
    var n, f, g := ph.j, r.f, FrameStep(r.e, r.f, i);
    assert n == Due(s, ph) >= 1 && f.state == s.short + n - 1;
    SeesData(s, r.e, ph);
    assert next == Onward(s, ph) && Due(s, next) == n + 1 && next.b == ph.b;
    assert g.data == f.data[1..] + [r.e.ck];
    assert g.state == Code(s, n + 1);
    hide Onward;
  }

  lemma {:induction false} SeesData(s: Setup, e: Edge, ph: Phase)
    requires GoodSetup(s) && EdgeInv(s, e, ph) && ph.At? && 1 <= ph.j <= Width(s)
    ensures e.ck == ph.b[ph.j - 1]
  {
  }

  // The middle of a parity or stop bit: the data stay.
  lemma {:induction false} FrameTakesRest(s: Setup, r: Rx, ph: Phase, next: Phase, i: RxIn)
    requires GoodSetup(s) && s.baud >= 2 && RxInv(s, r, ph, next) && !i.reset && i.setup == s
    requires r.f.zero && ph.At? && ph.j > Width(s)
    ensures FrameInv(s, FrameStep(r.e, r.f, i), next)
  {
    assert !r.e.brk && r.e.ck == Line(s, ph);
    hide Xor, EdgeInv, OutInv, EdgeStep, OutStep;
    var n := ph.j;
    assert n == Due(s, ph);
    assert if ph.u + 1 < s.baud || n + 1 < FrameLen(s) then next == Onward(s, ph) && Due(s, next) == n + 1 else next.Quiet? ;
  }

  lemma {:induction false} FrameClock(s: Setup, r: Rx, ph: Phase, next: Phase, i: RxIn)
    requires GoodSetup(s) && s.baud >= 2 && RxInv(s, r, ph, next) && !i.reset && i.setup == s
    ensures FrameInv(s, FrameStep(r.e, r.f, i), next)
  {
    if r.f.state == IDLE { FrameIdles(s, r, ph, next, i); }
    else if !r.f.zero { FrameWaits(s, r, ph, next, i); }
    else if ph.j <= Width(s) { FrameTakesData(s, r, ph, next, i); }
    else { FrameTakesRest(s, r, ph, next, i); }
  }

  lemma {:induction false} OutClock(s: Setup, r: Rx, ph: Phase, next: Phase, i: RxIn)
    requires GoodSetup(s) && s.baud >= 2 && RxInv(s, r, ph, next) && !i.reset && i.setup == s
    ensures OutInv(s, OutStep(r.e, r.f, r.o, i), FrameStep(r.e, r.f, i), next)
  {
    if r.f.zero { OutSamples(s, r, ph, next, i); } else { OutWaits(s, r, ph, next, i); }
    hide RxInv, OutInv, OutStep, FrameStep;
  }

  lemma {:induction false} OutSamples(s: Setup, r: Rx, ph: Phase, next: Phase, i: RxIn)
    requires GoodSetup(s) && s.baud >= 2 && RxInv(s, r, ph, next) && !i.reset && i.setup == s && r.f.zero
    ensures OutInv(s, OutStep(r.e, r.f, r.o, i), FrameStep(r.e, r.f, i), next)
  {
  }

  lemma {:induction false} OutWaits(s: Setup, r: Rx, ph: Phase, next: Phase, i: RxIn)
    requires GoodSetup(s) && s.baud >= 2 && RxInv(s, r, ph, next) && !i.reset && i.setup == s && !r.f.zero
    ensures OutInv(s, OutStep(r.e, r.f, r.o, i), FrameStep(r.e, r.f, i), next)
  {
    hide Xor;
  }
}
