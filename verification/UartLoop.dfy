// The transmitter and the receiver joined by one wire.
module UartLoop {
  import opened Sequences
  import opened Uart
  import opened UartProof

  datatype Pair = Pair(tx: Tx, rx: Rx)

  // Where the line is at the transmitter, at the receiver's first two registers, and at the one it decides by.
  datatype View = View(p0: Phase, p1: Phase, p2: Phase, p3: Phase)

  function Step(p: Pair, i: TxIn): Pair
    requires GoodSetup(p.rx.f.setup)
  {
    Pair(TxStep(p.tx, i), RxStep(p.rx, RxIn(i.reset, i.setup, p.tx.line)))
  }

  function NextView(s: Setup, v: View, p: Pair, i: TxIn): View
    requires GoodSetup(s)
  {
    View(if v.p0.Quiet? && Accepts(p.tx, i) then At(i.data, 0, 0) else Onward(s, v.p0), v.p0, v.p1, v.p2)
  }

  ghost predicate Inv(s: Setup, p: Pair, v: View) {
    && GoodSetup(s) && s.baud >= 2
    && TxInv(s, p.tx, v.p0) && InFrame(s, v.p1)
    && Follows(s, v.p1, v.p0) && Follows(s, v.p2, v.p1)
    && RxInv(s, p.rx, v.p3, v.p2) && p.rx.e.q == Line(s, v.p1)
  }

  // ---- What goes in, what comes out, and what is between ----

  // A byte cut to the width of the data.
  function Masked(s: Setup, b: Octet): Octet
    requires GoodSetup(s)
  {
    b[..Width(s)] + [false, false, false][..s.short]
  }

  function Taken(s: Setup, p: Pair, i: TxIn): seq<Octet>
    requires GoodSetup(s)
  {
    if Accepts(p.tx, i) then [Masked(s, i.data)] else []
  }

  function Given(r: Rx): seq<Octet> { if r.o.wr then [r.o.data] else [] }

  function Unsampled(s: Setup, ph: Phase): seq<Octet>
    requires GoodSetup(s)
  {
    if ph.At? && Due(s, ph) <= StopAt(s) then [Masked(s, ph.b)] else []
  }

  function Starting(s: Setup, v: View): seq<Octet>
    requires GoodSetup(s)
  {
    if Starts(v.p2) then [Masked(s, v.p2.b)]
    else if Starts(v.p1) then [Masked(s, v.p1.b)]
    else if Starts(v.p0) then [Masked(s, v.p0.b)]
    else []
  }

  function Held(r: Rx): seq<Octet> { if r.o.preWr then [r.o.data] else [] }

  function Between(s: Setup, p: Pair, v: View): seq<Octet>
    requires GoodSetup(s)
  {
    Held(p.rx) + Unsampled(s, v.p3) + Starting(s, v)
  }

  // ---- One clock ----

  lemma {:induction false} InvClock(s: Setup, p: Pair, v: View, i: TxIn)
    requires Inv(s, p, v) && Working(i, s)
    ensures Inv(s, Step(p, i), NextView(s, v, p, i))
  {
    var j := RxIn(false, i.setup, p.tx.line);
    if v.p0.Quiet? { TxQuiet(s, p.tx, i); } else { TxFrame(s, p.tx, v.p0, i); }
    EdgeClock(s, p.rx, v.p3, v.p2, j);
    FrameClock(s, p.rx, v.p3, v.p2, j);
    OutClock(s, p.rx, v.p3, v.p2, j);
    assert InFrame(s, v.p0) && p.tx.line == Line(s, v.p0);
    hide TxStep, EdgeInv, FrameInv, OutInv, FrameStep, OutStep, LineBit, TxInv;
  }

  // The middle of the first stop bit: the data are now the byte that was sent, cut to its width.
  lemma {:induction false} Sampled(s: Setup, p: Pair, v: View)
    requires Inv(s, p, v) && p.rx.f.zero && p.rx.f.state == STOP
    ensures v.p3.At? && v.p3.j == StopAt(s) && Aligned(p.rx.f.data, s.short) == Masked(s, v.p3.b)
    ensures Unsampled(s, v.p3) == [Masked(s, v.p3.b)] && Unsampled(s, v.p2) == [] && !Starts(v.p2)
  {
    assert p.rx.f.data[8 - Width(s)..] == v.p3.b[..Width(s)];
    hide EdgeInv, TxInv, LineBit, Xor;
  }

  lemma {:induction false} Unchanged(s: Setup, p: Pair, v: View)
    requires Inv(s, p, v) && !(p.rx.f.zero && p.rx.f.state == STOP)
    ensures Unsampled(s, v.p2) == Unsampled(s, v.p3) + (if Starts(v.p2) then [Masked(s, v.p2.b)] else [])
  {
    hide EdgeInv, TxInv, LineBit, Xor;
  }

  lemma {:induction false} Gives(s: Setup, p: Pair, v: View, i: TxIn)
    requires Inv(s, p, v) && Working(i, s)
    ensures var o := Step(p, i).rx.o;
            && (if p.rx.f.zero && p.rx.f.state == STOP
                then !p.rx.o.preWr && !o.wr && o.preWr && o.data == Aligned(p.rx.f.data, s.short)
                else o.data == p.rx.o.data && (o.wr || o.preWr <==> p.rx.o.preWr) && !(o.wr && o.preWr))
            && (o.wr ==> o.parityErr == (s.useParity && !s.fixdParity && s.dblstop))
  {
    hide EdgeInv, TxInv, LineBit, Xor, TxStep, EdgeStep, FrameStep, Aligned;
  }

  // The receiver's side of a clock: a byte is held when its first stop bit is sampled, and given a little later.
  lemma {:induction false} RxClock(s: Setup, p: Pair, v: View, i: TxIn)
    requires Inv(s, p, v) && Working(i, s)
    ensures var q := Step(p, i);
            && Given(q.rx) + Held(q.rx) + Unsampled(s, v.p2)
               == Held(p.rx) + Unsampled(s, v.p3) + (if Starts(v.p2) then [Masked(s, v.p2.b)] else [])
            && (q.rx.o.wr ==> q.rx.o.parityErr == (s.useParity && !s.fixdParity && s.dblstop))
  {
    Gives(s, p, v, i);
    if p.rx.f.zero && p.rx.f.state == STOP { Sampled(s, p, v); } else { Unchanged(s, p, v); }
    hide Inv, Step, Unsampled, Masked, Aligned;
  }

  lemma {:induction false} StartClock(s: Setup, p: Pair, v: View, i: TxIn)
    requires Inv(s, p, v) && Working(i, s)
    ensures Starting(s, NextView(s, v, p, i)) + (if Starts(v.p2) then [Masked(s, v.p2.b)] else [])
            == Starting(s, v) + Taken(s, p, i) == (if Starts(v.p2) then [Masked(s, v.p2.b)] else []) + Starting(s, NextView(s, v, p, i))
  {
  }

  lemma {:induction false} Both<T>(given: seq<T>, held': seq<T>, un': seq<T>, st': seq<T>, held: seq<T>, un: seq<T>, st: seq<T>, entering: seq<T>,
                                   taken: seq<T>)
    requires given + held' + un' == held + un + entering && entering + st' == st + taken
    ensures given + (held' + un' + st') == (held + un + st) + taken
  {
    assert given + (held' + un' + st') == (given + held' + un') + st' == held + un + (entering + st');
  }

  lemma {:induction false} Clock(s: Setup, p: Pair, v: View, i: TxIn)
    requires Inv(s, p, v) && Working(i, s)
    ensures var q, w := Step(p, i), NextView(s, v, p, i);
            && Inv(s, q, w) && Given(q.rx) + Between(s, q, w) == Between(s, p, v) + Taken(s, p, i)
            && !q.rx.o.frameErr && !q.rx.e.brk
            && (q.rx.o.wr ==> q.rx.o.parityErr == (s.useParity && !s.fixdParity && s.dblstop))
  {
    InvClock(s, p, v, i);
    RxClock(s, p, v, i);
    StartClock(s, p, v, i);
    var q, w := Step(p, i), NextView(s, v, p, i);
    Both(Given(q.rx), Held(q.rx), Unsampled(s, v.p2), Starting(s, w), Held(p.rx), Unsampled(s, v.p3), Starting(s, v),
         if Starts(v.p2) then [Masked(s, v.p2.b)] else [], Taken(s, p, i));
    NoErrors(s, q, w);
    hide Inv, Step, Unsampled, Masked, Starting;
  }

  lemma {:induction false} NoErrors(s: Setup, p: Pair, v: View)
    requires Inv(s, p, v)
    ensures !p.rx.o.frameErr && !p.rx.e.brk
  {
  }

  // ---- Runs ----

  ghost predicate AllWorking(s: Setup, ins: seq<TxIn>) { forall k :: 0 <= k < |ins| ==> Working(ins[k], s) }

  lemma {:induction false} RunsOn(s: Setup, p: Pair, v: View)
    requires Inv(s, p, v)
    ensures GoodSetup(s) && GoodSetup(p.rx.f.setup) && p.rx.f.setup == s
  {
  }

  // The bytes accepted, and the bytes given out with their parity flags, over a run.
  function TakenAll(s: Setup, p: Pair, ins: seq<TxIn>): seq<Octet>
    requires GoodSetup(s)
    decreases |ins|
  {
    if ins == [] || p.rx.f.setup != s then [] else Taken(s, p, ins[0]) + TakenAll(s, Step(p, ins[0]), ins[1..])
  }

  function GivenAll(s: Setup, p: Pair, ins: seq<TxIn>): seq<Octet>
    requires GoodSetup(s)
    decreases |ins|
  {
    if ins == [] || p.rx.f.setup != s then [] else Given(Step(p, ins[0]).rx) + GivenAll(s, Step(p, ins[0]), ins[1..])
  }

  function Run(s: Setup, p: Pair, ins: seq<TxIn>): Pair
    requires GoodSetup(s)
    decreases |ins|
  {
    if ins == [] || p.rx.f.setup != s then p else Run(s, Step(p, ins[0]), ins[1..])
  }

  function RunView(s: Setup, p: Pair, v: View, ins: seq<TxIn>): View
    requires GoodSetup(s)
    decreases |ins|
  {
    if ins == [] || p.rx.f.setup != s then v else RunView(s, Step(p, ins[0]), NextView(s, v, p, ins[0]), ins[1..])
  }

  // No clock of the run shows a frame error or a break, and every byte comes with the parity flag that the
  // seeds of the two ends make it have.
  predicate Clean(s: Setup, p: Pair, ins: seq<TxIn>)
    requires GoodSetup(s)
    decreases |ins|
  {
    ins == [] || p.rx.f.setup != s ||
    var q := Step(p, ins[0]);
    && !q.rx.o.frameErr && !q.rx.e.brk
    && (q.rx.o.wr ==> q.rx.o.parityErr == (s.useParity && !s.fixdParity && s.dblstop))
    && Clean(s, q, ins[1..])
  }

  // The bytes given out, with those still between, are the bytes accepted, cut to their width: once each, in order.
  lemma {:induction false} Loopback(s: Setup, p: Pair, v: View, ins: seq<TxIn>)
    requires Inv(s, p, v) && AllWorking(s, ins)
    ensures GoodSetup(s)
    ensures var q, w := Run(s, p, ins), RunView(s, p, v, ins);
            && Inv(s, q, w) && GivenAll(s, p, ins) + Between(s, q, w) == Between(s, p, v) + TakenAll(s, p, ins)
            && Clean(s, p, ins)
    decreases |ins|
  {
    RunsOn(s, p, v);
    hide Inv, GoodSetup, Step, NextView, Given, Taken, Between, Working;
    if ins != [] {
      var i, q, w := ins[0], Step(p, ins[0]), NextView(s, v, p, ins[0]);
      Clock(s, p, v, i);
      assert AllWorking(s, ins[1..]);
      Loopback(s, q, w, ins[1..]);
      Chain(Given(q.rx), GivenAll(s, q, ins[1..]), Between(s, p, v), Between(s, q, w),
            Between(s, Run(s, q, ins[1..]), RunView(s, q, w, ins[1..])), Taken(s, p, i), TakenAll(s, q, ins[1..]));
    }
  }

  // ---- Both ends idle ----

  ghost predicate BothIdle(s: Setup, p: Pair) {
    && GoodSetup(s) && s.baud >= 2
    && p.tx.setup == s && p.tx.state == IDLE && p.tx.zero && p.tx.line && (s.fixdParity ==> p.tx.parity == s.even)
    && p.rx.e.q && p.rx.e.qq && p.rx.e.ck && !p.rx.e.brk
    && p.rx.f.setup == s && p.rx.f.state == IDLE && !p.rx.f.zero && p.rx.f.counter == s.baud - 1
    && !p.rx.o.frameErr && !p.rx.o.preWr
  }

  const QUIET := View(Quiet, Quiet, Quiet, Quiet)

  lemma {:induction false} IdleInv(s: Setup, p: Pair)
    requires BothIdle(s, p)
    ensures Inv(s, p, QUIET) && Between(s, p, QUIET) == []
  {
  }

  // ---- Every byte arrives ----

  // Clocks until the line is quiet again.
  function Rest(s: Setup, ph: Phase): int
    requires GoodSetup(s) && ph.At?
  {
    (FrameLen(s) - ph.j) * s.baud - ph.u
  }

  lemma {:induction false} RestOnward(s: Setup, ph: Phase)
    requires GoodSetup(s) && ph.At? && InFrame(s, ph)
    ensures 1 <= Rest(s, ph) <= 12 * s.baud
    ensures var n := Onward(s, ph); if n.At? then Rest(s, n) == Rest(s, ph) - 1 else Rest(s, ph) == 1
  {
    var k := FrameLen(s) - ph.j;
    Rows(k, s.baud);
    OneRow(k, s.baud);
    assert k == 1 ==> k * s.baud == s.baud;
  }

  lemma {:induction false} OneRow(k: int, b: int)
    ensures k * b == (k - 1) * b + b
  {
  }

  // Clocks until nothing is between, if nothing more is accepted.
  function Left(s: Setup, v: View, held: bool): int
    requires GoodSetup(s)
  {
    match v.p0
    case At(_, _, _) => Rest(s, v.p0) + 4
    case Quiet => if v.p1.At? then 4 else if v.p2.At? then 3 else if v.p3.At? then 2 else if held then 1 else 0
  }

  lemma {:induction false} LeftAtEnd(s: Setup, p: Pair, v: View)
    requires Inv(s, p, v)
    ensures Left(s, v, p.rx.o.preWr) >= 0
    ensures Left(s, v, p.rx.o.preWr) == 0 ==> Between(s, p, v) == []
    ensures Left(s, v, p.rx.o.preWr) <= 12 * s.baud + 4
  {
    if v.p0.At? { RestOnward(s, v.p0); }
    hide RxInv, TxInv, Rest;
  }

  lemma {:induction false} Rows(k: nat, b: nat)
    requires 1 <= k <= 12
    ensures b <= k * b <= 12 * b
  {
    if k < 12 { assert (12 - k) * b >= 0; }
    assert (k - 1) * b >= 0;
  }

  lemma {:induction false} LeftClock(s: Setup, p: Pair, v: View, i: TxIn)
    requires Inv(s, p, v) && Working(i, s) && !Accepts(p.tx, i)
    ensures var was, now := Left(s, v, p.rx.o.preWr), Left(s, NextView(s, v, p, i), Step(p, i).rx.o.preWr);
            now <= if was > 0 then was - 1 else 0
  {
    if v.p0.At? { RestOnward(s, v.p0); }
    HeldClears(s, p, v, i);
    assert InFrame(s, v.p0) && Follows(s, v.p1, v.p0) && Follows(s, v.p2, v.p1) && Follows(s, v.p3, v.p2);
    assert v.p0.At? ==> !Starts(Onward(s, v.p0));
    hide Inv, Step, Rest, GoodSetup;
  }

  lemma {:induction false} HeldClears(s: Setup, p: Pair, v: View, i: TxIn)
    requires Inv(s, p, v) && Working(i, s)
    ensures v.p3.Quiet? ==> !Step(p, i).rx.o.preWr
  {
    Gives(s, p, v, i);
    InvClock(s, p, v, i);
    hide TxInv, EdgeInv, TxStep, EdgeStep, FrameStep, LineBit, Xor;
  }

  // Nothing is offered to the transmitter.
  ghost predicate Silent(ins: seq<TxIn>) { forall k :: 0 <= k < |ins| ==> !ins[k].wr }

  lemma {:induction false} Drains(s: Setup, p: Pair, v: View, ins: seq<TxIn>)
    requires Inv(s, p, v) && AllWorking(s, ins) && Silent(ins) && |ins| >= Left(s, v, p.rx.o.preWr)
    ensures GoodSetup(s)
    ensures TakenAll(s, p, ins) == [] && Between(s, Run(s, p, ins), RunView(s, p, v, ins)) == []
    decreases |ins|
  {
    RunsOn(s, p, v);
    LeftAtEnd(s, p, v);
    hide Inv, GoodSetup, Step, NextView, Between, Working, Left;
    if ins != [] {
      var i := ins[0];
      InvClock(s, p, v, i);
      LeftClock(s, p, v, i);
      RunsOn(s, Step(p, i), NextView(s, v, p, i));
      assert AllWorking(s, ins[1..]) && Silent(ins[1..]);
      Drains(s, Step(p, i), NextView(s, v, p, i), ins[1..]);
    }
  }

  lemma {:induction false} RunsApart(s: Setup, p: Pair, v: View, a: seq<TxIn>, b: seq<TxIn>)
    requires GoodSetup(s)
    ensures var q, w := Run(s, p, a), RunView(s, p, v, a);
            && (q.rx.f.setup == s ==>
                  && Run(s, p, a + b) == Run(s, q, b) && RunView(s, p, v, a + b) == RunView(s, q, w, b)
                  && TakenAll(s, p, a + b) == TakenAll(s, p, a) + TakenAll(s, q, b))
    decreases |a|
  {
    hide GoodSetup, Step, NextView, Taken;
    if a == [] {
      assert a + b == b;
    } else {
      assert (a + b)[1..] == a[1..] + b && (a + b)[0] == a[0];
      if p.rx.f.setup == s { RunsApart(s, Step(p, a[0]), NextView(s, v, p, a[0]), a[1..], b); }
    }
  }

  // Two idle ends with the same setup: after any traffic, and 12 bit times and 4 clocks of silence, the receiver has
  // given out exactly the bytes that the transmitter accepted, without a frame error or a break.
  lemma {:induction false} EveryByteArrives(s: Setup, p: Pair, ins: seq<TxIn>, silence: seq<TxIn>)
    requires BothIdle(s, p) && AllWorking(s, ins) && AllWorking(s, silence) && Silent(silence)
    requires |silence| >= 12 * s.baud + 4
    ensures GivenAll(s, p, ins + silence) == TakenAll(s, p, ins) && Clean(s, p, ins + silence)
  {
    hide *;
    IdleInv(s, p);
    RunsOn(s, p, QUIET);
    Loopback(s, p, QUIET, ins);
    var q, w := Run(s, p, ins), RunView(s, p, QUIET, ins);
    LeftAtEnd(s, q, w);
    Drains(s, q, w, silence);
    RunsOn(s, q, w);
    RunsApart(s, p, QUIET, ins, silence);
    AllWork(s, ins, silence);
    Loopback(s, p, QUIET, ins + silence);
    assert GivenAll(s, p, ins + silence) + [] == [] + (TakenAll(s, p, ins) + []);
    assert GivenAll(s, p, ins + silence) + [] == GivenAll(s, p, ins + silence);
    assert [] + (TakenAll(s, p, ins) + []) == TakenAll(s, p, ins);
  }

  lemma {:induction false} AllWork(s: Setup, a: seq<TxIn>, b: seq<TxIn>)
    requires AllWorking(s, a) && AllWorking(s, b)
    ensures AllWorking(s, a + b)
  {
  }

  // ---- The setup within a frame ----

  predicate MidFrame(p: Pair) { p.tx.state != IDLE && p.rx.f.state < RESET_IDLE }

  // The setup lines say s, but for clocks on which both ends are within a frame.
  predicate SetBetween(s: Setup, p: Pair, ins: seq<TxIn>)
    requires GoodSetup(s)
    decreases |ins|
  {
    ins == [] || p.rx.f.setup != s || ((ins[0].setup == s || MidFrame(p)) && SetBetween(s, Step(p, ins[0]), ins[1..]))
  }

  function Steady(s: Setup, ins: seq<TxIn>): seq<TxIn> {
    if ins == [] then [] else [ins[0].(setup := s)] + Steady(s, ins[1..])
  }

  lemma {:induction false} SetupUnread(s: Setup, p: Pair, i: TxIn)
    requires GoodSetup(s) && p.rx.f.setup == s && (i.setup == s || MidFrame(p))
    ensures Step(p, i) == Step(p, i.(setup := s)) && Taken(s, p, i) == Taken(s, p, i.(setup := s))
  {
    hide EdgeStep, OutStep, Masked;
    assert RxStep(p.rx, RxIn(i.reset, i.setup, p.tx.line)) == RxStep(p.rx, RxIn(i.reset, s, p.tx.line)) by {
      OutUnread(p.rx, i, s);
    }
  }

  lemma {:induction false} OutUnread(r: Rx, i: TxIn, s: Setup)
    requires GoodSetup(r.f.setup)
    ensures forall line :: var j, k := RxIn(i.reset, i.setup, line), RxIn(i.reset, s, line);
                           EdgeStep(r.e, r.f.setup, j) == EdgeStep(r.e, r.f.setup, k) && OutStep(r.e, r.f, r.o, j) == OutStep(r.e, r.f, r.o, k)
  {
  }

  // A change of the setup lines within a frame changes nothing: everything is as if they had been steady.
  lemma {:induction false} SetupIgnored(s: Setup, p: Pair, ins: seq<TxIn>)
    requires GoodSetup(s) && SetBetween(s, p, ins)
    ensures var same := Steady(s, ins);
            Run(s, p, ins) == Run(s, p, same) && TakenAll(s, p, ins) == TakenAll(s, p, same) && GivenAll(s, p, ins) == GivenAll(s, p, same)
    decreases |ins|
  {
    hide GoodSetup, Step, Taken, Given, MidFrame;
    if ins != [] && p.rx.f.setup == s {
      SetupUnread(s, p, ins[0]);
      SetupIgnored(s, Step(p, ins[0]), ins[1..]);
      assert Steady(s, ins)[0] == ins[0].(setup := s) && Steady(s, ins)[1..] == Steady(s, ins[1..]);
    }
  }

  // ---- Every offer is taken up, unless flow control forbids it ----

  predicate ClearToSend(s: Setup, i: TxIn) { s.flow ==> !i.ctsN }
  predicate HeldOff(s: Setup, i: TxIn) { s.flow && i.ctsN }

  // Clocks until the transmitter knows that it may send.
  function Informed(s: Setup, t: Tx): nat {
    if s.flow && t.q then 3 else if s.flow && t.qq then 2 else if !t.cts then 1 else 0
  }

  // Clocks until the transmitter is free, but for those.
  function Occupied(s: Setup, t: Tx, ph: Phase): int
    requires GoodSetup(s)
  {
    if ph.At? then Rest(s, ph) + 1 else if t.busy then 1 else 0
  }

  lemma {:induction false} InformedStep(s: Setup, t: Tx, i: TxIn)
    requires t.setup == s && ClearToSend(s, i)
    ensures Informed(s, TxStep(t, i)) <= if Informed(s, t) > 0 then Informed(s, t) - 1 else 0
    ensures Informed(s, t) == 0 ==> t.cts
  {
    hide TxState, TxBusy, TxLine, TxCalc, TxCounter, TxZero;
  }

  lemma {:induction false} IdleBusy(s: Setup, t: Tx, ph: Phase, i: TxIn)
    requires GoodSetup(s) && TxInv(s, t, ph) && Working(i, s) && !Accepts(t, i)
    ensures t.setup == s && InFrame(s, ph) && (ph.At? ==> t.busy)
    ensures ph.Quiet? ==> TxStep(t, i).busy == !t.cts
  {
    hide TxState, TxLine, TxCalc, TxCounter, TxZero, LineBit, Xor, Code;
  }

  lemma {:induction false} OccupiedStep(s: Setup, t: Tx, ph: Phase, i: TxIn)
    requires GoodSetup(s) && TxInv(s, t, ph) && Working(i, s) && ClearToSend(s, i) && !Accepts(t, i) && i.wr
    ensures var now := Onward(s, ph);
            0 < Informed(s, t) + Occupied(s, t, ph) <= 12 * s.baud + 4
            && Informed(s, TxStep(t, i)) + Occupied(s, TxStep(t, i), now) < Informed(s, t) + Occupied(s, t, ph)
  {
    IdleBusy(s, t, ph, i);
    InformedStep(s, t, i);
    if ph.At? { RestOnward(s, ph); }
    hide TxInv, TxStep, Rest, Informed, GoodSetup;
  }

  // A byte is offered on every clock, and the other end allows it.
  ghost predicate Offered(s: Setup, ins: seq<TxIn>) {
    forall k :: 0 <= k < |ins| ==> Working(ins[k], s) && ins[k].wr && ClearToSend(s, ins[k])
  }

  lemma {:induction false} TakenOn(s: Setup, p: Pair, v: View, ins: seq<TxIn>)
    requires Inv(s, p, v) && ins != []
    ensures GoodSetup(s) && TxInv(s, p.tx, v.p0)
    ensures TakenAll(s, p, ins) == Taken(s, p, ins[0]) + TakenAll(s, Step(p, ins[0]), ins[1..])
    ensures Taken(s, p, ins[0]) == [] <==> !Accepts(p.tx, ins[0])
    ensures !Accepts(p.tx, ins[0]) ==> NextView(s, v, p, ins[0]).p0 == Onward(s, v.p0)
    ensures Step(p, ins[0]).tx == TxStep(p.tx, ins[0])
  {
    RunsOn(s, p, v);
    hide GoodSetup, TxInv, RxInv, TxStep, Onward, Masked, EdgeStep, FrameStep, OutStep;
  }

  lemma {:induction false} TakenInTime(s: Setup, p: Pair, v: View, ins: seq<TxIn>)
    requires GoodSetup(s) && Inv(s, p, v) && Offered(s, ins)
    requires |ins| > Informed(s, p.tx) + Occupied(s, p.tx, v.p0)
    ensures TakenAll(s, p, ins) != []
    decreases |ins|
  {
    hide *;
    RunsOn(s, p, v);
    TakenBusy(s, p, v);
    var i := ins[0];
    TakenOn(s, p, v, ins);
    OfferedOn(s, ins);
    if !Accepts(p.tx, i) {
      OccupiedStep(s, p.tx, v.p0, i);
      InvClock(s, p, v, i);
      TakenInTime(s, Step(p, i), NextView(s, v, p, i), ins[1..]);
    }
  }

  lemma {:induction false} TakenBusy(s: Setup, p: Pair, v: View)
    requires Inv(s, p, v) && GoodSetup(s)
    ensures 0 <= Informed(s, p.tx) + Occupied(s, p.tx, v.p0) <= 12 * s.baud + 4
  {
    if v.p0.At? { RestOnward(s, v.p0); }
    hide RxInv, Rest, Follows, LineBit, Code, Xor;
  }

  lemma {:induction false} OfferedOn(s: Setup, ins: seq<TxIn>)
    requires Offered(s, ins) && ins != []
    ensures Working(ins[0], s) && ins[0].wr && ClearToSend(s, ins[0]) && Offered(s, ins[1..])
  {
  }

  // At any moment, a byte that is offered for twelve bit times and five clocks is accepted, if there is no flow
  // control or the other end allows it.
  lemma {:induction false} OfferTaken(s: Setup, p: Pair, v: View, ins: seq<TxIn>)
    requires Inv(s, p, v) && Offered(s, ins) && |ins| >= 12 * s.baud + 5
    ensures GoodSetup(s) && TakenAll(s, p, ins) != []
  {
    hide *;
    RunsOn(s, p, v);
    TakenBusy(s, p, v);
    TakenInTime(s, p, v, ins);
  }

  // n times as long, n bytes.
  lemma {:induction false} BytesKeepGoing(s: Setup, p: Pair, v: View, ins: seq<TxIn>, n: nat)
    requires Inv(s, p, v) && Offered(s, ins) && |ins| >= n * (12 * s.baud + 5)
    ensures GoodSetup(s) && |TakenAll(s, p, ins)| >= n
    decreases n
  {
    hide *;
    RunsOn(s, p, v);
    if n > 0 {
      var m := 12 * s.baud + 5;
      OneMore(n, m);
      var a, b := ins[..m], ins[m..];
      assert ins == a + b;
      OffersPart(s, ins, m);
      OfferTaken(s, p, v, a);
      Loopback(s, p, v, a);
      RunsOn(s, Run(s, p, a), RunView(s, p, v, a));
      RunsApart(s, p, v, a, b);
      BytesKeepGoing(s, Run(s, p, a), RunView(s, p, v, a), b, n - 1);
    }
  }

  lemma {:induction false} OneMore(n: nat, m: nat)
    requires n > 0
    ensures n * m == (n - 1) * m + m && n * m >= m
  {
    assert (n - 1) * m >= 0;
  }

  lemma {:induction false} OffersPart(s: Setup, ins: seq<TxIn>, m: nat)
    requires Offered(s, ins) && m <= |ins|
    ensures Offered(s, ins[..m]) && Offered(s, ins[m..]) && AllWorking(s, ins[..m])
  {
  }

  // The other end does not allow it.
  ghost predicate AllHeldOff(s: Setup, ins: seq<TxIn>) {
    forall k :: 0 <= k < |ins| ==> Working(ins[k], s) && HeldOff(s, ins[k])
  }

  // How far that is known, up to four: the last step is a busy transmitter.
  predicate Told(t: Tx, n: nat) { (n >= 1 ==> t.q) && (n >= 2 ==> t.qq) && (n >= 3 ==> !t.cts) && (n >= 4 ==> t.busy) }

  lemma {:induction false} ToldStep(s: Setup, t: Tx, ph: Phase, i: TxIn, n: nat)
    requires GoodSetup(s) && TxInv(s, t, ph) && Working(i, s) && HeldOff(s, i) && Told(t, n)
    ensures Told(TxStep(t, i), n + 1) && (n >= 4 ==> !Accepts(t, i))
  {
    hide TxState, TxLine, TxCalc, TxCounter, TxZero, LineBit, Xor, Code;
  }

  lemma {:induction false} HeldOffRun(s: Setup, p: Pair, v: View, ins: seq<TxIn>, n: nat)
    requires Inv(s, p, v) && AllHeldOff(s, ins) && Told(p.tx, n)
    ensures GoodSetup(s) && Told(Run(s, p, ins).tx, n + |ins|) && (n >= 4 ==> TakenAll(s, p, ins) == [])
    decreases |ins|
  {
    RunsOn(s, p, v);
    hide Inv, GoodSetup, Step, NextView, Working, HeldOff, Told, TxInv, TxStep, Accepts, Taken;
    if ins != [] {
      var i := ins[0];
      assert Working(i, s) && HeldOff(s, i);
      TakenOn(s, p, v, ins);
      ToldStep(s, p.tx, v.p0, i, n);
      InvClock(s, p, v, i);
      HeldOffRun(s, Step(p, i), NextView(s, v, p, i), ins[1..], n + 1);
    }
  }

  // With flow control, and the other end not ready for four clocks and on, nothing is accepted after those four.
  lemma {:induction false} FlowControl(s: Setup, p: Pair, v: View, four: seq<TxIn>, ins: seq<TxIn>)
    requires Inv(s, p, v) && |four| == 4 && AllHeldOff(s, four) && AllHeldOff(s, ins)
    ensures GoodSetup(s) && TakenAll(s, Run(s, p, four), ins) == []
  {
    hide *;
    assert Told(p.tx, 0) by { Untold(p.tx); }
    HeldOffRun(s, p, v, four, 0);
    HeldOffWorks(s, four);
    Loopback(s, p, v, four);
    HeldOffRun(s, Run(s, p, four), RunView(s, p, v, four), ins, 4);
  }

  lemma {:induction false} Untold(t: Tx)
    ensures Told(t, 0)
  {
  }

  lemma {:induction false} HeldOffWorks(s: Setup, ins: seq<TxIn>)
    requires AllHeldOff(s, ins)
    ensures AllWorking(s, ins)
  {
  }

  // ---- A break ----

  ghost predicate AllBreak(s: Setup, ins: seq<TxIn>) { forall k :: 0 <= k < |ins| ==> !ins[k].reset && ins[k].brk && ins[k].setup == s }

  // The line has been low for n clocks, as far as that is known at each place.
  ghost predicate LowFor(s: Setup, p: Pair, n: nat) {
    var e, f, t, b := p.rx.e, p.rx.f, p.tx, BreakTime(s);
    && f.setup == s && t.setup == s
    && (n >= 1 ==> !t.line && t.state == TX_BREAK && !t.zero && t.counter == b && (s.fixdParity ==> t.parity == s.even))
    && (n >= 2 ==> !e.q) && (n >= 3 ==> !e.qq) && (n >= 4 ==> !e.ck && (e.chg >= n - 4 || e.chg >= b)) && (n >= 5 ==> !e.synch)
    && (n >= 5 + b ==> e.brk) && (n >= 6 + b ==> f.state == RX_BREAK || f.state == RESET_IDLE)
  }

  lemma {:induction false} BreakStep(s: Setup, p: Pair, i: TxIn, n: nat)
    requires GoodSetup(s) && s.baud >= 2 && LowFor(s, p, n) && !i.reset && i.brk && i.setup == s
    ensures LowFor(s, Step(p, i), n + 1)
  {
    hide TxBusy, OutStep;
  }

  lemma {:induction false} BreakRun(s: Setup, p: Pair, ins: seq<TxIn>, n: nat)
    requires GoodSetup(s) && s.baud >= 2 && LowFor(s, p, n) && AllBreak(s, ins)
    ensures p.rx.f.setup == s && LowFor(s, Run(s, p, ins), n + |ins|)
    decreases |ins|
  {
    assert p.rx.f.setup == s;
    hide LowFor, GoodSetup, Step;
    if ins != [] {
      BreakStep(s, p, ins[0], n);
      BreakRun(s, Step(p, ins[0]), ins[1..], n + 1);
    }
  }

  // Whatever the two ends are doing, a break asked for during sixteen bit times and five clocks is seen as one.
  lemma {:induction false} BreakSeen(s: Setup, p: Pair, ins: seq<TxIn>)
    requires GoodSetup(s) && s.baud >= 2 && p.rx.f.setup == p.tx.setup == s && AllBreak(s, ins) && |ins| >= 16 * s.baud + 5
    ensures Run(s, p, ins).rx.e.brk
  {
    BreakRun(s, p, ins, 0);
    assert BreakTime(s) == 16 * s.baud;
    hide Run, GoodSetup, AllBreak;
  }

  // n clocks of silence after a break.
  ghost predicate Mending(s: Setup, p: Pair, n: nat) {
    var e, f, o, t, b := p.rx.e, p.rx.f, p.rx.o, p.tx, BreakTime(s);
    && MendingTx(s, t, n)
    && e.q == (n >= b + 2) && e.qq == (n >= b + 3) && e.ck == (n >= b + 4)
    && (if n < b + 4 then e.chg >= b else e.chg == if n - b - 4 < b then n - b - 4 else b)
    && e.brk == (n < b + 5) && (n < b + 5 ==> !e.synch) && (n >= 2 * b + 5 ==> e.synch)
    && f.setup == s && (f.state == RESET_IDLE || f.state == if n <= b + 5 then RX_BREAK else IDLE)
    && (n >= 2 * b + 6 ==> f.state == IDLE) && (n >= 2 * b + 7 ==> !f.zero && !o.preWr)
    && (n >= 1 ==> f.counter == s.baud - 1 && !o.frameErr)
  }

  ghost predicate MendingTx(s: Setup, t: Tx, n: nat) {
    var b := BreakTime(s);
    && t.setup == s && (s.fixdParity ==> t.parity == s.even) && t.line == (n > b)
    && if n <= b then t.state == TX_BREAK && t.counter == b - n && t.zero == (n == b)
       else t.state == IDLE && (if n - b - 1 < 4 * s.baud then !t.zero && t.counter == 4 * s.baud + b + 1 - n else t.zero)
  }

  lemma {:induction false} MendingTxStep(s: Setup, t: Tx, i: TxIn, n: nat)
    requires GoodSetup(s) && s.baud >= 2 && MendingTx(s, t, n) && Working(i, s) && !i.wr
    ensures MendingTx(s, TxStep(t, i), n + 1)
  {
    hide TxBusy;
  }

  lemma {:induction false} MendingStep(s: Setup, p: Pair, i: TxIn, n: nat)
    requires GoodSetup(s) && s.baud >= 2 && Mending(s, p, n) && Working(i, s) && !i.wr
    ensures Mending(s, Step(p, i), n + 1)
  {
    MendingTxStep(s, p.tx, i, n);
    assert p.tx.line == (n > BreakTime(s));
    hide MendingTx, TxStep, Aligned;
  }

  lemma {:induction false} MendingRun(s: Setup, p: Pair, ins: seq<TxIn>, n: nat)
    requires GoodSetup(s) && s.baud >= 2 && Mending(s, p, n) && AllWorking(s, ins) && Silent(ins)
    ensures Mending(s, Run(s, p, ins), n + |ins|)
    decreases |ins|
  {
    assert p.rx.f.setup == s;
    hide GoodSetup, Step, Mending;
    if ins != [] {
      MendingStep(s, p, ins[0], n);
      assert AllWorking(s, ins[1..]) && Silent(ins[1..]);
      MendingRun(s, Step(p, ins[0]), ins[1..], n + 1);
    }
  }

  // After a break that long, and thirty-two bit times and seven clocks of silence, both ends are idle again.
  lemma {:induction false} BreakMends(s: Setup, p: Pair, ins: seq<TxIn>, silence: seq<TxIn>)
    requires GoodSetup(s) && s.baud >= 2 && p.rx.f.setup == p.tx.setup == s && AllBreak(s, ins) && |ins| >= 16 * s.baud + 6
    requires AllWorking(s, silence) && Silent(silence) && |silence| >= 32 * s.baud + 7
    ensures BothIdle(s, Run(s, Run(s, p, ins), silence))
  {
    BreakRun(s, p, ins, 0);
    var q := Run(s, p, ins);
    assert BreakTime(s) == 16 * s.baud;
    assert Mending(s, q, 0);
    MendingRun(s, q, silence, 0);
    Mended(s, Run(s, q, silence), |silence|);
    hide Run, GoodSetup, AllBreak, AllWorking, Silent;
  }

  lemma {:induction false} Mended(s: Setup, p: Pair, n: nat)
    requires GoodSetup(s) && s.baud >= 2 && Mending(s, p, n) && n >= 32 * s.baud + 7
    ensures BothIdle(s, p)
  {
  }

  // ---- Start-up ----

  function RunAny(p: Pair, ins: seq<TxIn>): (q: Pair)
    requires GoodSetup(p.rx.f.setup) && forall k :: 0 <= k < |ins| ==> GoodSetup(ins[k].setup)
    ensures GoodSetup(q.rx.f.setup)
    decreases |ins|
  {
    if ins == [] then p else RunAny(Step(p, ins[0]), ins[1..])
  }

  // n clocks of reset, as far as they have come.
  ghost predicate Cleared(s: Setup, p: Pair, n: nat) {
    var e, f, o, t := p.rx.e, p.rx.f, p.rx.o, p.tx;
    && (n >= 1 ==> t.state == IDLE && t.line && !t.zero && f.state == RESET_IDLE && e.chg == 0 && !o.preWr)
    && (n >= 2 ==> t.setup == s && f.setup == s && e.q)
    && (n >= 3 ==> e.qq && !e.brk && !e.synch && t.counter == BreakTime(s) && (s.fixdParity ==> t.parity == s.even) && !o.frameErr)
    && (n >= 4 ==> e.ck)
  }

  lemma {:induction false} ClearedStep(s: Setup, p: Pair, i: TxIn, n: nat)
    requires GoodSetup(s) && s.baud >= 2 && GoodSetup(p.rx.f.setup) && Cleared(s, p, n) && i.reset && i.setup == s
    ensures Cleared(s, Step(p, i), n + 1)
  {
    hide TxBusy, Aligned;
  }

  ghost predicate AllReset(s: Setup, ins: seq<TxIn>) { forall k :: 0 <= k < |ins| ==> ins[k].reset && ins[k].setup == s }

  lemma {:induction false} ClearedRun(s: Setup, p: Pair, ins: seq<TxIn>, n: nat)
    requires GoodSetup(s) && s.baud >= 2 && GoodSetup(p.rx.f.setup) && Cleared(s, p, n) && AllReset(s, ins)
    ensures Cleared(s, RunAny(p, ins), n + |ins|)
    decreases |ins|
  {
    hide GoodSetup, Step, Cleared;
    if ins != [] {
      ClearedStep(s, p, ins[0], n);
      assert AllReset(s, ins[1..]);
      GoodStays(p, ins[0]);
      ClearedRun(s, Step(p, ins[0]), ins[1..], n + 1);
    }
  }

  lemma {:induction false} GoodStays(p: Pair, i: TxIn)
    requires GoodSetup(p.rx.f.setup) && GoodSetup(i.setup)
    ensures GoodSetup(Step(p, i).rx.f.setup)
  {
  }

  // n clocks of silence after that.
  ghost predicate Settling(s: Setup, p: Pair, n: nat) {
    var e, f, o, t, b := p.rx.e, p.rx.f, p.rx.o, p.tx, BreakTime(s);
    && t.state == IDLE && t.line && t.setup == s && (s.fixdParity ==> t.parity == s.even)
    && (if n < b then !t.zero && t.counter == b - n else t.zero)
    && e.q && e.qq && e.ck && !e.brk && e.chg == (if n < b then n else b) && (n > b ==> e.synch)
    && f.setup == s && (f.state == IDLE || f.state == RESET_IDLE)
    && (n > b + 1 ==> f.state == IDLE) && (n > b + 2 ==> !f.zero && f.counter == s.baud - 1)
    && !o.frameErr && !o.preWr
  }

  lemma {:induction false} SettlingStep(s: Setup, p: Pair, i: TxIn, n: nat)
    requires GoodSetup(s) && s.baud >= 2 && Settling(s, p, n) && Working(i, s) && !i.wr
    ensures Settling(s, Step(p, i), n + 1)
  {
    hide TxBusy, Aligned;
  }

  lemma {:induction false} SettlingRun(s: Setup, p: Pair, ins: seq<TxIn>, n: nat)
    requires GoodSetup(s) && s.baud >= 2 && Settling(s, p, n) && AllWorking(s, ins) && Silent(ins)
    ensures p.rx.f.setup == s && Settling(s, RunAny(p, ins), n + |ins|)
    decreases |ins|
  {
    assert p.rx.f.setup == s;
    hide GoodSetup, Step, Settling;
    if ins != [] {
      SettlingStep(s, p, ins[0], n);
      assert AllWorking(s, ins[1..]) && Silent(ins[1..]);
      SettlingRun(s, Step(p, ins[0]), ins[1..], n + 1);
    }
  }

  // From any registers whatever: a reset of four clocks or more, and sixteen bit times and three clocks of silence, and
  // both ends are idle with the setup they were given.
  lemma {:induction false} StartsIdle(s: Setup, p: Pair, resets: seq<TxIn>, silence: seq<TxIn>)
    requires GoodSetup(s) && s.baud >= 2 && GoodSetup(p.rx.f.setup)
    requires AllReset(s, resets) && |resets| >= 4 && AllWorking(s, silence) && Silent(silence)
    requires |silence| >= 16 * s.baud + 3
    ensures GoodSetup(RunAny(p, resets).rx.f.setup) && BothIdle(s, RunAny(RunAny(p, resets), silence))
  {
    ClearedRun(s, p, resets, 0);
    SettlingRun(s, RunAny(p, resets), silence, 0);
    hide GoodSetup, RunAny, AllReset, Silent, AllWorking;
  }

  // ---- Frame errors, on any line ----

  // What the receiver's flags are in each state, whatever the line does.
  ghost predicate FlagInv(r: Rx) {
    && GoodSetup(r.f.setup) && (r.f.state <= SECOND_STOP || r.f.state >= RX_BREAK)
    && (r.f.state <= STOP ==> !r.o.preWr && !r.o.frameErr)
    && (r.f.state == SECOND_STOP ==> r.o.preWr && !r.o.frameErr && r.f.setup.dblstop)
  }

  function Hears(r: Rx, ins: seq<RxIn>): (t: Rx)
    requires GoodSetup(r.f.setup) && forall k :: 0 <= k < |ins| ==> GoodSetup(ins[k].setup)
    ensures GoodSetup(t.f.setup)
    decreases |ins|
  {
    if ins == [] then r else Hears(RxStep(r, ins[0]), ins[1..])
  }

  lemma {:induction false} FlagStep(r: Rx, i: RxIn)
    requires FlagInv(r) && GoodSetup(i.setup)
    ensures FlagInv(RxStep(r, i))
    ensures var t := RxStep(r, i);
            t.o.wr && t.o.frameErr <==> r.f.zero && r.f.state == SECOND_STOP && !r.e.ck && !i.reset
  {
    hide Aligned, EdgeStep;
  }

  lemma {:induction false} FlagRun(r: Rx, ins: seq<RxIn>)
    requires FlagInv(r) && forall k :: 0 <= k < |ins| ==> GoodSetup(ins[k].setup)
    ensures GoodSetup(r.f.setup) && FlagInv(Hears(r, ins))
    decreases |ins|
  {
    assert GoodSetup(r.f.setup);
    hide FlagInv, RxStep, GoodSetup;
    if ins != [] {
      FlagStep(r, ins[0]);
      FlagRun(RxStep(r, ins[0]), ins[1..]);
    }
  }

  // The frame error stands beside the byte exactly when it is a second stop bit that is low: with one stop bit it is
  // never seen there, since the byte then waits for the line to rest and the flag does not.
  lemma {:induction false} FrameErrorShown(r: Rx, ins: seq<RxIn>, i: RxIn)
    requires FlagInv(r) && GoodSetup(i.setup) && forall k :: 0 <= k < |ins| ==> GoodSetup(ins[k].setup)
    ensures GoodSetup(r.f.setup)
    ensures var t := Hears(r, ins);
            var o := RxStep(t, i).o;
            && (o.wr && o.frameErr <==> t.f.zero && t.f.state == SECOND_STOP && !t.e.ck && !i.reset)
            && (o.wr && o.frameErr ==> t.f.setup.dblstop)
  {
    FlagRun(r, ins);
    FlagStep(Hears(r, ins), i);
    hide Hears, RxStep, GoodSetup;
  }
}
