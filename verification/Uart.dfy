// The serial port: the transmitter of rtl/txuart.v and the receiver of rtl/rxuart.v, clock by clock.
module Uart {
  // Eight bits, the least significant first.
  type Octet = b: seq<bool> | |b| == 8 witness [false, false, false, false, false, false, false, false]

  // The setup register: flow control, the number of data bits left out, stop bits, parity, and the clocks of a bit.
  datatype Setup = Setup(flow: bool, short: nat, dblstop: bool, useParity: bool, fixdParity: bool, even: bool, baud: nat)

  predicate GoodSetup(s: Setup) { s.short < 4 && s.baud < 0x100_0000 }

  const W28 := 0x1000_0000
  function Down(n: nat): nat { (n + W28 - 1) % W28 }
  function BreakTime(s: Setup): nat { s.baud * 16 }

  const BIT_SEVEN := 7
  const PARITY := 8
  const STOP := 9
  const SECOND_STOP := 10
  const RX_BREAK := 13
  const TX_BREAK := 14
  const RESET_IDLE := 14
  const IDLE := 15

  // ---- txuart ----

  // state, r_busy, lcl_data, o_uart_tx, calc_parity, baud_counter, zero_baud_counter, r_setup, and flow control
  datatype Tx = Tx(state: nat, busy: bool, lcl: Octet, line: bool, parity: bool, counter: nat, zero: bool, setup: Setup,
                   q: bool, qq: bool, cts: bool)

  datatype TxIn = TxIn(reset: bool, setup: Setup, brk: bool, wr: bool, data: Octet, ctsN: bool)

  function TxState(s: Tx, i: TxIn): nat {
    if i.reset then IDLE
    else if i.brk then TX_BREAK
    else if !s.zero then s.state
    else if s.state == TX_BREAK then IDLE
    else if s.state == IDLE then (if i.wr && !s.busy then s.setup.short else IDLE)
    else if s.state < BIT_SEVEN then s.state + 1
    else if s.state == BIT_SEVEN then (if s.setup.useParity then PARITY else STOP)
    else if s.state == PARITY then STOP
    else if s.state == STOP && s.setup.dblstop then SECOND_STOP
    else IDLE
  }

  function TxBusy(s: Tx, i: TxIn): bool {
    !i.reset && !i.brk && s.zero && s.state == IDLE && !(i.wr && !s.busy) ==> !s.cts
  }

  function TxLine(s: Tx, i: TxIn): bool {
    if i.reset then true
    else if i.brk || (i.wr && !s.busy) then false
    else if !s.zero then s.line
    else if s.state < PARITY then s.lcl[0]
    else if s.state == PARITY then s.parity
    else true
  }

  function TxCalc(s: Tx): bool {
    if s.setup.fixdParity then s.setup.even
    else if s.zero then (if s.state < PARITY then s.parity != s.lcl[0] else s.setup.even)
    else if !s.busy then s.setup.even
    else s.parity
  }

  function TxCounter(s: Tx, i: TxIn): nat {
    if i.reset || i.brk then BreakTime(s.setup)
    else if !s.zero then Down(s.counter)
    else if s.state == TX_BREAK then s.setup.baud * 4
    else if s.state == IDLE && !(i.wr && !s.busy) then 0
    else Down(s.setup.baud)
  }

  function TxZero(s: Tx, i: TxIn): bool {
    if i.reset || i.brk then false
    else if s.zero && s.state == IDLE then !(i.wr && !s.busy)
    else s.counter == 1
  }

  function TxStep(s: Tx, i: TxIn): Tx {
    Tx(TxState(s, i), TxBusy(s, i),
       if !s.busy then i.data else if s.zero then s.lcl[1..] + [false] else s.lcl,
       TxLine(s, i), TxCalc(s), TxCounter(s, i), TxZero(s, i),
       if s.state == IDLE then i.setup else s.setup,
       i.ctsN, s.q, !s.qq || !s.setup.flow)
  }

  // ---- rxuart ----

  // q_uart, qq_uart, ck_uart, chg_counter, o_break, line_synch, half_baud_time
  datatype Edge = Edge(q: bool, qq: bool, ck: bool, chg: nat, brk: bool, synch: bool, half: bool)

  // state, r_setup, data_reg, calc_parity, baud_counter, zero_baud_counter
  datatype Frame = Frame(state: nat, setup: Setup, data: Octet, parity: bool, counter: nat, zero: bool)

  // o_parity_err, o_frame_err, pre_wr, o_wr, o_data
  datatype Out = Out(parityErr: bool, frameErr: bool, preWr: bool, wr: bool, data: Octet)

  datatype Rx = Rx(e: Edge, f: Frame, o: Out)

  datatype RxIn = RxIn(reset: bool, setup: Setup, line: bool)

  function HalfBaud(s: Setup): nat { Down(s.baud / 2) }

  function EdgeStep(e: Edge, s: Setup, i: RxIn): Edge {
    Edge(i.line, e.q, e.qq,
         if i.reset || e.qq != e.ck then 0 else if e.chg < BreakTime(s) then e.chg + 1 else e.chg,
         e.chg >= BreakTime(s) && !e.ck, e.chg >= BreakTime(s) && e.ck, !e.ck && e.chg >= HalfBaud(s))
  }

  function RxState(e: Edge, f: Frame, i: RxIn): nat {
    if i.reset then RESET_IDLE
    else if f.state == RESET_IDLE then (if e.synch then IDLE else RESET_IDLE)
    else if e.brk then RX_BREAK
    else if f.state == RX_BREAK then (if e.ck then IDLE else RX_BREAK)
    else if f.state == IDLE then (if !e.ck && e.half then f.setup.short else IDLE)
    else if !f.zero then f.state
    else if f.state < BIT_SEVEN then f.state + 1
    else if f.state == BIT_SEVEN then (if f.setup.useParity then PARITY else STOP)
    else if f.state == PARITY then STOP
    else if !e.ck then RESET_IDLE
    else if f.state == STOP && f.setup.dblstop then SECOND_STOP
    else IDLE
  }

  function FrameStep(e: Edge, f: Frame, i: RxIn): Frame {
    Frame(RxState(e, f, i), if f.state >= RESET_IDLE then i.setup else f.setup,
          if f.zero && f.state != PARITY then f.data[1..] + [e.ck] else f.data,
          if f.state == IDLE then false else if f.zero then f.parity != e.ck else f.parity,
          if i.reset || f.zero || f.state >= RX_BREAK then Down(f.setup.baud) else Down(f.counter),
          f.state != IDLE && f.counter == 1)
  }

  // The data register, moved down over the bits that are not sent.
  function Aligned(d: Octet, short: nat): Octet
    requires short < 4
  {
    d[short..] + [false, false, false][..short]
  }

  function OutStep(e: Edge, f: Frame, o: Out, i: RxIn): Out
    requires GoodSetup(f.setup)
  {
    var stop := f.zero && f.state == STOP;
    Out(
      if f.zero && f.state == PARITY then
        (if f.setup.fixdParity then e.ck != f.setup.even
         else if f.setup.even then f.parity != e.ck
         else f.parity == e.ck)
      else if f.state >= RX_BREAK then false
      else o.parityErr,
      if stop || (f.zero && f.state == SECOND_STOP) then o.frameErr || !e.ck
      else if f.zero || f.state >= RX_BREAK then false
      else o.frameErr,
      if i.reset then false else if stop then true else if f.zero || f.state == IDLE then false else o.preWr,
      (f.zero || f.state == IDLE) && o.preWr && !i.reset,
      if i.reset then [false, false, false, false, false, false, false, false]
      else if stop then Aligned(f.data, f.setup.short)
      else o.data)
  }

  function RxStep(s: Rx, i: RxIn): Rx
    requires GoodSetup(s.f.setup)
  {
    Rx(EdgeStep(s.e, s.f.setup, i), FrameStep(s.e, s.f, i), OutStep(s.e, s.f, s.o, i))
  }
}
