// The clocked blocks of rtl/txuart.v and rtl/rxuart.v, statement by statement.
module UartRtl {
  import opened Uart

  class Txuart {
    var state: nat
    var rBusy: bool
    var lclData: Octet
    var oUartTx: bool
    var calcParity: bool
    var baudCounter: nat
    var zeroBaudCounter: bool
    var rSetup: Setup
    var qCtsN: bool
    var qqCtsN: bool
    var ckCts: bool

    ghost function State(): Tx
      reads this
    {
      Tx(state, rBusy, lclData, oUartTx, calcParity, baudCounter, zeroBaudCounter, rSetup, qCtsN, qqCtsN, ckCts)
    }

    constructor (setup: Setup)
      ensures State() == Tx(IDLE, true, lclData, true, false, 5, false, setup, qCtsN, qqCtsN, ckCts)
    {
      oUartTx, rBusy, state, calcParity, rSetup := true, true, IDLE, false, setup;
      zeroBaudCounter, baudCounter := false, 5;
    }

    // Lines 184 to 242.
    method StateBlock(i: TxIn) returns (st: nat, busy: bool)
      ensures st == TxState(State(), i) && busy == TxBusy(State(), i)
    {
      st, busy := state, true;
      if i.reset {
        st := IDLE;
      } else if i.brk {
        st := TX_BREAK;
      } else if !zeroBaudCounter {
      } else if state == TX_BREAK {
        st := IDLE;
      } else if state == IDLE {
        if i.wr && !rBusy { st := rSetup.short; } else { busy := !ckCts; }
      } else if state < 8 {
        if state == BIT_SEVEN { st := if rSetup.useParity then PARITY else STOP; } else { st := state + 1; }
      } else if state == PARITY {
        st := STOP;
      } else if state == STOP {
        st := if rSetup.dblstop then SECOND_STOP else IDLE;
      } else {
        st := IDLE;
      }
    }

    // Lines 295 to 324.
    method LineBlock(i: TxIn) returns (line: bool, parity: bool)
      ensures line == TxLine(State(), i) && parity == TxCalc(State())
    {
      line, parity := oUartTx, calcParity;
      if i.reset { line := true; }
      else if i.brk || (i.wr && !rBusy) { line := false; }
      else if zeroBaudCounter {
        if state < 8 { line := lclData[0]; }
        else if state == PARITY { line := calcParity; }
        else { line := true; }
      }
      if rSetup.fixdParity { parity := rSetup.even; }
      else if zeroBaudCounter {
        parity := if state < 8 then calcParity != lclData[0] else rSetup.even;
      } else if !rBusy { parity := rSetup.even; }
    }

    // Lines 369 to 394.
    method BaudBlock(i: TxIn) returns (counter: nat, zero: bool)
      ensures counter == TxCounter(State(), i) && zero == TxZero(State(), i)
    {
      counter, zero := baudCounter, baudCounter == 1;
      if i.reset || i.brk {
        counter, zero := BreakTime(rSetup), false;
      } else if !zeroBaudCounter {
        counter := Down(baudCounter);
      } else if state == TX_BREAK {
        counter := rSetup.baud * 4;
      } else if state == IDLE {
        counter, zero := 0, true;
        if i.wr && !rBusy { counter, zero := Down(rSetup.baud), false; }
      } else {
        counter := Down(rSetup.baud);
      }
    }

    method Clock(i: TxIn)
      modifies this
      ensures State() == TxStep(old(State()), i)
    {
      var t := NextState(i);
      hide TxStep;
      Latch(t);
    }

    method NextState(i: TxIn) returns (t: Tx)
      ensures t == TxStep(State(), i)
    {
      hide TxState, TxBusy, TxLine, TxCalc, TxCounter, TxZero;
      var st, busy := StateBlock(i);
      var line, parity := LineBlock(i);
      var counter, zero := BaudBlock(i);
      var lcl, setup := lclData, rSetup;
      if !rBusy { lcl := i.data; }
      else if zeroBaudCounter { lcl := lclData[1..] + [false]; }
      if state == IDLE { setup := i.setup; }
      t := Tx(st, busy, lcl, line, parity, counter, zero, setup, i.ctsN, qCtsN, !qqCtsN || !rSetup.flow);
    }

    method Latch(t: Tx)
      modifies this
      ensures State() == t
    {
      state, rBusy, lclData, oUartTx, calcParity := t.state, t.busy, t.lcl, t.line, t.parity;
      baudCounter, zeroBaudCounter, rSetup := t.counter, t.zero, t.setup;
      qCtsN, qqCtsN, ckCts := t.q, t.qq, t.cts;
    }
  }

  class Rxuart {
    var e: Edge                 // q_uart, qq_uart, ck_uart, chg_counter, o_break, line_synch and half_baud_time
    var state: nat
    var rSetup: Setup
    var dataReg: Octet
    var calcParity: bool
    var baudCounter: nat
    var zeroBaudCounter: bool
    var o: Out                  // o_parity_err, o_frame_err, pre_wr, o_wr and o_data

    ghost function State(): Rx
      reads this
    {
      Rx(e, Frame(state, rSetup, dataReg, calcParity, baudCounter, zeroBaudCounter), o)
    }

    constructor (setup: Setup)
      ensures State().e == Edge(false, false, false, 0, false, false, false)
      ensures State().f.state == RESET_IDLE && State().f.setup == setup && !State().f.zero
      ensures State().o == Out(false, false, false, false, [false, false, false, false, false, false, false, false])
    {
      e := Edge(false, false, false, 0, false, false, false);
      state, rSetup, zeroBaudCounter := RESET_IDLE, setup, false;
      o := Out(false, false, false, false, [false, false, false, false, false, false, false, false]);
    }

    // Lines 160 to 214.
    method EdgeBlocks(i: RxIn) returns (n: Edge)
      ensures n == EdgeStep(e, rSetup, i)
    {
      var chg := e.chg;
      if i.reset { chg := 0; }
      else if e.qq != e.ck { chg := 0; }
      else if e.chg < BreakTime(rSetup) { chg := e.chg + 1; }
      n := Edge(i.line, e.q, e.qq, chg, e.chg >= BreakTime(rSetup) && !e.ck, e.chg >= BreakTime(rSetup) && e.ck,
                !e.ck && e.chg >= HalfBaud(rSetup));
    }

    // Lines 252 to 312.
    method StateBlock(i: RxIn) returns (st: nat)
      ensures st == RxState(e, State().f, i)
    {
      st := state;
      if i.reset {
        st := RESET_IDLE;
      } else if state == RESET_IDLE {
        st := if e.synch then IDLE else RESET_IDLE;
      } else if e.brk {
        st := RX_BREAK;
      } else if state == RX_BREAK {
        st := if e.ck then IDLE else RX_BREAK;
      } else if state == IDLE {
        st := if !e.ck && e.half then rSetup.short else IDLE;
      } else if zeroBaudCounter {
        if state < BIT_SEVEN { st := state + 1; }
        else if state == BIT_SEVEN { st := if rSetup.useParity then PARITY else STOP; }
        else if state == PARITY { st := STOP; }
        else if state == STOP {
          if !e.ck { st := RESET_IDLE; } else { st := if rSetup.dblstop then SECOND_STOP else IDLE; }
        } else {
          st := if !e.ck then RESET_IDLE else IDLE;
        }
      }
    }

    // Lines 350 to 424.
    method OutBlocks(i: RxIn) returns (n: Out)
      requires GoodSetup(rSetup)
      ensures n == OutStep(e, State().f, o, i)
    {
      n := o;
      if zeroBaudCounter && state == PARITY {
        if rSetup.fixdParity { n := n.(parityErr := e.ck != rSetup.even); }
        else if rSetup.even { n := n.(parityErr := calcParity != e.ck); }
        else { n := n.(parityErr := calcParity == e.ck); }
      } else if state >= RX_BREAK {
        n := n.(parityErr := false);
      }
      if zeroBaudCounter && (state == STOP || state == SECOND_STOP) {
        n := n.(frameErr := o.frameErr || !e.ck);
      } else if zeroBaudCounter || state >= RX_BREAK {
        n := n.(frameErr := false);
      }
      if i.reset {
        n := n.(preWr := false, data := [false, false, false, false, false, false, false, false]);
      } else if zeroBaudCounter && state == STOP {
        n := n.(preWr := true, data := Aligned(dataReg, rSetup.short));
      } else if zeroBaudCounter || state == IDLE {
        n := n.(preWr := false);
      }
      n := n.(wr := if zeroBaudCounter || state == IDLE then o.preWr && !i.reset else false);
    }

    // Lines 323 to 344, and 432 to 455.
    method FrameBlocks(i: RxIn, st: nat) returns (n: Frame)
      requires GoodSetup(rSetup) && st == RxState(e, State().f, i)
      ensures n == FrameStep(e, State().f, i)
    {
      hide RxState;
      var data, parity, counter := dataReg, calcParity, Down(baudCounter);
      if zeroBaudCounter && state != PARITY { data := dataReg[1..] + [e.ck]; }
      if state == IDLE { parity := false; }
      else if zeroBaudCounter { parity := calcParity != e.ck; }
      if i.reset || zeroBaudCounter || state == RESET_IDLE || state == RX_BREAK || state >= IDLE {
        counter := Down(rSetup.baud);
      }
      n := Frame(st, if state >= RESET_IDLE then i.setup else rSetup, data, parity, counter,
                 state != IDLE && baudCounter == 1);
    }

    // Everything at the clock edge.
    method Clock(i: RxIn)
      requires GoodSetup(rSetup)
      modifies this
      ensures State() == RxStep(old(State()), i)
    {
      hide FrameStep, RxState, OutStep, EdgeStep;
      var edge := EdgeBlocks(i);
      var st := StateBlock(i);
      var out := OutBlocks(i);
      var f := FrameBlocks(i, st);
      state, rSetup, dataReg, calcParity, baudCounter, zeroBaudCounter := f.state, f.setup, f.data, f.parity, f.counter, f.zero;
      e, o := edge, out;
    }
  }
}
