// The clocked blocks of rtl/wbuidleint.v, statement by statement.
module WbuIdleRtl {
  import opened WbuCode
  import opened WbuIdle

  class Wbuidleint {
    var oStb: bool
    var oCodword: Codeword
    var oBusy: bool
    var intRequest: bool
    var intSent: bool
    var idleState: bool
    var idleCounter: nat

    ghost function State(): Regs
      reads this
    {
      Regs(oStb, oCodword, oBusy, intRequest, intSent, idleState, idleCounter)
    }

    constructor (word: Codeword)
      ensures State() == Regs(false, word, false, false, false, false, 0)
    {
      oStb, oCodword, oBusy := false, word, false;
      intRequest, intSent, idleState, idleCounter := false, false, false, 0;
    }

    // Lines 90 to 122.
    method OutputBlock(i: In) returns (stb: bool, codword: Codeword, busy: bool)
      ensures stb == Step(State(), i).stb && codword == Step(State(), i).word && busy == Step(State(), i).busy
    {
      var expired := idleCounter / EXPIRED % 2 == 1;
      stb, codword, busy := oStb, oCodword, oBusy;
      if oStb && i.txBusy {
        busy := true;
      } else if oStb {
        stb, busy := false, true;
      } else if oBusy {
        busy := false;
      } else if i.stb {
        codword, stb, busy := i.word, true, true;
      } else if intRequest && !intSent {
        codword, stb, busy := Codeword(4, 0), true, true;
      } else if !idleState && expired {
        stb, busy := true, true;
        if i.cyc { codword := Codeword(1, 0); } else { codword := Codeword(0, 0); }
      }
    }

    // Lines 61 to 65, and 125 to 129.
    method InterruptBlocks(i: In) returns (request: bool, sent: bool)
      ensures request == Step(State(), i).request && sent == Step(State(), i).sent
    {
      request := if oStb && !i.txBusy && oCodword.op == INTERRUPT_NOTE then i.interrupt else intRequest || i.interrupt;
      sent := intSent;
      if intRequest && !oStb && !oBusy && !i.stb { sent := true; }
      else if !i.interrupt { sent := false; }
    }

    // Lines 73 to 84.
    method IdleBlocks(i: In) returns (idle: bool, counter: nat)
      ensures idle == Step(State(), i).idleState && counter == Step(State(), i).counter
    {
      var expired := idleCounter / EXPIRED % 2 == 1;
      counter := idleCounter;
      if i.stb || oStb || i.busBusy { counter := 0; }
      else if !expired { counter := (idleCounter + PACE) % (2 * EXPIRED); }
      idle := idleState;
      if oStb && !i.txBusy && oCodword.op / 2 == 0 { idle := true; }
      else if !expired { idle := false; }
    }

    method Clock(i: In)
      modifies this
      ensures State() == Step(old(State()), i)
    {
      hide Step;
      var stb, codword, busy := OutputBlock(i);
      var request, sent := InterruptBlocks(i);
      var idle, counter := IdleBlocks(i);
      oStb, oCodword, oBusy := stb, codword, busy;
      intRequest, intSent, idleState, idleCounter := request, sent, idle, counter;
    }
  }
}
