// The clocked blocks of rtl/wbuexec.v, statement by statement.
module WbuExecRtl {
  import opened WbuCode
  import opened WbuForward
  import opened WbuExec

  // The registers beside the state machine, of lines 316 to 353.
  datatype Beside = Beside(acksNeeded: nat, len: nat, newAddr: bool, lastRead: bool, singleRead: bool, lastAck: bool,
                           zeroAcks: bool)

  // What is set on every clock does not depend on the state machine.
  lemma {:induction false} CountersApart(s: Regs, i: In, t: Regs)
    ensures var c := Counters(s, i, s);
            Counters(s, i, t) == t.(acksNeeded := c.acksNeeded, len := c.len, newAddr := c.newAddr, lastRead := c.lastRead,
                                    singleRead := c.singleRead, lastAck := c.lastAck, zeroAcks := c.zeroAcks)
  {
  }

  class Wbuexec {
    var wbState: BusState
    var oWbCyc: bool
    var oWbStb: bool
    var oWbWe: bool
    var oWbAddr: Word
    var oWbData: Word
    var oStb: bool
    var oCodword: Codeword
    var rInc: bool
    var r: Beside

    function State(): Regs
      reads this
    {
      Regs(wbState, oWbCyc, oWbStb, oWbWe, oWbAddr, oWbData, oStb, oCodword, r.acksNeeded, r.len, rInc, r.newAddr,
           r.lastRead, r.singleRead, r.lastAck, r.zeroAcks)
    }

    constructor (s: Regs)
      ensures State() == s
    {
      wbState, oWbCyc, oWbStb, oWbWe, oWbAddr, oWbData := s.state, s.cyc, s.stb, s.we, s.addr, s.data;
      oStb, oCodword, rInc := s.outStb, s.out, s.inc;
      r := Beside(s.acksNeeded, s.len, s.newAddr, s.lastRead, s.singleRead, s.lastAck, s.zeroAcks);
    }

    // Lines 316 to 353.
    method BesideBlocks(i: In) returns (b: Beside)
      ensures var t := Counters(State(), i, State());
              b == Beside(t.acksNeeded, t.len, t.newAddr, t.lastRead, t.singleRead, t.lastAck, t.zeroAcks)
    {
      var acks, len, newAddr := r.acksNeeded, r.len, r.newAddr;
      if i.rst { newAddr := true; }
      else if !oWbCyc && i.stb && i.word.op < 32 { newAddr := true; }
      else if oWbCyc { newAddr := false; }

      if !oWbCyc { acks := 0; }
      else if oWbStb && !i.stall && !i.ack { acks := (acks + 1) % 1024; }
      else if (!oWbStb || i.stall) && i.ack { acks := (acks + 1023) % 1024; }

      if !oWbStb { len := i.word.low % 1024; }
      else if !i.stall && len != 0 { len := len - 1; }

      b := Beside(acks, len, newAddr,
                  oWbStb && r.len / 4 == 0 && (r.len / 2 % 2 == 0 || (r.len % 2 == 0 && !i.stall)),
                  !oWbCyc && i.word.low % 1024 == 1,
                  (!oWbStb && r.acksNeeded == 1) || (oWbStb && r.acksNeeded == 0),
                  !oWbStb && r.acksNeeded == 0);
    }

    // Lines 102 to 169: take a command.
    method RestBranch(i: In) returns (t: Regs)
      requires wbState.Resting?
      ensures t == FromRest(State(), i)
    {
      t := State().(cyc := false, stb := false, outStb := false, inc := i.word.op % 2 == 1, out := AddrReply(oWbAddr),
                    we := i.word.op / 16 != 3, data := Data(i.word));
      if i.stb {
        if i.word.op / 4 == 0 {
          t := t.(addr := i.word.op * 0x4000_0000 + i.word.low);
        } else if i.word.op / 8 == 1 {
          t := t.(addr := Plus(oWbAddr, Data(i.word)));
        } else if i.word.op / 16 == 1 {
          t := t.(state := WriteRequest, cyc := true, stb := true);
        } else if i.word.op / 16 == 3 {
          if r.newAddr { t := t.(outStb := true); }
          t := t.(state := ReadRequest, cyc := true, stb := true);
        }
      }
    }

    // Lines 170 to 196: one strobe after another.
    method ReadBranch(i: In) returns (t: Regs)
      requires wbState.ReadRequest?
      ensures t == FromRead(State(), i)
    {
      hide DataReply, Token, Plus;
      var st, stb, addr := wbState, true, oWbAddr;
      if i.err { st := Resting; }
      var out := if i.err then Token(BUS_ERROR, i.data) else DataReply(i.data, rInc);
      if rInc && !i.stall { addr := Plus(oWbAddr, 1); }
      if !i.stall {
        if r.singleRead || r.lastRead { st, stb := WaitOnAck, false; }
      }
      t := State().(state := st, cyc := true, stb := stb, outStb := i.err || i.ack, out := out, addr := addr);
    }

    // Lines 197 to 227: one write.
    method WriteBranch(i: In) returns (t: Regs)
      requires wbState.WriteRequest?
      ensures t == FromWrite(State(), i)
    {
      t := State().(cyc := true, stb := true, outStb := i.err || !i.stall);
      t := t.(out := if i.err then Token(BUS_ERROR, i.data) else Token(WRITE_DONE, i.data));
      if rInc && !i.stall { t := t.(addr := Plus(oWbAddr, 1)); }
      if i.err { t := t.(state := FlushWrites, cyc := false, stb := false); }
      else if !i.stall { t := t.(state := WaitOnNextWrite, stb := false); }
    }

    // Lines 228 to 252: wait for what is still to be acknowledged.
    method AckBranch(i: In) returns (t: Regs)
      requires wbState.WaitOnAck?
      ensures t == FromAck(State(), i)
    {
      t := State().(cyc := true, stb := false, outStb := (i.ack && !oWbWe) || i.err);
      t := t.(out := if i.err then Token(BUS_ERROR, i.data) else DataReply(i.data, rInc));
      if (r.lastAck && i.ack) || r.zeroAcks || i.err { t := t.(cyc := false, state := Resting); }
    }

    // Lines 253 to 278, and 279 to 296: between two writes, and after an error among them.
    method BurstBranch(i: In) returns (t: Regs)
      requires wbState.WaitOnNextWrite? || wbState.FlushWrites?
      ensures t == if wbState.WaitOnNextWrite? then FromNextWrite(State(), i) else FromFlush(State(), i)
    {
      var eow := i.stb && i.word.op == 0x2e;
      var newErr := i.stb && i.word.op / 8 != 3 && i.word.op != 0x2e;
      if wbState.FlushWrites? {
        t := State().(cyc := false, stb := false, out := Token(BUS_ERROR, i.data), outStb := newErr);
        if eow || newErr { t := t.(state := Resting); }
        return;
      }
      t := State().(out := Token(BUS_ERROR, i.data), outStb := i.err || newErr, data := Data(i.word), cyc := true, stb := false);
      if newErr { t := t.(cyc := false, state := Resting); }
      else if i.err { t := t.(cyc := false, state := FlushWrites); }
      else if i.stb && i.word.op / 16 == 1 { t := t.(state := WriteRequest, stb := true); }
      else if eow { t := t.(state := WaitOnAck); }
    }

    method Latch(t: Regs, b: Beside)
      modifies this
      ensures State() == t.(acksNeeded := b.acksNeeded, len := b.len, newAddr := b.newAddr, lastRead := b.lastRead,
                            singleRead := b.singleRead, lastAck := b.lastAck, zeroAcks := b.zeroAcks)
    {
      wbState, oWbCyc, oWbStb, oWbWe, oWbAddr, oWbData := t.state, t.cyc, t.stb, t.we, t.addr, t.data;
      oStb, oCodword, rInc, r := t.outStb, t.out, t.inc, b;
    }

    // The case over the states.
    method StateBlock(i: In) returns (t: Regs)
      ensures t == Machine(State(), i)
    {
      hide FromRest, FromRead, FromWrite, FromAck, FromNextWrite, FromFlush;
      if i.rst {
        t := State().(state := Resting, outStb := true, out := Token(BUS_RESET, i.data), cyc := false, stb := false);
      } else {
        match wbState
        case Resting => t := RestBranch(i);
        case ReadRequest => t := ReadBranch(i);
        case WriteRequest => t := WriteBranch(i);
        case WaitOnAck => t := AckBranch(i);
        case _ => t := BurstBranch(i);
      }
    }

    method Clock(i: In)
      modifies this
      ensures State() == Step(old(State()), i)
    {
      hide Machine, Counters;
      var t := StateBlock(i);
      var b := BesideBlocks(i);
      CountersApart(State(), i, t);
      Latch(t, b);
    }
  }
}
