// The bus executor of rtl/wbuexec.v, clock by clock, with the bus it drives.
module WbuExec {
  import opened WbuCode
  import opened WbuForward

  datatype BusState = Resting | ReadRequest | WriteRequest | WaitOnAck | WaitOnNextWrite | FlushWrites

  datatype Regs = Regs(state: BusState, cyc: bool, stb: bool, we: bool, addr: Word, data: Word, outStb: bool,
                       out: Codeword, acksNeeded: nat, len: nat, inc: bool, newAddr: bool, lastRead: bool,
                       singleRead: bool, lastAck: bool, zeroAcks: bool)

  datatype In = In(rst: bool, stb: bool, word: Codeword, ack: bool, stall: bool, err: bool, data: Word)

  predicate Busy(s: Regs) { s.state.ReadRequest? || s.state.WriteRequest? || s.state.WaitOnAck? }

  // ---- Reply words ----

  function AddrReply(addr: Word): Codeword { Codeword(8 + addr / 0x4000_0000, addr % 0x4000_0000) }
  function DataReply(data: Word, inc: bool): Codeword {
    Codeword(56 + data / 0x4000_0000 * 2 + (if inc then 1 else 0), data % 0x4000_0000)
  }
  function Token(op: Digit, data: Word): Codeword { Codeword(op, data % 0x4000_0000) }

  const WRITE_DONE: Digit := 2
  const BUS_RESET: Digit := 3
  const BUS_ERROR: Digit := 5

  // ---- The registers beside the state machine ----

  function NextAcks(s: Regs, i: In): nat {
    if !s.cyc then 0
    else if s.stb && !i.stall && !i.ack then (s.acksNeeded + 1) % 1024
    else if (!s.stb || i.stall) && i.ack then (s.acksNeeded + 1023) % 1024
    else s.acksNeeded
  }

  function NextNewAddr(s: Regs, i: In): bool {
    if i.rst || (!s.cyc && i.stb && i.word.op < 32) then true else if s.cyc then false else s.newAddr
  }

  function NextLen(s: Regs, i: In): nat {
    if !s.stb then i.word.low % 1024 else if !i.stall && s.len != 0 then s.len - 1 else s.len
  }

  // With the state machine's own registers in t, everything that is set on every clock.
  function Counters(s: Regs, i: In, t: Regs): Regs {
    t.(acksNeeded := NextAcks(s, i), len := NextLen(s, i), newAddr := NextNewAddr(s, i),
       singleRead := !s.cyc && i.word.low % 1024 == 1,
       lastRead := s.stb && s.len / 4 == 0 && (s.len / 2 % 2 == 0 || (s.len % 2 == 0 && !i.stall)),
       lastAck := (!s.stb && s.acksNeeded == 1) || (s.stb && s.acksNeeded == 0),
       zeroAcks := !s.stb && s.acksNeeded == 0)
  }

  // ---- The state machine ----

  function FromRest(s: Regs, i: In): Regs {
    var op := i.word.op;
    var t := s.(cyc := false, stb := false, outStb := false, inc := op % 2 == 1, out := AddrReply(s.addr),
                we := op / 16 != 3, data := Data(i.word));
    if !i.stb then t
    else if op < 4 then t.(addr := op * 0x4000_0000 + i.word.low)
    else if op / 8 == 1 then t.(addr := Plus(s.addr, Data(i.word)))
    else if op / 16 == 1 then t.(state := WriteRequest, cyc := true, stb := true)
    else if op / 16 == 3 then t.(outStb := s.newAddr, state := ReadRequest, cyc := true, stb := true)
    else t
  }

  function FromRead(s: Regs, i: In): Regs {
    var t := s.(cyc := true, stb := true, outStb := i.err || i.ack,
                out := if i.err then Token(BUS_ERROR, i.data) else DataReply(i.data, s.inc),
                addr := if s.inc && !i.stall then Plus(s.addr, 1) else s.addr,
                state := if i.err then Resting else ReadRequest);
    if !i.stall && (s.singleRead || s.lastRead) then t.(state := WaitOnAck, stb := false) else t
  }

  function FromWrite(s: Regs, i: In): Regs {
    var t := s.(cyc := true, stb := true, outStb := i.err || !i.stall,
                out := if i.err then Token(BUS_ERROR, i.data) else Token(WRITE_DONE, i.data),
                addr := if s.inc && !i.stall then Plus(s.addr, 1) else s.addr);
    if i.err then t.(state := FlushWrites, cyc := false, stb := false)
    else if !i.stall then t.(state := WaitOnNextWrite, stb := false)
    else t
  }

  function FromAck(s: Regs, i: In): Regs {
    var t := s.(cyc := true, stb := false, outStb := (i.ack && !s.we) || i.err,
                out := if i.err then Token(BUS_ERROR, i.data) else DataReply(i.data, s.inc));
    if (s.lastAck && i.ack) || s.zeroAcks || i.err then t.(cyc := false, state := Resting) else t
  }

  // A word that no burst of writes can take.
  predicate Foreign(i: In) { i.stb && i.word.op / 8 != 3 && i.word.op != 0x2e }

  function FromNextWrite(s: Regs, i: In): Regs {
    var t := s.(out := Token(BUS_ERROR, i.data), outStb := i.err || Foreign(i), data := Data(i.word), cyc := true,
                stb := false);
    if Foreign(i) then t.(cyc := false, state := Resting)
    else if i.err then t.(cyc := false, state := FlushWrites)
    else if i.stb && i.word.op / 16 == 1 then t.(state := WriteRequest, stb := true)
    else if i.stb then t.(state := WaitOnAck)
    else t
  }

  function FromFlush(s: Regs, i: In): Regs {
    s.(cyc := false, stb := false, out := Token(BUS_ERROR, i.data), outStb := Foreign(i),
       state := if i.stb && (i.word.op == 0x2e || Foreign(i)) then Resting else FlushWrites)
  }

  function Machine(s: Regs, i: In): Regs {
    if i.rst then s.(state := Resting, outStb := true, out := Token(BUS_RESET, i.data), cyc := false, stb := false) else
    match s.state
    case Resting => FromRest(s, i)
    case ReadRequest => FromRead(s, i)
    case WriteRequest => FromWrite(s, i)
    case WaitOnAck => FromAck(s, i)
    case WaitOnNextWrite => FromNextWrite(s, i)
    case FlushWrites => FromFlush(s, i)
  }

  function Step(s: Regs, i: In): Regs { Counters(s, i, Machine(s, i)) }

  // ---- The executor on its bus ----

  // The registers, and how many transfers the bus has accepted and not acknowledged.
  datatype Sys = Sys(x: Regs, open: nat)

  predicate Strobes(s: Regs, i: In) { s.cyc && s.stb && !i.stall }

  // Words come only when the executor can take them; there are no errors and no resets; a transfer may be
  // acknowledged on the clock that accepts it, but not before.  Writes do not pile up without limit.
  predicate Legal(s: Sys, i: In) {
    && !i.rst && !i.err
    && (i.stb ==> !Busy(s.x))
    && (i.ack ==> s.x.cyc && s.open + (if Strobes(s.x, i) then 1 else 0) > 0)
    && (Strobes(s.x, i) && s.x.we ==> s.open < 1023)
  }

  function SysStep(s: Sys, i: In): Sys
    requires Legal(s, i)
  {
    Sys(Step(s.x, i), s.open + (if Strobes(s.x, i) then 1 else 0) - (if i.ack then 1 else 0))
  }

  predicate Initial(s: Sys) { s.x.state.Resting? && !s.x.cyc && !s.x.stb && s.x.acksNeeded == 0 && s.open == 0 }
}
