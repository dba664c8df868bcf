// The clocked blocks of rtl/sdspi.v that keep the checksums, lines 854 to 920, statement by statement.
module SdCrcRtl {
  import opened Crc
  import opened SdCrc

  class Sdspi {
    var fifoWrCrcReg: Bits
    var fifoWrCrcCount: nat
    var fifoRdCrcReg: Bits
    var fifoRdCrcCount: nat
    var rCmdCrc: Bits
    var rCmdCrcCnt: nat
    var rCmdCrcFf: bool

    ghost predicate Valid()
      reads this
    {
      |fifoWrCrcReg| == 16 && |fifoRdCrcReg| == 16 && |rCmdCrc| == 8
    }

    ghost function Writing(): Fifo reads this { Fifo(fifoWrCrcReg, fifoWrCrcCount) }
    ghost function Reading(): Fifo reads this { Fifo(fifoRdCrcReg, fifoRdCrcCount) }
    ghost function Command(): Cmd reads this { Cmd(rCmdCrc, rCmdCrcCnt, rCmdCrcFf) }

    // Data on its way from the card.
    method ClockWrite(llFifoWr: bool, stb: bool, llOutDat: Octet)
      requires Valid()
      modifies `fifoWrCrcReg, `fifoWrCrcCount
      ensures Valid() && Writing() == FifoStep(old(Writing()), FifoIn(!llFifoWr, false, stb, llOutDat))
    {
      if !llFifoWr {
        fifoWrCrcReg := Zeros(16);
      } else if stb {
        fifoWrCrcReg := Xor(fifoWrCrcReg, Padded(llOutDat, 16));
        fifoWrCrcCount := 8;
      } else if fifoWrCrcCount != 0 {
        fifoWrCrcCount := fifoWrCrcCount - 1;
        if fifoWrCrcReg[0] { fifoWrCrcReg := Xor(fifoWrCrcReg[1..] + [F], TAPS16); }
        else { fifoWrCrcReg := fifoWrCrcReg[1..] + [F]; }
      }
    }

    // Data on its way to the card.
    method ClockRead(rCmdBusy: bool, stb: bool, fifoByte: Octet)
      requires Valid()
      modifies `fifoRdCrcReg, `fifoRdCrcCount
      ensures Valid() && Reading() == FifoStep(old(Reading()), FifoIn(!rCmdBusy, true, stb, fifoByte))
    {
      if !rCmdBusy {
        fifoRdCrcReg := Zeros(16);
        fifoRdCrcCount := 0;
      } else if stb {
        fifoRdCrcReg := Xor(fifoRdCrcReg, Padded(fifoByte, 16));
        fifoRdCrcCount := 8;
      } else if fifoRdCrcCount != 0 {
        fifoRdCrcCount := fifoRdCrcCount - 1;
        if fifoRdCrcReg[0] { fifoRdCrcReg := Xor(fifoRdCrcReg[1..] + [F], TAPS16); }
        else { fifoRdCrcReg := fifoRdCrcReg[1..] + [F]; }
      }
    }

    // The command.
    method ClockCommand(rCmdBusy: bool, stb: bool, llCmdDat: Octet)
      requires Valid()
      modifies `rCmdCrc, `rCmdCrcCnt, `rCmdCrcFf
      ensures Valid() && Command() == CmdStep(old(Command()), CmdIn(rCmdBusy, stb, llCmdDat))
    {
      if !rCmdBusy {
        rCmdCrc, rCmdCrcCnt, rCmdCrcFf := Zeros(8), 15, false;
      } else if rCmdCrcCnt < 8 {
        rCmdCrcCnt := (rCmdCrcCnt + 15) % 16;
        if rCmdCrc[0] { rCmdCrc := Xor(rCmdCrc[1..] + [F], TAPS8); } else { rCmdCrc := rCmdCrc[1..] + [F]; }
        rCmdCrcFf := rCmdCrcFf || stb;
      } else if stb || rCmdCrcFf {
        rCmdCrc := Xor(rCmdCrc, llCmdDat);
        rCmdCrcCnt := 7;
        rCmdCrcFf := false;
      }
    }
  }
}
