// The clocked blocks of rtl/wbutohex.v, rtl/wbureadcw.v and rtl/wbudecompress.v, statement by statement.
module WbuInputRtl {
  import opened WbuCode
  import opened WbuInput

  class Wbutohex {
    var oStb: bool
    var oValid: bool
    var oHexbits: Digit

    ghost function State(): Hex
      reads this
    {
      Hex(oStb, oValid, oHexbits)
    }

    method Clock(iStb: bool, iByte: Byte)
      modifies this
      ensures State() == HexStep(In(iStb, iByte))
    {
      oStb := iStb;
      oValid := true;
      oHexbits := 0;
      if iByte >= 0x30 && iByte <= 0x39 {
        oHexbits := iByte % 16;
      } else if iByte >= 0x41 && iByte <= 0x5a {
        oHexbits := (iByte % 64 - 1 + 10) % 64;
      } else if iByte >= 0x61 && iByte <= 0x7a {
        oHexbits := (iByte % 64 + 3) % 64;
      } else if iByte == 0x40 {
        oHexbits := 0x3e;
      } else if iByte == 0x25 {
        oHexbits := 0x3f;
      } else {
        oValid := false;
      }
    }
  }

  class Wbureadcw {
    var rLen: nat
    var cwLen: nat
    var lastcw: nat
    var shiftreg: seq<Digit>
    var oStb: bool
    var oCodword: Codeword

    ghost function State(): Framer
      reads this
    {
      Framer(rLen, cwLen, shiftreg, lastcw, oStb, oCodword)
    }

    constructor (c: Framer)
      ensures State() == c
    {
      rLen, cwLen, lastcw, shiftreg, oStb, oCodword := c.len, c.cwLen, c.lastcw, c.shift, c.stb, c.word;
    }

    method ExpectedLength(bits: Digit) returns (n: nat)
      ensures n == CodeLen(bits)
    {
      if bits / 16 == 3 { n := 2; }
      else if bits / 16 == 2 { n := 1; }
      else if bits / 8 == 2 { n := 2; }
      else if bits / 8 == 1 { n := 2 + bits / 2 % 4; }
      else { n := 6; }
    }

    method Clock(iStb: bool, iValid: bool, iHexbits: Digit)
      requires |shiftreg| == 6
      modifies this
      ensures State() == FramerStep(old(State()), Hex(iStb, iValid, iHexbits))
    {
      var wStb := (rLen == cwLen && cwLen != 0) || (iStb && !iValid && lastcw == 1);
      var nextLen, nextShift, nextCw, nextLast := rLen, shiftreg, cwLen, lastcw;

      if iStb && !iValid { nextLen := 0; }
      else if wStb { nextLen := if iStb then 1 else 0; }
      else if iStb { nextLen := (rLen + 1) % 8; }

      if wStb { nextShift := shiftreg[0 := iHexbits]; }
      else if iStb && rLen < 6 { nextShift := shiftreg[rLen := iHexbits]; }

      if oStb { nextLast := oCodword.op / 16; }

      var nextWord := Join(shiftreg);
      if iStb && !iValid && lastcw == 1 { nextWord := oCodword.(op := 0x2e); }

      if iStb && !iValid { nextCw := 0; }
      else if iStb && (cwLen == 0 || wStb) { nextCw := ExpectedLength(iHexbits); }
      else if wStb { nextCw := 0; }

      rLen, shiftreg, cwLen, lastcw, oCodword, oStb := nextLen, nextShift, nextCw, nextLast, nextWord, wStb;
    }
  }

  class Wbudecompress {
    var wrAddr: nat
    const compressionTbl: array<Word>
    var rWord: Codeword
    var cmdAddr: nat
    var rAddr: nat
    var rdLen: nat
    var cword: Word
    var rStb0: bool
    var rStb1: bool
    var rStb2: bool
    var oStb: bool
    var oWord: Codeword

    ghost function State(): Unpacker
      reads this, compressionTbl
    {
      Unpacker(wrAddr, compressionTbl[..], rWord, cmdAddr, rAddr, rdLen, cword, rStb0, rStb1, rStb2, oStb, oWord)
    }

    ghost predicate Valid()
      reads this
    {
      compressionTbl.Length == 256 && wrAddr < 256 && cmdAddr < 256 && rAddr < 0x200_0000 && rdLen < 1024
    }

    method ReadAddress() returns (a: nat)
      ensures a == AddrStep(rWord)
    {
      match rWord.op % 8
      case 0 => a := rWord.low / 0x100_0000;
      case 2 => a := rWord.low / 0x4_0000;
      case 4 => a := rWord.low / 0x1000;
      case 6 => a := rWord.low / 64;
      case 1 => a := Extend25(rWord.low / 0x100_0000, 64);
      case 3 => a := Extend25(rWord.low / 0x4_0000, 0x1000);
      case 5 => a := Extend25(rWord.low / 0x1000, 0x4_0000);
      case _ => a := Extend25(rWord.low / 64, 0x100_0000);
    }

    method Output(wAddr: Word) returns (w: Codeword)
      requires Valid()
      ensures w == Expand(rWord, wAddr, cword, rdLen)
    {
      w := rWord;
      if rWord.op == 0x2e {
      } else if rWord.op / 8 == 1 && rWord.op % 2 == 0 {
        w := Codeword(wAddr / 0x4000_0000, wAddr % 0x4000_0000);
      } else if rWord.op / 8 == 1 {
        w := Codeword(8 + wAddr / 0x4000_0000 * 2 + 1, wAddr % 0x4000_0000);
      } else if rWord.op / 8 == 2 {
        w := Codeword(24 + cword / 0x4000_0000 * 2 + rWord.op % 2, cword % 0x4000_0000);
      } else if rWord.op / 16 >= 2 {
        w := Codeword(0x30 + rWord.op % 2, rdLen);
      }
    }

    method Clock(iStb: bool, iWord: Codeword)
      requires Valid()
      modifies this, compressionTbl
      ensures Valid() && State() == UnpackerStep(old(State()), iStb, iWord)
    {
      hide AddrStep, RdLenStep, Expand, Data, WideAddr;
      var nextCword := compressionTbl[cmdAddr];
      var nextOut := Output(WideAddr(rAddr));
      var nextAddr := ReadAddress();
      var nextCmd := (wrAddr - (rWord.op / 2 % 4 * 64 + rWord.low / 0x100_0000)) % 256;
      var nextLen := RdLenStep(rWord);
      oWord, oStb := nextOut, rStb2;
      rStb2, rStb1, rStb0 := rStb1, rStb0, iStb;
      cword, cmdAddr, rAddr, rdLen := nextCword, nextCmd, nextAddr, nextLen;
      if iStb {
        compressionTbl[wrAddr] := Data(iWord);
        rWord := iWord;
        if iWord.op / 8 == 3 { wrAddr := (wrAddr + 1) % 256; }
      }
    }
  }
}
