// The clocked blocks of rtl/wbudeword.v, rtl/wbucompactlines.v and rtl/wbusixchar.v, statement by statement.
module WbuOutputRtl {
  import opened WbuCode
  import opened WbuOutput

  class Wbudeword {
    var oStb: bool
    var oNlHexbits: Bits
    var oBusy: bool
    var rDly: bool
    var rLen: nat
    var rWord: Low

    ghost function State(): Deword
      reads this
    {
      Deword(oStb, oNlHexbits, oBusy, rDly, rLen, rWord)
    }

    constructor ()
      ensures State() == Deword(false, oNlHexbits, false, false, 0, rWord)
    {
      oStb, oBusy, rDly, rLen := false, false, false, 0;
    }

    method Clock(i: In, iTxBusy: bool)
      modifies this
      ensures State() == DewordStep(old(State()), i, iTxBusy)
    {
      if i.stb && !oBusy {
        rLen, rWord := ReplyLen(i.word.op) - 1, i.word.low;
        oStb, oNlHexbits, oBusy, rDly := true, Six(i.word.op), true, true;
      } else if oStb && iTxBusy {
        oBusy, rDly := true, true;
      } else if oStb {
        oStb := false;
      } else if rLen > 0 {
        oStb, oNlHexbits := true, Six(rWord / 0x100_0000);
        rWord, rLen := Shifted(rWord), rLen - 1;
        oBusy, rDly := true, true;
      } else if oNlHexbits != Line {
        oStb, oNlHexbits, oBusy, rDly := true, Line, true, true;
      } else {
        oBusy := rDly;
        rDly := false;
      }
    }
  }

  class Wbucompactlines {
    var oStb: bool
    var oNlHexbits: Bits
    var rBusy: bool
    var lastOutNl: bool
    var lastInNl: bool
    var linelen: nat
    var fullLine: bool

    ghost function State(): Packer
      reads this
    {
      Packer(oStb, oNlHexbits, rBusy, lastOutNl, lastInNl, linelen, fullLine)
    }

    constructor ()
      ensures State() == Packer(false, oNlHexbits, false, true, true, 0, false)
    {
      oStb, rBusy, lastOutNl, lastInNl, linelen, fullLine := false, false, true, true, 0, false;
    }

    method Clock(iStb: bool, iNlHexbits: Bits, iBusBusy: bool, iTxBusy: bool, ghost d: Deword)
      requires d.stb == iStb && d.bits == iNlHexbits
      modifies this
      ensures State() == PackerStep(old(State()), d, iBusBusy, iTxBusy)
    {
      var oBusy := rBusy || oStb;
      var nextStb, nextBits, nextOut, nextIn, nextLen := oStb, oNlHexbits, lastOutNl, lastInNl, linelen;
      if !iTxBusy && oStb { nextOut := oNlHexbits == Line; }
      if iStb && !oBusy { nextIn := iNlHexbits == Line; }
      if !iTxBusy && oStb {
        if oNlHexbits == Line { nextLen := 0; } else { nextLen := (linelen + 1) % 128; }
      }
      if iStb && !oBusy {
        nextStb, nextBits := fullLine || iNlHexbits != Line, iNlHexbits;
      } else if !oBusy {
        nextStb, nextBits := !iTxBusy && !iBusBusy && !lastOutNl && lastInNl, Line;
      } else if !iTxBusy {
        nextStb := false;
      }
      fullLine := linelen > 72;
      rBusy := oStb;
      oStb, oNlHexbits, lastOutNl, lastInNl, linelen := nextStb, nextBits, nextOut, nextIn, nextLen;
    }
  }

  class Wbusixchar {
    var oStb: bool
    var oChar: Byte

    ghost function State(): Sixchar
      reads this
    {
      Sixchar(oStb, oChar)
    }

    method Clock(iStb: bool, iBits: Bits, iBusy: bool, ghost c: Packer)
      requires c.stb == iStb && c.bits == iBits
      modifies this
      ensures State() == SixcharStep(old(State()), c, iBusy)
    {
      if iStb && !oStb {
        match iBits
        case Line => oChar := 0x0a;
        case Six(d) =>
          if d <= 9 { oChar := 0x30 + d; }
          else if d <= 35 { oChar := 0x41 + d - 10; }
          else if d <= 61 { oChar := 0x61 + d - 36; }
          else if d == 62 { oChar := 0x40; }
          else { oChar := 0x25; }
      }
      if oStb && !iBusy { oStb := false; }
      else if iStb && !oStb { oStb := true; }
    }
  }
}
