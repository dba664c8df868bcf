// The sending side of the debug link on the FPGA, clock by clock: rtl/wbudeword.v, rtl/wbucompactlines.v and
// rtl/wbusixchar.v, as rtl/wbuoutput.v chains them.
module WbuOutput {
  import opened WbuCode

  // Seven bits: a newline, or a digit.
  datatype Bits = Line | Six(d: Digit)

  // o_stb, o_nl_hexbits, o_busy, r_dly, r_len and r_word
  datatype Deword = Deword(stb: bool, bits: Bits, busy: bool, dly: bool, len: nat, word: Low)

  // o_stb, o_nl_hexbits, r_busy, last_out_nl, last_in_nl, linelen and full_line
  datatype Packer = Packer(stb: bool, bits: Bits, rBusy: bool, lastOut: bool, lastIn: bool, linelen: nat, full: bool)

  datatype Sixchar = Sixchar(stb: bool, ch: Byte)

  datatype Regs = Regs(d: Deword, c: Packer, x: Sixchar)

  // A codeword offered, whether the bus is busy, and whether the transmitter is.
  datatype In = In(stb: bool, word: Codeword, busBusy: bool, txBusy: bool)

  // ---- wbudeword ----

  // How many digits a reply is sent in.
  function ReplyLen(op: Digit): (n: nat)
    ensures 1 <= n <= 6
  {
    if op / 8 == 0 then 1
    else if op / 4 == 2 then 6
    else if op / 4 == 3 then 2 + op % 4
    else if op / 16 == 1 then 2
    else if op / 16 == 2 then 1
    else 6
  }

  // The next digit leaves at the top; the lowest digit stays.
  function Shifted(w: Low): Low { w % 0x100_0000 * 64 + w % 64 }

  function DewordStep(s: Deword, i: In, packerBusy: bool): Deword {
    if i.stb && !s.busy then Deword(true, Six(i.word.op), true, true, ReplyLen(i.word.op) - 1, i.word.low)
    else if s.stb && packerBusy then s.(busy := true, dly := true)
    else if s.stb then s.(stb := false)
    else if s.len > 0 then Deword(true, Six(s.word / 0x100_0000), true, true, s.len - 1, Shifted(s.word))
    else if s.bits != Line then s.(stb := true, bits := Line, busy := true, dly := true)
    else s.(dly := false, busy := s.dly)
  }

  // ---- wbucompactlines ----

  predicate PackerBusy(c: Packer) { c.rBusy || c.stb }

  const FULL := 72

  function PackerStep(c: Packer, d: Deword, busBusy: bool, charBusy: bool): Packer {
    var take := d.stb && !PackerBusy(c);
    Packer(
      if take then c.full || d.bits != Line
      else if !PackerBusy(c) then !charBusy && !busBusy && !c.lastOut && c.lastIn
      else if !charBusy then false
      else c.stb,
      if take then d.bits else if !PackerBusy(c) then Line else c.bits,
      c.stb,
      if !charBusy && c.stb then c.bits == Line else c.lastOut,
      if take then d.bits == Line else c.lastIn,
      if !charBusy && c.stb then (if c.bits == Line then 0 else (c.linelen + 1) % 128) else c.linelen,
      c.linelen > FULL)
  }

  // ---- wbusixchar ----

  function CharOf(b: Bits): Byte {
    match b
    case Line => 0x0a
    case Six(d) =>
      if d <= 9 then 0x30 + d
      else if d <= 35 then 0x41 + d - 10
      else if d <= 61 then 0x61 + d - 36
      else if d == 62 then 0x40
      else 0x25
  }

  function SixcharStep(x: Sixchar, c: Packer, txBusy: bool): Sixchar {
    Sixchar(if x.stb && !txBusy then false else x.stb || c.stb,
            if c.stb && !x.stb then CharOf(c.bits) else x.ch)
  }

  // ---- wbuoutput, after the compressor ----

  function Step(s: Regs, i: In): Regs {
    Regs(DewordStep(s.d, i, PackerBusy(s.c)), PackerStep(s.c, s.d, i.busBusy, s.x.stb), SixcharStep(s.x, s.c, i.txBusy))
  }

  // The character that the transmitter takes on this clock.
  function Sent(s: Regs, i: In): seq<Byte> { if s.x.stb && !i.txBusy then [s.x.ch] else [] }

  // The codeword that is taken on this clock.
  function Taken(s: Regs, i: In): seq<Codeword> { if i.stb && !s.d.busy then [i.word] else [] }
}
