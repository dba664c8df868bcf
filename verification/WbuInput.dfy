// The receiving side of the debug link on the FPGA, clock by clock: rtl/wbutohex.v, rtl/wbureadcw.v and
// rtl/wbudecompress.v, as rtl/wbuinput.v chains them.
module WbuInput {
  import opened WbuCode

  datatype Hex = Hex(stb: bool, valid: bool, bits: Digit)

  // r_len, cw_len, shiftreg, lastcw, o_stb and o_codword
  datatype Framer = Framer(len: nat, cwLen: nat, shift: seq<Digit>, lastcw: nat, stb: bool, word: Codeword)

  // wr_addr, compression_tbl, r_word, cmd_addr, r_addr, rd_len, cword, r_stb, o_stb and o_word
  datatype Unpacker = Unpacker(wrAddr: nat, tbl: seq<Word>, word: Codeword, cmdAddr: nat, addr: nat, rdLen: nat,
                               cword: Word, stb0: bool, stb1: bool, stb2: bool, outStb: bool, out: Codeword)

  datatype Pipe = Pipe(hex: Hex, cw: Framer, de: Unpacker)
  datatype In = In(stb: bool, byte: Byte)

  predicate Formed(p: Pipe) {
    |p.cw.shift| == 6 && |p.de.tbl| == 256 && p.de.wrAddr < 256 && p.de.cmdAddr < 256 && p.de.addr < 0x200_0000
    && p.de.rdLen < 1024
  }

  // ---- wbutohex ----

  function HexBits(b: Byte): (d: Digit) {
    if 0x30 <= b <= 0x39 then b % 16
    else if 0x41 <= b <= 0x5a then (b % 64 - 1 + 10) % 64
    else if 0x61 <= b <= 0x7a then (b % 64 + 3) % 64
    else if b == 0x40 then 0x3e
    else if b == 0x25 then 0x3f
    else 0
  }

  function HexStep(i: In): Hex { Hex(i.stb, IsDigit(i.byte), HexBits(i.byte)) }

  // The FPGA reads characters as the host does.
  lemma {:induction false} SameCode(b: Byte)
    ensures IsDigit(b) ==> HexBits(b) == CharDec(b)
    ensures IsDigit(b) <==> CharDec(b) < 64
  {
  }

  // ---- wbureadcw ----

  function Glue(a: nat, d: Digit): nat { a * 64 + d }

  lemma {:induction false} FiveDigits(s: seq<Digit>)
    requires |s| == 6
    ensures Value(0, s[1..]) == Glue(Glue(Glue(Glue(s[1], s[2]), s[3]), s[4]), s[5])
  {
    assert s[1..] == [s[1]] + [s[2], s[3], s[4], s[5]];
    assert [s[2], s[3], s[4], s[5]] == [s[2]] + [s[3], s[4], s[5]];
    assert [s[3], s[4], s[5]] == [s[3]] + [s[4], s[5]];
    assert [s[4], s[5]] == [s[4]] + [s[5]];
    ValueTail(0, s[1], s[1], [s[2], s[3], s[4], s[5]]);
    ValueTail(s[1], s[2], Glue(s[1], s[2]), [s[3], s[4], s[5]]);
    ValueTail(Glue(s[1], s[2]), s[3], Glue(Glue(s[1], s[2]), s[3]), [s[4], s[5]]);
    ValueTail(Glue(Glue(s[1], s[2]), s[3]), s[4], Glue(Glue(Glue(s[1], s[2]), s[3]), s[4]), [s[5]]);
  }

  // The six digits of the shift register side by side.
  function Join(s: seq<Digit>): Codeword
    requires |s| == 6
  {
    FiveDigits(s);
    Codeword(s[0], Value(0, s[1..]))
  }

  predicate WStb(c: Framer, h: Hex) {
    (c.len == c.cwLen && c.cwLen != 0) || (h.stb && !h.valid && c.lastcw == 1)
  }

  function FramerStep(c: Framer, h: Hex): (d: Framer)
    requires |c.shift| == 6
    ensures |d.shift| == 6
  {
    var newline, wStb := h.stb && !h.valid, WStb(c, h);
    Framer(
      if newline then 0 else if wStb then (if h.stb then 1 else 0) else if h.stb then (c.len + 1) % 8 else c.len,
      if newline then 0 else if h.stb && (c.cwLen == 0 || wStb) then CodeLen(h.bits) else if wStb then 0 else c.cwLen,
      if wStb then c.shift[0 := h.bits] else if h.stb && c.len < 6 then c.shift[c.len := h.bits] else c.shift,
      if c.stb then c.word.op / 16 else c.lastcw,
      wStb,
      if newline && c.lastcw == 1 then c.word.(op := 0x2e) else Join(c.shift))
  }

  // ---- wbudecompress ----

  // v, of as many bits as top, extended by its sign to twenty-five bits.
  function Extend25(v: nat, top: nat): nat
    requires top <= 0x100_0000 && v < top
  {
    if v < top / 2 then v else v + 0x200_0000 - top
  }

  function AddrStep(w: Codeword): (a: nat)
    ensures a < 0x200_0000
  {
    match w.op % 8
    case 0 => w.low / 0x100_0000
    case 2 => w.low / 0x4_0000
    case 4 => w.low / 0x1000
    case 6 => w.low / 64
    case 1 => Extend25(w.low / 0x100_0000, 64)
    case 3 => Extend25(w.low / 0x4_0000, 0x1000)
    case 5 => Extend25(w.low / 0x1000, 0x4_0000)
    case _ => Extend25(w.low / 64, 0x100_0000)
  }

  function WideAddr(addr: nat): Word
    requires addr < 0x200_0000
  {
    if addr < 0x100_0000 then addr else addr + 0x1_0000_0000 - 0x200_0000
  }

  function RdLenStep(w: Codeword): (n: nat)
    ensures n < 1024
  {
    if w.op / 16 % 2 == 0 then 1 + w.op / 2 % 8 else 9 + w.op / 2 % 8 * 64 + w.low / 0x100_0000
  }

  function Expand(w: Codeword, addr: Word, cword: Word, rdLen: nat): Codeword
    requires rdLen < 1024
  {
    if w.op == 0x2e then w
    else if w.op / 8 == 1 && w.op % 2 == 0 then Codeword(addr / 0x4000_0000, addr % 0x4000_0000)
    else if w.op / 8 == 1 then Codeword(8 + addr / 0x4000_0000 * 2 + 1, addr % 0x4000_0000)
    else if w.op / 8 == 2 then Codeword(24 + cword / 0x4000_0000 * 2 + w.op % 2, cword % 0x4000_0000)
    else if w.op / 16 >= 2 then Codeword(0x30 + w.op % 2, rdLen)
    else w
  }

  function UnpackerStep(d: Unpacker, stb: bool, w: Codeword): (e: Unpacker)
    requires |d.tbl| == 256 && d.wrAddr < 256 && d.cmdAddr < 256 && d.addr < 0x200_0000 && d.rdLen < 1024
    ensures |e.tbl| == 256 && e.wrAddr < 256 && e.cmdAddr < 256 && e.addr < 0x200_0000 && e.rdLen < 1024
  {
    Unpacker(
      if stb && w.op / 8 == 3 then (d.wrAddr + 1) % 256 else d.wrAddr,
      if stb then d.tbl[d.wrAddr := Data(w)] else d.tbl,
      if stb then w else d.word,
      (d.wrAddr - (d.word.op / 2 % 4 * 64 + d.word.low / 0x100_0000)) % 256,
      AddrStep(d.word),
      RdLenStep(d.word),
      d.tbl[d.cmdAddr],
      stb, d.stb0, d.stb1, d.stb2,
      Expand(d.word, WideAddr(d.addr), d.cword, d.rdLen))
  }

  // ---- wbuinput ----

  function Step(p: Pipe, i: In): (q: Pipe)
    requires Formed(p)
    ensures Formed(q)
  {
    Pipe(HexStep(i), FramerStep(p.cw, p.hex), UnpackerStep(p.de, p.cw.stb, p.cw.word))
  }

  function Shown(p: Pipe): seq<Command> { if p.de.outStb then [Ordered(p.de.out)] else [] }

  function Run(p: Pipe, ins: seq<In>): (q: Pipe)
    requires Formed(p)
    ensures Formed(q)
    decreases |ins|
  {
    if ins == [] then p else Run(Step(p, ins[0]), ins[1..])
  }

  // The commands that come out over a run.
  function Outputs(p: Pipe, ins: seq<In>): seq<Command>
    requires Formed(p)
    decreases |ins|
  {
    if ins == [] then [] else
    var q := Step(p, ins[0]);
    Shown(q) + Outputs(q, ins[1..])
  }
}
