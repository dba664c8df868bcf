// The checksum registers of rtl/sdspi.v, the checksum loops of bench/cpp/sdspisim.cpp, and what they have in common.
module SdCrc {
  import opened Crc

  type Octet = b: Bits | |b| == 8 witness [false, false, false, false, false, false, false, false]

  const T := true
  const F := false

  // 0x1021, and 0x12 of a register whose lowest bit is never used, which is 0x09 without that bit.
  const TAPS16: Bits := [F, F, F, T, F, F, F, F, F, F, T, F, F, F, F, T]
  const TAPS8: Bits := [F, F, F, T, F, F, T, F]
  const TAPS7: Bits := [F, F, F, T, F, F, T]

  function Flat(bs: seq<Octet>): Bits { if bs == [] then [] else bs[0] + Flat(bs[1..]) }

  lemma {:induction false} FlatApart(a: seq<Octet>, b: seq<Octet>)
    ensures Flat(a + b) == Flat(a) + Flat(b)
  {
    if a == [] {
      assert a + b == b;
    } else {
      assert (a + b)[1..] == a[1..] + b;
      FlatApart(a[1..], b);
    }
  }

  lemma {:induction false} FlatMore(bs: seq<Octet>, i: nat)
    requires i < |bs|
    ensures Flat(bs[..i + 1]) == Flat(bs[..i]) + bs[i]
  {
    assert bs[..i + 1] == bs[..i] + [bs[i]] && [bs[i]][1..] == [];
    FlatApart(bs[..i], [bs[i]]);
  }

  function Crc16(m: Bits): (c: Bits)
    ensures |c| == 16
  {
    Stream(TAPS16, Zeros(16), m)
  }

  function Crc7(m: Bits): (c: Bits)
    ensures |c| == 7
  {
    Stream(TAPS7, Zeros(7), m)
  }

  // The polynomials of section 4.5 of the SD Physical Layer Simplified Specification: a block is followed by the sixteen
  // bits that make it a multiple of the one, and a command by the seven that make it a multiple of the other.
  lemma {:induction false} Crc16Polynomial(m: Bits, c: Bits)
    requires |c| == 16
    ensures Crc16(m) == c <==> Multiple(m + c, Polynomial(16, {16, 12, 5, 0}))
  {
    assert [T] + TAPS16 == Polynomial(16, {16, 12, 5, 0});
    ChecksumIsRemainder(TAPS16, m, c);
    hide Stream, Multiple, Polynomial;
  }

  lemma {:induction false} Crc7Polynomial(m: Bits, c: Bits)
    requires |c| == 7
    ensures Crc7(m) == c <==> Multiple(m + c, Polynomial(7, {7, 3, 0}))
  {
    assert [T] + TAPS7 == Polynomial(7, {7, 3, 0});
    ChecksumIsRemainder(TAPS7, m, c);
    hide Stream, Multiple, Polynomial;
  }

  // The register of eight bits is the one of seven, and a bit that stays clear.
  lemma {:induction false} EightIsSeven(x: Bits, m: Bits)
    requires |x| == 7
    ensures Stream(TAPS8, x + [F], m) == Stream(TAPS7, x, m) + [F]
    decreases |m|
  {
    if m != [] {
      OneBit(x, m[0]);
      EightIsSeven(Feed(TAPS7, x, [m[0]]), m[1..]);
      hide Feed;
    }
  }

  lemma {:induction false} OneBit(x: Bits, b: bool)
    requires |x| == 7
    ensures Feed(TAPS8, x + [F], [b]) == Feed(TAPS7, x, [b]) + [F]
  {
    var u, v := Xor(x + [F], Padded([b], 8)), Xor(x, Padded([b], 7));
    assert u == v + [F];
    assert Shifts(TAPS8, u, 1) == Shift(TAPS8, u) && Shifts(TAPS7, v, 1) == Shift(TAPS7, v);
    assert Shift(TAPS8, u) == Shift(TAPS7, v) + [F];
  }

  lemma {:induction false} Crc7InEight(m: Bits)
    ensures Stream(TAPS8, Zeros(8), m) == Crc7(m) + [F]
  {
    assert Zeros(8) == Zeros(7) + [F];
    EightIsSeven(Zeros(7), m);
  }

  // ---- The data register of rtl/sdspi.v, lines 854 to 892 ----

  datatype Fifo = Fifo(reg: Bits, count: nat)

  // Whether the register is cleared, and with it the count; and the byte that is added, if any.
  datatype FifoIn = FifoIn(clear: bool, both: bool, stb: bool, byte: Octet)

  function FifoStep(s: Fifo, i: FifoIn): (t: Fifo)
    requires |s.reg| == 16
    ensures |t.reg| == 16
  {
    if i.clear then Fifo(Zeros(16), if i.both then 0 else s.count)
    else if i.stb then Fifo(Xor(s.reg, Padded(i.byte, 16)), 8)
    else if s.count > 0 then Fifo(Shift(TAPS16, s.reg), s.count - 1)
    else s
  }

  // What the register will hold once its shifts are done.
  function Settled(s: Fifo): (r: Bits)
    requires |s.reg| == 16
    ensures |r| == 16
  {
    Shifts(TAPS16, s.reg, s.count)
  }

  predicate FifoMay(s: Fifo, i: FifoIn) { !i.clear && (i.stb ==> s.count == 0) }

  lemma {:induction false} FifoClock(s: Fifo, i: FifoIn)
    requires |s.reg| == 16 && FifoMay(s, i)
    ensures Settled(FifoStep(s, i)) == if i.stb then Stream(TAPS16, Settled(s), i.byte) else Settled(s)
  {
    if i.stb {
      assert Settled(s) == s.reg;
      FeedIsStream(TAPS16, s.reg, i.byte);
    }
    hide Xor, Shift;
  }

  function FifoRun(s: Fifo, ins: seq<FifoIn>): (t: Fifo)
    requires |s.reg| == 16
    ensures |t.reg| == 16
    decreases |ins|
  {
    if ins == [] then s else FifoRun(FifoStep(s, ins[0]), ins[1..])
  }

  ghost predicate FifoMayAll(s: Fifo, ins: seq<FifoIn>)
    requires |s.reg| == 16
    decreases |ins|
  {
    ins == [] || (FifoMay(s, ins[0]) && FifoMayAll(FifoStep(s, ins[0]), ins[1..]))
  }

  function FifoBytes(ins: seq<FifoIn>): Bits {
    if ins == [] then [] else (if ins[0].stb then ins[0].byte else []) + FifoBytes(ins[1..])
  }

  lemma {:induction false} FifoSettles(s: Fifo, ins: seq<FifoIn>)
    requires |s.reg| == 16 && FifoMayAll(s, ins)
    ensures Settled(FifoRun(s, ins)) == Stream(TAPS16, Settled(s), FifoBytes(ins))
    decreases |ins|
  {
    hide Settled, FifoStep, FifoMay, Stream;
    if ins == [] {
      NoBits(TAPS16, Settled(s));
    } else {
      var i, t := ins[0], FifoStep(s, ins[0]);
      assert FifoMay(s, i);
      FifoClock(s, i);
      FifoSettles(t, ins[1..]);
      if i.stb { StreamApart(TAPS16, Settled(s), i.byte, FifoBytes(ins[1..])); }
      else { assert [] + FifoBytes(ins[1..]) == FifoBytes(ins[1..]); }
    }
  }

  lemma {:induction false} NoBits(taps: Bits, x: Bits)
    requires |x| == |taps| > 0
    ensures Stream(taps, x, []) == x
  {
  }

  // Shifted a bit a clock, with the bytes far enough apart, the register holds the checksum of the bytes.
  lemma {:induction false} FifoRegister(s: Fifo, ins: seq<FifoIn>)
    requires s.reg == Zeros(16) && FifoMayAll(s, ins) && FifoRun(s, ins).count == 0
    ensures FifoRun(s, ins).reg == Crc16(FifoBytes(ins))
  {
    FifoSettles(s, ins);
    ZeroStays(TAPS16, s.count);
    hide FifoRun, FifoMayAll, Stream, FifoBytes;
  }

  // Bytes nine clocks apart or more, with so many clocks before the first, and eight after the last.
  predicate Spaced(ins: seq<FifoIn>, wait: nat)
    decreases |ins|
  {
    if ins == [] then wait == 0 else
    var i := ins[0];
    !i.clear && (i.stb ==> wait == 0) && Spaced(ins[1..], if i.stb then 8 else if wait > 0 then wait - 1 else 0)
  }

  lemma {:induction false} SpacedMay(s: Fifo, ins: seq<FifoIn>, wait: nat)
    requires |s.reg| == 16 && s.count <= wait && Spaced(ins, wait)
    ensures FifoMayAll(s, ins) && FifoRun(s, ins).count == 0
    decreases |ins|
  {
    if ins != [] {
      var i := ins[0];
      assert FifoMay(s, i);
      SpacedMay(FifoStep(s, i), ins[1..], if i.stb then 8 else if wait > 0 then wait - 1 else 0);
      hide Shift, Xor;
    }
  }

  // From any registers: cleared, and given the bytes of a block with room between them, the register ends with the
  // checksum of the block.
  lemma {:induction false} BlockChecked(s: Fifo, i: FifoIn, ins: seq<FifoIn>)
    requires |s.reg| == 16 && i.clear && Spaced(ins, if i.both then 0 else s.count)
    ensures FifoRun(s, [i] + ins).reg == Crc16(FifoBytes(ins))
  {
    var t := FifoStep(s, i);
    assert ([i] + ins)[0] == i && ([i] + ins)[1..] == ins;
    SpacedMay(t, ins, t.count);
    FifoRegister(t, ins);
    hide Crc16, FifoBytes, FifoMayAll, Spaced;
  }

  // ---- The command register of rtl/sdspi.v, lines 897 to 920 ----

  datatype Cmd = Cmd(crc: Bits, cnt: nat, ff: bool)
  datatype CmdIn = CmdIn(busy: bool, stb: bool, dat: Octet)

  function CmdStep(s: Cmd, i: CmdIn): (t: Cmd)
    requires |s.crc| == 8
    ensures |t.crc| == 8
  {
    if !i.busy then Cmd(Zeros(8), 15, false)
    else if s.cnt < 8 then Cmd(Shift(TAPS8, s.crc), (s.cnt + 15) % 16, s.ff || i.stb)
    else if i.stb || s.ff then Cmd(Xor(s.crc, i.dat), 7, false)
    else s
  }

  // Once the shifts are done, and the byte that waits, if one does, has been added and shifted through.
  function CmdSettled(s: Cmd, held: Octet): (r: Bits)
    requires |s.crc| == 8
    ensures |r| == 8
  {
    var x := Shifts(TAPS8, s.crc, if s.cnt < 8 then s.cnt + 1 else 0);
    if s.ff then Stream(TAPS8, x, held) else x
  }

  // A byte may come while the one before is shifted through, if it stays until it is taken, and no third one comes.
  predicate CmdMay(s: Cmd, i: CmdIn, held: Octet) { i.busy && (s.ff ==> i.dat == held && !i.stb) }

  lemma {:induction false} CmdClock(s: Cmd, i: CmdIn, held: Octet)
    requires |s.crc| == 8 && CmdMay(s, i, held)
    ensures CmdSettled(CmdStep(s, i), if i.stb then i.dat else held)
            == if i.stb then Stream(TAPS8, CmdSettled(s, held), i.dat) else CmdSettled(s, held)
  {
    hide Xor, Shift, Stream;
    if s.cnt >= 8 && (i.stb || s.ff) {
      FeedIsStream(TAPS8, s.crc, i.dat);
      assert Padded(i.dat, 8) == i.dat;
    }
  }

  function CmdRun(s: Cmd, ins: seq<CmdIn>): (t: Cmd)
    requires |s.crc| == 8
    ensures |t.crc| == 8
    decreases |ins|
  {
    if ins == [] then s else CmdRun(CmdStep(s, ins[0]), ins[1..])
  }

  ghost predicate CmdMayAll(s: Cmd, ins: seq<CmdIn>, held: Octet)
    requires |s.crc| == 8
    decreases |ins|
  {
    ins == []
    || (CmdMay(s, ins[0], held) && CmdMayAll(CmdStep(s, ins[0]), ins[1..], if ins[0].stb then ins[0].dat else held))
  }

  function CmdBytes(ins: seq<CmdIn>): Bits {
    if ins == [] then [] else (if ins[0].stb then ins[0].dat else []) + CmdBytes(ins[1..])
  }

  function LastHeld(ins: seq<CmdIn>, held: Octet): Octet
    decreases |ins|
  {
    if ins == [] then held else LastHeld(ins[1..], if ins[0].stb then ins[0].dat else held)
  }

  lemma {:induction false} CmdSettles(s: Cmd, ins: seq<CmdIn>, held: Octet)
    requires |s.crc| == 8 && CmdMayAll(s, ins, held)
    ensures CmdSettled(CmdRun(s, ins), LastHeld(ins, held)) == Stream(TAPS8, CmdSettled(s, held), CmdBytes(ins))
    decreases |ins|
  {
    hide CmdSettled, CmdStep, CmdMay, Stream;
    if ins == [] {
      NoBits(TAPS8, CmdSettled(s, held));
    } else {
      var i, t := ins[0], CmdStep(s, ins[0]);
      var next := if i.stb then i.dat else held;
      assert CmdMay(s, i, held);
      CmdClock(s, i, held);
      CmdSettles(t, ins[1..], next);
      if i.stb { StreamApart(TAPS8, CmdSettled(s, held), i.dat, CmdBytes(ins[1..])); }
      else { assert [] + CmdBytes(ins[1..]) == CmdBytes(ins[1..]); }
    }
  }

  // With no byte waiting and no shift left, the byte that goes out after the command is the checksum of the command,
  // and an end bit.
  lemma {:induction false} CmdRegister(s: Cmd, ins: seq<CmdIn>, held: Octet)
    requires s == Cmd(Zeros(8), 15, false) && CmdMayAll(s, ins, held)
    requires CmdRun(s, ins).cnt >= 8 && !CmdRun(s, ins).ff
    ensures CmdRun(s, ins).crc[..7] + [T] == Crc7(CmdBytes(ins)) + [T]
  {
    CmdSettles(s, ins, held);
    Crc7InEight(CmdBytes(ins));
    assert CmdSettled(s, held) == s.crc;
    hide CmdRun, CmdMayAll, Stream, CmdBytes;
  }

  // Clocks until the shifts are done, if no byte comes.
  function CmdLeft(s: Cmd): nat { (if s.cnt < 8 then s.cnt + 1 else 0) + if s.ff then 9 else 0 }

  ghost predicate NoBytes(ins: seq<CmdIn>) { forall k :: 0 <= k < |ins| ==> !ins[k].stb }

  lemma {:induction false} CmdFinishes(s: Cmd, rest: seq<CmdIn>, held: Octet)
    requires |s.crc| == 8 && CmdMayAll(s, rest, held) && NoBytes(rest) && |rest| >= CmdLeft(s)
    ensures CmdRun(s, rest).cnt >= 8 && !CmdRun(s, rest).ff && CmdBytes(rest) == []
    decreases |rest|
  {
    if rest != [] {
      CmdFinishes(CmdStep(s, rest[0]), rest[1..], held);
      hide Shift, Xor;
    }
  }

  lemma {:induction false} CmdApart(s: Cmd, a: seq<CmdIn>, b: seq<CmdIn>)
    requires |s.crc| == 8
    ensures CmdRun(s, a + b) == CmdRun(CmdRun(s, a), b)
    decreases |a|
  {
    hide CmdStep;
    if a == [] {
      assert a + b == b;
    } else {
      assert (a + b)[1..] == a[1..] + b && (a + b)[0] == a[0];
      CmdApart(CmdStep(s, a[0]), a[1..], b);
    }
  }

  lemma {:induction false} BytesApart(a: seq<CmdIn>, b: seq<CmdIn>)
    ensures CmdBytes(a + b) == CmdBytes(a) + CmdBytes(b)
    decreases |a|
  {
    if a == [] {
      assert a + b == b && CmdBytes(a) + CmdBytes(b) == CmdBytes(b);
    } else {
      var first, x, y := if a[0].stb then a[0].dat else [], CmdBytes(a[1..]), CmdBytes(b);
      assert (a + b)[1..] == a[1..] + b && (a + b)[0] == a[0];
      BytesApart(a[1..], b);
      assert CmdBytes(a + b) == first + CmdBytes(a[1..] + b);
      hide CmdBytes;
      assert first + (x + y) == (first + x) + y;
    }
  }

  lemma {:induction false} CmdMayApart(s: Cmd, a: seq<CmdIn>, b: seq<CmdIn>, held: Octet)
    requires |s.crc| == 8 && CmdMayAll(s, a + b, held)
    ensures CmdMayAll(CmdRun(s, a), b, LastHeld(a, held))
    decreases |a|
  {
    hide CmdStep, CmdMay;
    if a == [] {
      assert a + b == b;
    } else {
      var i := a[0];
      assert (a + b)[1..] == a[1..] + b && (a + b)[0] == i;
      CmdMayApart(CmdStep(s, i), a[1..], b, if i.stb then i.dat else held);
    }
  }

  // From any registers: started afresh, given the bytes of a command, and seventeen clocks after them, the register
  // holds the checksum of the command.
  lemma {:induction false} CommandChecked(s: Cmd, i: CmdIn, ins: seq<CmdIn>, rest: seq<CmdIn>, held: Octet)
    requires |s.crc| == 8 && !i.busy && CmdMayAll(CmdStep(s, i), ins + rest, held) && NoBytes(rest) && |rest| >= 17
    ensures CmdRun(s, [i] + (ins + rest)).crc[..7] == Crc7(CmdBytes(ins))
  {
    var t, all := CmdStep(s, i), ins + rest;
    assert t == Cmd(Zeros(8), 15, false);
    assert ([i] + all)[0] == i && ([i] + all)[1..] == all;
    CmdApart(t, ins, rest);
    BytesApart(ins, rest);
    CmdMayApart(t, ins, rest, held);
    CmdBound(t, ins);
    CmdFinishes(CmdRun(t, ins), rest, LastHeld(ins, held));
    assert CmdBytes(ins) + [] == CmdBytes(ins);
    CmdRegister(t, all, held);
    var a, b := CmdRun(t, all).crc[..7], Crc7(CmdBytes(ins));
    assert a == (a + [T])[..7] && b == (b + [T])[..7];
    hide CmdStep, CmdRun, CmdMayAll, CmdBytes, Crc7, CmdLeft;
  }

  lemma {:induction false} CmdBound(s: Cmd, ins: seq<CmdIn>)
    requires |s.crc| == 8
    ensures CmdLeft(CmdRun(s, ins)) <= 17
  {
  }

  // ---- The loops of bench/cpp/sdspisim.cpp ----

  // A thirty-two bit integer moved up by one, with taps at its low end added when bit top is set; whatever has gone
  // past the register stays in the higher bits, and does no harm.
  function ShiftWord(fill: Bits, taps: Bits): (r: Bits)
    requires |fill| == 32 && 0 < |taps| <= 32
    ensures |r| == 32 && r[32 - |taps|..] == Shift(taps, fill[32 - |taps|..])
  {
    var up, t := fill[1..] + [F], Zeros(32 - |taps|) + taps;
    if fill[32 - |taps|] then Xor(up, t) else up
  }

  // The eight shifts that follow each byte.
  method ShiftEight(fill0: Bits, taps: Bits) returns (fill: Bits)
    requires |fill0| == 32 && 0 < |taps| <= 32
    ensures |fill| == 32 && fill[32 - |taps|..] == Shifts(taps, fill0[32 - |taps|..], 8)
  {
    hide ShiftWord, Shift;
    fill := fill0;
    ghost var n := 32 - |taps|;
    for j := 0 to 8
      invariant |fill| == 32 && Shifts(taps, fill[n..], 8 - j) == Shifts(taps, fill0[n..], 8)
    {
      fill := ShiftWord(fill, taps);
    }
  }

  // A character is a signed byte.
  function SignExtended(b: Octet): (r: Bits)
    ensures |r| == 32 && r[24..] == b
  {
    seq(24, _ => b[0]) + b
  }

  // One byte of a command.
  method CmdByte(fill0: Bits, b: Octet) returns (fill: Bits)
    requires |fill0| == 32
    ensures |fill| == 32 && fill[24..] == Stream(TAPS8, fill0[24..], b)
  {
    ghost var was := fill0[24..];
    fill := Xor(fill0, SignExtended(b));
    assert fill[24..] == Xor(was, b) && Padded(b, 8) == b;
    fill := ShiftEight(fill, TAPS8);
    FeedIsStream(TAPS8, was, b);
  }

  // cmdcrc
  method CmdCrc(buf: seq<Octet>) returns (fill: Bits)
    ensures fill == Zeros(24) + Crc7(Flat(buf)) + [T]
  {
    fill := Zeros(32);
    assert fill[24..] == Zeros(8);
    for i := 0 to |buf|
      invariant |fill| == 32 && fill[24..] == Stream(TAPS8, Zeros(8), Flat(buf[..i]))
    {
      fill := CmdByte(fill, buf[i]);
      FlatMore(buf, i);
      StreamApart(TAPS8, Zeros(8), Flat(buf[..i]), buf[i]);
    }
    assert buf[..|buf|] == buf;
    Crc7InEight(Flat(buf));
    fill := Zeros(24) + fill[24..31] + [T];
  }

  // check_cmdcrc
  method CheckCmdCrc(buf: seq<Octet>) returns (ok: bool)
    requires |buf| >= 6
    ensures ok <==> buf[5] == Crc7(Flat(buf[..5])) + [T]
  {
    var fill := CmdCrc(buf[..5]);
    ok := fill == Zeros(24) + buf[5];
    assert fill[24..] == Crc7(Flat(buf[..5])) + [T];
    assert (Zeros(24) + buf[5])[24..] == buf[5];
  }

  // blockcrc
  method BlockCrc(buf: seq<Octet>) returns (fill: Bits)
    ensures fill == Zeros(16) + Crc16(Flat(buf))
  {
    fill := Zeros(32);
    assert fill[16..] == Zeros(16);
    for i := 0 to |buf|
      invariant |fill| == 32 && fill[16..] == Stream(TAPS16, Zeros(16), Flat(buf[..i]))
    {
      ghost var was := fill[16..];
      fill := Xor(fill, Zeros(16) + buf[i] + Zeros(8));
      assert fill[16..] == Xor(was, Padded(buf[i], 16));
      fill := ShiftEight(fill, TAPS16);
      FeedIsStream(TAPS16, was, buf[i]);
      FlatMore(buf, i);
      StreamApart(TAPS16, Zeros(16), Flat(buf[..i]), buf[i]);
    }
    assert buf[..|buf|] == buf;
    fill := Zeros(16) + fill[16..];
  }

  // add_block_crc: the block stands one place into the buffer, and its checksum goes after it.
  method AddBlockCrc(len: nat, buf: array<Octet>)
    requires len + 2 < buf.Length
    modifies buf
    ensures buf[..len + 1] == old(buf[..len + 1]) && buf[len + 3..] == old(buf[len + 3..])
    ensures Flat(buf[1..len + 3]) == Flat(old(buf[1..len + 1])) + Crc16(Flat(old(buf[1..len + 1])))
  {
    ghost var block := buf[1..len + 1];
    var fill := BlockCrc(buf[1..len + 1]);
    buf[len + 1] := fill[16..24];
    buf[len + 2] := fill[24..];
    ghost var hi, lo := fill[16..24], fill[24..];
    assert buf[1..len + 3] == block + [hi, lo];
    FlatApart(block, [hi, lo]);
    FlatTwo(hi, lo);
    assert hi + lo == fill[16..] == Crc16(Flat(block));
  }

  lemma {:induction false} FlatTwo(a: Octet, b: Octet)
    ensures Flat([a, b]) == a + b
  {
    var none: seq<Octet> := [];
    assert [b][1..] == none && [a, b][1..] == [b];
    assert Flat([b]) == b + Flat(none) == b;
    assert Flat([a, b]) == a + Flat([b]);
  }

  // ---- What the receiver notices ----

  // The two bytes that come after a block pass the comparison of lines 750 to 757 exactly when the whole leaves
  // nothing in the register.
  lemma {:induction false} ComparisonIsResidue(m: Bits, hi: Octet, lo: Octet)
    ensures Crc16(m)[..8] == hi && Crc16(m)[8..] == lo <==> Crc16(m + (hi + lo)) == Zeros(16)
  {
    ResidueZero(TAPS16, m, hi + lo);
    var c := Crc16(m);
    assert c == c[..8] + c[8..];
    assert (hi + lo)[..8] == hi && (hi + lo)[8..] == lo;
    hide Stream;
  }

  // A block sent with its checksum, and changed on the way within sixteen consecutive bits, fails the comparison.
  lemma {:induction false} BlockErrorNoticed(m: Bits, e: Bits, at: nat, len: nat, hi: Octet, lo: Octet)
    requires len <= 16 && |e| == |m| + 16 && IsBurst(e, at, len)
    ensures var got := Xor(m + Crc16(m), e);
            got[|m|..] == hi + lo ==> !(Crc16(got[..|m|])[..8] == hi && Crc16(got[..|m|])[8..] == lo)
  {
    var got := Xor(m + Crc16(m), e);
    BurstDetected(TAPS16, m, e, at, len);
    ComparisonIsResidue(got[..|m|], hi, lo);
    assert got == got[..|m|] + got[|m|..];
    hide Stream, Xor, IsBurst;
  }

  // A command whose first forty bits and checksum are changed within seven consecutive bits fails the check.
  lemma {:induction false} CommandErrorNoticed(m: Bits, e: Bits, at: nat, len: nat)
    requires len <= 7 && |e| == |m| + 7 && IsBurst(e, at, len)
    ensures var got := Xor(m + Crc7(m), e); got[|m|..] != Crc7(got[..|m|])
  {
    var got := Xor(m + Crc7(m), e);
    BurstDetected(TAPS7, m, e, at, len);
    assert got == got[..|m|] + got[|m|..];
    ResidueZero(TAPS7, got[..|m|], got[|m|..]);
    hide Stream, Xor, IsBurst;
  }
}
