// Nothing is lost, repeated or reordered on the way out, and lines stay short.
module WbuOutputProof {
  import opened Sequences
  import opened WbuCode
  import opened WbuOutput

  // The first n digits of a thirty-bit number.
  function Leading(w: Low, n: nat): (r: seq<Digit>)
    ensures |r| == n
    decreases n
  {
    if n == 0 then [] else [w / 0x100_0000] + Leading(Shifted(w), n - 1)
  }

  function ReplyDigits(w: Codeword): seq<Digit> { [w.op] + Leading(w.low, ReplyLen(w.op) - 1) }

  function DigitOf(b: Bits): seq<Digit> { if b == Line then [] else [b.d] }

  // ---- Every digit on its way ----

  function InDeword(d: Deword): seq<Digit> { (if d.stb then DigitOf(d.bits) else []) + Leading(d.word, d.len) }
  function InPacker(c: Packer): seq<Digit> { if c.stb then DigitOf(c.bits) else [] }
  function InSixchar(x: Sixchar): seq<Digit> { if x.stb then Stripped([x.ch]) else [] }

  function OnTheWay(s: Regs): seq<Digit> { InSixchar(s.x) + InPacker(s.c) + InDeword(s.d) }

  ghost predicate Inv(s: Regs) { !s.d.busy ==> !s.d.stb && s.d.len == 0 }

  lemma {:induction false} CharOfDigit(b: Bits)
    ensures Stripped([CharOf(b)]) == DigitOf(b)
  {
    assert [CharOf(b)][1..] == [];
    if b.Six? { assert CharOf(b) == CharEnc(b.d); }
  }

  // Each stage hands on what the next one takes, on the same clock.
  lemma {:induction false} SixcharKeeps(s: Regs, i: In)
    ensures Stripped(Sent(s, i)) + InSixchar(SixcharStep(s.x, s.c, i.txBusy))
            == InSixchar(s.x) + (if s.c.stb && !s.x.stb then DigitOf(s.c.bits) else [])
  {
    CharOfDigit(s.c.bits);
    hide CharOf;
  }

  lemma {:induction false} PackerKeeps(s: Regs, i: In)
    ensures (if s.c.stb && !s.x.stb then DigitOf(s.c.bits) else []) + InPacker(PackerStep(s.c, s.d, i.busBusy, s.x.stb))
            == InPacker(s.c) + (if s.d.stb && !PackerBusy(s.c) then DigitOf(s.d.bits) else [])
  {
  }

  lemma {:induction false} DewordKeeps(s: Regs, i: In)
    requires Inv(s)
    ensures var t := DewordStep(s.d, i, PackerBusy(s.c));
            && (!t.busy ==> !t.stb && t.len == 0)
            && (if s.d.stb && !PackerBusy(s.c) then DigitOf(s.d.bits) else []) + InDeword(t)
               == InDeword(s.d) + (if i.stb && !s.d.busy then ReplyDigits(i.word) else [])
  {
    hide Shifted;
  }

  lemma {:induction false} Step3(e: seq<Digit>, x': seq<Digit>, x: seq<Digit>, cx: seq<Digit>, c': seq<Digit>, c: seq<Digit>,
                                 dc: seq<Digit>, d': seq<Digit>, d: seq<Digit>, n: seq<Digit>)
    requires e + x' == x + cx && cx + c' == c + dc && dc + d' == d + n
    ensures e + (x' + c' + d') == (x + c + d) + n
  {
    assert e + (x' + c' + d') == (e + x') + c' + d' == x + (cx + c') + d' == x + c + (dc + d');
  }

  lemma {:induction false} OutputStep(s: Regs, i: In)
    requires Inv(s)
    ensures var t := Step(s, i);
            Inv(t) && Stripped(Sent(s, i)) + OnTheWay(t) == OnTheWay(s) + ReplyDigitsAll(Taken(s, i))
  {
    SixcharKeeps(s, i);
    PackerKeeps(s, i);
    DewordKeeps(s, i);
    var t := Step(s, i);
    var n := if i.stb && !s.d.busy then ReplyDigits(i.word) else [];
    Step3(Stripped(Sent(s, i)), InSixchar(t.x), InSixchar(s.x), if s.c.stb && !s.x.stb then DigitOf(s.c.bits) else [],
          InPacker(t.c), InPacker(s.c), if s.d.stb && !PackerBusy(s.c) then DigitOf(s.d.bits) else [],
          InDeword(t.d), InDeword(s.d), n);
    assert ReplyDigitsAll(Taken(s, i)) == n by {
      if n != [] { assert [i.word][1..] == []; }
    }
    hide InSixchar, InPacker, InDeword, SixcharStep, PackerStep, DewordStep, Stripped, ReplyDigits, ReplyDigitsAll;
  }

  // ---- Runs ----

  function ReplyDigitsAll(ws: seq<Codeword>): seq<Digit> {
    if ws == [] then [] else ReplyDigits(ws[0]) + ReplyDigitsAll(ws[1..])
  }

  function Run(s: Regs, ins: seq<In>): Regs
    decreases |ins|
  {
    if ins == [] then s else Run(Step(s, ins[0]), ins[1..])
  }

  function SentAll(s: Regs, ins: seq<In>): seq<Byte>
    decreases |ins|
  {
    if ins == [] then [] else Sent(s, ins[0]) + SentAll(Step(s, ins[0]), ins[1..])
  }

  function TakenAll(s: Regs, ins: seq<In>): seq<Codeword>
    decreases |ins|
  {
    if ins == [] then [] else Taken(s, ins[0]) + TakenAll(Step(s, ins[0]), ins[1..])
  }

  lemma {:induction false} DigitsApart(a: seq<Codeword>, b: seq<Codeword>)
    ensures ReplyDigitsAll(a + b) == ReplyDigitsAll(a) + ReplyDigitsAll(b)
  {
    if a == [] {
      assert a + b == b;
    } else {
      assert (a + b)[1..] == a[1..] + b;
      DigitsApart(a[1..], b);
    }
  }

  // However busy the transmitter is, the characters it is given, without their newlines, spell the codewords
  // that were taken, in order, short of the digits that are still on their way.
  lemma {:induction false} OutputElastic(s: Regs, ins: seq<In>)
    requires Inv(s)
    ensures var t := Run(s, ins);
            && Inv(t)
            && Stripped(SentAll(s, ins)) + OnTheWay(t) == OnTheWay(s) + ReplyDigitsAll(TakenAll(s, ins))
    decreases |ins|
  {
    hide Inv, Step, Sent, Taken, Stripped, OnTheWay, ReplyDigitsAll;
    if ins == [] {
      NoneYet();
    } else {
      var i, t := ins[0], Step(s, ins[0]);
      OutputStep(s, i);
      OutputElastic(t, ins[1..]);
      StrippedApart(Sent(s, i), SentAll(t, ins[1..]));
      DigitsApart(Taken(s, i), TakenAll(t, ins[1..]));
      Chain(Stripped(Sent(s, i)), Stripped(SentAll(t, ins[1..])), OnTheWay(s), OnTheWay(t), OnTheWay(Run(t, ins[1..])),
            ReplyDigitsAll(Taken(s, i)), ReplyDigitsAll(TakenAll(t, ins[1..])));
    }
  }

  lemma {:induction false} NoneYet()
    ensures Stripped([]) == [] && ReplyDigitsAll([]) == []
  {
  }

  // ---- Everything leaves ----

  // Characters of the word in the first stage that are still to be offered, its newline among them.
  function ToOffer(d: Deword): nat { d.len + if d.len > 0 || d.bits != Line then 1 else 0 }

  // Whether that stage still has something to offer; and what its registers then need to show that it is free.
  predicate Offering(d: Deword) { d.stb || ToOffer(d) > 0 }
  function Closing(d: Deword): nat { if Offering(d) || d.dly then 6 else if d.busy then 3 else 0 }

  // Clocks until the packer takes something, if the transmitter is free.
  function PackerWait(c: Packer, x: Sixchar): nat {
    if c.stb then (if x.stb then 3 else 2) else if c.rBusy then 1 else 0
  }

  // Clocks until the last digit has gone from the packer and the last stage.
  function DigitWait(c: Packer, x: Sixchar): nat {
    if c.stb && c.bits != Line then (if x.stb then 3 else 2) else if InSixchar(x) != [] then 1 else 0
  }

  // A bound on the clocks on which the transmitter is free until nothing is on its way.
  function ToSend(s: Regs): nat {
    if Closing(s.d) == 0 then DigitWait(s.c, s.x)
    else 3 + 6 * ToOffer(s.d) + (if s.d.stb then 3 else 0) + Closing(s.d) + PackerWait(s.c, s.x)
  }

  lemma {:induction false} ToSendBound(s: Regs)
    ensures ToSend(s) <= 6 * s.d.len + 21
    ensures ToSend(s) == 0 ==> !s.d.busy && OnTheWay(s) == []
  {
  }

  lemma {:induction false} PackerWaitStep(s: Regs, i: In)
    ensures var t, take := Step(s, i), s.d.stb && !PackerBusy(s.c);
            && PackerWait(t.c, t.x) <= (if PackerBusy(s.c) then PackerWait(s.c, s.x) else if i.txBusy then 3 else 2)
            && (PackerBusy(s.c) && !i.txBusy ==> PackerWait(t.c, t.x) < PackerWait(s.c, s.x))
            && (!PackerBusy(s.c) && !take && s.x.stb ==> PackerWait(t.c, t.x) == 0)
            && (!PackerBusy(s.c) && !take && !s.x.stb ==> PackerWait(t.c, t.x) <= 2)
            && (PackerBusy(s.c) <==> PackerWait(s.c, s.x) > 0)
  {
    hide DewordStep, CharOf;
  }

  lemma {:induction false} DigitWaitStep(s: Regs, i: In)
    requires !s.d.stb
    ensures var t := Step(s, i);
            && DigitWait(t.c, t.x) <= DigitWait(s.c, s.x)
            && (!i.txBusy && DigitWait(s.c, s.x) > 0 ==> DigitWait(t.c, t.x) < DigitWait(s.c, s.x))
  {
    CharOfDigit(s.c.bits);
    hide DewordStep, CharOf, Stripped;
  }

  // When no word is taken, what remains to be done never grows, and each clock on which the transmitter is free does
  // some of it.
  lemma {:induction false} ToSendStep(s: Regs, i: In)
    requires Taken(s, i) == []
    ensures var t := Step(s, i);
            && ToSend(t) <= ToSend(s) && (!i.txBusy && ToSend(s) > 0 ==> ToSend(t) < ToSend(s))
  {
    PackerWaitStep(s, i);
    var t := Step(s, i);
    assert t.d == DewordStep(s.d, i, PackerBusy(s.c));
    if Closing(s.d) == 0 { DigitWaitStep(s, i); } else { DigitWaitBound(t); }
    hide PackerStep, SixcharStep, PackerWait, DigitWait, PackerBusy, Shifted, Step;
  }

  lemma {:induction false} DigitWaitBound(s: Regs)
    ensures DigitWait(s.c, s.x) <= 3
  {
  }

  // The clocks on which the transmitter is free.
  function Free(ins: seq<In>): nat
  {
    if ins == [] then 0 else (if ins[0].txBusy then 0 else 1) + Free(ins[1..])
  }

  // Nothing being taken, a word of so many digits is out after so many clocks on which the transmitter is free, and
  // the first stage is ready for another.
  lemma {:induction false} OutputDrains(s: Regs, ins: seq<In>)
    requires TakenAll(s, ins) == [] && Free(ins) >= 6 * s.d.len + 21
    ensures !Run(s, ins).d.busy && OnTheWay(Run(s, ins)) == []
  {
    ToSendBound(s);
    Sends(s, ins);
    ToSendBound(Run(s, ins));
    hide ToSend, Run, TakenAll, Free, OnTheWay;
  }

  lemma {:induction false} Sends(s: Regs, ins: seq<In>)
    requires TakenAll(s, ins) == []
    ensures ToSend(Run(s, ins)) <= if ToSend(s) > Free(ins) then ToSend(s) - Free(ins) else 0
    decreases |ins|
  {
    hide ToSend, Step, Taken;
    if ins != [] {
      ToSendStep(s, ins[0]);
      Sends(Step(s, ins[0]), ins[1..]);
    }
  }

  // ---- Lines ----

  const WIDTH := 78

  // Characters on the line that the packer is filling, once those on their way to it have arrived.
  function LineCount(c: Packer, d: Deword): nat {
    |InDeword(d)| + if c.stb && c.bits == Line then 0 else c.linelen + |InPacker(c)|
  }

  // A codeword's own newline has been dealt with.
  predicate Between(d: Deword) { !d.stb && d.len == 0 && (d.bits == Line || !d.busy) }

  ghost predicate FillInv(c: Packer, d: Deword) {
    && (!d.busy ==> !d.stb && d.len == 0)
    && (d.stb && d.bits == Line ==> d.len == 0)
    && (!c.rBusy ==> (c.full <==> c.linelen > FULL))
    && LineCount(c, d) <= WIDTH && (Between(d) ==> LineCount(c, d) <= FULL)
    && (c.stb && c.bits == Line ==> c.linelen <= WIDTH)
  }

  // col characters of the present line have been sent.
  ghost predicate ColumnInv(x: Sixchar, linelen: nat, col: nat) {
    && col <= WIDTH && linelen <= WIDTH
    && (if !x.stb then col == linelen
        else if x.ch == NEWLINE then linelen == 0
        else IsDigit(x.ch) && col + 1 == linelen)
  }

  ghost predicate LineInv(s: Regs, col: nat) { FillInv(s.c, s.d) && ColumnInv(s.x, s.c.linelen, col) }

  function Column(bs: seq<Byte>, col: nat): nat
    decreases |bs|
  {
    if bs == [] then col else Column(bs[1..], if bs[0] == NEWLINE then 0 else col + 1)
  }

  // No line among the characters is longer than WIDTH, the first having begun with col more.
  predicate Fits(bs: seq<Byte>, col: nat)
    decreases |bs|
  {
    col <= WIDTH && (bs == [] || Fits(bs[1..], if bs[0] == NEWLINE then 0 else col + 1))
  }

  lemma {:induction false} FillStep(s: Regs, i: In)
    requires FillInv(s.c, s.d)
    ensures var t := Step(s, i); FillInv(t.c, t.d)
  {
    hide Shifted, CharOf;
  }

  lemma {:induction false} ColumnStep(s: Regs, i: In, col: nat)
    requires LineInv(s, col)
    ensures var t, c := Step(s, i), Column(Sent(s, i), col);
            ColumnInv(t.x, t.c.linelen, c) && Fits(Sent(s, i), col)
  {
    if s.c.stb && s.c.bits.Six? { assert CharOf(s.c.bits) == CharEnc(s.c.bits.d); }
    assert [s.x.ch][1..] == [];
    hide Shifted, CharOf, CharEnc;
  }

  lemma {:induction false} FitsApart(a: seq<Byte>, b: seq<Byte>, col: nat)
    requires Fits(a, col) && Fits(b, Column(a, col))
    ensures Fits(a + b, col)
    decreases |a|
  {
    if a == [] {
      assert a + b == b;
    } else {
      assert (a + b)[1..] == a[1..] + b;
      FitsApart(a[1..], b, if a[0] == NEWLINE then 0 else col + 1);
    }
  }

  // Newlines are dropped, but never so many that a line is longer than 78 characters.
  lemma {:induction false} LinesStayShort(s: Regs, ins: seq<In>, col: nat)
    requires LineInv(s, col)
    ensures Fits(SentAll(s, ins), col)
    decreases |ins|
  {
    hide FillInv, ColumnInv, Step, Sent;
    if ins != [] {
      var i, t := ins[0], Step(s, ins[0]);
      FillStep(s, i);
      ColumnStep(s, i, col);
      LinesStayShort(t, ins[1..], Column(Sent(s, i), col));
      FitsApart(Sent(s, i), SentAll(t, ins[1..]), col);
    } else {
      ColumnBound(s, col);
    }
  }

  lemma {:induction false} ColumnBound(s: Regs, col: nat)
    requires LineInv(s, col)
    ensures col <= WIDTH
  {
  }

  // ---- Lines end ----

  // The packer knows how the last character went out, and how the last word came in.
  ghost predicate LastInv(s: Regs) { (s.c.lastOut ==> s.c.linelen == 0) && (!Offering(s.d) ==> s.c.lastIn) }

  lemma {:induction false} LastStep(s: Regs, i: In)
    requires LastInv(s)
    ensures LastInv(Step(s, i))
  {
    hide Shifted, SixcharStep;
  }

  lemma {:induction false} ColumnApart(a: seq<Byte>, b: seq<Byte>, col: nat)
    ensures Column(a + b, col) == Column(b, Column(a, col))
    decreases |a|
  {
    if a == [] {
      assert a + b == b;
    } else {
      assert (a + b)[1..] == a[1..] + b && (a + b)[0] == a[0];
      ColumnApart(a[1..], b, if a[0] == NEWLINE then 0 else col + 1);
    }
  }

  lemma {:induction false} ColumnRun(s: Regs, ins: seq<In>, col: nat)
    requires LineInv(s, col) && LastInv(s)
    ensures LineInv(Run(s, ins), Column(SentAll(s, ins), col)) && LastInv(Run(s, ins))
    decreases |ins|
  {
    hide FillInv, ColumnInv, LastInv, Step, Sent;
    if ins != [] {
      var i, t := ins[0], Step(s, ins[0]);
      FillStep(s, i);
      ColumnStep(s, i, col);
      LastStep(s, i);
      ColumnRun(t, ins[1..], Column(Sent(s, i), col));
      ColumnApart(Sent(s, i), SentAll(t, ins[1..]), col);
    }
  }

  // Clocks until the line is ended, when nothing but newlines is on its way.
  function EndWait(c: Packer, x: Sixchar): nat {
    if c.stb then (if x.stb then 3 else 2)
    else if c.lastOut then (if x.stb then 1 else 0)
    else if c.rBusy || x.stb then 4 else 3
  }

  lemma {:induction false} EndStep(s: Regs, i: In)
    requires ToSend(s) == 0 && LastInv(s) && Taken(s, i) == [] && !i.busBusy && !i.txBusy
    ensures var t := Step(s, i);
            && ToSend(t) == 0 && LastInv(t) && EndWait(t.c, t.x) <= if EndWait(s.c, s.x) > 0 then EndWait(s.c, s.x) - 1 else 0
  {
    ToSendStep(s, i);
    LastStep(s, i);
    assert !Offering(s.d) && s.c.lastIn && DigitWait(s.c, s.x) == 0;
    hide ToSend, LastInv, DewordStep, CharOf;
  }

  ghost predicate AllResting(ins: seq<In>) { forall k :: 0 <= k < |ins| ==> !ins[k].busBusy && !ins[k].txBusy }

  lemma {:induction false} EndRun(s: Regs, ins: seq<In>)
    requires ToSend(s) == 0 && LastInv(s) && TakenAll(s, ins) == [] && AllResting(ins) && |ins| >= EndWait(s.c, s.x)
    ensures EndWait(Run(s, ins).c, Run(s, ins).x) == 0
    decreases |ins|
  {
    hide ToSend, LastInv, EndWait, Step, Taken;
    if ins != [] {
      EndStep(s, ins[0]);
      EndRun(Step(s, ins[0]), ins[1..]);
    }
  }

  lemma {:induction false} RunApart(s: Regs, a: seq<In>, b: seq<In>)
    ensures Run(s, a + b) == Run(Run(s, a), b) && TakenAll(s, a + b) == TakenAll(s, a) + TakenAll(Run(s, a), b)
    decreases |a|
  {
    hide Step, Taken;
    if a == [] {
      assert a + b == b;
    } else {
      assert (a + b)[1..] == a[1..] + b && (a + b)[0] == a[0];
      RunApart(Step(s, a[0]), a[1..], b);
    }
  }

  // Nothing more being taken, and once what was taken is out, four clocks of rest on the bus and at the transmitter are
  // enough for the line to be ended.
  lemma {:induction false} LinesEnd(s: Regs, ins: seq<In>, rest: seq<In>, col: nat)
    requires LineInv(s, col) && LastInv(s) && TakenAll(s, ins + rest) == []
    requires Free(ins) >= 6 * s.d.len + 21 && AllResting(rest) && |rest| == 4
    ensures Column(SentAll(s, ins + rest), col) == 0
  {
    hide *;
    RunApart(s, ins, rest);
    var t := Run(s, ins);
    ToSendBound(s);
    Sends(s, ins);
    ColumnRun(s, ins, col);
    EndWaitBound(t);
    EndRun(t, rest);
    ColumnRun(s, ins + rest, col);
    LineEnded(Run(t, rest), Column(SentAll(s, ins + rest), col));
  }

  lemma {:induction false} EndWaitBound(s: Regs)
    ensures EndWait(s.c, s.x) <= 4
  {
  }

  lemma {:induction false} LineEnded(s: Regs, col: nat)
    requires LineInv(s, col) && LastInv(s) && EndWait(s.c, s.x) == 0
    ensures col == 0
  {
  }
}
