// The compressor and the stages behind it, joined as rtl/wbuoutput.v joins them: the word that the compressor offers is
// the one that the next stage is offered, and that stage's busy line is the compressor's.
module WbuReplyPath {
  import opened WbuCode
  import opened WbuReply
  import K = WbuCompress
  import C = WbuCompressProof
  import O = WbuOutput
  import OP = WbuOutputProof

  datatype Path = Path(c: C.Sys, o: O.Regs)
  datatype In = In(stb: bool, word: Codeword, busBusy: bool, txBusy: bool)

  function CompressorIn(p: Path, i: In): K.In { K.In(i.stb, i.word, p.o.d.busy) }
  function OutputIn(p: Path, i: In): O.In { O.In(p.c.r.h.stb, K.Output(p.c.r.h), i.busBusy, i.txBusy) }

  predicate Formed(p: Path) { K.Formed(p.c.r) }

  function Step(p: Path, i: In): (q: Path)
    requires Formed(p)
    ensures Formed(q)
  {
    Path(C.SysStep(p.c, CompressorIn(p, i)), O.Step(p.o, OutputIn(p, i)))
  }

  // A word leaves the compressor on the clock on which the next stage takes it.
  lemma {:induction false} HandedOver(p: Path, i: In)
    ensures O.Taken(p.o, OutputIn(p, i)) == C.Passed(p.c, CompressorIn(p, i))
  {
  }

  // ---- Runs ----

  function Run(p: Path, ins: seq<In>): (q: Path)
    requires Formed(p)
    ensures Formed(q)
    decreases |ins|
  {
    if ins == [] then p else Run(Step(p, ins[0]), ins[1..])
  }

  // The words taken in, and the characters sent.
  function Given(p: Path, ins: seq<In>): seq<Codeword>
    requires Formed(p)
    decreases |ins|
  {
    if ins == [] then [] else C.Given(p.c, CompressorIn(p, ins[0])) + Given(Step(p, ins[0]), ins[1..])
  }

  function Sent(p: Path, ins: seq<In>): seq<Byte>
    requires Formed(p)
    decreases |ins|
  {
    if ins == [] then [] else O.Sent(p.o, OutputIn(p, ins[0])) + Sent(Step(p, ins[0]), ins[1..])
  }

  function CompressorIns(p: Path, ins: seq<In>): seq<K.In>
    requires Formed(p)
    decreases |ins|
  {
    if ins == [] then [] else [CompressorIn(p, ins[0])] + CompressorIns(Step(p, ins[0]), ins[1..])
  }

  function OutputIns(p: Path, ins: seq<In>): seq<O.In>
    requires Formed(p)
    decreases |ins|
  {
    if ins == [] then [] else [OutputIn(p, ins[0])] + OutputIns(Step(p, ins[0]), ins[1..])
  }

  // Seen apart, the two halves run as they run joined, and what the one passes on is what the other takes.
  lemma {:induction false} HalvesRun(p: Path, ins: seq<In>)
    requires Formed(p)
    ensures var cs, os := CompressorIns(p, ins), OutputIns(p, ins);
            && Run(p, ins) == Path(C.Run(p.c, cs), OP.Run(p.o, os))
            && Given(p, ins) == C.GivenAll(p.c, cs) && Sent(p, ins) == OP.SentAll(p.o, os)
            && OP.TakenAll(p.o, os) == C.PassedAll(p.c, cs)
    decreases |ins|
  {
    hide C.SysStep, O.Step, C.Given, C.Passed, O.Taken, O.Sent, CompressorIn, OutputIn, K.Formed;
    if ins != [] {
      var i, q := ins[0], Step(p, ins[0]);
      HandedOver(p, i);
      HalvesRun(q, ins[1..]);
      var cs, os := CompressorIns(p, ins), OutputIns(p, ins);
      assert cs[0] == CompressorIn(p, i) && cs[1..] == CompressorIns(q, ins[1..]);
      assert os[0] == OutputIn(p, i) && os[1..] == OutputIns(q, ins[1..]);
    }
  }

  ghost predicate Invariant(p: Path) { Formed(p) && C.Invariant(p.c) && OP.Inv(p.o) }

  // Nothing on its way.
  predicate Drained(p: Path) { C.InHand(p.c) == [] && OP.OnTheWay(p.o) == [] }

  // From one moment with nothing on its way to another, however busy the transmitter is in between: the characters
  // sent, without their newlines, spell codewords that a host decodes into exactly the messages that went in.
  lemma {:induction false} PathLossless(p: Path, ins: seq<In>) returns (outs: seq<Codeword>)
    requires Invariant(p) && Drained(p) && C.Clear(Given(p, ins)) && Drained(Run(p, ins))
    ensures Invariant(Run(p, ins)) && Run(p, ins).c.hist == NotedAll(outs, p.c.hist) && AllReadable(outs, p.c.hist)
    ensures DecodeAll(outs, p.c.hist) == C.SaidAll(Given(p, ins)) && Stripped(Sent(p, ins)) == OP.ReplyDigitsAll(outs)
  {
    var cs, os := CompressorIns(p, ins), OutputIns(p, ins);
    HalvesRun(p, ins);
    outs := C.PassedAll(p.c, cs);
    C.CompressionLossless(p.c, cs);
    OP.OutputElastic(p.o, os);
    Bare(DecodeAll(outs, p.c.hist), C.SaidAll(Given(p, ins)));
    Bare(Stripped(Sent(p, ins)), OP.ReplyDigitsAll(outs));
    hide C.Run, OP.Run, C.GivenAll, C.PassedAll, OP.SentAll, OP.TakenAll, C.Invariant, OP.Inv, DecodeAll, NotedAll, Stripped;
    hide C.SaidAll, C.Clear, AllReadable, OP.ReplyDigitsAll, C.InHand, OP.OnTheWay;
  }

  lemma {:induction false} Bare<A>(xs: seq<A>, ys: seq<A>)
    ensures xs + [] == [] + ys ==> xs == ys
  {
    assert xs + [] == xs && [] + ys == ys;
  }

  // ---- Addresses ----

  // No other way to say where reading starts takes fewer digits.
  lemma {:induction false} ShortestAddress(w: Codeword, v: Codeword)
    requires w.op / 4 == 2 && v.op / 8 == 1 && Understood(v, []) == Said(w)
    ensures O.ReplyLen(K.Shorten(w).op) <= O.ReplyLen(v.op)
  {
  }

  // ---- Everything leaves ----

  // A bound on the clocks on which the transmitter is free until nothing is on its way.
  function ToSend(p: Path): nat { OP.ToSend(p.o) + if p.c.r.h.stb then 52 else 0 }

  lemma {:induction false} LoadedBound(o: O.Regs, i: O.In)
    requires i.stb && !o.d.busy
    ensures OP.ToSend(O.Step(o, i)) <= 51 && O.Step(o, i).d.len <= 5
  {
    OP.ToSendBound(O.Step(o, i));
    hide O.PackerStep, O.SixcharStep, OP.ToSend;
  }

  lemma {:induction false} HandStep(p: Path, i: In)
    requires Formed(p)
    ensures Step(p, i).c.r.h.stb <==> (i.stb && !p.c.r.h.stb) || (p.c.r.h.stb && p.o.d.busy)
    ensures O.Taken(p.o, OutputIn(p, i)) == [] <==> !(p.c.r.h.stb && !p.o.d.busy)
    ensures C.Given(p.c, CompressorIn(p, i)) == [] <==> !(i.stb && !p.c.r.h.stb)
    ensures Step(p, i).o == O.Step(p.o, OutputIn(p, i))
  {
    hide O.Step, K.NextTable, K.NextSearch, K.NextCompare, K.NextFound;
  }

  lemma {:induction false} ToSendStep(p: Path, i: In)
    requires Formed(p) && C.Given(p.c, CompressorIn(p, i)) == []
    ensures var q := Step(p, i);
            && ToSend(q) <= ToSend(p) && (!i.txBusy && ToSend(p) > 0 ==> ToSend(q) < ToSend(p))
  {
    HandStep(p, i);
    if O.Taken(p.o, OutputIn(p, i)) == [] { OP.ToSendStep(p.o, OutputIn(p, i)); } else { LoadedBound(p.o, OutputIn(p, i)); }
    hide Step, O.Step, OP.ToSend, O.Taken, C.Given;
  }

  function Free(ins: seq<In>): nat
  {
    if ins == [] then 0 else (if ins[0].txBusy then 0 else 1) + Free(ins[1..])
  }

  lemma {:induction false} Sends(p: Path, ins: seq<In>)
    requires Formed(p) && Given(p, ins) == []
    ensures ToSend(Run(p, ins)) <= if ToSend(p) > Free(ins) then ToSend(p) - Free(ins) else 0
    decreases |ins|
  {
    hide ToSend, Step, C.Given, Formed;
    if ins != [] {
      ToSendStep(p, ins[0]);
      Sends(Step(p, ins[0]), ins[1..]);
    }
  }

  lemma {:induction false} ToSendBound(p: Path)
    ensures ToSend(p) <= 6 * p.o.d.len + 73
    ensures ToSend(p) == 0 ==> Drained(p) && !p.o.d.busy && !p.c.r.h.stb
  {
    OP.ToSendBound(p.o);
    hide OP.ToSend, OP.OnTheWay;
  }

  // When nothing is taken in, the path is empty after so many clocks on which the transmitter is free.
  lemma {:induction false} PathDrains(p: Path, ins: seq<In>)
    requires Formed(p) && Given(p, ins) == [] && Free(ins) >= 6 * p.o.d.len + 73
    ensures var q := Run(p, ins); Drained(q) && !q.o.d.busy && !q.c.r.h.stb
  {
    hide *;
    ToSendBound(p);
    Sends(p, ins);
    ToSendBound(Run(p, ins));
  }

  lemma {:induction false} LengthStays(p: Path, ins: seq<In>)
    requires Formed(p) && p.o.d.len <= 5
    ensures Run(p, ins).o.d.len <= 5
    decreases |ins|
  {
    hide Step, Formed;
    if ins != [] {
      LengthStep(p, ins[0]);
      LengthStays(Step(p, ins[0]), ins[1..]);
    }
  }

  lemma {:induction false} LengthStep(p: Path, i: In)
    requires Formed(p) && p.o.d.len <= 5
    ensures Step(p, i).o.d.len <= 5
  {
    hide O.PackerStep, O.SixcharStep, C.SysStep;
  }

  // So a word that is offered does not wait for ever.
  lemma {:induction false} WordGetsIn(p: Path, ins: seq<In>, i: In)
    requires Formed(p) && p.o.d.len <= 5 && Free(ins) >= 103 && i.stb
    ensures Given(p, ins + [i]) != []
  {
    hide *;
    GivenApart(p, ins, [i]);
    if Given(p, ins) == [] {
      PathDrains(p, ins);
      GivenNow(Run(p, ins), i);
    }
  }

  lemma {:induction false} GivenNow(p: Path, i: In)
    requires Formed(p) && !p.c.r.h.stb && i.stb
    ensures Given(p, [i]) != []
  {
    hide Step;
  }

  lemma {:induction false} GivenApart(p: Path, a: seq<In>, b: seq<In>)
    requires Formed(p)
    ensures var q := Run(p, a);
            && Given(p, a + b) == Given(p, a) + Given(q, b) && Sent(p, a + b) == Sent(p, a) + Sent(q, b)
            && Run(p, a + b) == Run(q, b)
    decreases |a|
  {
    hide Step, C.Given, O.Sent, Formed;
    if a == [] {
      assert a + b == b;
    } else {
      assert (a + b)[1..] == a[1..] + b && (a + b)[0] == a[0];
      GivenApart(Step(p, a[0]), a[1..], b);
    }
  }

  // From a moment with nothing on its way: after any traffic, and a silence with 103 clocks on which the transmitter is
  // free, everything that went in has come out.
  lemma {:induction false} EveryMessageSent(p: Path, ins: seq<In>, silence: seq<In>) returns (outs: seq<Codeword>)
    requires Invariant(p) && Drained(p) && p.o.d.len <= 5 && C.Clear(Given(p, ins))
    requires Given(Run(p, ins), silence) == [] && Free(silence) >= 103
    ensures AllReadable(outs, p.c.hist) && DecodeAll(outs, p.c.hist) == C.SaidAll(Given(p, ins))
    ensures Stripped(Sent(p, ins + silence)) == OP.ReplyDigitsAll(outs)
  {
    assert Formed(p);
    hide *;
    GivenApart(p, ins, silence);
    LengthStays(p, ins);
    PathDrains(Run(p, ins), silence);
    assert Given(p, ins) + [] == Given(p, ins);
    outs := PathLossless(p, ins + silence);
  }
}
