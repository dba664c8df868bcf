// Whatever the search finds, and whenever it is cut short, the host understands what the executor said.
module WbuCompressProof {
  import opened Sequences
  import opened WbuCode
  import opened WbuCompress
  import opened WbuReply

  // The compressor, and the raw words it has passed on since the last address.
  datatype Sys = Sys(r: Regs, hist: seq<Word>)

  // A word this many raw words ago is where the table still has it.
  ghost predicate TableHolds(t: Table, hist: seq<Word>) {
    && |t.mem| == TABLE && t.addr == |hist| % TABLE && (t.filled ==> |hist| >= 1023)
    && forall k :: 1 <= k < TABLE && k <= |hist| ==> t.mem[Minus(t.addr, k)] == Recent(hist, k)
  }

  ghost predicate Holds(hist: seq<Word>, k: nat, v: Word) { 1 <= k < TABLE && k <= |hist| && Recent(hist, k) == v }

  // Either the word itself, or a reference of at most 288 to an equal word.
  ghost predicate Faithful(out: Codeword, w: Codeword, hist: seq<Word>) {
    out == w || (w.op / 8 == 7 && exists k :: 1 <= k < REACH && Holds(hist, k, Data(w)) && out == RefersTo(w, k))
  }

  function RefersTo(w: Codeword, k: nat): Codeword
    requires k < TABLE
  {
    Reference(w, Found(true, k, true, k == 1, k < 10))
  }

  ghost predicate CompareInv(c: Compare, t: Table, h: Hand, hist: seq<Word>) {
    && (c.p0 ==> h.stb && (c.caddr != t.addr && (c.caddr < |hist| || |hist| >= 1023) ==>
                             Holds(hist, Minus(t.addr, c.caddr), c.cword)))
    && (c.p1 ==> c.p0 && (c.vaddr && c.dmatch ==> Holds(hist, c.maddr, Data(h.word))))
  }

  ghost predicate FoundInv(f: Found, h: Hand, hist: seq<Word>) {
    f.yes ==> h.stb && h.late && h.word.op / 8 == 7 && Holds(hist, f.at, Data(h.word))
              && f.far == (f.at < REACH) && f.one == (f.at == 1) && f.short == (f.at < 10)
  }

  ghost predicate Inv(s: Sys) {
    && Formed(s.r) && TableHolds(s.r.t, s.hist)
    && CompareInv(s.r.c, s.r.t, s.r.h, s.hist) && FoundInv(s.r.f, s.r.h, s.hist)
    && (s.r.h.stb && s.r.h.late ==> Faithful(s.r.h.better, s.r.h.word, s.hist))
  }

  function SysStep(s: Sys, i: In): Sys
    requires Formed(s.r)
  {
    Sys(Step(s.r, i), if Accepted(s.r.h, i) then Noted(Output(s.r.h), s.hist) else s.hist)
  }

  // ---- One clock ----

  lemma {:induction false} LookUp(t: Table, hist: seq<Word>, at: Slot)
    requires TableHolds(t, hist) && at != t.addr && (at < |hist| || |hist| >= 1023)
    ensures Holds(hist, Minus(t.addr, at), t.mem[at])
  {
    var k := Minus(t.addr, at);
    assert Minus(t.addr, k) == at;
    assert 1 <= k < TABLE && k <= |hist|;
  }

  lemma {:induction false} TableStep(s: Sys, i: In)
    requires Inv(s)
    ensures TableHolds(NextTable(s.r, i), SysStep(s, i).hist)
  {
    var t, w := s.r.t, Data(s.r.h.word);
    var n, hist := NextTable(s.r, i), SysStep(s, i).hist;
    if Accepted(s.r.h, i) && Output(s.r.h).op / 8 == 7 {
      RawIsWord(s);
      TableAdds(t, s.hist, w);
    } else if !(Accepted(s.r.h, i) && Output(s.r.h).op / 8 == 1) {
    }
    hide TableHolds, Inv, Data;
  }

  // A raw reply is the word in hand: no reference begins with three ones.
  lemma {:induction false} RawIsWord(s: Sys)
    requires Inv(s) && s.r.h.stb && Output(s.r.h).op / 8 == 7
    ensures Output(s.r.h) == s.r.h.word
  {
  }

  lemma {:induction false} TableAdds(t: Table, hist: seq<Word>, v: Word)
    requires TableHolds(t, hist)
    ensures TableHolds(Table((t.addr + 1) % TABLE, t.filled || t.addr == 0x3ff, t.mem[t.addr := v]), hist + [v])
  {
    var a, mem, now := (t.addr + 1) % TABLE, t.mem[t.addr := v], hist + [v];
    forall k | 1 <= k < TABLE && k <= |now| ensures mem[Minus(a, k)] == Recent(now, k) {
      OnePlaceOn(t.addr, k);
    }
    NextLength(|hist|);
    hide Minus;
  }

  lemma {:induction false} OnePlaceOn(at: Slot, k: nat)
    requires 1 <= k < TABLE
    ensures Minus((at + 1) % TABLE, k) == Minus(at, k - 1)
    ensures k > 1 ==> Minus(at, k - 1) != at
    ensures k == 1 ==> Minus(at, 0) == at
  {
  }

  lemma {:induction false} NextLength(n: nat)
    ensures (n + 1) % TABLE == (n % TABLE + 1) % TABLE && (n % TABLE == 0x3ff ==> n >= 1023)
  {
  }

  lemma {:induction false} CompareStep(s: Sys, i: In)
    requires Inv(s)
    ensures var t := SysStep(s, i); CompareInv(t.r.c, t.r.t, t.r.h, t.hist)
  {
    hide Holds, Data, Minus, NextFound, NextSearch, Noted;
    var r, t := s.r, SysStep(s, i);
    if !Restart(r.h, i) {
      var rd := r.s.rd;
      if rd != r.t.addr && (rd < |s.hist| || |s.hist| >= 1023) { LookUp(r.t, s.hist, rd); }
      assert t.hist == s.hist && t.r.t.addr == r.t.addr && t.r.h.word == r.h.word;
      assert r.c.p0 && t.r.c.vaddr ==> r.c.caddr != r.t.addr && (r.c.caddr < |s.hist| || |s.hist| >= 1023);
    }
  }

  lemma {:induction false} InvStep(s: Sys, i: In)
    requires Inv(s)
    ensures Inv(SysStep(s, i))
  {
    TableStep(s, i);
    CompareStep(s, i);
    hide TableHolds, CompareInv, FoundInv, Faithful;
  }

  // On every clock, whatever is offered for output is the word itself or a sound reference to an equal one.
  lemma {:induction false} OutputFaithful(s: Sys)
    requires Inv(s) && s.r.h.stb
    ensures Faithful(Output(s.r.h), s.r.h.word, s.hist)
  {
  }

  // ---- Meaning ----

  lemma {:induction false} ShortenKeeps(w: Codeword, hist: seq<Word>)
    requires Said(w) != Strange
    ensures Understood(Shorten(w), hist) == Said(w)
  {
  }

  lemma {:induction false} ReferenceDigits(k: nat, inc: nat)
    requires 1 <= k < REACH && inc < 2
    ensures k < 10 ==> (k % 8 + 6) % 8 == (if k == 1 then 7 else k - 2)
    ensures k >= 10 ==> Minus(k, 10) == k - 10 && (k - 10) / 64 % 8 * 64 + (k - 10) % 64 + 10 == k
    ensures forall d :: 0 <= d < 8 ==> OpParts(32 + d * 2 + inc, 2, d, inc) && OpParts(16 + d * 2 + inc, 1, d, inc)
    ensures OpParts(6 + inc, 0, 3, inc)
  {
  }

  predicate OpParts(op: nat, kind: nat, d: nat, inc: nat) {
    op / 16 == kind && op / 2 % 8 == d && op / 2 == kind * 8 + d && op % 2 == inc
  }

  lemma {:induction false} ReferenceMeans(w: Codeword, k: nat, hist: seq<Word>)
    requires 1 <= k < REACH && k <= |hist| && w.op / 8 == 7
    ensures Understood(RefersTo(w, k), hist) == Datum(Recent(hist, k), w.op % 2 == 1)
  {
    var inc, out := w.op % 2, RefersTo(w, k);
    ReferenceDigits(k, inc);
    if k == 1 { assert OpParts(out.op, 0, 3, inc); }
    else if k < 10 { assert OpParts(out.op, 2, k - 2, inc); }
    else {
      assert OpParts(out.op, 1, (k - 10) / 64 % 8, inc);
      assert out.low / 0x100_0000 == (k - 10) % 64;
    }
    hide RefersTo, Minus;
  }

  lemma {:induction false} FaithfulMeans(out: Codeword, w: Codeword, hist: seq<Word>)
    requires Faithful(out, w, hist)
    ensures Understood(out, hist) == Understood(w, hist)
  {
    if out != w {
      var k :| 1 <= k < REACH && Holds(hist, k, Data(w)) && out == RefersTo(w, k);
      ReferenceMeans(w, k, hist);
      hide RefersTo, Data, Recent;
    }
  }

  lemma {:induction false} FaithfulReadable(out: Codeword, w: Codeword, hist: seq<Word>)
    requires Faithful(out, w, hist) && Plain(w)
    ensures Readable(out, hist)
  {
    if out != w {
      var k :| 1 <= k < REACH && Holds(hist, k, Data(w)) && out == RefersTo(w, k);
      ReferenceBack(w, k);
      hide RefersTo, Data, Recent;
    }
  }

  lemma {:induction false} ReferenceBack(w: Codeword, k: nat)
    requires 1 <= k < REACH && w.op / 8 == 7
    ensures Back(RefersTo(w, k)) == k && RefersTo(w, k).op / 8 != 6
  {
    var inc, out := w.op % 2, RefersTo(w, k);
    ReferenceDigits(k, inc);
    if k == 1 { assert OpParts(out.op, 0, 3, inc); }
    else if k < 10 { assert OpParts(out.op, 2, k - 2, inc); }
    else {
      assert OpParts(out.op, 1, (k - 10) / 64 % 8, inc);
      assert out.low / 0x100_0000 == (k - 10) % 64;
    }
    hide RefersTo, Minus;
  }

  // ---- Runs ----

  // What the executor and its notes say: never a reference.
  predicate Plain(w: Codeword) { w.op < 6 || w.op / 8 == 1 || w.op / 8 == 7 }

  lemma {:induction false} PlainMeans(w: Codeword, hist: seq<Word>)
    requires Plain(w)
    ensures Understood(w, hist) == Understood(w, [])
  {
  }

  lemma {:induction false} PlainShort(w: Codeword)
    requires Said(w) != Strange
    ensures Plain(Shorten(w)) && Understood(Shorten(w), []) == Said(w)
  {
    ShortenKeeps(w, []);
  }

  ghost predicate Invariant(s: Sys) { Inv(s) && (s.r.h.stb ==> Plain(s.r.h.word)) }

  // The word in hand, as a message.
  function InHand(s: Sys): seq<Message> { if s.r.h.stb then [Understood(s.r.h.word, [])] else [] }

  function Passed(s: Sys, i: In): seq<Codeword> { if Accepted(s.r.h, i) then [Output(s.r.h)] else [] }

  // The words that are taken in, and what they say.
  function Given(s: Sys, i: In): seq<Codeword> { if i.stb && !s.r.h.stb then [i.word] else [] }

  function SaidAll(ws: seq<Codeword>): (ms: seq<Message>)
    ensures |ms| == |ws|
  {
    seq(|ws|, k requires 0 <= k < |ws| => Said(ws[k]))
  }

  predicate Clear(ws: seq<Codeword>) { forall k :: 0 <= k < |ws| ==> Said(ws[k]) != Strange }

  lemma {:induction false} MessageStep(s: Sys, i: In)
    requires Invariant(s) && Clear(Given(s, i))
    ensures var t := SysStep(s, i);
            && Invariant(t) && DecodeAll(Passed(s, i), s.hist) + InHand(t) == InHand(s) + SaidAll(Given(s, i))
            && t.hist == NotedAll(Passed(s, i), s.hist) && AllReadable(Passed(s, i), s.hist)
  {
    var t, out := SysStep(s, i), Output(s.r.h);
    InvStep(s, i);
    if i.stb && !s.r.h.stb { assert Said(Given(s, i)[0]) != Strange; PlainShort(i.word); }
    if Accepted(s.r.h, i) {
      OutputFaithful(s);
      FaithfulMeans(out, s.r.h.word, s.hist);
      PlainMeans(s.r.h.word, s.hist);
      FaithfulReadable(out, s.r.h.word, s.hist);
      assert [out][1..] == [];
    }
    assert t.r.h == NextHand(s.r, i);
    hide Inv, Understood, Said, Shorten, Faithful, Noted, Step, Plain, Readable;
  }

  function Run(s: Sys, ins: seq<In>): Sys
    requires Formed(s.r)
    decreases |ins|
  {
    if ins == [] then s else Run(SysStep(s, ins[0]), ins[1..])
  }

  function GivenAll(s: Sys, ins: seq<In>): seq<Codeword>
    requires Formed(s.r)
    decreases |ins|
  {
    if ins == [] then [] else Given(s, ins[0]) + GivenAll(SysStep(s, ins[0]), ins[1..])
  }

  lemma {:induction false} SaidApart(a: seq<Codeword>, b: seq<Codeword>)
    ensures SaidAll(a + b) == SaidAll(a) + SaidAll(b)
    ensures Clear(a + b) ==> Clear(a) && Clear(b)
  {
    if Clear(a + b) {
      assert forall k :: 0 <= k < |a| ==> a[k] == (a + b)[k];
      assert forall k :: 0 <= k < |b| ==> b[k] == (a + b)[|a| + k];
    }
  }

  function PassedAll(s: Sys, ins: seq<In>): seq<Codeword>
    requires Formed(s.r)
    decreases |ins|
  {
    if ins == [] then [] else Passed(s, ins[0]) + PassedAll(SysStep(s, ins[0]), ins[1..])
  }

  lemma {:induction false} NothingGiven()
    ensures SaidAll([]) == []
  {
  }

  // However the output is held up, and so however far each search gets, the host that decodes what comes out
  // understands exactly the messages that went in, in order, short of the one still in hand.
  lemma {:induction false} CompressionLossless(s: Sys, ins: seq<In>)
    requires Invariant(s) && Formed(s.r) && Clear(GivenAll(s, ins))
    ensures var t, outs := Run(s, ins), PassedAll(s, ins);
            && Invariant(t) && t.hist == NotedAll(outs, s.hist) && AllReadable(outs, s.hist)
            && DecodeAll(outs, s.hist) + InHand(t) == InHand(s) + SaidAll(GivenAll(s, ins))
    decreases |ins|
  {
    hide Invariant, Inv, Step, InHand, Given, Passed, Understood, Noted, Output, Accepted, Readable, Clear, SaidAll;
    if ins == [] {
      NothingGiven();
    } else {
      var i, t := ins[0], SysStep(s, ins[0]);
      SaidApart(Given(s, i), GivenAll(t, ins[1..]));
      MessageStep(s, i);
      CompressionLossless(t, ins[1..]);
      DecodeApart(Passed(s, i), PassedAll(t, ins[1..]), s.hist);
      ReadableApart(Passed(s, i), PassedAll(t, ins[1..]), s.hist);
      Chain(DecodeAll(Passed(s, i), s.hist), DecodeAll(PassedAll(t, ins[1..]), t.hist), InHand(s), InHand(t),
            InHand(Run(t, ins[1..])), SaidAll(Given(s, i)), SaidAll(GivenAll(t, ins[1..])));
    }
  }

  // Nothing need be known of the registers at the start: passing an address on empties the table at both ends.
  lemma {:induction false} AddressRestarts(r: Regs, i: In)
    requires Formed(r) && Accepted(r.h, i) && Output(r.h).op / 8 == 1
    ensures Invariant(Sys(Step(r, i), []))
  {
  }
}
