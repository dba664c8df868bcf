// The compressed record loses nothing: expanded, it is the stream of samples.
module ScopeProof {
  import opened Arithmetic
  import opened Sequences
  import opened Scope

  // The scope since its reset: the samples it has looked at, and the words it has decided to record.
  datatype Sys = Sys(s: Regs, samples: seq<Low>, decided: seq<Entry>)

  // A word for a run repeats the sample before it.
  function Expand(ws: seq<Entry>): seq<Low> {
    if ws == [] then [] else
    var n := |ws| - 1;
    var before := Expand(ws[..n]);
    if !ws[n].adr then before + [ws[n].val]
    else if before == [] then []
    else before + Times(before[|before| - 1], ws[n].val + 1)
  }

  // What is on its way to the record.
  function Coming(w: Words): seq<Entry> { if Overtaken(w) then [w.imm] else [w.lst, w.imm] }

  predicate Deciding(s: Regs, i: In)
    requires |s.c.stopPipe| == 5
  {
    i.ce && !Overtaken(s.w) && !s.c.stopPipe[2]
  }

  function SysStep(g: Config, y: Sys, i: In): Sys
    requires Formed(g, y.s)
  {
    Sys(Step(g, y.s, i), if i.ce then y.samples + [y.s.r.qd] else y.samples,
        if Deciding(y.s, i) then y.decided + [y.s.w.lst] else y.decided)
  }

  // After a clock of reset.  A word decided before it may still be on its way to the memory.
  predicate Initial(g: Config, y: Sys) {
    && Formed(g, y.s) && y.samples == [] && y.decided == (if y.s.w.record then [y.s.w.data] else [])
    && y.s.c == Control(false, 0, false, [false, false, false, false, false], false)
    && y.s.r.ck == 0 && y.s.r.force && !y.s.r.inhibit && y.s.r.timeout && y.s.r.changed
    && y.s.w.imm == BLANK && y.s.w.lst == BLANK && y.s.m.waddr == 0
  }

  lemma {:induction false} ResetStarts(g: Config, s: Regs, i: In)
    requires Formed(g, s) && i.reset
    ensures var t := Step(g, s, i); Initial(g, Sys(t, [], if t.w.record then [t.w.data] else []))
  {
  }

  // ---- The counter of repeats ----

  // Unless a data word is due, the counter is one more than the last run length, and never past MAX_STEP: a forced
  // write comes first.
  ghost predicate CounterInv(g: Config, s: Regs) {
    && (s.r.force || (s.r.ck <= g.maxStep && s.r.ck == if s.w.imm.adr then s.w.imm.val + 1 else 0))
    && (!s.r.force && s.r.ck >= g.maxStep ==> s.r.timeout && !s.r.inhibit)
  }

  lemma {:induction false} CounterStep(g: Config, s: Regs, i: In)
    requires Formed(g, s) && CounterInv(g, s) && !i.reset
    ensures CounterInv(g, Step(g, s, i))
    ensures i.ce && !Data(s) ==> s.r.ck <= g.maxStep
  {
    hide Up, ControlStep, MemoryStep, Triggers;
    if i.ce && !Data(s) {
      assert s.r.ck == g.maxStep ==> RunsStep(g, s, i).force;
      assert s.r.ck < g.maxStep ==> RunsStep(g, s, i).ck == s.r.ck + 1;
    }
  }

  // When the counter says that a run is long enough.
  ghost predicate TimeInv(g: Config, s: Regs) {
    CounterInv(g, s) && (s.r.timeout ==> s.r.ck == 0 || s.r.ck >= g.maxStep) && (s.r.force ==> s.r.ck <= g.maxStep + 1)
  }

  lemma {:induction false} TimeStep(g: Config, s: Regs, i: In)
    requires Formed(g, s) && TimeInv(g, s) && !i.reset
    ensures TimeInv(g, Step(g, s, i))
  {
    CounterStep(g, s, i);
    hide ControlStep, MemoryStep, WordsStep, Triggers, CounterInv;
    assert Step(g, s, i).r == RunsStep(g, s, i);
  }

  // No run is cut short for its length: where a write is forced for that alone, the run that it closes has all MAX_STEP
  // repeats after its first, or has only begun.
  lemma {:induction false} FullRuns(g: Config, s: Regs, i: In)
    requires Formed(g, s) && TimeInv(g, s) && i.ce && !i.reset && s.c.primed && !Triggers(s.c, i)
    ensures var t := Step(g, s, i); t.r.force && t.w.imm.adr ==> t.w.imm.val == g.maxStep || t.w.imm.val == 0
  {
    hide ControlStep, MemoryStep, Triggers;
  }

  // ---- The record ----

  // The control registers only go forward.
  ghost predicate ControlInv(s: Regs) {
    && |s.c.stopPipe| == 5
    && (s.c.stopped ==> s.c.triggered) && (!s.c.triggered ==> s.c.holdoff == 0)
    && (s.c.stopPipe[0] ==> s.c.stopped) && (s.c.stopPipe[1] ==> s.c.stopPipe[0]) && (s.c.stopPipe[2] ==> s.c.stopPipe[1])
  }

  // The words recorded and those coming are, after what was left over from before the reset and one blank word, a
  // list that expands to the samples.
  ghost predicate Records(y: Sys, stale: seq<Entry>, tail: seq<Entry>) {
    && y.decided + Coming(y.s.w) == stale + [BLANK] + tail
    && Expand(tail) == y.samples
    && (tail == [] ==> y.s.r.force)
    && (tail != [] ==> !tail[0].adr && y.s.w.imm == tail[|tail| - 1])
    && (tail != [] && !y.s.r.changed ==> y.samples != [] && y.s.r.qd == y.samples[|y.samples| - 1])
    && (tail == [] ==> y.s.w.imm == BLANK && y.s.w.lst == BLANK)
  }

  lemma {:induction false} ExpandMore(ws: seq<Entry>, e: Entry)
    ensures var before := Expand(ws);
            Expand(ws + [e]) == if !e.adr then before + [e.val]
                                else if before == [] then [] else before + Times(before[|before| - 1], e.val + 1)
  {
    assert (ws + [e])[..|ws|] == ws;
  }

  // A longer run is the same run and one more repeat.
  lemma {:induction false} ExpandLonger(ws: seq<Entry>, v: nat)
    requires Expand(ws) != [] && v + 1 < 0x8000_0000
    ensures var was := Expand(ws + [Entry(true, v)]);
            Expand(ws + [Entry(true, v + 1)]) == was + [was[|was| - 1]]
  {
    ExpandMore(ws, Entry(true, v));
    ExpandMore(ws, Entry(true, v + 1));
  }

  lemma {:induction false} ExpandNone(ws: seq<Entry>)
    ensures (Expand(ws) == [] ==> ws == [] || ws[0].adr) && (ws != [] && !ws[0].adr ==> Expand(ws)[0] == ws[0].val)
  {
    if ws != [] {
      var n := |ws| - 1;
      ExpandNone(ws[..n]);
      assert ws[..n] + [ws[n]] == ws;
    }
  }

  // The words before the newest, once this clock has decided about the one before it.
  lemma {:induction false} Decided(g: Config, y: Sys, i: In)
    requires Formed(g, y.s) && i.ce && !i.reset && !y.s.c.stopPipe[2]
    ensures SysStep(g, y, i).decided + [y.s.w.imm] == y.decided + Coming(y.s.w)
  {
  }

  // Appending on both sides, and taking the last word off both sides.
  lemma {:induction false} Appended(d: seq<Entry>, imm: Entry, e: Entry, head: seq<Entry>, tail: seq<Entry>)
    requires d + [imm] == head + tail
    ensures d + ([imm] + [e]) == head + (tail + [e])
    ensures tail != [] ==> d == head + tail[..|tail| - 1]
  {
    assert d + ([imm] + [e]) == (d + [imm]) + [e];
    if tail != [] {
      assert d == (d + [imm])[..|d|] == (head + tail)[..|d|];
    }
  }

  lemma {:induction false} DataStep(g: Config, y: Sys, i: In, stale: seq<Entry>, tail: seq<Entry>)
    requires Formed(g, y.s) && Records(y, stale, tail) && i.ce && !i.reset && !y.s.c.stopPipe[2] && Data(y.s)
    ensures Records(SysStep(g, y, i), stale, tail + [Entry(false, y.s.r.qd)])
  {
    hide Expand, ControlStep, MemoryStep;
    Decided(g, y, i);
    ExpandMore(tail, Entry(false, y.s.r.qd));
    var z := SysStep(g, y, i);
    assert Coming(z.s.w) == [y.s.w.imm] + [Entry(false, y.s.r.qd)];
    Appended(z.decided, y.s.w.imm, Entry(false, y.s.r.qd), stale + [BLANK], tail);
  }

  lemma {:induction false} RunStarts(g: Config, y: Sys, i: In, stale: seq<Entry>, tail: seq<Entry>)
    requires Formed(g, y.s) && Records(y, stale, tail) && CounterInv(g, y.s) && i.ce && !i.reset && !y.s.c.stopPipe[2]
    requires !Data(y.s) && !y.s.w.imm.adr
    ensures Records(SysStep(g, y, i), stale, tail + [Entry(true, 0)])
  {
    hide Expand, ControlStep, MemoryStep;
    Decided(g, y, i);
    ExpandMore(tail, Entry(true, 0));
    var z := SysStep(g, y, i);
    assert Coming(z.s.w) == [y.s.w.imm] + [Entry(true, 0)];
    Appended(z.decided, y.s.w.imm, Entry(true, 0), stale + [BLANK], tail);
    assert Times(y.s.r.qd, 1) == [y.s.r.qd];
  }

  lemma {:induction false} RunLengthens(g: Config, y: Sys, i: In, stale: seq<Entry>, tail: seq<Entry>)
    requires Formed(g, y.s) && Records(y, stale, tail) && CounterInv(g, y.s) && i.ce && !i.reset && !y.s.c.stopPipe[2]
    requires !Data(y.s) && y.s.w.imm.adr
    ensures tail != [] && Records(SysStep(g, y, i), stale, tail[..|tail| - 1] + [Entry(true, y.s.r.ck)])
  {
    hide Expand, ControlStep, MemoryStep;
    Decided(g, y, i);
    var init, v := tail[..|tail| - 1], y.s.w.imm.val;
    assert tail == init + [Entry(true, v)];
    assert init != [] && init[0] == tail[0];
    ExpandNone(init);
    ExpandLonger(init, v);
    var z := SysStep(g, y, i);
    Appended(z.decided, y.s.w.imm, BLANK, stale + [BLANK], tail);
    assert z.decided == stale + [BLANK] + init;
    assert Coming(z.s.w) == [Entry(true, y.s.r.ck)];
  }

  lemma {:induction false} QuietStep(g: Config, y: Sys, i: In, stale: seq<Entry>, tail: seq<Entry>)
    requires Formed(g, y.s) && Records(y, stale, tail) && !i.ce && !i.reset
    ensures Records(SysStep(g, y, i), stale, tail)
  {
  }

  // The words that stand for the samples, a clock on: a data word, a run that begins, or one that is longer.
  function Next(s: Regs, i: In, tail: seq<Entry>): seq<Entry> {
    if !i.ce then tail
    else if Data(s) then tail + [Entry(false, s.r.qd)]
    else if !s.w.imm.adr then tail + [Entry(true, 0)]
    else if tail != [] && s.r.ck < 0x8000_0000 then tail[..|tail| - 1] + [Entry(true, s.r.ck)]
    else tail
  }

  // While the record has not stopped, a clock keeps it true.
  lemma {:induction false} RecordStep(g: Config, y: Sys, i: In, stale: seq<Entry>, tail: seq<Entry>)
    requires Formed(g, y.s) && Records(y, stale, tail) && CounterInv(g, y.s) && !i.reset && !y.s.c.stopPipe[2]
    ensures Records(SysStep(g, y, i), stale, Next(y.s, i, tail))
  {
    if !i.ce { QuietStep(g, y, i, stale, tail); }
    else if Data(y.s) { DataStep(g, y, i, stale, tail); }
    else if !y.s.w.imm.adr { RunStarts(g, y, i, stale, tail); }
    else { RunLengthens(g, y, i, stale, tail); }
    hide Records, SysStep, CounterInv;
  }

  // ---- Runs ----

  function Run(g: Config, y: Sys, ins: seq<In>): Sys
    requires Formed(g, y.s)
    decreases |ins|
  {
    if ins == [] then y else Run(g, SysStep(g, y, ins[0]), ins[1..])
  }

  // The decided words begin a list that expands to the beginning of the samples, or to all of them.
  ghost predicate Faithful(y: Sys, stale: seq<Entry>, tail: seq<Entry>) {
    && y.decided <= stale + [BLANK] + tail && Expand(tail) <= y.samples
    && (tail != [] ==> !tail[0].adr)
    && (|y.s.c.stopPipe| == 5 && !y.s.c.stopPipe[2] ==> Records(y, stale, tail))
  }

  ghost predicate Inv(g: Config, y: Sys, stale: seq<Entry>, tail: seq<Entry>) {
    Formed(g, y.s) && ControlInv(y.s) && CounterInv(g, y.s) && Faithful(y, stale, tail)
  }

  lemma {:induction false} StartsFaithful(g: Config, y: Sys)
    requires Initial(g, y)
    ensures Inv(g, y, y.decided, [])
  {
  }

  function TailAfter(s: Regs, i: In, tail: seq<Entry>): seq<Entry> {
    if |s.c.stopPipe| == 5 && s.c.stopPipe[2] then tail else Next(s, i, tail)
  }

  lemma {:induction false} InvStep(g: Config, y: Sys, i: In, stale: seq<Entry>, tail: seq<Entry>)
    requires Inv(g, y, stale, tail) && !i.reset
    ensures Inv(g, SysStep(g, y, i), stale, TailAfter(y.s, i, tail))
  {
    CounterStep(g, y.s, i);
    ControlKeeps(g, y.s, i);
    var z := SysStep(g, y, i);
    if !y.s.c.stopPipe[2] {
      RecordStep(g, y, i, stale, tail);
      assert z.decided <= z.decided + Coming(z.s.w);
    }
    hide Records, Step, CounterInv, ControlInv, Expand, Coming, Next;
  }

  lemma {:induction false} ControlKeeps(g: Config, s: Regs, i: In)
    requires Formed(g, s) && ControlInv(s) && !i.reset
    ensures ControlInv(Step(g, s, i)) && (s.c.stopPipe[2] ==> Step(g, s, i).c.stopPipe[2])
  {
  }

  // From the first data word after a reset, whatever the samples and the enables are, the recorded words expand to
  // the sampled stream: all of it while recording, but for the two words that are coming, and a beginning of it ever
  // after.
  lemma {:induction false} CaptureLossless(g: Config, y: Sys, ins: seq<In>, stale: seq<Entry>, tail: seq<Entry>)
      returns (last: seq<Entry>)
    requires Inv(g, y, stale, tail) && forall k :: 0 <= k < |ins| ==> !ins[k].reset
    ensures Inv(g, Run(g, y, ins), stale, last)
    decreases |ins|
  {
    hide Inv, SysStep, Formed;
    assert Formed(g, y.s) by { InvFormed(g, y, stale, tail); }
    if ins == [] {
      last := tail;
    } else {
      InvStep(g, y, ins[0], stale, tail);
      last := CaptureLossless(g, SysStep(g, y, ins[0]), ins[1..], stale, TailAfter(y.s, ins[0], tail));
    }
  }

  // The data on the clocks that are enabled.
  function Enabled(ins: seq<In>): seq<Low> {
    if ins == [] then [] else (if ins[0].ce then [ins[0].data] else []) + Enabled(ins[1..])
  }

  lemma {:induction false} SamplesAre(g: Config, y: Sys, ins: seq<In>)
    requires Formed(g, y.s) && forall k :: 0 <= k < |ins| ==> !ins[k].reset
    ensures var t := Run(g, y, ins);
            t.samples + [t.s.r.qd] == y.samples + [y.s.r.qd] + Enabled(ins)
    decreases |ins|
  {
    hide SysStep, Formed;
    if ins != [] {
      var t := SysStep(g, y, ins[0]);
      SampleIs(g, y, ins[0]);
      SamplesAre(g, t, ins[1..]);
      assert Enabled(ins) == (if ins[0].ce then [ins[0].data] else []) + Enabled(ins[1..]);
    }
  }

  lemma {:induction false} SampleIs(g: Config, y: Sys, i: In)
    requires Formed(g, y.s) && !i.reset
    ensures var t := SysStep(g, y, i);
            Formed(g, t.s) && t.samples + [t.s.r.qd] == y.samples + [y.s.r.qd] + if i.ce then [i.data] else []
  {
    assert SysStep(g, y, i).s.r == RunsStep(g, y.s, i);
    hide ControlStep, WordsStep, MemoryStep, Triggers;
  }

  // From a reset on: the words recorded and the one or two that are coming, after what was left over and one blank,
  // expand to the word that stood at the input register at the reset and then the data of every enabled clock, short of
  // the one that stands there now; and after the stop they still expand to a beginning of it.
  lemma {:induction false} RecordIsStream(g: Config, y: Sys, ins: seq<In>) returns (tail: seq<Entry>)
    requires Initial(g, y) && forall k :: 0 <= k < |ins| ==> !ins[k].reset
    ensures var t, stream := Run(g, y, ins), [y.s.r.qd] + Enabled(ins);
            && t.decided <= y.decided + [BLANK] + tail && Expand(tail) <= stream
            && (|t.s.c.stopPipe| == 5 && !t.s.c.stopPipe[2] ==>
                  && t.decided + Coming(t.s.w) == y.decided + [BLANK] + tail
                  && Expand(tail) + [t.s.r.qd] == stream)
  {
    StartsFaithful(g, y);
    tail := CaptureLossless(g, y, ins, y.decided, []);
    SamplesAre(g, y, ins);
    assert [] + [y.s.r.qd] + Enabled(ins) == [y.s.r.qd] + Enabled(ins);
    var t := Run(g, y, ins);
    assert t.samples <= t.samples + [t.s.r.qd];
    hide Run, Expand, CounterInv, ControlInv, Enabled, Coming;
  }

  lemma {:induction false} InvFormed(g: Config, y: Sys, stale: seq<Entry>, tail: seq<Entry>)
    requires Inv(g, y, stale, tail)
    ensures Formed(g, y.s)
  {
  }

  // ---- The memory ----

  // The words that have reached the memory.
  function Written(y: Sys): seq<Entry> {
    if y.s.w.record && y.decided != [] then y.decided[..|y.decided| - 1] else y.decided
  }

  // The memory holds the latest words, in a ring.
  ghost predicate Ring(size: nat, m: Memory, ws: seq<Entry>) {
    && size > 0 && |m.mem| == size && m.waddr == |ws| % size
    && forall k :: |ws| - size <= k < |ws| && 0 <= k ==> m.mem[k % size] == ws[k]
  }

  ghost predicate MemoryInv(g: Config, y: Sys) {
    && Formed(g, y.s)
    && (y.s.w.record ==> y.decided != [] && y.decided[|y.decided| - 1] == y.s.w.data)
    && Ring(g.size, y.s.m, Written(y)) && (y.s.c.primed <==> |Written(y)| >= g.size)
  }

  lemma {:induction false} RingStore(size: nat, m: Memory, ws: seq<Entry>, e: Entry)
    requires Ring(size, m, ws)
    ensures Ring(size, Memory((m.waddr + 1) % size, m.mem[m.waddr := e]), ws + [e])
    ensures |ws| < size ==> (m.waddr == size - 1 <==> |ws| + 1 >= size)
  {
    NextPlace(|ws|, size);
    var mem := m.mem[m.waddr := e];
    forall k | |ws| + 1 - size <= k <= |ws| && 0 <= k ensures mem[k % size] == (ws + [e])[k] {
      if k < |ws| { OtherPlace(k, |ws|, size); }
    }
    if |ws| < size { assert m.waddr == |ws| by { SmallMod(|ws|, size); } }
  }

  lemma {:induction false} NextPlace(n: nat, size: nat)
    requires size > 0
    ensures (n + 1) % size == (n % size + 1) % size
  {
    var q, r := n / size, n % size;
    assert n + 1 == q * size + (r + 1);
    if r + 1 < size { DivMod(n + 1, size, q, r + 1); } else { DivMod(n + 1, size, q + 1, 0); }
  }

  lemma {:induction false} OtherPlace(k: nat, n: nat, size: nat)
    requires size > 0 && n - size < k < n
    ensures k % size != n % size
  {
    var d := n / size - k / size;
    assert n == (n / size) * size + n % size && k == (k / size) * size + k % size;
    assert d * size == n - k - (n % size - k % size);
    Multiples(d, size);
  }

  lemma {:induction false} MemoryKeeps(g: Config, y: Sys, i: In)
    requires MemoryInv(g, y) && !i.reset
    ensures MemoryInv(g, SysStep(g, y, i))
  {
    var z := SysStep(g, y, i);
    assert Written(z) == y.decided;
    if y.s.w.record {
      assert y.decided == Written(y) + [y.s.w.data];
      RingStore(g.size, y.s.m, Written(y), y.s.w.data);
    }
    hide Ring, RunsStep, Overtaken;
  }

  lemma {:induction false} MemoryAlways(g: Config, y: Sys, ins: seq<In>)
    requires MemoryInv(g, y) && forall k :: 0 <= k < |ins| ==> !ins[k].reset
    ensures Formed(g, y.s) && MemoryInv(g, Run(g, y, ins))
    decreases |ins|
  {
    hide SysStep, Ring, Written;
    if ins != [] {
      MemoryKeeps(g, y, ins[0]);
      MemoryAlways(g, SysStep(g, y, ins[0]), ins[1..]);
    }
  }

  lemma {:induction false} StartsEmpty(g: Config, y: Sys)
    requires Initial(g, y)
    ensures MemoryInv(g, y) && Written(y) == []
  {
  }

  // What the bus reads out, the oldest word first.
  function ReadOut(m: Memory): seq<Entry>
    requires |m.mem| > 0
  {
    seq(|m.mem|, k requires 0 <= k < |m.mem| => m.mem[(m.waddr + k) % |m.mem|])
  }

  lemma {:induction false} ReadOutIsLatest(size: nat, m: Memory, ws: seq<Entry>)
    requires Ring(size, m, ws) && |ws| >= size
    ensures |m.mem| == size > 0 && ReadOut(m) == ws[|ws| - size..]
  {
    forall k | 0 <= k < size ensures ReadOut(m)[k] == ws[|ws| - size + k] {
      AroundTheRing(|ws|, k, size);
    }
  }

  lemma {:induction false} AroundTheRing(n: nat, k: nat, size: nat)
    requires size > 0 && k < size <= n
    ensures (n % size + k) % size == (n - size + k) % size
  {
    var q, r := n / size, n % size;
    assert n == q * size + r;
    Multiples(q, size);
    assert q >= 1;
    assert n - size + k == (q - 1) * size + (r + k);
    if r + k < size { DivMod(r + k, size, 0, r + k); DivMod(n - size + k, size, q - 1, r + k); }
    else { DivMod(r + k, size, 1, r + k - size); DivMod(n - size + k, size, q, r + k - size); }
  }

  // ---- Words and samples ----

  lemma {:induction false} SpansApart(a: seq<Entry>, b: seq<Entry>)
    ensures Spans(a + b) == Spans(a) + Spans(b)
  {
    if a == [] {
      assert a + b == b;
    } else {
      assert (a + b)[1..] == a[1..] + b;
      SpansApart(a[1..], b);
    }
  }

  lemma {:induction false} ExpandLength(ws: seq<Entry>)
    requires ws != [] ==> !ws[0].adr
    ensures |Expand(ws)| == Spans(ws)
  {
    if ws != [] {
      var n := |ws| - 1;
      ExpandLength(ws[..n]);
      assert ws == ws[..n] + [ws[n]] && [ws[n]][1..] == [];
      SpansApart(ws[..n], [ws[n]]);
      ExpandNone(ws[..n]);
    }
  }

  lemma {:induction false} ExpandPrefix(ws: seq<Entry>, i: nat)
    requires i <= |ws|
    ensures Expand(ws[..i]) <= Expand(ws)
  {
    if i == |ws| {
      assert ws[..i] == ws;
    } else {
      var n := |ws| - 1;
      ExpandPrefix(ws[..n], i);
      assert ws[..n][..i] == ws[..i];
    }
  }

  // Where word i stands among the samples, and what it says about them.
  ghost predicate Tells(samples: seq<Low>, at: nat, e: Entry) {
    if !e.adr then at < |samples| && samples[at] == e.val
    else 0 < at && at + e.val < |samples| && forall k :: at <= k <= at + e.val ==> samples[k] == samples[at - 1]
  }

  lemma {:induction false} WordTells(ws: seq<Entry>, i: nat)
    requires i < |ws| && !ws[0].adr
    ensures Tells(Expand(ws), Spans(ws[..i]), ws[i])
  {
    var upto := ws[..i + 1];
    assert upto[..i] == ws[..i];
    ExpandLength(ws[..i]);
    ExpandNone(ws[..i]);
    ExpandPrefix(ws, i + 1);
    hide Spans;
  }

  // Once the memory has gone round, each word that the software reads tells the truth about the samples at the place
  // that its own count of samples gives, from wherever the oldest word stands.
  lemma {:induction false} ReadOutTrue(g: Config, y: Sys, stale: seq<Entry>, tail: seq<Entry>, i: nat)
    requires Inv(g, y, stale, tail) && MemoryInv(g, y) && i < g.size
    requires |Written(y)| - g.size >= |stale| + 1 && |y.s.m.mem| == g.size
    ensures var ws := ReadOut(y.s.m);
            var base := Spans(Written(y)[|stale| + 1..|Written(y)| - g.size]);
            Tells(y.samples, base + Spans(ws[..i]), ws[i])
  {
    hide *;
    WhatIsKept(g, y, stale, tail);
    var all, o, head := Written(y), |Written(y)| - g.size, |stale| + 1;
    var ws := ReadOut(y.s.m);
    ReadOutIsLatest(g.size, y.s.m, all);
    InTail(all, stale, tail, o, i);
    SpansApart(all[head..o], ws[..i]);
    WordTells(tail, o - head + i);
    TellsMore(Expand(tail), y.samples, Spans(tail[..o - head + i]), ws[i]);
  }

  lemma {:induction false} WhatIsKept(g: Config, y: Sys, stale: seq<Entry>, tail: seq<Entry>)
    requires Inv(g, y, stale, tail) && MemoryInv(g, y)
    ensures Ring(g.size, y.s.m, Written(y)) && Written(y) <= stale + [BLANK] + tail && Expand(tail) <= y.samples
    ensures (tail != [] ==> !tail[0].adr) && |y.s.m.mem| == g.size > 0
  {
    assert Written(y) <= y.decided <= stale + [BLANK] + tail;
    hide Ring, Expand, ControlInv, CounterInv, Records;
  }

  // The words from place o on, as words of the tail.
  lemma {:induction false} InTail(all: seq<Entry>, stale: seq<Entry>, tail: seq<Entry>, o: nat, i: nat)
    requires all <= stale + [BLANK] + tail && |stale| + 1 <= o && o + i < |all|
    ensures var n := o - |stale| - 1 + i;
            && n < |tail| && tail[n] == all[o..][i] && tail[..n] == all[|stale| + 1..o] + all[o..][..i]
  {
    var w, head := stale + [BLANK] + tail, |stale| + 1;
    assert all == w[..|all|];
    assert all[head..o + i] == w[head..o + i] == tail[..o + i - head];
    assert all[head..o + i] == all[head..o] + all[o..o + i];
    assert all[o..][..i] == all[o..o + i];
  }

  lemma {:induction false} TellsMore(a: seq<Low>, b: seq<Low>, at: nat, e: Entry)
    requires Tells(a, at, e) && a <= b
    ensures Tells(b, at, e)
  {
  }
}
