// From a reset to the final stop: how much the scope has recorded by then, and where the trigger stands in it.
module ScopeStop {
  import opened Arithmetic
  import opened Scope
  import opened ScopeProof

  predicate NoReset(ins: seq<In>) { forall k :: 0 <= k < |ins| ==> !ins[k].reset }

  lemma {:induction false} RunApart(g: Config, y: Sys, a: seq<In>, b: seq<In>)
    requires Formed(g, y.s)
    ensures Formed(g, Run(g, y, a).s) && Run(g, y, a + b) == Run(g, Run(g, y, a), b)
    decreases |a|
  {
    if a == [] {
      assert a + b == b;
    } else {
      assert (a + b)[0] == a[0] && (a + b)[1..] == a[1..] + b;
      assert Formed(g, SysStep(g, y, a[0]).s);
      hide SysStep, Formed;
      RunApart(g, SysStep(g, y, a[0]), a[1..], b);
    }
  }

  // ---- The memory fills before the trigger can come ----

  // Until the memory has gone round every sample is written, and none can be the trigger; and before the scope stops
  // there are two words more.
  ghost predicate Filling(g: Config, y: Sys) {
    var c, n := y.s.c, |y.decided|;
    && |c.stopPipe| == 5
    && (c.stopPipe[3] ==> c.stopPipe[2] && !y.s.w.record) && (c.stopPipe[4] ==> c.stopPipe[3])
    && (c.triggered ==> c.primed)
    && (!c.primed ==> y.s.r.force && (y.s.w.imm.adr ==> n <= 1))
    && (c.primed ==>
          && n >= g.size
          && (n < g.size + 2 ==> !c.stopped && !y.s.w.imm.adr)
          && (n < g.size + 1 ==> !c.triggered && y.s.r.force))
  }

  lemma {:induction false} FillingStarts(g: Config, y: Sys)
    requires Initial(g, y) && g.size > 4
    ensures Filling(g, y)
  {
  }

  lemma {:induction false} FillingStep(g: Config, y: Sys, i: In)
    requires Formed(g, y.s) && ControlInv(y.s) && MemoryInv(g, y) && Filling(g, y) && !i.reset && g.size > 4
    ensures Filling(g, SysStep(g, y, i))
  {
    var z := SysStep(g, y, i);
    MemoryKeeps(g, y, i);
    assert z.s.c == ControlStep(g, y.s.c, y.s.w, y.s.m, i) && z.s.r == RunsStep(g, y.s, i) && z.s.w == WordsStep(g, y.s, i);
    assert |Written(z)| <= |z.decided|;
    assert z.s.c.primed ==> |z.decided| >= g.size;
    hide Ring, Step, MemoryInv, Formed;
  }

  lemma {:induction false} FilledRun(g: Config, y: Sys, ins: seq<In>, stale: seq<Entry>, tail: seq<Entry>)
    requires Inv(g, y, stale, tail) && MemoryInv(g, y) && Filling(g, y) && NoReset(ins) && g.size > 4
    ensures Formed(g, y.s) && Filling(g, Run(g, y, ins))
    decreases |ins|
  {
    InvParts(g, y, stale, tail);
    hide Inv, MemoryInv, Filling, SysStep, ControlInv, Formed;
    if ins != [] {
      FillingStep(g, y, ins[0]);
      MemoryKeeps(g, y, ins[0]);
      InvStep(g, y, ins[0], stale, tail);
      FilledRun(g, SysStep(g, y, ins[0]), ins[1..], stale, TailAfter(y.s, ins[0], tail));
    }
  }

  lemma {:induction false} InvParts(g: Config, y: Sys, stale: seq<Entry>, tail: seq<Entry>)
    requires Inv(g, y, stale, tail)
    ensures Formed(g, y.s) && ControlInv(y.s) && CounterInv(g, y.s)
    ensures |y.s.c.stopPipe| == 5 && (!y.s.c.stopPipe[2] ==> Records(y, stale, tail))
  {
  }

  // From a reset to the final stop the memory has gone round, and every word in it is of this record.
  lemma {:induction false} FilledAtStop(g: Config, y: Sys, ins: seq<In>)
    requires Initial(g, y) && NoReset(ins) && g.size > 4
    requires var c := Run(g, y, ins).s.c; |c.stopPipe| == 5 && c.stopPipe[4]
    ensures var t := Run(g, y, ins);
            && MemoryInv(g, t) && Written(t) == t.decided && |t.decided| >= g.size + |y.decided| + 1 && t.s.c.primed
  {
    StartsFaithful(g, y);
    StartsEmpty(g, y);
    FillingStarts(g, y);
    FilledRun(g, y, ins, y.decided, []);
    MemoryAlways(g, y, ins);
    var tail := CaptureLossless(g, y, ins, y.decided, []);
    InvParts(g, Run(g, y, ins), y.decided, tail);
    AtStop(g, Run(g, y, ins));
    assert |y.decided| <= 1;
    hide Run, Inv, MemoryInv, Filling, ControlInv;
  }

  lemma {:induction false} AtStop(g: Config, t: Sys)
    requires Filling(g, t) && ControlInv(t.s) && t.s.c.stopPipe[4]
    ensures Written(t) == t.decided && |t.decided| >= g.size + 2 && t.s.c.primed && t.s.c.stopPipe[2] && t.s.c.triggered
  {
  }

  // ---- The trigger in the record ----

  // Since the sample at place at, with value v, came with the trigger: it has its own word, at place p; and the counters
  // say how many samples have come since, until the record stops h + 2 samples from there.
  ghost predicate Marking(y: Sys, stale: seq<Entry>, tail: seq<Entry>, h: nat, at: nat, p: nat, v: Low) {
    var c, w, n := y.s.c, y.s.w, |y.samples|;
    && |c.stopPipe| == 5 && c.triggered && p <= |tail| && Spans(tail[..p]) == at
    && (p < |tail| ==> tail[p] == Entry(false, v))
    && if c.stopPipe[2] then
         && p + 2 < |tail| && c.stopped
         && y.decided == stale + [BLANK] + tail[..|tail| - 2] && Spans(tail[..|tail| - 2]) == at + h + 2
       else
         && Records(y, stale, tail) && Spans(tail) == n
         && (if !c.stopped then c.holdoff + at == n <= at + h
             else n == at + h + 1 + (if c.stopPipe[0] then 1 else 0) + (if c.stopPipe[1] then 1 else 0))
         && (c.stopPipe[0] ==> !w.imm.adr && p + 1 < |tail|) && (c.stopPipe[1] ==> !w.lst.adr && p + 2 < |tail|)
         && (p == |tail| <==> n == at) && (n == at ==> y.s.r.force && y.s.r.qd == v)
  }

  lemma {:induction false} MarkStarts(g: Config, y: Sys, i: In, stale: seq<Entry>, tail: seq<Entry>, h: nat)
    requires Inv(g, y, stale, tail) && !y.s.c.triggered && i.ce && !i.reset && Triggers(y.s.c, i)
    ensures var z, next := SysStep(g, y, i), TailAfter(y.s, i, tail);
            Marking(z, stale, next, h, |y.samples| + 1, |next|, i.data)
  {
    InvParts(g, y, stale, tail);
    RecordStep(g, y, i, stale, tail);
    var z, next := SysStep(g, y, i), TailAfter(y.s, i, tail);
    assert z.s.c == ControlStep(g, y.s.c, y.s.w, y.s.m, i) && z.s.r == RunsStep(g, y.s, i);
    RecordSpans(z, stale, next);
    assert next[..|next|] == next;
    hide Records, Step, Next, CounterInv, Inv, Spans;
  }

  lemma {:induction false} RecordSpans(y: Sys, stale: seq<Entry>, tail: seq<Entry>)
    requires Records(y, stale, tail)
    ensures Spans(tail) == |y.samples|
  {
    ExpandLength(tail);
    hide Expand, Spans, Coming;
  }

  // A word that is not the last stays, and so does the last while it is data.
  lemma {:induction false} NextKeeps(s: Regs, i: In, tail: seq<Entry>, p: nat)
    requires p < |tail| && !tail[p].adr && s.w.imm == tail[|tail| - 1]
    ensures var next := Next(s, i, tail); p < |next| && next[p] == tail[p] && next[..p] == tail[..p]
  {
  }

  lemma {:induction false} NextData(s: Regs, i: In, tail: seq<Entry>)
    requires i.ce && (s.c.stopped || s.r.force)
    ensures Next(s, i, tail) == tail + [Entry(false, s.r.qd)] && |Next(s, i, tail)| == |tail| + 1
  {
  }

  // The clock on which the record stops: two words are left on the way.
  lemma {:induction false} LastTwo(y: Sys, stale: seq<Entry>, tail: seq<Entry>)
    requires Records(y, stale, tail) && |tail| >= 2 && !y.s.w.imm.adr && !y.s.w.lst.adr
    ensures y.decided == stale + [BLANK] + tail[..|tail| - 2] && Spans(tail) == Spans(tail[..|tail| - 2]) + 2
  {
    var n, all := |tail| - 2, stale + [BLANK] + tail;
    assert y.decided + [y.s.w.lst, y.s.w.imm] == all;
    assert tail[n] == all[|all| - 2] == y.s.w.lst && tail[n + 1] == y.s.w.imm;
    assert y.decided == all[..|all| - 2] == stale + [BLANK] + tail[..n];
    assert tail == tail[..n] + tail[n..] && tail[n..] == [y.s.w.lst, y.s.w.imm];
    SpansApart(tail[..n], tail[n..]);
    assert [y.s.w.lst, y.s.w.imm][1..] == [y.s.w.imm] && [y.s.w.imm][1..] == [];
    assert Spans([y.s.w.imm]) == 1 && Spans([y.s.w.lst, y.s.w.imm]) == 2;
    hide Expand;
  }

  // The registers that count, a clock on.
  lemma {:induction false} Parts(g: Config, y: Sys, i: In)
    requires Formed(g, y.s) && !i.reset && y.s.c.triggered
    ensures var z, c := SysStep(g, y, i), y.s.c;
            && |z.s.c.stopPipe| == 5 && z.s.c.triggered
            && (!i.ce ==> z.s.c.holdoff == c.holdoff && z.s.c.stopped == c.stopped && z.s.c.stopPipe == c.stopPipe
                          && z.samples == y.samples && z.s.r == y.s.r && z.s.w.imm == y.s.w.imm && z.s.w.lst == y.s.w.lst
                          && z.decided == y.decided)
            && (i.ce ==>
                  && z.samples == y.samples + [y.s.r.qd]
                  && z.s.c.stopped == (c.stopped || c.holdoff >= i.holdoff)
                  && (!c.stopped ==> z.s.c.holdoff == (c.holdoff + 1) % HOLDOFFS)
                  && z.s.c.stopPipe[0] == c.stopped && z.s.c.stopPipe[1] == c.stopPipe[0] && z.s.c.stopPipe[2] == c.stopPipe[1]
                  && z.s.w.lst == y.s.w.imm && (c.stopped || y.s.r.force ==> z.s.w.imm == Entry(false, y.s.r.qd)))
            && (c.stopPipe[2] ==> z.decided == y.decided)
  {
  }

  lemma {:induction false} MarkFrozen(g: Config, y: Sys, i: In, stale: seq<Entry>, tail: seq<Entry>, h: nat, at: nat, p: nat, v: Low)
    requires Inv(g, y, stale, tail) && Marking(y, stale, tail, h, at, p, v) && !i.reset && i.holdoff == h < HOLDOFFS
    requires y.s.c.stopPipe[2]
    ensures Marking(SysStep(g, y, i), stale, TailAfter(y.s, i, tail), h, at, p, v)
  {
    InvParts(g, y, stale, tail);
    Parts(g, y, i);
    PipeOrder(y.s);
    assert TailAfter(y.s, i, tail) == tail;
    hide Inv, Records, Spans, MemoryStep, Step, RunsStep, WordsStep, ControlStep, Next, TailAfter, SysStep;
  }

  lemma {:induction false} PipeOrder(s: Regs)
    requires ControlInv(s)
    ensures (s.c.stopPipe[2] ==> s.c.stopPipe[1]) && (s.c.stopPipe[1] ==> s.c.stopPipe[0]) && (s.c.stopPipe[0] ==> s.c.stopped)
  {
  }

  lemma {:induction false} MarkWaits(g: Config, y: Sys, i: In, stale: seq<Entry>, tail: seq<Entry>, h: nat, at: nat, p: nat, v: Low)
    requires Inv(g, y, stale, tail) && Marking(y, stale, tail, h, at, p, v) && !i.reset && i.holdoff == h < HOLDOFFS
    requires !y.s.c.stopPipe[2] && !i.ce
    ensures Marking(SysStep(g, y, i), stale, TailAfter(y.s, i, tail), h, at, p, v)
  {
    InvParts(g, y, stale, tail);
    Parts(g, y, i);
    RecordStep(g, y, i, stale, tail);
    assert TailAfter(y.s, i, tail) == Next(y.s, i, tail) == tail;
    hide Inv, Records, Spans, MemoryStep, Step, RunsStep, WordsStep, ControlStep, Next, TailAfter, SysStep;
  }

  lemma {:induction false} MarkCounts(g: Config, y: Sys, i: In, stale: seq<Entry>, tail: seq<Entry>, h: nat, at: nat, p: nat, v: Low)
    requires Inv(g, y, stale, tail) && Marking(y, stale, tail, h, at, p, v) && !i.reset && i.holdoff == h < HOLDOFFS
    requires !y.s.c.stopPipe[2] && i.ce && !y.s.c.stopped
    ensures Marking(SysStep(g, y, i), stale, TailAfter(y.s, i, tail), h, at, p, v)
  {
    InvParts(g, y, stale, tail);
    PipeOrder(y.s);
    Parts(g, y, i);
    RecordStep(g, y, i, stale, tail);
    var z, next := SysStep(g, y, i), TailAfter(y.s, i, tail);
    assert next == Next(y.s, i, tail);
    RecordSpans(z, stale, next);
    if p < |tail| {
      ImmIsLast(y, stale, tail);
      NextKeeps(y.s, i, tail, p);
    } else {
      NextData(y.s, i, tail);
      assert next[..p] == tail == tail[..p];
    }
    hide Inv, Records, Spans, MemoryStep, Step, RunsStep, WordsStep, ControlStep, Next, TailAfter, SysStep;
  }

  lemma {:induction false} MarkStops(g: Config, y: Sys, i: In, stale: seq<Entry>, tail: seq<Entry>, h: nat, at: nat, p: nat, v: Low)
    requires Inv(g, y, stale, tail) && Marking(y, stale, tail, h, at, p, v) && !i.reset && i.holdoff == h < HOLDOFFS
    requires !y.s.c.stopPipe[2] && i.ce && y.s.c.stopped
    ensures Marking(SysStep(g, y, i), stale, TailAfter(y.s, i, tail), h, at, p, v)
  {
    InvParts(g, y, stale, tail);
    PipeOrder(y.s);
    Parts(g, y, i);
    RecordStep(g, y, i, stale, tail);
    var z, next := SysStep(g, y, i), TailAfter(y.s, i, tail);
    assert next == Next(y.s, i, tail);
    RecordSpans(z, stale, next);
    ImmIsLast(y, stale, tail);
    NextKeeps(y.s, i, tail, p);
    NextData(y.s, i, tail);
    if y.s.c.stopPipe[1] { LastTwo(z, stale, next); }
    hide Inv, Records, Spans, MemoryStep, Step, RunsStep, WordsStep, ControlStep, Next, TailAfter, SysStep;
  }

  lemma {:induction false} MarkStep(g: Config, y: Sys, i: In, stale: seq<Entry>, tail: seq<Entry>, h: nat, at: nat, p: nat, v: Low)
    requires Inv(g, y, stale, tail) && Marking(y, stale, tail, h, at, p, v) && !i.reset && i.holdoff == h < HOLDOFFS
    ensures Marking(SysStep(g, y, i), stale, TailAfter(y.s, i, tail), h, at, p, v)
  {
    if y.s.c.stopPipe[2] { MarkFrozen(g, y, i, stale, tail, h, at, p, v); }
    else if !i.ce { MarkWaits(g, y, i, stale, tail, h, at, p, v); }
    else if !y.s.c.stopped { MarkCounts(g, y, i, stale, tail, h, at, p, v); }
    else { MarkStops(g, y, i, stale, tail, h, at, p, v); }
    hide Inv, Marking, SysStep, TailAfter;
  }

  lemma {:induction false} ImmIsLast(y: Sys, stale: seq<Entry>, tail: seq<Entry>)
    requires Records(y, stale, tail) && tail != []
    ensures y.s.w.imm == tail[|tail| - 1]
  {
  }

  lemma {:induction false} MarkRun(g: Config, y: Sys, ins: seq<In>, stale: seq<Entry>, tail: seq<Entry>, h: nat, at: nat, p: nat,
                                   v: Low) returns (last: seq<Entry>)
    requires Inv(g, y, stale, tail) && Marking(y, stale, tail, h, at, p, v)
    requires NoReset(ins) && h < HOLDOFFS && forall k :: 0 <= k < |ins| ==> ins[k].holdoff == h
    ensures Formed(g, y.s) && Marking(Run(g, y, ins), stale, last, h, at, p, v)
    decreases |ins|
  {
    hide Inv, Marking, SysStep, TailAfter, Formed;
    InvParts(g, y, stale, tail);
    if ins == [] {
      last := tail;
    } else {
      var next := TailAfter(y.s, ins[0], tail);
      InvStep(g, y, ins[0], stale, tail);
      MarkStep(g, y, ins[0], stale, tail, h, at, p, v);
      last := MarkRun(g, SysStep(g, y, ins[0]), ins[1..], stale, next, h, at, p, v);
    }
  }

  // What is recorded of a run from a reset, after what was left over and one blank.
  function Kept(y: Sys, t: Sys): seq<Entry> {
    if |t.decided| > |y.decided| then t.decided[|y.decided| + 1..] else []
  }

  // At the final stop the sample that came with the trigger stands in the record as a word of its own, and exactly
  // h + 2 samples are recorded from it on, its own among them.
  lemma {:induction false} TriggerRecorded(g: Config, y: Sys, before: seq<In>, i: In, after: seq<In>, h: nat) returns (p: nat)
    requires Initial(g, y) && NoReset(before) && !i.reset && NoReset(after) && g.size > 4
    requires var c := Run(g, y, before).s.c; !c.triggered && i.ce && Triggers(c, i)
    requires h < HOLDOFFS && forall k :: 0 <= k < |after| ==> after[k].holdoff == h
    requires var c := Run(g, y, before + [i] + after).s.c; |c.stopPipe| == 5 && c.stopPipe[4]
    ensures var t := Run(g, y, before + [i] + after);
            var kept, at := Kept(y, t), |Enabled(before)| + 1;
            && t.decided == y.decided + [BLANK] + kept
            && p < |kept| && kept[p] == Entry(false, i.data) && Spans(kept[..p]) == at && Spans(kept) == at + h + 2
  {
    var stale := y.decided;
    var tail := AtTrigger(g, y, before);
    var x := Run(g, y, before);
    assert Formed(g, x.s) by { InvFormed(g, x, stale, tail); }
    hide *;
    hide Inv, Marking, TailAfter, SysStep, Run, Formed, Enabled, Triggers;
    var z, next := SysStep(g, x, i), TailAfter(x.s, i, tail);
    InTwo(g, y, before, i, after);
    MarkStarts(g, x, i, stale, tail, h);
    InvStep(g, x, i, stale, tail);
    p := |next|;
    var last := MarkRun(g, z, after, stale, next, h, |x.samples| + 1, p, i.data);
    var t := Run(g, z, after);
    AllNoReset(before, i, after);
    Stopped(g, y, before + [i] + after);
    MarkEnds(t, stale, last, h, |x.samples| + 1, p, i.data);
    KeptIs(y, t);
  }

  lemma {:induction false} AllNoReset(before: seq<In>, i: In, after: seq<In>)
    requires NoReset(before) && !i.reset && NoReset(after)
    ensures NoReset(before + [i] + after)
  {
  }

  lemma {:induction false} KeptIs(y: Sys, t: Sys)
    requires |t.decided| > |y.decided|
    ensures Kept(y, t) == t.decided[|y.decided| + 1..]
  {
  }

  lemma {:induction false} InTwo(g: Config, y: Sys, before: seq<In>, i: In, after: seq<In>)
    requires Formed(g, y.s)
    ensures Formed(g, Run(g, y, before).s) && Formed(g, SysStep(g, Run(g, y, before), i).s)
    ensures Run(g, y, before + [i] + after) == Run(g, SysStep(g, Run(g, y, before), i), after)
  {
    RunApart(g, y, before + [i], after);
    RunApart(g, y, before, [i]);
    assert [i][1..] == [];
    hide SysStep, Formed;
  }

  lemma {:induction false} AtTrigger(g: Config, y: Sys, before: seq<In>) returns (tail: seq<Entry>)
    requires Initial(g, y) && NoReset(before)
    ensures Inv(g, Run(g, y, before), y.decided, tail) && |Run(g, y, before).samples| == |Enabled(before)|
  {
    StartsFaithful(g, y);
    SamplesAre(g, y, before);
    var x := Run(g, y, before);
    assert |x.samples + [x.s.r.qd]| == |[] + [y.s.r.qd] + Enabled(before)|;
    tail := CaptureLossless(g, y, before, y.decided, []);
    hide Run, Inv, Enabled;
  }

  lemma {:induction false} Stopped(g: Config, y: Sys, ins: seq<In>)
    requires Initial(g, y) && NoReset(ins) && g.size > 4
    requires var c := Run(g, y, ins).s.c; |c.stopPipe| == 5 && c.stopPipe[4]
    ensures Run(g, y, ins).s.c.stopPipe[2]
  {
    StartsFaithful(g, y);
    StartsEmpty(g, y);
    FillingStarts(g, y);
    FilledRun(g, y, ins, y.decided, []);
    hide Run, Inv, MemoryInv;
  }

  lemma {:induction false} MarkEnds(t: Sys, stale: seq<Entry>, tail: seq<Entry>, h: nat, at: nat, p: nat, v: Low)
    requires Marking(t, stale, tail, h, at, p, v) && t.s.c.stopPipe[2]
    ensures |t.decided| > |stale|
    ensures var kept := t.decided[|stale| + 1..];
            && t.decided == stale + [BLANK] + kept
            && p < |kept| && kept[p] == Entry(false, v) && Spans(kept[..p]) == at && Spans(kept) == at + h + 2
  {
    var kept := tail[..|tail| - 2];
    assert (stale + [BLANK] + kept)[|stale| + 1..] == kept;
    assert kept[..p] == tail[..p];
    hide Spans;
  }

  // ---- The scope triggers when it is told to, and then stops ----

  // A clock of enabled data on which the switches call for the trigger.
  predicate Calls(i: In) { i.ce && ((i.trigger && !i.disable) || i.manual) }

  lemma {:induction false} TriggerStep(g: Config, y: Sys, i: In)
    requires Formed(g, y.s) && !i.reset
    ensures var c, d := y.s.c, SysStep(g, y, i).s.c;
            && (c.primed ==> d.primed) && (d.triggered <==> c.triggered || (c.primed && Calls(i)))
  {
    hide RunsStep, WordsStep, MemoryStep, HOLDOFFS;
  }

  // Without a reset, the scope becomes triggered exactly when it is called on a clock by which its memory has gone round:
  // an external trigger that is disabled does nothing, and a manual one is never disabled.
  lemma {:induction false} TriggeredWhen(g: Config, y: Sys, ins: seq<In>)
    requires Formed(g, y.s) && NoReset(ins)
    ensures Run(g, y, ins).s.c.triggered
            <==> y.s.c.triggered || exists k :: 0 <= k < |ins| && Calls(ins[k]) && Run(g, y, ins[..k]).s.c.primed
    decreases |ins|
  {
    if ins == [] {
      assert Run(g, y, ins) == y;
    } else {
      var n, more := SysStep(g, y, ins[0]), ins[1..];
      TriggerStep(g, y, ins[0]);
      assert Formed(g, n.s);
      TriggeredWhen(g, n, more);
      hide SysStep, Formed, Calls;
      assert ins[..0] == [];
      forall k | 0 <= k < |more| ensures Run(g, y, ins[..k + 1]) == Run(g, n, more[..k]) && ins[k + 1] == more[k] {
        assert ins[..k + 1][1..] == more[..k];
      }
      assert forall k :: 0 < k < |ins| ==> Run(g, y, ins[..k]) == Run(g, n, more[..k - 1]) && ins[k] == more[k - 1];
    }
  }

  // Until the memory has gone round.
  predicate Early(s: Regs) {
    |s.c.stopPipe| == 5
    && (!s.c.primed ==> !s.c.triggered && !s.c.stopped && !s.c.stopPipe[0] && !s.c.stopPipe[1] && !s.c.stopPipe[2] && s.r.force)
  }

  // Enabled clocks until then.
  function ToPrime(g: Config, s: Regs): int {
    if s.c.primed then 0 else 1 + g.size - s.m.waddr - (if s.w.record then 1 else 0) + if Overtaken(s.w) then 1 else 0
  }

  lemma {:induction false} EarlyStep(g: Config, s: Regs, i: In)
    requires Formed(g, s) && Early(s) && !i.reset
    ensures Early(Step(g, s, i))
  {
    hide HOLDOFFS, Up, WordsStep, MemoryStep;
  }

  lemma {:induction false} PlaceAfter(g: Config, m: Memory, w: Words, i: In)
    requires g.size > 0 && m.waddr < g.size && |m.mem| == g.size && !i.reset
    ensures MemoryStep(g, m, w, i).waddr
            == if !w.record then m.waddr else if m.waddr == g.size - 1 then 0 else m.waddr + 1
  {
    if m.waddr + 1 < g.size { SmallMod(m.waddr + 1, g.size); } else { DivMod(g.size, g.size, 1, 0); }
  }

  lemma {:induction false} WordsAfter(g: Config, s: Regs, i: In)
    requires Formed(g, s) && Early(s) && !i.reset && !s.c.primed
    ensures var w := WordsStep(g, s, i); w.record == (i.ce && !Overtaken(s.w)) && (Overtaken(w) ==> Overtaken(s.w) && !i.ce)
  {
  }

  // What has been written and what is about to be, while the memory is filling.
  lemma {:induction false} PlacesStep(g: Config, s: Regs, i: In)
    requires Formed(g, s) && Early(s) && !i.reset && !s.c.primed
    ensures var t := Step(g, s, i);
            && (t.c.primed <==> s.w.record && s.m.waddr == g.size - 1)
            && (!t.c.primed ==> t.m.waddr == s.m.waddr + if s.w.record then 1 else 0)
            && t.w.record == (i.ce && !Overtaken(s.w)) && (Overtaken(t.w) ==> Overtaken(s.w) && !i.ce)
  {
    PlaceAfter(g, s.m, s.w, i);
    WordsAfter(g, s, i);
    hide HOLDOFFS, RunsStep, WordsStep, MemoryStep, Overtaken, Early;
  }

  lemma {:induction false} PrimedStays(g: Config, s: Regs, i: In)
    requires Formed(g, s) && !i.reset && s.c.primed
    ensures Step(g, s, i).c.primed
  {
    hide HOLDOFFS, RunsStep, WordsStep, MemoryStep;
  }

  lemma {:induction false} PrimeStep(g: Config, y: Sys, i: In)
    requires Formed(g, y.s) && Early(y.s) && !i.reset
    ensures var z := SysStep(g, y, i);
            && Early(z.s) && ToPrime(g, z.s) >= 0
            && ToPrime(g, z.s) <= (if i.ce && ToPrime(g, y.s) > 0 then ToPrime(g, y.s) - 1 else ToPrime(g, y.s))
  {
    EarlyStep(g, y.s, i);
    if y.s.c.primed { PrimedStays(g, y.s, i); } else { PlacesStep(g, y.s, i); }
    assert y.s.m.waddr < g.size && Step(g, y.s, i).m.waddr < g.size;
    hide Step, Early, Overtaken;
  }

  lemma {:induction false} PrimeRun(g: Config, y: Sys, ins: seq<In>)
    requires Formed(g, y.s) && Early(y.s) && NoReset(ins) && |Enabled(ins)| >= ToPrime(g, y.s)
    ensures Early(Run(g, y, ins).s) && ToPrime(g, Run(g, y, ins).s) <= 0
    decreases |ins|
  {
    hide SysStep, Formed, Early, ToPrime;
    if ins != [] {
      PrimeStep(g, y, ins[0]);
      KeepsForm(g, y, ins[0]);
      PrimeRun(g, SysStep(g, y, ins[0]), ins[1..]);
    }
  }

  lemma {:induction false} KeepsForm(g: Config, y: Sys, i: In)
    requires Formed(g, y.s)
    ensures Formed(g, SysStep(g, y, i).s)
  {
  }

  // A scope that has been reset is ready for its trigger after as many enabled clocks as the memory has places, and two.
  lemma {:induction false} PrimesInTime(g: Config, y: Sys, ins: seq<In>)
    requires Initial(g, y) && NoReset(ins) && |Enabled(ins)| >= g.size + 2
    ensures Run(g, y, ins).s.c.primed
  {
    PrimeRun(g, y, ins);
    RunApart(g, y, ins, []);
    hide Run, Enabled;
  }

  // Enabled clocks from the trigger to the final stop.
  function ToStop(c: Control, h: nat): nat
    requires |c.stopPipe| == 5
  {
    if c.stopPipe[4] then 0 else if c.stopPipe[3] then 1 else if c.stopPipe[2] then 2 else if c.stopPipe[1] then 3
    else if c.stopPipe[0] then 4 else if c.stopped then 5 else if c.holdoff < h then 6 + h - c.holdoff else 6
  }

  // The final stop stays.
  predicate Ending(c: Control) {
    && |c.stopPipe| == 5 && c.triggered && (c.stopPipe[4] ==> c.stopPipe[3]) && (c.stopPipe[3] ==> c.stopPipe[2])
    && (c.stopPipe[2] ==> c.stopPipe[1]) && (c.stopPipe[1] ==> c.stopPipe[0]) && (c.stopPipe[0] ==> c.stopped)
  }

  lemma {:induction false} StopStep(g: Config, y: Sys, i: In, h: nat)
    requires Formed(g, y.s) && Ending(y.s.c) && !i.reset && i.holdoff == h < HOLDOFFS
    ensures var d := SysStep(g, y, i).s.c;
            && Ending(d) && ToStop(d, h) <= (if i.ce && ToStop(y.s.c, h) > 0 then ToStop(y.s.c, h) - 1 else ToStop(y.s.c, h))
  {
    hide RunsStep, WordsStep, MemoryStep;
  }

  lemma {:induction false} StopRun(g: Config, y: Sys, ins: seq<In>, h: nat)
    requires Formed(g, y.s) && Ending(y.s.c) && NoReset(ins) && |Enabled(ins)| >= ToStop(y.s.c, h)
    requires h < HOLDOFFS && forall k :: 0 <= k < |ins| ==> ins[k].holdoff == h
    ensures Ending(Run(g, y, ins).s.c) && Run(g, y, ins).s.c.stopPipe[4]
    decreases |ins|
  {
    hide SysStep, Formed, HOLDOFFS;
    if ins != [] {
      StopStep(g, y, ins[0], h);
      KeepsForm(g, y, ins[0]);
      StopRun(g, SysStep(g, y, ins[0]), ins[1..], h);
    }
  }

  // From a reset: once the memory has had time to go round, a call is heeded, and h + 6 enabled clocks later the record
  // has come to its end.
  lemma {:induction false} ComesToAnEnd(g: Config, y: Sys, before: seq<In>, i: In, after: seq<In>, h: nat)
    requires Initial(g, y) && NoReset(before) && !i.reset && NoReset(after) && g.size > 4
    requires |Enabled(before)| >= g.size + 2 && Calls(i)
    requires h < HOLDOFFS && |Enabled(after)| >= h + 6 && forall k :: 0 <= k < |after| ==> after[k].holdoff == h
    ensures var c := Run(g, y, before + [i] + after).s.c; |c.stopPipe| == 5 && c.stopPipe[4]
  {
    var x := Run(g, y, before);
    PrimesInTime(g, y, before);
    InTwo(g, y, before, i, after);
    TriggerStep(g, x, i);
    var tail := AtTrigger(g, y, before);
    InvParts(g, x, y.decided, tail);
    ControlKeeps(g, x.s, i);
    StartsFaithful(g, y);
    StartsEmpty(g, y);
    FillingStarts(g, y);
    FilledRun(g, y, before, y.decided, []);
    MemoryAlways(g, y, before);
    FillingStep(g, x, i);
    var z := SysStep(g, x, i);
    InvStep(g, x, i, y.decided, tail);
    InvParts(g, z, y.decided, TailAfter(x.s, i, tail));
    Begins(g, z);
    StopRun(g, z, after, h);
    hide *;
  }

  lemma {:induction false} Begins(g: Config, z: Sys)
    requires ControlInv(z.s) && Filling(g, z) && z.s.c.triggered
    ensures Ending(z.s.c) && forall h: nat :: ToStop(z.s.c, h) <= h + 6
  {
  }
}
