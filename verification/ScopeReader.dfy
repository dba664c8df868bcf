// The two loops of sw/scopecls.cpp that count the samples in a compressed buffer.
module ScopeReader {
  import opened Scope
  import opened ScopeProof
  import opened ScopeStop

  const W32 := 0x1_0000_0000

  // A run length, or a data word under the count of the samples before it, and whether it is marked as the trigger.
  datatype Printed = Gap(len: Low) | Line(addr: nat, val: Low, trigger: bool)

  // Both counts end up as 32-bit integers.
  predicate Marked(addrv: nat, offset: int) { addrv % W32 == offset % W32 }

  function Lines(ws: seq<Entry>, offset: int): (r: seq<Printed>)
    ensures |r| == |ws|
  {
    if ws == [] then [] else
    var n := |ws| - 1;
    var at := Spans(ws[..n]);
    Lines(ws[..n], offset) + [if ws[n].adr then Gap(ws[n].val) else Line(at, ws[n].val, Marked(at + 1, offset))]
  }

  // The length in 32 bits, without the first word's run.
  function AddressLen(ws: seq<Entry>): nat {
    (Spans(ws) - if ws != [] && ws[0].adr then ws[0].val else 0) % W32
  }

  class Reader {
    var mData: seq<Entry>
    var mHoldoff: nat

    constructor (ws: seq<Entry>, holdoff: nat)
      ensures mData == ws && mHoldoff == holdoff
    {
      mData, mHoldoff := ws, holdoff;
    }

    method Print() returns (lines: seq<Printed>)
      ensures lines == Lines(mData, AddressLen(mData) - mHoldoff - 1)
    {
      lines := [];
      var addrv := 0;
      var alen := GetAddressLen();
      var offset := alen - mHoldoff - 1;
      for i := 0 to |mData|
        invariant addrv == Spans(mData[..i]) && lines == Lines(mData[..i], offset)
      {
        var e := mData[i];
        assert mData[..i + 1] == mData[..i] + [e];
        assert mData[..i + 1][..i] == mData[..i] && [e][1..] == [];
        SpansApart(mData[..i], [e]);
        if e.adr {
          addrv := addrv + e.val + 1;
          lines := lines + [Gap(e.val)];
        } else {
          addrv := addrv + 1;
          lines := lines + [Line(addrv - 1, e.val, Marked(addrv, offset))];
        }
      }
      assert mData[..|mData|] == mData;
    }

    // Every word counts one, and run lengths more, except that of the first word.
    method GetAddressLen() returns (alen: nat)
      ensures alen == AddressLen(mData)
    {
      alen := |mData| % W32;
      ghost var more := 0;
      for i := 0 to |mData|
        invariant alen == (|mData| + more) % W32
        invariant i + more == Spans(mData[..i]) - if i > 0 && mData[0].adr then mData[0].val else 0
      {
        var e := mData[i];
        assert mData[..i + 1] == mData[..i] + [e] && [e][1..] == [];
        SpansApart(mData[..i], [e]);
        if e.adr && i != 0 {
          AddMod(|mData| + more, e.val);
          alen := (alen + e.val) % W32;
          more := more + e.val;
        }
      }
      assert mData[..|mData|] == mData;
    }
  }

  lemma {:induction false} AddMod(a: nat, b: nat)
    ensures (a % W32 + b) % W32 == (a + b) % W32
  {
  }

  // The length comes out right exactly when the buffer does not begin inside a run of more than one repeat.
  lemma {:induction false} LengthRightWhen(ws: seq<Entry>)
    ensures AddressLen(ws) == Spans(ws) % W32 <==> LengthRight(ws)
  {
    if ws != [] && ws[0].adr { SubMod(Spans(ws), ws[0].val); }
  }

  lemma {:induction false} SubMod(n: nat, v: nat)
    requires v < 0x8000_0000
    ensures (n - v) % W32 == n % W32 <==> v == 0
  {
  }

  lemma {:induction false} LineIs(ws: seq<Entry>, offset: int, k: nat)
    requires k < |ws|
    ensures Lines(ws, offset)[k]
            == if ws[k].adr then Gap(ws[k].val) else Line(Spans(ws[..k]), ws[k].val, Marked(Spans(ws[..k]) + 1, offset))
  {
    var n := |ws| - 1;
    if k < n {
      LineIs(ws[..n], offset, k);
      assert ws[..n][..k] == ws[..k];
    }
  }

  // ---- From a reset to the printed page ----

  // How many samples there are before the oldest word that is read out, when first words are not of the record.
  function Base(g: Config, t: Sys, first: nat): nat {
    if first <= |t.decided| - g.size then Spans(t.decided[first..|t.decided| - g.size]) else 0
  }

  // What line k says is true of a stream: a sample is at its place, and a run repeats the sample before it.
  ghost predicate LineTells(m: Memory, base: nat, stream: seq<Low>, offset: int, k: nat) {
    && k < |m.mem|
    && var ws := ReadOut(m);
       var at := base + Spans(ws[..k]);
       match Lines(ws, offset)[k]
       case Line(addr, val, _) => base + addr == at < |stream| && stream[at] == val
       case Gap(len) => 0 < at && at + len < |stream| && forall j :: at <= j <= at + len ==> stream[j] == stream[at - 1]
  }

  // What is printed beside an address is the sample at that address, counted from where the buffer begins, and a run
  // that is printed repeats the sample before it that often and once more.
  lemma {:induction false} PrintedTrue(g: Config, y: Sys, stale: seq<Entry>, tail: seq<Entry>, offset: int, k: nat)
    requires Inv(g, y, stale, tail) && MemoryInv(g, y)
    requires |Written(y)| - g.size >= |stale| + 1 && |y.s.m.mem| == g.size > 0 && k < g.size
    ensures LineTells(y.s.m, Spans(Written(y)[|stale| + 1..|Written(y)| - g.size]), y.samples, offset, k)
  {
    hide Inv, MemoryInv, Spans, Lines, ReadOut;
    var ws := ReadOut(y.s.m);
    assert |ws| == g.size by { ReadOutLength(y.s.m); }
    LineIs(ws, offset, k);
    ReadOutTrue(g, y, stale, tail, k);
  }

  lemma {:induction false} ReadOutLength(m: Memory)
    requires |m.mem| > 0
    ensures |ReadOut(m)| == |m.mem|
  {
  }

  // A scope is reset, samples what it will, and stops: then each line printed tells the truth about the stream, from
  // wherever the oldest word stands in it.
  lemma {:induction false} PrintedFromReset(g: Config, y: Sys, ins: seq<In>, offset: int, k: nat)
    requires Initial(g, y) && NoReset(ins) && g.size > 4 && k < g.size
    requires var c := Run(g, y, ins).s.c; |c.stopPipe| == 5 && c.stopPipe[4]
    ensures var t := Run(g, y, ins);
            LineTells(t.s.m, Base(g, t, |y.decided| + 1), [y.s.r.qd] + Enabled(ins), offset, k)
  {
    StartsFaithful(g, y);
    var tail := CaptureLossless(g, y, ins, y.decided, []);
    FilledAtStop(g, y, ins);
    SampledStream(g, y, ins);
    hide *;
    hide Run, Initial, Inv, MemoryInv, Written, Enabled, Base, LineTells;
    PageTrue(g, Run(g, y, ins), y.decided, tail, [y.s.r.qd] + Enabled(ins), offset, k);
  }

  lemma {:induction false} PageTrue(g: Config, t: Sys, stale: seq<Entry>, tail: seq<Entry>, stream: seq<Low>, offset: int, k: nat)
    requires Inv(g, t, stale, tail) && MemoryInv(g, t) && Written(t) == t.decided && |t.decided| >= g.size + |stale| + 1
    requires t.samples <= stream && k < g.size
    ensures LineTells(t.s.m, Base(g, t, |stale| + 1), stream, offset, k)
  {
    WhatIsKept(g, t, stale, tail);
    PrintedTrue(g, t, stale, tail, offset, k);
    hide *;
    hide Inv, MemoryInv, Written, Ring, Spans, Lines, ReadOut, Expand;
    var base := Spans(Written(t)[|stale| + 1..|Written(t)| - g.size]);
    BaseIs(g, t, |stale| + 1);
    TellsLonger(t.s.m, base, t.samples, stream, offset, k);
  }

  lemma {:induction false} BaseIs(g: Config, t: Sys, first: nat)
    requires first <= |t.decided| - g.size
    ensures Base(g, t, first) == Spans(t.decided[first..|t.decided| - g.size])
  {
  }

  lemma {:induction false} TellsLonger(m: Memory, base: nat, a: seq<Low>, b: seq<Low>, offset: int, k: nat)
    requires LineTells(m, base, a, offset, k) && a <= b
    ensures LineTells(m, base, b, offset, k)
  {
    hide Lines, Spans, ReadOut;
  }

  lemma {:induction false} SampledStream(g: Config, y: Sys, ins: seq<In>)
    requires Initial(g, y) && NoReset(ins)
    ensures Run(g, y, ins).samples <= [y.s.r.qd] + Enabled(ins)
  {
    SamplesAre(g, y, ins);
    var t := Run(g, y, ins);
    assert t.samples <= t.samples + [t.s.r.qd] == [] + [y.s.r.qd] + Enabled(ins) == [y.s.r.qd] + Enabled(ins);
    hide Run, Enabled;
  }

  // ---- The trigger on the page ----

  // Whether the length comes out right.
  predicate LengthRight(ws: seq<Entry>) { ws == [] || !ws[0].adr || ws[0].val == 0 }

  // Line q is that of a sample v at place at of the stream; it is marked exactly when the length comes out right, and then,
  // in a page of at most 2^32 samples, no other is.
  ghost predicate MarksTrigger(m: Memory, base: nat, q: nat, at: nat, h: nat, v: Low) {
    && |m.mem| > 0
    && var ws := ReadOut(m);
       var lines := Lines(ws, AddressLen(ws) - h - 1);
       && q < |ws| && base + Spans(ws[..q]) == at && lines[q] == Line(Spans(ws[..q]), v, LengthRight(ws))
       && (LengthRight(ws) && Spans(ws) <= W32 ==>
             forall k :: 0 <= k < |ws| && k != q && lines[k].Line? ==> !lines[k].trigger)
  }

  // The holdoff counts from the trigger, and the page marks the line that it counts back to: that of the sample that came
  // with the trigger, if the length comes out right.
  lemma {:induction false} TriggerMarked(g: Config, y: Sys, before: seq<In>, i: In, after: seq<In>, h: nat) returns (q: nat)
    requires Initial(g, y) && NoReset(before) && !i.reset && NoReset(after) && g.size > 4
    requires var c := Run(g, y, before).s.c; !c.triggered && i.ce && Triggers(c, i)
    requires h < HOLDOFFS && h + 2 <= g.size && forall k :: 0 <= k < |after| ==> after[k].holdoff == h
    requires var c := Run(g, y, before + [i] + after).s.c; |c.stopPipe| == 5 && c.stopPipe[4]
    ensures var t := Run(g, y, before + [i] + after);
            MarksTrigger(t.s.m, Base(g, t, |y.decided| + 1), q, |Enabled(before)| + 1, h, i.data)
  {
    var p := TriggerRecorded(g, y, before, i, after, h);
    AllNoReset(before, i, after);
    FilledAtStop(g, y, before + [i] + after);
    hide *;
    hide Run, Initial, MemoryInv, Written, Kept, Enabled, Spans, MarksTrigger, Base;
    q := PageMarked(g, y, Run(g, y, before + [i] + after), p, |Enabled(before)| + 1, h, i.data);
  }

  lemma {:induction false} PageMarked(g: Config, y: Sys, t: Sys, p: nat, at: nat, h: nat, v: Low) returns (q: nat)
    requires MemoryInv(g, t) && Written(t) == t.decided && |t.decided| >= g.size + |y.decided| + 1 && h + 2 <= g.size
    requires p < |Kept(y, t)| && Kept(y, t)[p] == Entry(false, v)
    requires Spans(Kept(y, t)[..p]) == at && Spans(Kept(y, t)) == at + h + 2
    ensures MarksTrigger(t.s.m, Base(g, t, |y.decided| + 1), q, at, h, v)
  {
    hide MemoryInv, Written, Kept, Spans, Lines, AddressLen, LengthRight, ReadOut, Base;
    var ws, kept := ReadOutAtStop(g, y, t);
    q := InReadOut(kept, p, |kept| - g.size, g.size, at, h);
    MarkedLine(ws, q, h);
    BaseIs(g, t, |y.decided| + 1);
  }

  lemma {:induction false} ReadOutAtStop(g: Config, y: Sys, t: Sys) returns (ws: seq<Entry>, kept: seq<Entry>)
    requires MemoryInv(g, t) && Written(t) == t.decided && |t.decided| >= g.size + |y.decided| + 1
    ensures |t.s.m.mem| == g.size > 0 && ws == ReadOut(t.s.m) && kept == Kept(y, t) && |kept| >= g.size
    ensures ws == kept[|kept| - g.size..]
    ensures t.decided[|y.decided| + 1..|t.decided| - g.size] == kept[..|kept| - g.size]
  {
    ReadOutIsLatest(g.size, t.s.m, t.decided);
    ws, kept := ReadOut(t.s.m), Kept(y, t);
    hide ReadOut, Ring;
  }

  lemma {:induction false} SpansMany(ws: seq<Entry>)
    ensures Spans(ws) >= |ws|
  {
    if ws != [] { SpansMany(ws[1..]); }
  }

  lemma {:induction false} SpansTo(ws: seq<Entry>, i: nat)
    requires i <= |ws|
    ensures Spans(ws) == Spans(ws[..i]) + Spans(ws[i..]) && Spans(ws[i..]) >= |ws| - i
  {
    assert ws == ws[..i] + ws[i..];
    SpansApart(ws[..i], ws[i..]);
    SpansMany(ws[i..]);
    hide Spans;
  }

  // The word that is h + 2 samples from the end is among the latest h + 2.
  lemma {:induction false} InReadOut(kept: seq<Entry>, p: nat, off: nat, size: nat, at: nat, h: nat) returns (q: nat)
    requires |kept| == off + size && p < |kept| && Spans(kept[..p]) == at && Spans(kept) == at + h + 2 && h + 2 <= size
    ensures var ws := kept[off..];
            && q < |ws| && ws[q] == kept[p] && Spans(kept[..off]) + Spans(ws[..q]) == at && Spans(ws) == Spans(ws[..q]) + h + 2
  {
    hide Spans;
    SpansTo(kept, p);
    assert p >= off;
    q := p - off;
    SpansTo(kept, off);
    SpansTo(kept[..p], off);
    assert kept[..p][..off] == kept[..off] && kept[..p][off..] == kept[off..][..q];
  }

  lemma {:induction false} MarkedLine(ws: seq<Entry>, q: nat, h: nat)
    requires q < |ws| && !ws[q].adr && Spans(ws) == Spans(ws[..q]) + h + 2
    ensures var lines := Lines(ws, AddressLen(ws) - h - 1);
            && lines[q] == Line(Spans(ws[..q]), ws[q].val, LengthRight(ws))
            && (LengthRight(ws) && Spans(ws) <= W32 ==>
                  forall k :: 0 <= k < |ws| && k != q && lines[k].Line? ==> !lines[k].trigger)
  {
    var offset := AddressLen(ws) - h - 1;
    LineIs(ws, offset, q);
    LengthRightWhen(ws);
    MarkWhen(Spans(ws[..q]), h, AddressLen(ws));
    hide Lines, AddressLen, Spans;
    if LengthRight(ws) && Spans(ws) <= W32 {
      forall k | 0 <= k < |ws| && k != q && Lines(ws, offset)[k].Line? ensures !Lines(ws, offset)[k].trigger {
        LineIs(ws, offset, k);
        Apart(ws, k, q);
        MarkOnce(Spans(ws[..k]), Spans(ws[..q]), offset);
      }
    }
  }

  lemma {:induction false} MarkWhen(at: nat, h: nat, len: nat)
    requires len < W32
    ensures Marked(at + 1, len - h - 1) <==> len == (at + h + 2) % W32
  {
  }

  lemma {:induction false} MarkOnce(a: nat, b: nat, offset: int)
    requires a < W32 && b < W32 && a != b && Marked(b + 1, offset)
    ensures !Marked(a + 1, offset)
  {
  }

  // Different words stand at different places.
  lemma {:induction false} Apart(ws: seq<Entry>, k: nat, q: nat)
    requires k < |ws| && q < |ws| && k != q
    ensures Spans(ws[..k]) != Spans(ws[..q]) && Spans(ws[..k]) < Spans(ws) && Spans(ws[..q]) < Spans(ws)
  {
    SpansTo(ws, k);
    SpansTo(ws, q);
    if k < q {
      SpansTo(ws[..q], k);
      assert ws[..q][..k] == ws[..k];
    } else {
      SpansTo(ws[..k], q);
      assert ws[..k][..q] == ws[..q];
    }
    hide Spans;
  }
}
