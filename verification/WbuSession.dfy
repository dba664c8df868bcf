// Sessions of calls from end to end: the calls, the characters, the bus, the replies, the compressor, the characters
// back, and the words and the address that each read returns with.
module WbuSession {
  import opened Sequences
  import opened WbuCode
  import opened WbuHost
  import opened WbuForward
  import opened WbuReply
  import opened WbuExec
  import E = WbuExecProof
  import R = WbuRead
  import T = WbuReturn
  import C = WbuCompressProof
  import K = WbuCompress
  import OP = WbuOutputProof
  import Y = WbuReplyPath
  import L = WbuLink
  import P = WbuInputProof
  import I = WbuInput
  import W = WbuIdle

  // ---- The commands of a read ----

  function Blocks(len: nat, inc: bool): seq<Command> {
    if len == 0 then []
    else if len <= READBLOCK then [ReadBlock(len, inc)]
    else [ReadBlock(READBLOCK, inc)] + Blocks(len - READBLOCK, inc)
  }

  lemma {:induction false} HearBlock(r: Receiver, len: nat, inc: bool)
    requires r.pending == [] && 1 <= len <= READBLOCK && !(len == 8 && !inc)
    ensures HearAll(r, Chars(ReadCode(len, inc)) + [NEWLINE]) == Heard(Receiver([], false, r.hist), [ReadBlock(len, inc)])
  {
    var code := ReadCode(len, inc);
    ReadLength(len, inc, r.hist);
    HearCode(r, code);
    HearApart(r, Chars(code), [NEWLINE]);
    HearNewline(TakeCode(r, code).r);
    assert [ReadBlock(len, inc)] + [] == [ReadBlock(len, inc)];
    hide HearAll, ReadCode, Decode, Chars;
  }

  lemma {:induction false} HearNewline(r: Receiver)
    ensures HearAll(r, [NEWLINE]) == Heard(Receiver([], false, r.hist), if r.lastWrite then [EndWrite] else [])
  {
    assert [NEWLINE][1..] == [];
  }

  lemma {:induction false} HearBlocks(r: Receiver, len: nat, inc: bool)
    requires r.pending == [] && !r.lastWrite && !Unsayable(len, inc)
    ensures HearAll(r, ReadChars(len, inc)) == Heard(r, Blocks(len, inc))
    decreases len
  {
    hide HearAll, Chars, ReadCode;
    if len == 0 {
      assert HearAll(r, []) == Heard(r, []) by { HearNothing(r); }
    } else if len <= READBLOCK {
      HearBlock(r, len, inc);
    } else {
      var line, rest := Chars(ReadCode(READBLOCK, inc)) + [NEWLINE], ReadChars(len - READBLOCK, inc);
      assert ReadChars(len, inc) == line + rest;
      assert Blocks(len, inc) == [ReadBlock(READBLOCK, inc)] + Blocks(len - READBLOCK, inc);
      assert !Unsayable(len - READBLOCK, inc);
      hide ReadChars, Blocks, Unsayable;
      HearBlock(r, READBLOCK, inc);
      HearBlocks(r, len - READBLOCK, inc);
      HearApart(r, line, rest);
    }
  }

  lemma {:induction false} HearNothing(r: Receiver)
    ensures HearAll(r, []) == Heard(r, [])
  {
  }

  lemma {:induction false} AskBlocks(p: E.Spec, len: nat, inc: bool)
    requires p.e.burst == NoBurst
    ensures E.AskAll(p, Blocks(len, inc)).kinds
            == (if p.news && len > 0 then [E.Address(p.e.addr)] else []) + Times(E.Datum(inc), len)
    ensures E.AskAll(p, Blocks(len, inc)).next.news == (p.news && len == 0)
    decreases len
  {
    hide E.Ask;
    if len > READBLOCK {
      var c, rest := ReadBlock(READBLOCK, inc), Blocks(len - READBLOCK, inc);
      assert ([c] + rest)[0] == c && ([c] + rest)[1..] == rest;
      BlockAsked(p, READBLOCK, inc);
      AskBlocks(E.Ask(p, c).next, len - READBLOCK, inc);
      assert Times(E.Datum(inc), READBLOCK) + Times(E.Datum(inc), len - READBLOCK) == Times(E.Datum(inc), len);
    } else if len > 0 {
      BlockAsked(p, len, inc);
      E.AskOne(p, ReadBlock(len, inc));
    }
  }

  lemma {:induction false} BlockAsked(p: E.Spec, n: nat, inc: bool)
    requires p.e.burst == NoBurst
    ensures var asked := E.Ask(p, ReadBlock(n, inc));
            && asked.kinds == (if p.news then [E.Address(p.e.addr)] else []) + Times(E.Datum(inc), n)
            && asked.next.e.burst == NoBurst && !asked.next.news
  {
  }

  // ---- What the executor says ----

  function Replies(t: Regs): seq<Codeword> { if t.outStb then [t.out] else [] }

  function RepliesAll(s: Sys, ins: seq<In>): seq<Codeword>
    decreases |ins|
  {
    if ins == [] || !Legal(s, ins[0]) then [] else
    var t := SysStep(s, ins[0]);
    Replies(t.x) + RepliesAll(t, ins[1..])
  }

  // Kinds of replies, with the data put into them.
  function Merge(kinds: seq<E.Kind>, data: seq<Word>): seq<Message>
    decreases |kinds|
  {
    if kinds == [] then [] else
    match kinds[0]
    case Address(a) => [Place(a)] + Merge(kinds[1..], data)
    case Written => [Note(WRITE_DONE)] + Merge(kinds[1..], data)
    case Datum(inc) => if data == [] then [] else [Datum(data[0], inc)] + Merge(kinds[1..], data[1..])
  }

  lemma {:induction false} MergeApart(a: seq<E.Kind>, b: seq<E.Kind>, d: seq<Word>, e: seq<Word>)
    requires E.Datums(a) == |d|
    ensures Merge(a + b, d + e) == Merge(a, d) + Merge(b, e)
    decreases |a|
  {
    if a == [] {
      assert a + b == b && d + e == e;
    } else {
      assert (a + b)[1..] == a[1..] + b && (a + b)[0] == a[0];
      if a[0].Datum? {
        assert (d + e)[1..] == d[1..] + e;
        MergeApart(a[1..], b, d[1..], e);
      } else {
        MergeApart(a[1..], b, d, e);
      }
    }
  }

  lemma {:induction false} MergeData(inc: bool, data: seq<Word>)
    ensures Merge(Times(E.Datum(inc), |data|), data) == seq(|data|, k requires 0 <= k < |data| => Datum(data[k], inc))
    decreases |data|
  {
    if data != [] {
      assert Times(E.Datum(inc), |data|)[1..] == Times(E.Datum(inc), |data| - 1);
      MergeData(inc, data[1..]);
    }
  }

  lemma {:induction false} SaidOne(t: Regs)
    requires t.outStb ==> |E.KindOf(t.out)| == 1
    ensures C.SaidAll(Replies(t)) == Merge(E.Replied(t), E.Returned(t)) && C.Clear(Replies(t))
  {
    if t.outStb { assert E.KindOf(t.out)[1..] == [] && Merge([], []) == []; }
  }

  lemma {:induction false} SaidRun(s: Sys, ins: seq<In>)
    requires E.Inv(s) && E.FedAll(s, ins)
    ensures var x := E.Shown(s, ins);
            C.SaidAll(RepliesAll(s, ins)) == Merge(x.kinds, x.returned) && C.Clear(RepliesAll(s, ins))
    decreases |ins|
  {
    hide E.Inv, E.Fed, Legal, Step, Replies, E.Replied, E.Returned, E.Issued, E.Fetched, Merge, C.SaidAll, C.Clear;
    if ins == [] {
      NothingSaid();
    } else {
      var i, t := ins[0], ins[1..];
      E.FedLegal(s, i);
      var n := SysStep(s, i);
      E.InvStep(s, i);
      E.ReplyWellFormed(s, i);
      E.DatumOfReply(n.x);
      SaidOne(n.x);
      SaidRun(n, t);
      C.SaidApart(Replies(n.x), RepliesAll(n, t));
      ClearApart(Replies(n.x), RepliesAll(n, t));
      MergeApart(E.Replied(n.x), E.Shown(n, t).kinds, E.Returned(n.x), E.Shown(n, t).returned);
    }
  }

  lemma {:induction false} ClearApart(a: seq<Codeword>, b: seq<Codeword>)
    requires C.Clear(a) && C.Clear(b)
    ensures C.Clear(a + b)
  {
  }

  lemma {:induction false} NothingSaid()
    ensures C.SaidAll([]) == [] == Merge([], []) && C.Clear([])
  {
  }

  // ---- The commands, heard and asked ----

  lemma {:induction false} ReadAsked(h: Host, f: Fpga, a: Word, inc: bool, len: nat, news: bool) returns (addr: Word)
    requires InSync(h, f) && Aligned(a) && len > 0 && Sayable(h, Read(a, inc, len))
    ensures var asked := E.AskAll(E.Spec(f.e, news), HearAll(f.r, Send(h, Read(a, inc, len)).chars).commands);
            && Cell(addr) == a / 4 && !asked.next.news
            && asked.kinds == Lead(!(h.addrSet && a == h.last) || news, addr) + Times(E.Datum(inc), len)
  {
    var address, lines := Chars(AddressCode(h.addrSet, h.last, a)), ReadChars(len, inc);
    var p := E.Spec(f.e, news);
    HearApart(f.r, address, lines);
    var heard := HearAll(f.r, address);
    var next := E.AskAll(p, heard.commands);
    AddressAsked(h, f, a, news);
    HearBlocks(f.r, len, inc);
    E.AskApart(p, heard.commands, Blocks(len, inc));
    AskBlocks(next.next, len, inc);
    assert [] + E.AskAll(next.next, Blocks(len, inc)).kinds == E.AskAll(next.next, Blocks(len, inc)).kinds;
    addr := next.next.e.addr;
    hide HearAll, E.AskAll, Chars, AddressCode, ReadChars, Blocks, Times, Cell, InBand, Unsayable;
  }

  function Lead(yes: bool, addr: Word): seq<E.Kind> { if yes then [E.Address(addr)] else [] }

  lemma {:induction false} AddressAsked(h: Host, f: Fpga, a: Word, news: bool)
    requires InSync(h, f) && Aligned(a) && !InBand(h.addrSet, h.last, a)
    ensures var heard := HearAll(f.r, Chars(AddressCode(h.addrSet, h.last, a)));
            var asked := E.AskAll(E.Spec(f.e, news), heard.commands);
            && heard.r == f.r && asked.kinds == []
            && Cell(asked.next.e.addr) == a / 4 && asked.next.e.burst == NoBurst
            && (asked.next.news <==> !(h.addrSet && a == h.last) || news)
  {
    if h.addrSet && a == h.last {
      assert Chars([]) == [];
      HearNothing(f.r);
    } else {
      var code := AddressCode(h.addrSet, h.last, a);
      AddressArrives(h.addrSet, h.last, a);
      assert MovesTo(Exec(f.e.addr, NoBurst), Decode(code, f.r.hist), a);
      AddressOp(h.addrSet, h.last, a);
      HearCode(f.r, code);
      E.AskOne(E.Spec(f.e, news), Decode(code, f.r.hist));
      hide HearAll, Decode, AddressCode, InBand, Chars, E.AskAll;
    }
  }

  // ---- The replies, as messages ----

  lemma {:induction false} LeadMerges(yes: bool, addr: Word, inc: bool, data: seq<Word>)
    ensures Merge(Lead(yes, addr) + Times(E.Datum(inc), |data|), data)
            == Placed(yes, addr) + seq(|data|, k requires 0 <= k < |data| => Datum(data[k], inc))
    ensures E.Datums(Lead(yes, addr) + Times(E.Datum(inc), |data|)) == |data|
  {
    var lead := Lead(yes, addr);
    if yes { assert lead[1..] == [] && Merge([], []) == []; }
    E.DatumsApart(lead, Times(E.Datum(inc), |data|));
    E.DatumsTimes(inc, |data|);
    MergeApart(lead, Times(E.Datum(inc), |data|), [], data);
    assert [] + data == data;
    MergeData(inc, data);
  }

  function Placed(yes: bool, addr: Word): seq<Message> { if yes then [Place(addr)] else [] }

  function DataOf(inc: bool, data: seq<Word>): (ms: seq<Message>)
    ensures |ms| == |data|
  {
    seq(|data|, k requires 0 <= k < |data| => Datum(data[k], inc))
  }

  lemma {:induction false} AdvanceOnce(last: Word, n: nat)
    ensures Advance(last, 0) == last && (n > 0 ==> Advance((last + 4) % 0x1_0000_0000, n - 1) == Advance(last, n))
  {
  }

  lemma {:induction false} DataWords(inc: bool, data: seq<Word>, last: Word)
    ensures T.Words(DataOf(inc, data)) == data
    ensures T.LastAfter(DataOf(inc, data), last) == if inc then Advance(last, |data|) else last
    decreases |data|
  {
    hide Advance;
    AdvanceOnce(last, |data|);
    if data != [] {
      assert DataOf(inc, data)[1..] == DataOf(inc, data[1..]);
      DataWords(inc, data[1..], if inc then (last + 4) % 0x1_0000_0000 else last);
    }
  }

  lemma {:induction false} MessagesOfRead(yes: bool, addr: Word, inc: bool, data: seq<Word>, last: Word, a: Word)
    requires (if yes then Cell(addr) == a / 4 else last == a) && Aligned(a)
    ensures var ms := Placed(yes, addr) + DataOf(inc, data);
            && T.Words(ms) == data && T.LastAfter(ms, last) == if inc then Advance(a, |data|) else a
  {
    var ms, ds := Placed(yes, addr) + DataOf(inc, data), DataOf(inc, data);
    DataWords(inc, data, a);
    if yes {
      assert ms[1..] == ds;
      ByteAddress(addr, a);
    } else {
      assert ms == ds;
    }
  }

  lemma {:induction false} ByteAddress(addr: Word, a: Word)
    requires Cell(addr) == a / 4 && Aligned(a)
    ensures addr * 4 % 0x1_0000_0000 == a
  {
  }

  lemma {:induction false} WritesAreNoNews(r: Receiver, inc: bool, vals: seq<Word>, p: E.Spec)
    requires r.pending == []
    ensures var heard := HearAll(r, WriteChars(r.hist, inc, vals));
            && heard.r.pending == [] && (E.AskAll(p, heard.commands).next.news <==> vals == [] && p.news)
            && E.AskAll(p, heard.commands).kinds == Times(E.Written, |vals|)
    decreases |vals|
  {
    hide HearAll, Chars, WriteCode, AfterWrite;
    if vals == [] {
      HearNothing(r);
    } else {
      var v := vals[0];
      var code := WriteCode(r.hist, inc, v);
      WriteDecodes(r.hist, inc, v);
      HearCode(r, code);
      var now := Receiver([], true, AfterWrite(r.hist, v));
      assert HearAll(r, Chars(code)) == Heard(now, [WriteWord(v, inc)]);
      HearApart(r, Chars(code), WriteChars(now.hist, inc, vals[1..]));
      var q := E.Ask(p, WriteWord(v, inc)).next;
      E.AskOne(p, WriteWord(v, inc));
      WritesAreNoNews(now, inc, vals[1..], q);
      assert [E.Written] + Times(E.Written, |vals| - 1) == Times(E.Written, |vals|);
      E.AskApart(p, [WriteWord(v, inc)], HearAll(now, WriteChars(now.hist, inc, vals[1..])).commands);
    }
  }

  // A write is answered word for word, and leaves the executor with nothing to announce, though encode_address may have
  // restarted the host's table for it.
  lemma {:induction false} WriteLeavesNoNews(h: Host, f: Fpga, a: Word, inc: bool, vals: seq<Word>, news: bool)
    requires InSync(h, f) && Aligned(a) && Sayable(h, Write(a, inc, vals))
    ensures var heard := HearAll(f.r, Send(h, Write(a, inc, vals)).chars);
            var asked := E.AskAll(E.Spec(f.e, news), heard.commands);
            !asked.next.news && asked.kinds == Times(E.Written, |vals|)
  {
    var address, words := Chars(AddressCode(h.addrSet, h.last, a)), WriteChars(h.hist, inc, vals);
    var p := E.Spec(f.e, news);
    AddressAsked(h, f, a, news);
    var first := HearAll(f.r, address);
    var q := E.AskAll(p, first.commands).next;
    WritesAreNoNews(f.r, inc, vals, q);
    var second := HearAll(f.r, words);
    var last := E.AskAll(q, second.commands).next;
    HearNewline(second.r);
    var end := HearAll(second.r, [NEWLINE]).commands;
    assert !E.AskAll(last, end).next.news && E.AskAll(last, end).kinds == [] by {
      if end != [] { E.AskOne(last, EndWrite); }
    }
    assert [] + (Times(E.Written, |vals|) + []) == Times(E.Written, |vals|);
    assert address + words + [NEWLINE] == address + (words + [NEWLINE]);
    HearApart(f.r, address, words + [NEWLINE]);
    HearApart(f.r, words, [NEWLINE]);
    E.AskApart(p, first.commands, second.commands + end);
    E.AskApart(q, second.commands, end);
    hide HearAll, E.AskAll, Chars, AddressCode, WriteChars, InBand;
  }

  // ---- One call, asked ----

  // A call that sends nothing: refused, or of no words.
  predicate Idle(call: Call) { !Aligned(call.a) || (call.Read? && call.len == 0) }

  // Whether encode_address sends an address.
  predicate News(h: Host, call: Call) { !(h.addrSet && call.a == h.last) }

  lemma {:induction false} CallProper(h: Host, f: Fpga, call: Call, news: bool)
    requires InSync(h, f) && Sayable(h, call)
    ensures var heard := HearAll(f.r, Send(h, call).chars);
            InSync(Send(h, call).h, Fpga(heard.r, E.AskAll(E.Spec(f.e, news), heard.commands).next.e))
  {
    var heard := HearAll(f.r, Send(h, call).chars);
    var ops := ExecuteAll(f.e, heard.commands).ops;
    CallArrives(h, f, call);
    L.MeaningProper([call]);
    assert MeaningAll([call]) == Meaning(call) by { assert [call][1..] == []; }
    assert Deliver(f, Send(h, call).chars).ops == ops;
    L.OnBusProper(ops);
    L.AllHeardSensible(f.r, Send(h, call).chars);
    L.OpsProper(E.Spec(f.e, news), heard.commands);
    hide HearAll, ExecuteAll, E.AskAll, Send, InSync, Sayable, Meaning, L.NoneImproper, L.AllSensible, E.AllProper;
  }

  lemma {:induction false} CallAsked(h: Host, f: Fpga, call: Call, news: bool) returns (addr: Word)
    requires InSync(h, f) && Sayable(h, call)
    ensures var heard := HearAll(f.r, Send(h, call).chars);
            var asked := E.AskAll(E.Spec(f.e, news), heard.commands);
            && asked.next.news == (Idle(call) && news)
            && (Idle(call) ==> asked.kinds == [])
            && (!Idle(call) && call.Write? ==> asked.kinds == Times(E.Written, |call.vals|))
            && (!Idle(call) && call.Read? ==>
                  && Cell(addr) == call.a / 4
                  && asked.kinds == Lead(News(h, call) || news, addr) + Times(E.Datum(call.inc), call.len))
  {
    addr := 0;
    if Idle(call) {
      HearNothing(f.r);
      assert Send(h, call).chars == [];
    } else if call.Write? {
      WriteLeavesNoNews(h, f, call.a, call.inc, call.vals, news);
    } else {
      addr := ReadAsked(h, f, call.a, call.inc, call.len, news);
    }
    hide HearAll, Send, InSync, Sayable, E.AskAll, Cell;
  }

  // ---- A session, as messages ----

  // How many words a call returns, and how many messages bring them: an address comes first if one was sent, or if the
  // executor had news of it.
  function Count(c: Call): nat { if Idle(c) || c.Write? then 0 else c.len }
  function Width(h: Host, c: Call, news: bool): nat {
    if !Idle(c) && c.Read? && (News(h, c) || news) then c.len + 1 else Count(c)
  }

  // Messages that answer one call.
  predicate Answer(ms: seq<Message>, h: Host, c: Call, news: bool, data: seq<Word>) {
    && |data| == Count(c) && |ms| == Width(h, c, news)
    && ms[|ms| - |data|..] == DataOf(c.inc, data)
    && (|ms| > |data| ==> ms[0].Place? && Cell(ms[0].addr) == c.a / 4)
  }

  // Messages that answer a session of calls, one after the other.
  predicate Answers(ms: seq<Message>, h: Host, calls: seq<Call>, news: bool, data: seq<Word>)
    decreases |calls|
  {
    if calls == [] then ms == [] && data == [] else
    var c := calls[0];
    var n, k := Width(h, c, news), Count(c);
    && |ms| >= n && |data| >= k && Answer(ms[..n], h, c, news, data[..k])
    && Answers(ms[n..], Send(h, c).h, calls[1..], Idle(c) && news, data[k..])
  }

  lemma {:induction false} AnswersMore(m: seq<Message>, more: seq<Message>, h: Host, calls: seq<Call>, news: bool,
                                       d: seq<Word>, data: seq<Word>)
    requires calls != [] && Answer(m, h, calls[0], news, d)
    requires Answers(more, Send(h, calls[0]).h, calls[1..], Idle(calls[0]) && news, data)
    ensures Answers(m + more, h, calls, news, d + data)
  {
    assert |m| == Width(h, calls[0], news) && |d| == Count(calls[0]);
    assert (m + more)[..|m|] == m && (m + more)[|m|..] == more && (d + data)[..|d|] == d && (d + data)[|d|..] == data;
    hide Answer, Width, Count, Send, Idle;
  }

  lemma {:induction false} OnlyNotes(n: nat)
    ensures T.Heeded(Merge(Times(E.Written, n), [])) == [] && E.Datums(Times(E.Written, n)) == 0
    decreases n
  {
    if n > 0 {
      assert Times(E.Written, n)[1..] == Times(E.Written, n - 1);
      OnlyNotes(n - 1);
      var ms := Merge(Times(E.Written, n - 1), []);
      assert Merge(Times(E.Written, n), []) == [Note(WRITE_DONE)] + ms && ([Note(WRITE_DONE)] + ms)[1..] == ms;
    }
  }

  lemma {:induction false} AllHeeded(ms: seq<Message>)
    requires forall k :: 0 <= k < |ms| ==> !ms[k].Note?
    ensures T.Heeded(ms) == ms
  {
    if ms != [] { AllHeeded(ms[1..]); }
  }

  lemma {:induction false} DatumCount(yes: bool, addr: Word, inc: bool, len: nat)
    ensures E.Datums(Lead(yes, addr) + Times(E.Datum(inc), len)) == len
  {
    if yes { assert Lead(yes, addr)[1..] == []; }
    E.DatumsApart(Lead(yes, addr), Times(E.Datum(inc), len));
    E.DatumsTimes(inc, len);
  }

  // What a call adds to the messages.
  lemma {:induction false} CallSays(h: Host, f: Fpga, call: Call, news: bool, data: seq<Word>)
    requires InSync(h, f) && Sayable(h, call)
    requires var asked := E.AskAll(E.Spec(f.e, news), HearAll(f.r, Send(h, call).chars).commands);
             |data| == E.Datums(asked.kinds)
    ensures var asked := E.AskAll(E.Spec(f.e, news), HearAll(f.r, Send(h, call).chars).commands);
            && Answer(T.Heeded(Merge(asked.kinds, data)), h, call, news, data)
            && asked.next.news == (Idle(call) && news)
  {
    hide HearAll, E.AskAll, Send, InSync, Sayable, Cell, Merge, T.Heeded, Times, E.Datums;
    var asked := E.AskAll(E.Spec(f.e, news), HearAll(f.r, Send(h, call).chars).commands);
    var addr := CallAsked(h, f, call, news);
    if Idle(call) {
      OnlyNotes(0);
      assert Times(E.Written, 0) == [];
    } else if call.Write? {
      OnlyNotes(|call.vals|);
    } else {
      var yes := News(h, call) || news;
      DatumCount(yes, addr, call.inc, call.len);
      LeadMerges(yes, addr, call.inc, data);
      ReadAnswer(h, call, news, addr, data);
    }
  }

  // The messages of a read, one by one.
  lemma {:induction false} PlacedData(yes: bool, addr: Word, inc: bool, data: seq<Word>)
    ensures var ms, off := Placed(yes, addr) + DataOf(inc, data), if yes then 1 else 0;
            && |ms| == off + |data|
            && forall k :: 0 <= k < |ms| ==> ms[k] == if k < off then Place(addr) else Datum(data[k - off], inc)
  {
  }

  lemma {:induction false} TailIs(ms: seq<Message>, off: nat, inc: bool, data: seq<Word>)
    requires |ms| == off + |data|
    ensures ms[off..] == DataOf(inc, data) <==> forall k :: off <= k < |ms| ==> ms[k] == Datum(data[k - off], inc)
  {
    if ms[off..] == DataOf(inc, data) {
      forall k | off <= k < |ms| ensures ms[k] == Datum(data[k - off], inc) { assert ms[k] == ms[off..][k - off]; }
    }
  }

  lemma {:induction false} ReadAnswer(h: Host, c: Call, news: bool, addr: Word, data: seq<Word>)
    requires !Idle(c) && c.Read? && |data| == c.len && Cell(addr) == c.a / 4
    ensures var ms := Placed(News(h, c) || news, addr) + DataOf(c.inc, data);
            T.Heeded(ms) == ms && Answer(ms, h, c, news, data)
  {
    hide T.Heeded, Placed, DataOf, News, Cell;
    var yes := News(h, c) || news;
    var ms := Placed(yes, addr) + DataOf(c.inc, data);
    PlacedData(yes, addr, c.inc, data);
    AllHeeded(ms);
    TailIs(ms, |ms| - |data|, c.inc, data);
  }

  // What the executor says in a session, without the notes, answers the session.
  lemma {:induction false} SessionSays(h: Host, f: Fpga, calls: seq<Call>, news: bool, data: seq<Word>)
    requires InSync(h, f) && AllSayable(h, calls)
    requires |data| == E.Datums(E.AskAll(E.Spec(f.e, news), HearAll(f.r, SendAll(h, calls).chars).commands).kinds)
    ensures var kinds := E.AskAll(E.Spec(f.e, news), HearAll(f.r, SendAll(h, calls).chars).commands).kinds;
            Answers(T.Heeded(Merge(kinds, data)), h, calls, news, data)
    decreases |calls|
  {
    hide HearAll, E.AskAll, Send, InSync, Sayable, Merge, T.Heeded, E.Datums, Idle, Answer;
    var p := E.Spec(f.e, news);
    if calls == [] {
      NothingHeard(f.r, p);
    } else {
      hide Answers;
      var first, rest := Send(h, calls[0]), SendAll(Send(h, calls[0]).h, calls[1..]);
      var heard := HearAll(f.r, first.chars);
      var asked := E.AskAll(p, heard.commands);
      var g := Fpga(heard.r, asked.next.e);
      CallProper(h, f, calls[0], news);
      var more := E.AskAll(asked.next, HearAll(g.r, rest.chars).commands);
      HearApart(f.r, first.chars, rest.chars);
      E.AskApart(p, heard.commands, HearAll(g.r, rest.chars).commands);
      var d, later := Divided(asked.kinds, more.kinds, data);
      CallSays(h, f, calls[0], news, d);
      SessionSays(first.h, g, calls[1..], asked.next.news, later);
      AnswersMore(T.Heeded(Merge(asked.kinds, d)), T.Heeded(Merge(more.kinds, later)), h, calls, news, d, later);
    }
  }

  // The data that belong to the first replies, and the others.
  lemma {:induction false} Divided(a: seq<E.Kind>, b: seq<E.Kind>, data: seq<Word>) returns (d: seq<Word>, later: seq<Word>)
    requires |data| == E.Datums(a + b)
    ensures d + later == data && |d| == E.Datums(a) && |later| == E.Datums(b)
    ensures T.Heeded(Merge(a + b, data)) == T.Heeded(Merge(a, d)) + T.Heeded(Merge(b, later))
  {
    hide E.Datums, Merge, T.Heeded;
    E.DatumsApart(a, b);
    var n := E.Datums(a);
    d, later := data[..n], data[n..];
    assert d + later == data;
    MergeApart(a, b, d, later);
    T.HeededApart(Merge(a, d), Merge(b, later));
  }

  lemma {:induction false} NothingHeard(r: Receiver, p: E.Spec)
    ensures E.AskAll(p, HearAll(r, []).commands).kinds == [] && E.Datums([]) == 0 && T.Heeded(Merge([], [])) == []
  {
  }

  // ---- What the host reads ----

  // What readv starts from: encode_address restarts the table of words read with every address it sends.
  function AfterAddress(r: R.Reader, a: Word): R.Reader { if r.addrSet && a == r.last then r else r.(rd := 0) }


  // What a session of calls returns with: each read its words, when nothing is thrown, and its check of the address
  // passes.
  datatype Back = Back(r: R.Reader, answers: seq<seq<Word>>) | Stopped

  function HostReads(h: Host, r: R.Reader, calls: seq<Call>, ds: seq<Digit>): (b: Back)
    requires R.Formed(r)
    decreases |calls|
  {
    if calls == [] then Back(r, []) else
    var c, next, more := calls[0], Send(h, calls[0]).h, calls[1..];
    var start := AfterAddress(r, c.a);
    if Idle(c) then HostReads(next, r, more, ds)
    else if c.Write? then HostReads(next, start.(addrSet := true, last := next.last), more, ds)
    else
      match R.ReadWords(start, c.len, ds)
      case NotAll(_, _) => Stopped
      case AllGot(s, words, rest) =>
        if s.last != next.last then Stopped else
        match HostReads(next, s, more, rest)
        case Back(t, answers) => Back(t, [words] + answers)
        case Stopped => Stopped
  }

  // The words, dealt out to the reads of a session.
  function Dealt(calls: seq<Call>, data: seq<Word>): seq<seq<Word>>
    decreases |calls|
  {
    if calls == [] then [] else
    var c, n := calls[0], if Count(calls[0]) <= |data| then Count(calls[0]) else |data|;
    (if Idle(c) || c.Write? then [] else [data[..n]]) + Dealt(calls[1..], data[n..])
  }

  // A write to a new address restarts the host's table and not the board's.  A session is careful when no read that
  // sends no address comes between such a write and the next read that sends one.
  predicate Careful(h: Host, calls: seq<Call>, spoiled: bool)
    decreases |calls|
  {
    calls == [] ||
    var c := calls[0];
    && (!Idle(c) && c.Read? ==> News(h, c) || !spoiled)
    && Careful(Send(h, c).h, calls[1..], Spoils(h, c, spoiled))
  }

  predicate Spoils(h: Host, c: Call, spoiled: bool) {
    if Idle(c) then spoiled else c.Write? && (spoiled || News(h, c))
  }

  predicate SpoiledAfter(h: Host, calls: seq<Call>, spoiled: bool)
    decreases |calls|
  {
    if calls == [] then spoiled else SpoiledAfter(Send(h, calls[0]).h, calls[1..], Spoils(h, calls[0], spoiled))
  }

  // One read of a session, from replies that begin with its answer.
  lemma {:induction false} ReadTaken(h: Host, r: R.Reader, c: Call, outs: seq<Codeword>, hist: seq<Word>, news: bool,
                                     spoiled: bool, data: seq<Word>)
      returns (s: R.Reader, rest: seq<Codeword>, now: seq<Word>)
    requires !Idle(c) && c.Read? && R.Formed(r) && r.addrSet == h.addrSet && r.last == h.last
    requires AllReadable(outs, hist) && T.Calm(DecodeAll(outs, hist))
    requires (!spoiled ==> T.Agrees(r, hist)) && (News(h, c) || !spoiled)
    requires var hs, n := T.Heeded(DecodeAll(outs, hist)), Width(h, c, news); |hs| >= n && Answer(hs[..n], h, c, news, data)
    ensures T.Agrees(s, now) && AllReadable(rest, now) && T.Calm(DecodeAll(rest, now)) && NotedAll(rest, now) == NotedAll(outs, hist)
    ensures s.addrSet && s.last == Send(h, c).h.last
    ensures R.Formed(AfterAddress(r, c.a))
            && R.ReadWords(AfterAddress(r, c.a), c.len, OP.ReplyDigitsAll(outs)) == R.AllGot(s, data, OP.ReplyDigitsAll(rest))
    ensures T.Heeded(DecodeAll(rest, now)) == T.Heeded(DecodeAll(outs, hist))[Width(h, c, news)..]
  {
    hide *;
    hide Idle, News, Send, AfterAddress, T.Agrees, AllReadable, T.Calm, DecodeAll, T.Heeded, R.ReadWords, Cell, DataOf;
    hide Answer, Width, Count;
    var hs, n := T.Heeded(DecodeAll(outs, hist)), Width(h, c, news);
    var yes, addr := AnswerIs(hs[..n], h, c, news, data);
    if yes { assert hs[..n][0] == hs[0]; }
    var start, was := Ready(h, r, c, outs, hist, news, spoiled);
    CallAddress(h, r, c);
    MessagesOfRead(yes, addr, c.inc, data, start.last, c.a);
    s, rest, now := T.WordsRead(start, outs, was, n);
  }

  lemma {:induction false} AnswerIs(ms: seq<Message>, h: Host, c: Call, news: bool, data: seq<Word>)
      returns (yes: bool, addr: Word)
    requires !Idle(c) && c.Read? && Answer(ms, h, c, news, data)
    ensures yes == (News(h, c) || news) && |data| == c.len > 0 && |ms| == Width(h, c, news) > 0
    ensures ms == Placed(yes, addr) + DataOf(c.inc, data) && (yes ==> Cell(addr) == c.a / 4 && ms[0].Place?)
    ensures ms[|ms| - 1].Datum? && forall k :: 0 <= k < |ms| ==> ms[k].Place? || ms[k].Datum?
    ensures (exists k :: 0 <= k < |ms| && ms[k].Place?) <==> yes
  {
    hide Cell, News, DataOf, Placed;
    yes := News(h, c) || news;
    addr := if yes then ms[0].addr else 0;
    var off := |ms| - |data|;
    TailIs(ms, off, c.inc, data);
    PlacedData(yes, addr, c.inc, data);
    assert ms == Placed(yes, addr) + DataOf(c.inc, data);
    if yes { assert ms[0].Place?; }
  }

  // The words that the two ends have in common when the read begins.
  lemma {:induction false} Ready(h: Host, r: R.Reader, c: Call, outs: seq<Codeword>, hist: seq<Word>, news: bool, spoiled: bool)
      returns (start: R.Reader, was: seq<Word>)
    requires R.Formed(r) && AllReadable(outs, hist) && r.addrSet == h.addrSet && r.last == h.last
    requires (!spoiled ==> T.Agrees(r, hist)) && (News(h, c) || !spoiled)
    requires var hs := T.Heeded(DecodeAll(outs, hist)); News(h, c) || news ==> hs != [] && hs[0].Place?
    ensures start == AfterAddress(r, c.a) && T.Agrees(start, was) && AllReadable(outs, was)
    ensures DecodeAll(outs, was) == DecodeAll(outs, hist) && NotedAll(outs, was) == NotedAll(outs, hist)
  {
    hide DecodeAll, NotedAll, AllReadable, T.Heeded;
    start, was := AfterAddress(r, c.a), hist;
    if News(h, c) || news {
      T.PlaceRestarts(outs, hist);
      AgreesOnNothing(start);
      was := [];
    }
  }

  lemma {:induction false} CallAddress(h: Host, r: R.Reader, c: Call)
    requires !Idle(c) && c.Read? && r.addrSet == h.addrSet && r.last == h.last
    ensures Aligned(c.a) && c.len > 0 && AfterAddress(r, c.a).addrSet == h.addrSet
    ensures Send(h, c).h.last == if c.inc then Advance(c.a, c.len) else c.a
    ensures !News(h, c) ==> h.addrSet && AfterAddress(r, c.a).last == c.a
  {
  }

  lemma {:induction false} AgreesOnNothing(r: R.Reader)
    requires R.Formed(r)
    ensures T.Agrees(r, [])
  {
  }

  lemma {:induction false} IdleCall(h: Host, c: Call, spoiled: bool)
    requires Idle(c)
    ensures Send(h, c).h == h && Spoils(h, c, spoiled) == spoiled
  {
  }

  // A write, on the host's side of the replies: nothing is read.
  lemma {:induction false} WriteTaken(h: Host, r: R.Reader, c: Call, hist: seq<Word>, spoiled: bool) returns (s: R.Reader)
    requires !Idle(c) && c.Write? && R.Formed(r) && r.addrSet == h.addrSet && r.last == h.last
    requires !spoiled ==> T.Agrees(r, hist)
    ensures s == AfterAddress(r, c.a).(addrSet := true, last := Send(h, c).h.last) && R.Formed(s)
    ensures Send(h, c).h.addrSet && (!Spoils(h, c, spoiled) ==> T.Agrees(s, hist))
  {
    s := AfterAddress(r, c.a).(addrSet := true, last := Send(h, c).h.last);
    if !Spoils(h, c, spoiled) { T.SameTable(r, s, hist); }
    hide T.Agrees;
  }

  // What a session comes to on the host, when d is what is read of the digits and now are the words in common after them.
  ghost predicate Taken(h: Host, calls: seq<Call>, spoiled: bool, data: seq<Word>, b: Back, now: seq<Word>) {
    && b.Back? && b.answers == Dealt(calls, data) && b.r.last == SendAll(h, calls).h.last
    && (!SpoiledAfter(h, calls, spoiled) ==> T.Agrees(b.r, now))
  }

  lemma {:induction false} TakenOn(h: Host, r: R.Reader, calls: seq<Call>, ds: seq<Digit>, spoiled: bool, data: seq<Word>,
                                   s: R.Reader, rest: seq<Digit>, now: seq<Word>)
    requires R.Formed(r) && R.Formed(s) && calls != [] && Count(calls[0]) <= |data|
    requires var c, n := calls[0], Count(calls[0]);
             if Idle(c) then s == r && rest == ds
             else if c.Write? then s == AfterAddress(r, c.a).(addrSet := true, last := Send(h, c).h.last) && rest == ds
             else R.ReadWords(AfterAddress(r, c.a), c.len, ds) == R.AllGot(s, data[..n], rest) && s.last == Send(h, c).h.last
    requires var c := calls[0];
             Taken(Send(h, c).h, calls[1..], Spoils(h, c, spoiled), data[Count(c)..], HostReads(Send(h, c).h, s, calls[1..], rest), now)
    ensures Taken(h, calls, spoiled, data, HostReads(h, r, calls, ds), now)
  {
    hide T.Agrees, R.ReadWords, Idle, Send, AfterAddress, Spoils, Count;
  }

  lemma {:induction false} CarefulOn(h: Host, calls: seq<Call>, spoiled: bool)
    requires calls != [] && Careful(h, calls, spoiled)
    ensures var c := calls[0];
            && Careful(Send(h, c).h, calls[1..], Spoils(h, c, spoiled))
            && (!Idle(c) && c.Read? ==> News(h, c) || !spoiled)
  {
    hide Idle, News, Send, Spoils;
  }

  lemma {:induction false} AnswersOn(hs: seq<Message>, h: Host, calls: seq<Call>, news: bool, data: seq<Word>)
    requires calls != [] && Answers(hs, h, calls, news, data)
    ensures var c := calls[0];
            var n, k := Width(h, c, news), Count(c);
            && |hs| >= n && |data| >= k && Answer(hs[..n], h, c, news, data[..k])
            && Answers(hs[n..], Send(h, c).h, calls[1..], Idle(c) && news, data[k..])
  {
    hide Answer, Width, Count, Send, Idle;
  }

  // A call that nothing is read for.
  lemma {:induction false} QuietCall(h: Host, c: Call, news: bool)
    requires Idle(c) || c.Write?
    ensures Count(c) == Width(h, c, news) == 0
  {
  }

  // Over a careful session, the host takes from the replies that answer it exactly the words it asked for.
  lemma {:induction false} SessionTaken(h: Host, r: R.Reader, calls: seq<Call>, outs: seq<Codeword>, hist: seq<Word>,
                                        news: bool, spoiled: bool, data: seq<Word>)
    requires R.Formed(r) && r.addrSet == h.addrSet && r.last == h.last
    requires AllReadable(outs, hist) && T.Calm(DecodeAll(outs, hist))
    requires Answers(T.Heeded(DecodeAll(outs, hist)), h, calls, news, data)
    requires Careful(h, calls, spoiled) && (!spoiled ==> T.Agrees(r, hist))
    ensures Taken(h, calls, spoiled, data, HostReads(h, r, calls, OP.ReplyDigitsAll(outs)), NotedAll(outs, hist))
    decreases |calls|
  {
    hide *;
    hide T.Agrees, AllReadable, T.Calm, DecodeAll, T.Heeded, NotedAll, OP.ReplyDigitsAll, R.ReadWords;
    hide Idle, News, Send, AfterAddress, Spoils, HostReads, Taken, Answer, Answers, Careful, Count, Width;
    var ds, hs := OP.ReplyDigitsAll(outs), T.Heeded(DecodeAll(outs, hist));
    if calls == [] {
      NoAnswers(hs, h, news, data);
      T.QuietEnd(outs, hist);
      NothingTaken(h, r, ds, spoiled, hist);
    } else {
      var c, more := calls[0], calls[1..];
      var next, n, k := Send(h, c).h, Width(h, c, news), Count(c);
      AnswersOn(hs, h, calls, news, data);
      CarefulOn(h, calls, spoiled);
      if Idle(c) {
        QuietCall(h, c, news);
        IdleCall(h, c, spoiled);
        assert hs[n..] == hs;
        SessionTaken(next, r, more, outs, hist, news, spoiled, data[k..]);
        TakenOn(h, r, calls, ds, spoiled, data, r, ds, NotedAll(outs, hist));
      } else if c.Write? {
        QuietCall(h, c, news);
        assert hs[n..] == hs;
        var s := WriteTaken(h, r, c, hist, spoiled);
        SessionTaken(next, s, more, outs, hist, false, Spoils(h, c, spoiled), data[k..]);
        TakenOn(h, r, calls, ds, spoiled, data, s, ds, NotedAll(outs, hist));
      } else {
        ReadSpoils(h, c, spoiled);
        var s, rest, now := ReadTaken(h, r, c, outs, hist, news, spoiled, data[..k]);
        T.AgreesFormed(s, now);
        SessionTaken(next, s, more, rest, now, false, false, data[k..]);
        TakenOn(h, r, calls, ds, spoiled, data, s, OP.ReplyDigitsAll(rest), NotedAll(outs, hist));
      }
    }
  }

  lemma {:induction false} NoAnswers(hs: seq<Message>, h: Host, news: bool, data: seq<Word>)
    requires Answers(hs, h, [], news, data)
    ensures hs == [] && data == []
  {
  }

  lemma {:induction false} NothingTaken(h: Host, r: R.Reader, ds: seq<Digit>, spoiled: bool, now: seq<Word>)
    requires R.Formed(r) && r.last == h.last && (!spoiled ==> T.Agrees(r, now))
    ensures Taken(h, [], spoiled, [], HostReads(h, r, [], ds), now)
  {
  }

  lemma {:induction false} ReadSpoils(h: Host, c: Call, spoiled: bool)
    requires !Idle(c) && c.Read?
    ensures !Spoils(h, c, spoiled) && Send(h, c).h.addrSet && Count(c) == c.len
  {
  }

  // ---- The whole way, there and back ----

  // What the executor is fed with is what the session's characters command.
  lemma {:induction false} SessionFeeds(h: Host, f: Fpga, calls: seq<Call>, p: I.Pipe, keys: seq<P.Key>, s: Sys, ins: seq<In>)
      returns (news: bool)
    requires InSync(h, f) && AllSayable(h, calls)
    requires P.InPhase(p, f.r, P.Idle) && P.Typed(keys) == SendAll(h, calls).chars
    requires forall k :: 0 <= k < |keys| ==> |keys[k].idle| >= P.SETTLE
    requires E.Inv(s) && s.x.state.Resting? && s.x.addr == f.e.addr && E.LegalAll(s, ins)
    requires I.Formed(p) && E.Commands(ins) == I.Outputs(p, P.Clocks(keys))
    ensures E.Standing(s.x) == E.Spec(f.e, news) && E.FedAll(s, ins)
    ensures E.Commands(ins) == HearAll(f.r, SendAll(h, calls).chars).commands
  {
    hide *;
    news := E.Standing(s.x).news;
    L.SessionCommands(h, f, calls, p, keys, news);
    assert E.Standing(s.x) == E.Spec(f.e, news) by { L.StandsAt(s.x); L.AgreesAt(h, f); }
    E.ProperFeeds(s, ins);
  }

  // A session is typed to the board, however slowly; its commands wait until the executor takes them; the bus stalls and
  // acknowledges as it likes; the replies, among notes of other things, go through the compressor and out to a
  // transmitter that may be busy at any time.  Then each read of the session returns, in order, exactly the words that
  // the bus acknowledged for it, every check of the address passes, and where the session leaves the host's table
  // unspoiled, it agrees with the board's again.
  lemma {:induction false} SessionReturns(h: Host, f: Fpga, calls: seq<Call>, p: I.Pipe, keys: seq<P.Key>, s: Sys, ins: seq<In>,
                                          y: Y.Path, yins: seq<Y.In>, r: R.Reader, spoiled: bool)
    requires InSync(h, f) && AllSayable(h, calls) && Careful(h, calls, spoiled)
    requires R.Formed(r) && r.addrSet == h.addrSet && r.last == h.last && (!spoiled ==> T.Agrees(r, y.c.hist))
    requires P.InPhase(p, f.r, P.Idle) && P.Typed(keys) == SendAll(h, calls).chars
    requires forall k :: 0 <= k < |keys| ==> |keys[k].idle| >= P.SETTLE
    requires E.Inv(s) && s.x.state.Resting? && s.x.addr == f.e.addr && E.LegalAll(s, ins)
    requires I.Formed(p) && E.Commands(ins) == I.Outputs(p, P.Clocks(keys)) && E.Run(s, ins).x.state.Resting?
    requires Y.Invariant(y) && Y.Drained(y) && Y.Drained(Y.Run(y, yins))
    requires T.Calm(C.SaidAll(Y.Given(y, yins)))
    requires T.Heeded(C.SaidAll(Y.Given(y, yins))) == T.Heeded(C.SaidAll(RepliesAll(s, ins)))
    ensures var b := HostReads(h, r, calls, Stripped(Y.Sent(y, yins)));
            && b.Back? && b.answers == Dealt(calls, E.Shown(s, ins).fetched) && b.r.last == SendAll(h, calls).h.last
            && (!SpoiledAfter(h, calls, spoiled) ==> T.Agrees(b.r, Y.Run(y, yins).c.hist))
  {
    assert Y.Formed(y);
    hide *;
    var news := SessionFeeds(h, f, calls, p, keys, s, ins);
    BusAnswers(h, f, calls, s, ins, news);
    CalmClear(C.SaidAll(Y.Given(y, yins)), Y.Given(y, yins));
    var outs := Y.PathLossless(y, yins);
    SessionTaken(h, r, calls, outs, y.c.hist, news, spoiled, E.Shown(s, ins).fetched);
    TakenIs(h, calls, spoiled, E.Shown(s, ins).fetched, HostReads(h, r, calls, OP.ReplyDigitsAll(outs)), NotedAll(outs, y.c.hist));
  }

  lemma {:induction false} TakenIs(h: Host, calls: seq<Call>, spoiled: bool, data: seq<Word>, b: Back, now: seq<Word>)
    requires Taken(h, calls, spoiled, data, b, now)
    ensures b.Back? && b.answers == Dealt(calls, data) && b.r.last == SendAll(h, calls).h.last
    ensures !SpoiledAfter(h, calls, spoiled) ==> T.Agrees(b.r, now)
  {
  }

  lemma {:induction false} CalmClear(ms: seq<Message>, ws: seq<Codeword>)
    requires ms == C.SaidAll(ws) && T.Calm(ms)
    ensures C.Clear(ws)
  {
    forall k | 0 <= k < |ws| ensures Said(ws[k]) != Strange { assert ms[k] == Said(ws[k]); }
  }

  // From one rest of the executor to another, what it says answers the session.
  lemma {:induction false} BusAnswers(h: Host, f: Fpga, calls: seq<Call>, s: Sys, ins: seq<In>, news: bool)
    requires InSync(h, f) && AllSayable(h, calls)
    requires E.Inv(s) && s.x.state.Resting? && E.Standing(s.x) == E.Spec(f.e, news) && E.FedAll(s, ins)
    requires E.Commands(ins) == HearAll(f.r, SendAll(h, calls).chars).commands && E.Run(s, ins).x.state.Resting?
    ensures Answers(T.Heeded(C.SaidAll(RepliesAll(s, ins))), h, calls, news, E.Shown(s, ins).fetched)
  {
    var x, asked := E.Shown(s, ins), E.AskAll(E.Spec(f.e, news), E.Commands(ins));
    E.ExecutorExact(s, ins);
    SaidRun(s, ins);
    NothingOwed(s, E.Run(s, ins), x.kinds, asked.kinds);
    SessionSays(h, f, calls, news, x.fetched);
    hide E.Inv, E.FedAll, E.Shown, E.Run, E.AskAll, HearAll, SendAll, InSync, AllSayable, Merge, RepliesAll, T.Heeded, Answers;
  }

  lemma {:induction false} NothingOwed(s: Sys, t: Sys, kinds: seq<E.Kind>, asked: seq<E.Kind>)
    requires s.x.state.Resting? && t.x.state.Resting? && kinds + E.Owed(t) == E.Owed(s) + asked
    ensures kinds == asked
  {
    assert kinds + [] == kinds && [] + asked == asked;
  }

  // ---- Where a session is not careful ----

  // A reference to the word k words back, read by a host whose table has been restarted meanwhile: it comes out right
  // exactly when the table happens to hold the same word in the place that it is now looked for.
  lemma {:induction false} ResetReads(w: Codeword, k: nat, r: R.Reader, hist: seq<Word>)
    requires T.Agrees(r, hist) && 1 <= k < K.REACH && k <= |hist| && w.op / 8 == 7 && Data(w) == Recent(hist, k)
    ensures R.Formed(r)
    ensures var ds, meant := OP.ReplyDigits(C.RefersTo(w, k)), Datum(Data(w), w.op % 2 == 1);
            && R.IsReply(ds) && R.Reading(ds, r) == meant
            && (R.Reading(ds, r.(rd := 0)) == meant <==> r.tbl[(0 - k) % R.READ_TABLE] == r.tbl[(r.rd - k) % R.READ_TABLE])
  {
    hide R.Reading, R.IsReply, Understood, T.Agrees, OP.ReplyDigits, C.RefersTo, R.TableWord;
    T.AgreesFormed(r, hist);
    var held := HeldFrom(r.(rd := 0));
    ReferenceRead(w, k, r, hist);
    ReferenceRead(w, k, r.(rd := 0), held);
    InPlace(r, hist, k);
    InPlace(r.(rd := 0), held, k);
  }

  lemma {:induction false} ReferenceRead(w: Codeword, k: nat, r: R.Reader, hist: seq<Word>)
    requires T.Agrees(r, hist) && 1 <= k < K.REACH && k <= |hist| && w.op / 8 == 7
    ensures R.Formed(r)
    ensures var ds := OP.ReplyDigits(C.RefersTo(w, k));
            R.IsReply(ds) && R.Reading(ds, r) == Datum(Recent(hist, k), w.op % 2 == 1)
  {
    T.AgreesFormed(r, hist);
    C.ReferenceBack(w, k);
    C.ReferenceMeans(w, k, hist);
    T.ReplyRead(C.RefersTo(w, k), r, hist);
    hide OP.ReplyDigits, R.Reading, R.IsReply, Understood, C.RefersTo, T.Agrees;
  }

  lemma {:induction false} InPlace(r: R.Reader, hist: seq<Word>, k: nat)
    requires T.Agrees(r, hist) && 1 <= k < K.REACH && k <= |hist|
    ensures R.Formed(r) && Recent(hist, k) == r.tbl[(r.rd - k) % R.READ_TABLE]
  {
    assert R.TableWord(r, k) == Recent(hist, k);
  }

  // The words that a table holds, as the history that it agrees with.
  lemma {:induction false} HeldFrom(r: R.Reader) returns (held: seq<Word>)
    requires R.Formed(r)
    ensures T.Agrees(r, held) && |held| == 1023
  {
    held := seq(1023, j requires 0 <= j < 1023 => R.TableWord(r, 1023 - j));
    forall j | 1 <= j < 1024 && j <= |held| ensures R.TableWord(r, j) == Recent(held, j) { }
  }

  // Replies that say seven, always: the word before is meant, or after an address the word is spelled out first.
  function Again(inc: bool): Codeword { Codeword(if inc then 7 else 6, 0) }
  function Seven(inc: bool): Codeword { Codeword(if inc then 57 else 56, 7) }
  function At(a: Word): Codeword { Codeword(8, a / 4) }
  function SevensFor(h: Host, c: Call): seq<Codeword> {
    if Idle(c) || c.Write? then []
    else if News(h, c) then [At(c.a), Seven(c.inc)] + Times(Again(c.inc), c.len - 1)
    else Times(Again(c.inc), c.len)
  }

  function Sevens(h: Host, calls: seq<Call>): seq<Codeword>
    decreases |calls|
  {
    if calls == [] then [] else SevensFor(h, calls[0]) + Sevens(Send(h, calls[0]).h, calls[1..])
  }

  function SevenData(calls: seq<Call>): seq<Word>
    decreases |calls|
  {
    if calls == [] then [] else Times<Word>(7, Count(calls[0])) + SevenData(calls[1..])
  }

  lemma {:induction false} OneMore(a: Codeword, more: seq<Codeword>, hist: seq<Word>)
    ensures var outs := [a] + more;
            && DecodeAll(outs, hist) == [Understood(a, hist)] + DecodeAll(more, Noted(a, hist))
            && NotedAll(outs, hist) == NotedAll(more, Noted(a, hist))
            && (AllReadable(outs, hist) <==> Readable(a, hist) && AllReadable(more, Noted(a, hist)))
            && OP.ReplyDigitsAll(outs) == OP.ReplyDigits(a) + OP.ReplyDigitsAll(more)
  {
    assert ([a] + more)[1..] == more;
    hide Understood, Noted, Readable, OP.ReplyDigits;
  }

  lemma {:induction false} SevenWords(inc: bool, a: Word, hist: seq<Word>)
    ensures Understood(Seven(inc), hist) == Datum(7, inc) && Noted(Seven(inc), []) == [7] && Readable(Seven(inc), hist)
    ensures Understood(Again(inc), [7]) == Datum(7, inc) && Noted(Again(inc), [7]) == [7] && Readable(Again(inc), [7])
    ensures Understood(At(a), hist) == Place(a / 4) && Noted(At(a), hist) == [] && Readable(At(a), hist)
  {
  }

  lemma {:induction false} AgainsMean(inc: bool, n: nat)
    ensures DecodeAll(Times(Again(inc), n), [7]) == DataOf(inc, Times<Word>(7, n))
    ensures NotedAll(Times(Again(inc), n), [7]) == [7] && AllReadable(Times(Again(inc), n), [7])
    decreases n
  {
    hide Understood, Noted, Readable;
    if n > 0 {
      assert Times(Again(inc), n) == [Again(inc)] + Times(Again(inc), n - 1);
      SevenWords(inc, 0, []);
      OneMore(Again(inc), Times(Again(inc), n - 1), [7]);
      AgainsMean(inc, n - 1);
      assert DataOf(inc, Times<Word>(7, n)) == [Datum(7, inc)] + DataOf(inc, Times<Word>(7, n - 1));
    }
  }

  lemma {:induction false} FreshMean(a: Word, inc: bool, n: nat)
    requires n > 0
    ensures var ws := [At(a), Seven(inc)] + Times(Again(inc), n - 1);
            && DecodeAll(ws, [7]) == [Place(a / 4)] + DataOf(inc, Times<Word>(7, n))
            && NotedAll(ws, [7]) == [7] && AllReadable(ws, [7])
  {
    assert DataOf(inc, Times<Word>(7, n)) == [Datum(7, inc)] + DataOf(inc, Times<Word>(7, n - 1));
    hide Understood, Noted, Readable, DecodeAll, NotedAll, AllReadable, Times;
    var more := [Seven(inc)] + Times(Again(inc), n - 1);
    SevenWords(inc, a, [7]);
    SevenWords(inc, a, []);
    AgainsMean(inc, n - 1);
    OneMore(Seven(inc), Times(Again(inc), n - 1), []);
    OneMore(At(a), more, [7]);
    assert [At(a), Seven(inc)] + Times(Again(inc), n - 1) == [At(a)] + more;
  }

  // The replies to a call answer it.
  lemma {:induction false} SevensAnswer(h: Host, c: Call)
    ensures var ms := DecodeAll(SevensFor(h, c), [7]);
            && T.Heeded(ms) == ms && T.Calm(ms) && Answer(ms, h, c, false, Times<Word>(7, Count(c)))
            && NotedAll(SevensFor(h, c), [7]) == [7] && AllReadable(SevensFor(h, c), [7])
  {
    hide T.Heeded, Times, DataOf, DecodeAll, NotedAll, AllReadable;
    if Idle(c) || c.Write? {
      NoReplies(h, c);
    } else {
      ReadAnswer(h, c, false, c.a / 4, Times<Word>(7, c.len));
      PlacedData(News(h, c), c.a / 4, c.inc, Times<Word>(7, c.len));
      if News(h, c) { FreshMean(c.a, c.inc, c.len); } else {
        AgainsMean(c.inc, c.len);
        assert [] + DataOf(c.inc, Times<Word>(7, c.len)) == DataOf(c.inc, Times<Word>(7, c.len));
      }
    }
  }

  lemma {:induction false} NoReplies(h: Host, c: Call)
    requires Idle(c) || c.Write?
    ensures var ms := DecodeAll([], [7]);
            && T.Heeded(ms) == ms == [] && T.Calm(ms) && Answer(ms, h, c, false, Times<Word>(7, Count(c)))
            && NotedAll([], [7]) == [7] && AllReadable([], [7])
  {
  }

  lemma {:induction false} SevensAnswers(h: Host, calls: seq<Call>)
    ensures var ms := DecodeAll(Sevens(h, calls), [7]);
            && T.Heeded(ms) == ms && T.Calm(ms) && Answers(ms, h, calls, false, SevenData(calls))
            && NotedAll(Sevens(h, calls), [7]) == [7] && AllReadable(Sevens(h, calls), [7])
    decreases |calls|
  {
    hide T.Heeded, DecodeAll, NotedAll, AllReadable, SevensFor, Answer, Times, Send, Count;
    if calls == [] {
      NothingMeant();
    } else {
      hide Answers;
      var c, next, more := calls[0], Send(h, calls[0]).h, calls[1..];
      var ws, later := SevensFor(h, c), Sevens(next, more);
      SevensAnswer(h, c);
      SevensAnswers(next, more);
      DecodeApart(ws, later, [7]);
      ReadableApart(ws, later, [7]);
      T.HeededApart(DecodeAll(ws, [7]), DecodeAll(later, [7]));
      AnswersMore(DecodeAll(ws, [7]), DecodeAll(later, [7]), h, calls, false, Times<Word>(7, Count(c)), SevenData(more));
    }
  }

  lemma {:induction false} NothingMeant()
    ensures DecodeAll([], [7]) == [] && T.Heeded([]) == [] && NotedAll([], [7]) == [7] && AllReadable([], [7])
  {
  }

  // ---- What the host makes of them ----

  // The host's table, with the seven where it belongs, and the index restarted or not.
  predicate Sevened(r: R.Reader, spoiled: bool) {
    R.Formed(r) && r.tbl[0] == 7 && r.tbl[1023] == 0 && r.rd == if spoiled then 0 else 1
  }

  // One reply, read.
  lemma {:induction false} ReadOn(r: R.Reader, val: Word, code: seq<Digit>, rest: seq<Digit>)
    requires R.Formed(r) && R.IsReply(code) && !R.Reading(code, r).Note? && !R.Reading(code, r).Strange?
    ensures R.ReadWord(r, val, code + rest) ==
            match R.Reading(code, r)
            case Datum(v, _) => R.Got(R.After(r, code), v, rest)
            case Place(a) => R.ReadWord(R.After(r, code), a, rest)
            case _ => R.Starved(r)
  {
    assert (code + rest)[..|code|] == code && (code + rest)[|code|..] == rest;
    hide R.Reading, R.After, R.HostLen;
  }

  // A reference to the last word, read: the word before the index, whatever it is.
  lemma {:induction false} AgainRead(r: R.Reader, inc: bool)
    requires R.Formed(r)
    ensures var code, s := OP.ReplyDigits(Again(inc)), R.After(r, OP.ReplyDigits(Again(inc)));
            && R.IsReply(code) && R.Reading(code, r) == Datum(r.tbl[(r.rd - 1) % 1024], inc)
            && s.tbl == r.tbl && s.rd == r.rd && s.addrSet == r.addrSet
  {
    assert OP.ReplyDigits(Again(inc)) == [if inc then 7 else 6];
  }

  lemma {:induction false} AgainsRead(r: R.Reader, inc: bool, n: nat, ds: seq<Digit>) returns (s: R.Reader)
    requires R.Formed(r)
    ensures R.ReadWords(r, n, OP.ReplyDigitsAll(Times(Again(inc), n)) + ds) == R.AllGot(s, Times<Word>(r.tbl[(r.rd - 1) % 1024], n), ds)
    ensures s.tbl == r.tbl && s.rd == r.rd && s.addrSet == r.addrSet && R.Formed(s)
    decreases n
  {
    hide R.ReadWord, R.After, R.Reading, OP.ReplyDigits, R.IsReply;
    if n == 0 {
      assert OP.ReplyDigitsAll([]) + ds == ds;
      s := r;
    } else {
      var v, code := r.tbl[(r.rd - 1) % 1024], OP.ReplyDigits(Again(inc));
      AgainRead(r, inc);
      var t := R.After(r, code);
      assert Times(Again(inc), n) == [Again(inc)] + Times(Again(inc), n - 1);
      OneMore(Again(inc), Times(Again(inc), n - 1), []);
      var rest := OP.ReplyDigitsAll(Times(Again(inc), n - 1)) + ds;
      assert OP.ReplyDigitsAll(Times(Again(inc), n)) + ds == code + rest;
      ReadOn(r, 0, code, rest);
      s := AgainsRead(t, inc, n - 1, ds);
      FirstThenRest(r, t, v, n, code + rest, s, rest, ds);
    }
  }

  lemma {:induction false} FreshRead(r: R.Reader, a: Word, inc: bool, n: nat, ds: seq<Digit>) returns (s: R.Reader)
    requires R.Formed(r) && r.rd == 0 && n > 0
    ensures var ws := [At(a), Seven(inc)] + Times(Again(inc), n - 1);
            R.ReadWords(r, n, OP.ReplyDigitsAll(ws) + ds) == R.AllGot(s, Times<Word>(7, n), ds)
    ensures s.tbl == r.tbl[0 := 7] && s.rd == 1 && s.addrSet && R.Formed(s)
  {
    hide R.ReadWord, R.ReadWords, R.After, R.Reading, OP.ReplyDigits, R.IsReply, OP.ReplyDigitsAll, Times, At, Seven, Again;
    var t := AddressAt(r, a);
    var u := SevenRead(t, inc);
    var place, raw, more := OP.ReplyDigits(At(a)), OP.ReplyDigits(Seven(inc)), OP.ReplyDigitsAll(Times(Again(inc), n - 1)) + ds;
    FreshDigits(a, inc, n, ds);
    ReadOn(r, 0, place, raw + more);
    ReadOn(t, a / 4, raw, more);
    s := AgainsRead(u, inc, n - 1, ds);
    FirstThenRest(r, u, 7, n, place + (raw + more), s, more, ds);
  }

  lemma {:induction false} FirstThenRest(r: R.Reader, u: R.Reader, v: Word, n: nat, all: seq<Digit>, s: R.Reader,
                                         more: seq<Digit>, ds: seq<Digit>)
    requires R.Formed(r) && R.Formed(u) && n > 0 && R.ReadWord(r, 0, all) == R.Got(u, v, more)
    requires R.ReadWords(u, n - 1, more) == R.AllGot(s, Times<Word>(v, n - 1), ds)
    ensures R.ReadWords(r, n, all) == R.AllGot(s, Times<Word>(v, n), ds)
  {
    hide R.ReadWord;
    assert Times<Word>(v, n) == [v] + Times<Word>(v, n - 1);
  }

  lemma {:induction false} FreshDigits(a: Word, inc: bool, n: nat, ds: seq<Digit>)
    requires n > 0
    ensures OP.ReplyDigitsAll([At(a), Seven(inc)] + Times(Again(inc), n - 1)) + ds
            == OP.ReplyDigits(At(a)) + (OP.ReplyDigits(Seven(inc)) + (OP.ReplyDigitsAll(Times(Again(inc), n - 1)) + ds))
  {
    hide OP.ReplyDigits, OP.ReplyDigitsAll, Times, At, Seven, Again;
    var more := Times(Again(inc), n - 1);
    OneMore(Seven(inc), more, []);
    OneMore(At(a), [Seven(inc)] + more, []);
    assert [At(a), Seven(inc)] + more == [At(a)] + ([Seven(inc)] + more);
  }

  lemma {:induction false} AddressAt(r: R.Reader, a: Word) returns (s: R.Reader)
    requires R.Formed(r)
    ensures var code := OP.ReplyDigits(At(a)); R.IsReply(code) && R.Reading(code, r) == Place(a / 4) && s == R.After(r, code)
    ensures s.tbl == r.tbl && s.rd == r.rd && s.addrSet
  {
    SevenWords(false, a, []);
    T.AddressRead(At(a), r, []);
    s := R.After(r, OP.ReplyDigits(At(a)));
    hide OP.ReplyDigits, R.Reading, R.IsReply, Understood;
  }

  lemma {:induction false} SevenRead(r: R.Reader, inc: bool) returns (s: R.Reader)
    requires R.Formed(r) && r.rd == 0
    ensures var code := OP.ReplyDigits(Seven(inc)); R.IsReply(code) && R.Reading(code, r) == Datum(7, inc) && s == R.After(r, code)
    ensures s.tbl == r.tbl[0 := 7] && s.rd == 1 && s.addrSet == r.addrSet && R.Formed(s)
  {
    SevenWords(inc, 0, []);
    T.RawRead(Seven(inc), r, []);
    s := R.After(r, OP.ReplyDigits(Seven(inc)));
    assert OP.ReplyDigits(Seven(inc))[0] / 8 == 7;
    hide OP.ReplyDigits, R.Reading, R.IsReply, Understood;
  }

  // A session that returns what it should.
  predicate Right(h: Host, r: R.Reader, calls: seq<Call>, ds: seq<Digit>, data: seq<Word>) requires R.Formed(r) {
    var b := HostReads(h, r, calls, ds); b.Back? && b.answers == Dealt(calls, data)
  }

  lemma {:induction false} WrongQuiet(h: Host, r: R.Reader, calls: seq<Call>, ds: seq<Digit>, data: seq<Word>, s: R.Reader)
    requires R.Formed(r) && R.Formed(s) && calls != [] && Count(calls[0]) == 0
    requires var c := calls[0];
             if Idle(c) then s == r
             else c.Write? && s == AfterAddress(r, c.a).(addrSet := true, last := Send(h, c).h.last)
    requires !Right(Send(h, calls[0]).h, s, calls[1..], ds, data)
    ensures !Right(h, r, calls, ds, data)
  {
    assert data[0..] == data;
    hide Idle, Send, AfterAddress, R.ReadWords, Count;
  }

  lemma {:induction false} WrongRead(h: Host, r: R.Reader, calls: seq<Call>, ds: seq<Digit>, data: seq<Word>, s: R.Reader,
                                     words: seq<Word>, rest: seq<Digit>)
    requires R.Formed(r) && R.Formed(s) && calls != [] && !Idle(calls[0]) && calls[0].Read? && calls[0].len <= |data|
    requires R.ReadWords(AfterAddress(r, calls[0].a), calls[0].len, ds) == R.AllGot(s, words, rest)
    requires var c, next := calls[0], Send(h, calls[0]).h;
             words != data[..c.len] || s.last != next.last || !Right(next, s, calls[1..], rest, data[c.len..])
    ensures !Right(h, r, calls, ds, data)
  {
    ReadSpoils(h, calls[0], false);
    hide Idle, Send, AfterAddress, R.ReadWords, Count;
    var b := HostReads(h, r, calls, ds);
    if b.Back? {
      var n := calls[0].len;
      var x, dealt := HostReads(Send(h, calls[0]).h, s, calls[1..], rest), Dealt(calls[1..], data[n..]);
      assert b.answers == [words] + x.answers && b.answers[0] == words && b.answers[1..] == x.answers;
      assert Dealt(calls, data) == [data[..n]] + dealt && ([data[..n]] + dealt)[1..] == dealt;
    }
  }

  lemma {:induction false} CarelessOn(h: Host, calls: seq<Call>, spoiled: bool)
    requires !Careful(h, calls, spoiled)
    ensures calls != []
    ensures var c := calls[0];
            || (!Idle(c) && c.Read? && !News(h, c) && spoiled)
            || !Careful(Send(h, c).h, calls[1..], Spoils(h, c, spoiled))
  {
    hide Idle, News, Send, Spoils;
  }

  // A read of sevens: wrong when the index has been restarted, and otherwise the table is as it was.
  lemma {:induction false} SevensRead(h: Host, r: R.Reader, c: Call, spoiled: bool, ds: seq<Digit>) returns (s: R.Reader, v: Word)
    requires !Idle(c) && c.Read? && Sevened(r, spoiled) && r.addrSet == h.addrSet && r.last == h.last
    ensures R.Formed(AfterAddress(r, c.a)) && c.len > 0
    ensures R.ReadWords(AfterAddress(r, c.a), c.len, OP.ReplyDigitsAll(SevensFor(h, c)) + ds) == R.AllGot(s, Times<Word>(v, c.len), ds)
    ensures R.Formed(s) && s.addrSet && (if News(h, c) || !spoiled then v == 7 && Sevened(s, false) else v == 0)
  {
    hide R.ReadWords, OP.ReplyDigitsAll, Times;
    var start := AfterAddress(r, c.a);
    if News(h, c) {
      v := 7;
      s := FreshRead(start, c.a, c.inc, c.len, ds);
    } else {
      v := start.tbl[(start.rd - 1) % 1024];
      s := AgainsRead(start, c.inc, c.len, ds);
    }
  }

  // The calls that quietly pass.
  lemma {:induction false} SevensQuiet(h: Host, r: R.Reader, c: Call, spoiled: bool) returns (s: R.Reader)
    requires (Idle(c) || c.Write?) && Sevened(r, spoiled) && r.addrSet == h.addrSet && r.last == h.last
    ensures SevensFor(h, c) == [] && Count(c) == 0
    ensures if Idle(c) then s == r else s == AfterAddress(r, c.a).(addrSet := true, last := Send(h, c).h.last)
    ensures Sevened(s, Spoils(h, c, spoiled)) && s.addrSet == Send(h, c).h.addrSet && s.last == Send(h, c).h.last
  {
    s := if Idle(c) then r else AfterAddress(r, c.a).(addrSet := true, last := Send(h, c).h.last);
    hide AddressCode, Chars, WriteChars, AfterWrites;
  }

  // Every session that is not careful goes wrong with these replies.
  lemma {:induction false} CarelessWrong(h: Host, r: R.Reader, calls: seq<Call>, spoiled: bool)
    requires Sevened(r, spoiled) && r.addrSet == h.addrSet && r.last == h.last && !Careful(h, calls, spoiled)
    ensures !Right(h, r, calls, OP.ReplyDigitsAll(Sevens(h, calls)), SevenData(calls))
    decreases |calls|
  {
    hide Idle, News, Send, AfterAddress, Spoils, R.ReadWords, OP.ReplyDigitsAll, SevensFor, Count, Times, Right, Careful;
    CarelessOn(h, calls, spoiled);
    var c, next, more := calls[0], Send(h, calls[0]).h, calls[1..];
    var ds, rest := OP.ReplyDigitsAll(SevensFor(h, c)), OP.ReplyDigitsAll(Sevens(next, more));
    OP.DigitsApart(SevensFor(h, c), Sevens(next, more));
    var data, later := SevenData(calls), SevenData(more);
    assert data == Times<Word>(7, Count(c)) + later;
    assert data[..Count(c)] == Times<Word>(7, Count(c)) && data[Count(c)..] == later;
    if Idle(c) || c.Write? {
      var s := SevensQuiet(h, r, c, spoiled);
      assert Sevens(h, calls) == Sevens(next, more) && data == later;
      CarelessWrong(next, s, more, Spoils(h, c, spoiled));
      WrongQuiet(h, r, calls, rest, data, s);
    } else {
      ReadSpoils(h, c, spoiled);
      var s, v := SevensRead(h, r, c, spoiled, rest);
      if v == 7 {
        if s.last == next.last { CarelessWrong(next, s, more, false); }
      } else {
        assert Times<Word>(v, c.len)[0] != Times<Word>(7, c.len)[0] by { FillIs(v, c.len); FillIs(7, c.len); }
      }
      WrongRead(h, r, calls, ds + rest, data, s, Times<Word>(v, c.len), rest);
    }
  }

  lemma {:induction false} FillIs(v: Word, n: nat)
    requires n > 0
    ensures Times<Word>(v, n)[0] == v
  {
  }

  // Whatever the replies are that answer the session, the host returns what they say.
  ghost predicate AlwaysRight(h: Host, calls: seq<Call>) {
    forall r: R.Reader, outs: seq<Codeword>, hist: seq<Word>, news: bool, data: seq<Word> ::
      Answering(h, r, calls, outs, hist, news, data) ==> Right(h, r, calls, OP.ReplyDigitsAll(outs), data)
  }

  ghost predicate Answering(h: Host, r: R.Reader, calls: seq<Call>, outs: seq<Codeword>, hist: seq<Word>, news: bool, data: seq<Word>) {
    && R.Formed(r) && r.addrSet == h.addrSet && r.last == h.last && T.Agrees(r, hist)
    && AllReadable(outs, hist) && T.Calm(DecodeAll(outs, hist)) && Answers(T.Heeded(DecodeAll(outs, hist)), h, calls, news, data)
  }

  // Starting from tables that agree, a session always returns what was meant exactly when it is careful.
  lemma {:induction false} CarefulExactly(h: Host, calls: seq<Call>)
    ensures AlwaysRight(h, calls) <==> Careful(h, calls, false)
  {
    hide Answers, Careful, DecodeAll, AllReadable, T.Heeded, T.Calm, OP.ReplyDigitsAll, T.Agrees;
    if Careful(h, calls, false) {
      forall r: R.Reader, outs: seq<Codeword>, hist: seq<Word>, news: bool, data: seq<Word>
        | Answering(h, r, calls, outs, hist, news, data)
        ensures Right(h, r, calls, OP.ReplyDigitsAll(outs), data)
      {
        SessionTaken(h, r, calls, outs, hist, news, false, data);
        TakenIs(h, calls, false, data, HostReads(h, r, calls, OP.ReplyDigitsAll(outs)), NotedAll(outs, hist));
      }
    } else {
      var r := SevenReader(h);
      SevensAnswers(h, calls);
      CarelessWrong(h, r, calls, false);
      assert Answering(h, r, calls, Sevens(h, calls), [7], false, SevenData(calls));
    }
  }

  lemma {:induction false} SevenReader(h: Host) returns (r: R.Reader)
    ensures Sevened(r, false) && T.Agrees(r, [7]) && r.addrSet == h.addrSet && r.last == h.last
  {
    var tbl: seq<Word> := seq(R.READ_TABLE, i => if i == 0 then 7 else 0);
    r := R.Reader(h.addrSet, h.last, tbl, 1, false, false);
    assert R.TableWord(r, 1) == 7;
  }

  // There are such sessions: a read, a write of the same word to another address, and a read of what the write left.
  lemma {:induction false} CarelessSession()
    ensures var h, calls := Host(true, 0, []), [Read(0, false, 1), Write(4, false, [7]), Read(4, false, 1)];
            AllSayable(h, calls) && !Careful(h, calls, false)
  {
    var h, c0, c1, c2 := Host(true, 0, []), Read(0, false, 1), Write(4, false, [7]), Read(4, false, 1);
    var h1, h2 := Send(h, c0).h, Send(Send(h, c0).h, c1).h;
    assert [c0, c1, c2][1..] == [c1, c2] && [c1, c2][1..] == [c2] && [c2][1..] == [];
    assert h1.addrSet && h1.last == 0 && h2.addrSet && h2.last == 4;
    assert Sayable(h, c0) && Sayable(h1, c1) && Sayable(h2, c2);
    hide Send, Sayable;
    assert !Careful(h2, [c2], true);
    assert !Careful(h1, [c1, c2], false);
    assert AllSayable(h2, [c2]) && AllSayable(h1, [c1, c2]);
  }

  // ---- Flags ----

  // Messages among which there is no error and no reset; and, when quiet, no interrupt.
  predicate Harmless(m: Message, quiet: bool) {
    !m.Strange? && (m.Note? ==> m.kind != 3 && m.kind != 5 && (quiet ==> m.kind != 4))
  }
  predicate Peaceful(ms: seq<Message>, quiet: bool) { forall k :: 0 <= k < |ms| ==> Harmless(ms[k], quiet) }

  lemma {:induction false} WovenKeeps(ms: seq<Message>, said: seq<Message>, notes: seq<Message>, quiet: bool)
    requires Woven(ms, said, notes) && Peaceful(said, quiet) && Peaceful(notes, quiet) && forall k :: 0 <= k < |notes| ==> notes[k].Note?
    ensures Peaceful(ms, quiet) && T.Heeded(ms) == T.Heeded(said)
    decreases |ms|
  {
    if ms != [] {
      if said != [] && ms[0] == said[0] && Woven(ms[1..], said[1..], notes) {
        WovenKeeps(ms[1..], said[1..], notes, quiet);
      } else {
        WovenKeeps(ms[1..], said, notes[1..], quiet);
      }
      forall k | 0 < k < |ms| ensures Harmless(ms[k], quiet) { assert ms[k] == ms[1..][k - 1]; }
    }
  }

  // The executor itself says nothing else, as long as nothing goes wrong on the bus.
  lemma {:induction false} MergePeaceful(kinds: seq<E.Kind>, data: seq<Word>)
    ensures Peaceful(Merge(kinds, data), true)
    decreases |kinds|
  {
    if kinds != [] {
      var more := Merge(kinds[1..], if kinds[0].Datum? && data != [] then data[1..] else data);
      MergePeaceful(kinds[1..], if kinds[0].Datum? && data != [] then data[1..] else data);
      assert Merge(kinds, data) == [] || Merge(kinds, data)[1..] == more;
      forall k | 0 < k < |Merge(kinds, data)| ensures Harmless(Merge(kinds, data)[k], true) {
        assert Merge(kinds, data)[k] == more[k - 1];
      }
    }
  }

  lemma {:induction false} PeacefulCalm(ms: seq<Message>, quiet: bool)
    requires Peaceful(ms, quiet)
    ensures T.Calm(ms)
  {
  }

  // Such codewords.
  predicate Mild(op: Digit, quiet: bool) { op != 3 && op != 5 && (quiet ==> op != 4) }
  predicate AllMild(outs: seq<Codeword>, quiet: bool) { forall k :: 0 <= k < |outs| ==> outs[k].op / 8 != 6 && Mild(outs[k].op, quiet) }

  lemma {:induction false} MildCodes(outs: seq<Codeword>, hist: seq<Word>, quiet: bool)
    requires AllReadable(outs, hist) && Peaceful(DecodeAll(outs, hist), quiet)
    ensures AllMild(outs, quiet)
    decreases |outs|
  {
    if outs != [] {
      var ms, more := DecodeAll(outs, hist), DecodeAll(outs[1..], Noted(outs[0], hist));
      assert ms[0] == Understood(outs[0], hist);
      assert ms == [ms[0]] + more && more == ms[1..];
      forall k | 0 <= k < |more| ensures more[k] == ms[k + 1] {}
      MildCodes(outs[1..], Noted(outs[0], hist), quiet);
      forall k | 0 < k < |outs| ensures outs[k].op / 8 != 6 && Mild(outs[k].op, quiet) { assert outs[k] == outs[1..][k - 1]; }
    }
  }

  predicate SameFlags(r: R.Reader, s: R.Reader, quiet: bool) { s.busErr == r.busErr && (quiet ==> s.interrupt == r.interrupt) }

  lemma {:induction false} MildAfter(r: R.Reader, code: seq<Digit>, quiet: bool)
    requires R.IsReply(code) && R.Formed(r) && Mild(code[0], quiet)
    ensures SameFlags(r, R.After(r, code), quiet) && !(R.Reading(code, r).Note? && R.Reading(code, r).kind in {3, 5})
  {
    hide R.TableWord, Value;
  }

  lemma {:induction false} ReadPeace(r: R.Reader, val: Word, ds: seq<Digit>, quiet: bool)
    requires R.Formed(r) && ds != [] && |ds| >= R.HostLen(ds[0]) && Mild(ds[0], quiet)
    ensures var n := R.HostLen(ds[0]);
            var m, s := R.Reading(ds[..n], r), R.After(r, ds[..n]);
            && R.Formed(s) && SameFlags(r, s, quiet)
            && R.ReadWord(r, val, ds) == match m
                                         case Datum(v, _) => R.Got(s, v, ds[n..])
                                         case Place(a) => R.ReadWord(s, a, ds[n..])
                                         case Note(_) => R.ReadWord(s, val, ds[n..])
                                         case Strange => R.Got(s, val, ds[n..])
  {
    MildAfter(r, ds[..R.HostLen(ds[0])], quiet);
    hide R.Reading, R.After, R.HostLen, SameFlags;
  }

  lemma {:induction false} WordFlags(r: R.Reader, val: Word, outs: seq<Codeword>, quiet: bool) returns (rest: seq<Codeword>)
    requires R.Formed(r) && AllMild(outs, quiet)
    ensures var o := R.ReadWord(r, val, OP.ReplyDigitsAll(outs));
            && AllMild(rest, quiet) && (o.Got? ==> SameFlags(r, o.r, quiet) && o.rest == OP.ReplyDigitsAll(rest))
    decreases |outs|
  {
    hide R.Reading, R.After, R.HostLen, SameFlags, OP.ReplyDigits, OP.ReplyDigitsAll;
    rest := [];
    if outs == [] {
      assert R.ReadWord(r, val, OP.ReplyDigitsAll([])).Starved? by { NoDigits(r, val); }
    } else {
      var ds := OP.ReplyDigitsAll(outs);
      assert outs[0].op / 8 != 6;
      T.FirstReply(outs);
      ReadPeace(r, val, ds, quiet);
      var n := R.HostLen(ds[0]);
      var m, s := R.Reading(ds[..n], r), R.After(r, ds[..n]);
      hide R.ReadWord;
      assert AllMild(outs[1..], quiet);
      if m.Datum? || m.Strange? { rest := outs[1..]; }
      else {
        rest := WordFlags(s, if m.Place? then m.addr else val, outs[1..], quiet);
        FlagsOn(r, s, R.ReadWord(r, val, ds).r, quiet);
      }
    }
  }

  lemma {:induction false} FlagsOn(r: R.Reader, s: R.Reader, t: R.Reader, quiet: bool)
    requires SameFlags(r, s, quiet)
    ensures SameFlags(s, t, quiet) ==> SameFlags(r, t, quiet)
  {
  }

  lemma {:induction false} NoDigits(r: R.Reader, val: Word)
    requires R.Formed(r)
    ensures OP.ReplyDigitsAll([]) == [] && R.ReadWord(r, val, []).Starved?
  {
  }

  lemma {:induction false} WordsFlags(r: R.Reader, n: nat, outs: seq<Codeword>, quiet: bool) returns (rest: seq<Codeword>)
    requires R.Formed(r) && AllMild(outs, quiet)
    ensures var o := R.ReadWords(r, n, OP.ReplyDigitsAll(outs));
            && AllMild(rest, quiet) && (o.AllGot? ==> SameFlags(r, o.r, quiet) && o.rest == OP.ReplyDigitsAll(rest))
    decreases n
  {
    hide R.ReadWord, OP.ReplyDigitsAll;
    rest := outs;
    if n > 0 {
      rest := WordFlags(r, 0, outs, quiet);
      var o := R.ReadWord(r, 0, OP.ReplyDigitsAll(outs));
      if o.Got? { rest := WordsFlags(o.r, n - 1, rest, quiet); }
    }
  }

  lemma {:induction false} HostFlags(h: Host, r: R.Reader, calls: seq<Call>, outs: seq<Codeword>, quiet: bool)
    requires R.Formed(r) && AllMild(outs, quiet)
    ensures var b := HostReads(h, r, calls, OP.ReplyDigitsAll(outs)); b.Back? ==> SameFlags(r, b.r, quiet)
    decreases |calls|
  {
    hide R.ReadWords, OP.ReplyDigitsAll, Send, Idle, AllMild;
    if calls != [] {
      var c, next, more := calls[0], Send(h, calls[0]).h, calls[1..];
      var start := AfterAddress(r, c.a);
      if Idle(c) {
        HostFlags(next, r, more, outs, quiet);
      } else if c.Write? {
        HostFlags(next, start.(addrSet := true, last := next.last), more, outs, quiet);
      } else {
        var rest := WordsFlags(start, c.len, outs, quiet);
        var o := R.ReadWords(start, c.len, OP.ReplyDigitsAll(outs));
        if o.AllGot? { HostFlags(next, o.r, more, rest, quiet); }
      }
    }
  }

  // The same session, with the stage between executor and compressor that puts notes among the replies: idle notes and
  // notes of interrupts leave every answer as it was, and the flag of bus errors; and the host's interrupt flag changes only
  // if an interrupt was raised.
  lemma {:induction false} SessionUndisturbed(h: Host, f: Fpga, calls: seq<Call>, p: I.Pipe, keys: seq<P.Key>, s: Sys,
                                              ins: seq<In>, w: W.Regs, wins: seq<W.In>, y: Y.Path, yins: seq<Y.In>,
                                              r: R.Reader, spoiled: bool, quiet: bool)
    requires InSync(h, f) && AllSayable(h, calls) && Careful(h, calls, spoiled)
    requires R.Formed(r) && r.addrSet == h.addrSet && r.last == h.last && (!spoiled ==> T.Agrees(r, y.c.hist))
    requires P.InPhase(p, f.r, P.Idle) && P.Typed(keys) == SendAll(h, calls).chars
    requires forall k :: 0 <= k < |keys| ==> |keys[k].idle| >= P.SETTLE
    requires E.Inv(s) && s.x.state.Resting? && s.x.addr == f.e.addr && E.LegalAll(s, ins)
    requires I.Formed(p) && E.Commands(ins) == I.Outputs(p, P.Clocks(keys)) && E.Run(s, ins).x.state.Resting?
    requires W.Waiting(w) == [] && W.TakenAll(w, wins) == RepliesAll(s, ins) && W.Waiting(W.Run(w, wins)) == []
    requires quiet ==> !w.request && forall k :: 0 <= k < |wins| ==> !wins[k].interrupt
    requires Y.Invariant(y) && Y.Drained(y) && Y.Given(y, yins) == W.PassedAll(w, wins) && Y.Drained(Y.Run(y, yins))
    ensures var b := HostReads(h, r, calls, Stripped(Y.Sent(y, yins)));
            && b.Back? && b.answers == Dealt(calls, E.Shown(s, ins).fetched) && b.r.last == SendAll(h, calls).h.last
            && b.r.busErr == r.busErr && (quiet ==> b.r.interrupt == r.interrupt)
  {
    assert Y.Formed(y);
    hide *;
    var news := SessionFeeds(h, f, calls, p, keys, s, ins);
    RepliesWoven(s, ins, w, wins, quiet);
    SessionReturns(h, f, calls, p, keys, s, ins, y, yins, r, spoiled);
    FlagsBack(h, r, calls, y, yins, quiet);
  }

  lemma {:induction false} RepliesWoven(s: Sys, ins: seq<In>, w: W.Regs, wins: seq<W.In>, quiet: bool)
    requires E.Inv(s) && E.FedAll(s, ins)
    requires W.Waiting(w) == [] && W.TakenAll(w, wins) == RepliesAll(s, ins) && W.Waiting(W.Run(w, wins)) == []
    requires quiet ==> !w.request && forall k :: 0 <= k < |wins| ==> !wins[k].interrupt
    ensures var ms := C.SaidAll(W.PassedAll(w, wins));
            T.Calm(ms) && Peaceful(ms, quiet) && T.Heeded(ms) == T.Heeded(C.SaidAll(RepliesAll(s, ins)))
  {
    hide *;
    var outs, notes := W.PassedAll(w, wins), W.MadeAll(w, wins);
    var all := W.NotesBetween(w, wins);
    assert outs == outs + [] == [] + all == all;
    SaidRun(s, ins);
    MergePeaceful(E.Shown(s, ins).kinds, E.Shown(s, ins).returned);
    if quiet { W.NoInterrupts(w, wins); }
    NotesMild(w, wins);
    MessagesWoven(outs, RepliesAll(s, ins), notes);
    NotesPeaceful(notes, quiet);
    PeacefulLess(C.SaidAll(RepliesAll(s, ins)), quiet);
    WovenKeeps(C.SaidAll(outs), C.SaidAll(RepliesAll(s, ins)), C.SaidAll(notes), quiet);
    PeacefulCalm(C.SaidAll(outs), quiet);
  }

  lemma {:induction false} PeacefulLess(ms: seq<Message>, quiet: bool)
    requires Peaceful(ms, true)
    ensures Peaceful(ms, quiet)
  {
  }

  lemma {:induction false} NotesMild(w: W.Regs, wins: seq<W.In>)
    ensures forall k :: 0 <= k < |W.MadeAll(w, wins)| ==> W.MadeAll(w, wins)[k].op in {0, 1, 4}
    decreases |wins|
  {
    if wins != [] {
      NotesMild(W.Step(w, wins[0]), wins[1..]);
      hide W.Step;
    }
  }

  lemma {:induction false} NotesPeaceful(notes: seq<Codeword>, quiet: bool)
    requires forall k :: 0 <= k < |notes| ==> notes[k].op in {0, 1, 4} && (quiet ==> notes[k].op < 2)
    ensures Peaceful(C.SaidAll(notes), quiet) && forall k :: 0 <= k < |C.SaidAll(notes)| ==> C.SaidAll(notes)[k].Note?
  {
  }

  lemma {:induction false} MessagesWoven(all: seq<Codeword>, a: seq<Codeword>, b: seq<Codeword>)
    requires Woven(all, a, b)
    ensures Woven(C.SaidAll(all), C.SaidAll(a), C.SaidAll(b))
    decreases |all|
  {
    if all != [] {
      var ms, more := C.SaidAll(all), C.SaidAll(all[1..]);
      assert ms == [Said(all[0])] + more;
      if a != [] && all[0] == a[0] && Woven(all[1..], a[1..], b) {
        MessagesWoven(all[1..], a[1..], b);
        assert C.SaidAll(a) == [Said(a[0])] + C.SaidAll(a[1..]);
        WovenFirst(Said(a[0]), more, C.SaidAll(a[1..]), C.SaidAll(b));
      } else {
        MessagesWoven(all[1..], a, b[1..]);
        assert C.SaidAll(b) == [Said(b[0])] + C.SaidAll(b[1..]);
        WovenSecond(Said(b[0]), more, C.SaidAll(a), C.SaidAll(b[1..]));
      }
      hide Said;
    }
  }

  lemma {:induction false} FlagsBack(h: Host, r: R.Reader, calls: seq<Call>, y: Y.Path, yins: seq<Y.In>, quiet: bool)
    requires R.Formed(r) && Y.Invariant(y) && Y.Drained(y) && Y.Drained(Y.Run(y, yins))
    requires Peaceful(C.SaidAll(Y.Given(y, yins)), quiet)
    ensures var b := HostReads(h, r, calls, Stripped(Y.Sent(y, yins)));
            b.Back? ==> b.r.busErr == r.busErr && (quiet ==> b.r.interrupt == r.interrupt)
  {
    assert Y.Formed(y);
    hide *;
    PeacefulCalm(C.SaidAll(Y.Given(y, yins)), quiet);
    CalmClear(C.SaidAll(Y.Given(y, yins)), Y.Given(y, yins));
    var outs := Y.PathLossless(y, yins);
    MildCodes(outs, y.c.hist, quiet);
    HostFlags(h, r, calls, outs, quiet);
    FlagsAre(r, HostReads(h, r, calls, OP.ReplyDigitsAll(outs)), quiet);
  }

  lemma {:induction false} FlagsAre(r: R.Reader, b: Back, quiet: bool)
    ensures b.Back? && SameFlags(r, b.r, quiet) ==> b.r.busErr == r.busErr && (quiet ==> b.r.interrupt == r.interrupt)
  {
  }
}
