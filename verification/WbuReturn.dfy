// The reply direction, from the codewords that the compressor passes on to the words that readv returns.
module WbuReturn {
  import opened WbuCode
  import opened WbuReply
  import opened WbuRead
  import O = WbuOutput
  import OP = WbuOutputProof

  // ---- The two tables ----

  // The host has the words sent raw since the last address, counting back from wherever it writes next.
  ghost predicate Agrees(r: Reader, hist: seq<Word>) {
    Formed(r) && forall k :: 1 <= k < READ_TABLE && k <= |hist| ==> TableWord(r, k) == Recent(hist, k)
  }

  // ---- Digits of a reply ----

  lemma {:induction false} ShiftedTop(w: Low)
    ensures O.Shifted(w) / 0x100_0000 == w / 0x4_0000 % 64
    ensures O.Shifted(w) / 0x4_0000 % 64 == w / 0x1000 % 64
    ensures O.Shifted(w) / 0x1000 % 64 == w / 64 % 64
    ensures O.Shifted(w) / 64 % 64 == w % 64
  {
    var rest := w % 0x100_0000;
    assert O.Shifted(w) == rest * 64 + w % 64;
    assert (rest * 64 + w % 64) / 0x100_0000 == rest / 0x4_0000;
    assert (rest * 64 + w % 64) / 0x4_0000 == rest / 0x1000;
    assert (rest * 64 + w % 64) / 0x1000 == rest / 64;
    assert (rest * 64 + w % 64) / 64 == rest;
    RestDigits(w, rest);
  }

  lemma {:induction false} RestDigits(w: Low, rest: nat)
    requires rest == w % 0x100_0000
    ensures rest / 0x4_0000 == w / 0x4_0000 % 64 && rest / 0x1000 % 64 == w / 0x1000 % 64
            && rest / 64 % 64 == w / 64 % 64 && rest % 64 == w % 64
  {
    var q := w / 0x100_0000;
    assert w == q * 0x100_0000 + rest;
    assert (q * 0x100_0000 + rest) / 0x4_0000 == q * 64 + rest / 0x4_0000;
    assert (q * 0x100_0000 + rest) / 0x1000 == q * 0x1000 + rest / 0x1000;
    assert (q * 0x100_0000 + rest) / 64 == q * 0x4_0000 + rest / 64;
  }

  lemma {:induction false} LeadingDigits(w: Low, n: nat)
    requires n <= 5
    ensures OP.Leading(w, n) == Digits5(w)[..n]
  {
    var a := O.Shifted(w);
    var b := O.Shifted(a);
    var c := O.Shifted(b);
    var d := O.Shifted(c);
    ShiftedTop(w);
    ShiftedTop(a);
    ShiftedTop(b);
    ShiftedTop(c);
    assert w / 0x100_0000 % 64 == w / 0x100_0000;
    hide O.Shifted, OP.Leading;
    LeadingMore(w, n);
    if n > 1 { LeadingMore(a, n - 1); }
    if n > 2 { LeadingMore(b, n - 2); }
    if n > 3 { LeadingMore(c, n - 3); }
    if n > 4 {
      LeadingMore(d, n - 4);
      LeadingMore(O.Shifted(d), 0);
    }
    if 1 <= n < 5 { LeadingMore(match n case 1 => a case 2 => b case 3 => c case _ => d, 0); }
  }

  lemma {:induction false} LeadingMore(w: Low, n: nat)
    ensures OP.Leading(w, n) == if n == 0 then [] else [w / 0x100_0000] + OP.Leading(O.Shifted(w), n - 1)
  {
  }

  // The first n digits of a number spell what is left of it when the others are cut off.
  lemma {:induction false} LeadingValue(w: Low, n: nat)
    requires 1 <= n <= 5
    ensures Value(0, OP.Leading(w, n))
            == match n case 1 => w / 0x100_0000 case 2 => w / 0x4_0000 case 3 => w / 0x1000 case 4 => w / 64 case _ => w
  {
    LeadingDigits(w, n);
    var a, b, c, d := w / 0x100_0000, w / 0x4_0000, w / 0x1000, w / 64;
    var ds := Digits5(w)[..n];
    match n
    case 1 => ValueTail(0, a, a, []); assert ds == [a] + [];
    case 2 => Value2(b); assert ds == Digits2(b) by { assert b / 64 == a; }
    case 3 => Value3(c); assert ds == Digits3(c) by { assert c / 64 == b && c / 0x1000 == a; }
    case 4 => Value4(d); assert ds == Digits4(d) by { assert d / 64 == c && d / 0x1000 == b && d / 0x4_0000 == a; }
    case _ => Value5(w); assert ds == Digits5(w);
  }

  // ---- One reply ----

  lemma {:induction false} SameLength(op: Digit)
    requires op / 8 != 6
    ensures HostLen(op) == O.ReplyLen(op)
  {
  }

  // What a long reply makes of its five digits.
  lemma {:induction false} LongRead(w: Codeword, r: Reader)
    requires Formed(r) && O.ReplyLen(w.op) == 6 && w.op / 8 != 6
    ensures var ds := OP.ReplyDigits(w); IsReply(ds) && ds[0] == w.op && Value(0, ds[1..]) == w.low
  {
    SameLength(w.op);
    LeadingValue(w.low, 5);
    assert OP.ReplyDigits(w)[1..] == OP.Leading(w.low, 5);
    hide OP.Leading, Value;
  }

  lemma {:induction false} ShortRead(w: Codeword, r: Reader)
    requires Formed(r) && w.op / 4 == 3
    ensures var ds := OP.ReplyDigits(w);
            && IsReply(ds) && ds[0] == w.op
            && Value(0, ds[1..]) == match w.op case 12 => w.low / 0x100_0000 case 13 => w.low / 0x4_0000
                                    case 14 => w.low / 0x1000 case _ => w.low / 64
  {
    SameLength(w.op);
    LeadingValue(w.low, 1 + w.op % 4);
    assert OP.ReplyDigits(w)[1..] == OP.Leading(w.low, 1 + w.op % 4);
    hide OP.Leading, Value;
  }

  lemma {:induction false} AddressRead(w: Codeword, r: Reader, hist: seq<Word>)
    requires Formed(r) && w.op / 8 == 1
    ensures var ds := OP.ReplyDigits(w); IsReply(ds) && Reading(ds, r) == Understood(w, hist)
  {
    if w.op / 4 == 2 { FullAddress(w, r, hist); } else { ShortAddress(w, r, hist); }
    hide OP.ReplyDigits, Reading, Understood, IsReply;
  }

  lemma {:induction false} FullAddress(w: Codeword, r: Reader, hist: seq<Word>)
    requires Formed(r) && w.op / 4 == 2
    ensures var ds := OP.ReplyDigits(w); IsReply(ds) && Reading(ds, r) == Understood(w, hist)
  {
    LongRead(w, r);
    assert w.op >= 6 && w.op % 4 * 0x4000_0000 + w.low < 0x1_0000_0000;
    hide OP.ReplyDigits, Value, TableWord, HostLen;
  }

  lemma {:induction false} ShortAddress(w: Codeword, r: Reader, hist: seq<Word>)
    requires Formed(r) && w.op / 4 == 3
    ensures var ds := OP.ReplyDigits(w); IsReply(ds) && Reading(ds, r) == Understood(w, hist)
  {
    hide OP.ReplyDigits, Value, TableWord, HostLen;
    ShortRead(w, r);
    var v := Value(0, OP.ReplyDigits(w)[1..]);
    assert v < 0x1_0000_0000;
    if w.op == 12 { assert v == w.low / 0x100_0000; }
    else if w.op == 13 { assert v == w.low / 0x4_0000; }
    else if w.op == 14 { assert v == w.low / 0x1000; }
    else { assert w.op == 15 && v == w.low / 64; }
  }

  lemma {:induction false} RawRead(w: Codeword, r: Reader, hist: seq<Word>)
    requires Formed(r) && w.op / 8 == 7
    ensures var ds := OP.ReplyDigits(w); IsReply(ds) && Reading(ds, r) == Understood(w, hist) == Datum(Data(w), w.op % 2 == 1)
  {
    LongRead(w, r);
    assert w.op / 16 == 3 && w.op / 4 >= 14 && w.op / 2 >= 28;
    hide OP.ReplyDigits, Value, TableWord, HostLen;
  }

  lemma {:induction false} RefRead(w: Codeword, r: Reader, hist: seq<Word>)
    requires Agrees(r, hist) && Readable(w, hist) && Back(w) != 0
    ensures var ds := OP.ReplyDigits(w);
            IsReply(ds) && Reading(ds, r) == Understood(w, hist) == Datum(Recent(hist, Back(w)), w.op % 2 == 1)
  {
    SameLength(w.op);
    LeadingValue(w.low, 1);
    assert TableWord(r, Back(w)) == Recent(hist, Back(w));
    assert OP.ReplyDigits(w)[1..] == OP.Leading(w.low, O.ReplyLen(w.op) - 1);
    hide OP.Leading, Value, TableWord;
  }

  lemma {:induction false} NoteRead(w: Codeword, r: Reader, hist: seq<Word>)
    requires Formed(r) && w.op < 6
    ensures var ds := OP.ReplyDigits(w); IsReply(ds) && Reading(ds, r) == Understood(w, hist) == Note(w.op)
  {
    hide OP.Leading, Value;
  }

  lemma {:induction false} TableGrows(r: Reader, hist: seq<Word>, v: Word)
    requires Agrees(r, hist)
    ensures Agrees(r.(tbl := r.tbl[r.rd := v], rd := (r.rd + 1) % READ_TABLE), hist + [v])
  {
    var s, now := r.(tbl := r.tbl[r.rd := v], rd := (r.rd + 1) % READ_TABLE), hist + [v];
    forall k | 1 <= k < READ_TABLE && k <= |now| ensures TableWord(s, k) == Recent(now, k) {
      if k > 1 {
        assert (s.rd - k) % READ_TABLE == (r.rd - (k - 1)) % READ_TABLE != r.rd;
        assert TableWord(r, k - 1) == Recent(hist, k - 1);
      } else {
        assert (s.rd - 1) % READ_TABLE == r.rd;
      }
    }
  }

  // The host reads a codeword as it was meant, and its table keeps agreeing.
  lemma {:induction false} ReplyRead(w: Codeword, r: Reader, hist: seq<Word>)
    requires Agrees(r, hist) && Readable(w, hist)
    ensures var ds := OP.ReplyDigits(w);
            && IsReply(ds) && Reading(ds, r) == Understood(w, hist) != Strange
            && Agrees(After(r, ds), Noted(w, hist))
            && (Understood(w, hist).Datum? ==> w.op / 8 != 1)
  {
    var ds := OP.ReplyDigits(w);
    assert ds[0] == w.op;
    if w.op < 6 { NoteRead(w, r, hist); AfterNote(r, ds, hist); }
    else if w.op / 8 == 1 { AddressRead(w, r, hist); PlaceUnderstood(w, hist); AfterPlace(r, ds); }
    else if w.op / 8 == 7 {
      RawRead(w, r, hist);
      TableGrows(r, hist, Data(w));
    } else {
      assert Back(w) != 0;
      RefRead(w, r, hist);
    }
    hide OP.ReplyDigits, Agrees, Reading, Understood, After, Readable, IsReply;
  }

  lemma {:induction false} PlaceUnderstood(w: Codeword, hist: seq<Word>)
    requires w.op / 8 == 1
    ensures Understood(w, hist).Place?
  {
  }

  lemma {:induction false} AfterNote(r: Reader, ds: seq<Digit>, hist: seq<Word>)
    requires IsReply(ds) && Agrees(r, hist) && Reading(ds, r).Note?
    ensures Agrees(After(r, ds), hist)
  {
    SameTable(r, After(r, ds), hist);
  }

  lemma {:induction false} AfterPlace(r: Reader, ds: seq<Digit>)
    requires IsReply(ds) && Formed(r) && Reading(ds, r).Place?
    ensures Agrees(After(r, ds), [])
  {
  }

  lemma {:induction false} SameTable(r: Reader, s: Reader, hist: seq<Word>)
    requires Agrees(r, hist) && s.tbl == r.tbl && s.rd == r.rd
    ensures Agrees(s, hist)
  {
    forall k | 1 <= k < READ_TABLE && k <= |hist| ensures TableWord(s, k) == Recent(hist, k) {
      assert TableWord(r, k) == Recent(hist, k);
    }
  }

  // ---- Many replies ----

  function Words(ms: seq<Message>): seq<Word> {
    if ms == [] then [] else (if ms[0].Datum? then [ms[0].data] else []) + Words(ms[1..])
  }

  // Where the messages leave the byte address.
  function Moved(m: Message, last: Word): Word {
    match m
    case Place(a) => a * 4 % 0x1_0000_0000
    case Datum(_, inc) => if inc then (last + 4) % 0x1_0000_0000 else last
    case _ => last
  }

  function LastAfter(ms: seq<Message>, last: Word): Word
    decreases |ms|
  {
    if ms == [] then last else LastAfter(ms[1..], Moved(ms[0], last))
  }

  // No bus error, and no reset, among the messages.
  predicate Calm(ms: seq<Message>) {
    forall k :: 0 <= k < |ms| ==> !ms[k].Strange? && (ms[k].Note? ==> ms[k].kind != 3 && ms[k].kind != 5)
  }

  // What the host heeds: everything but the notes.
  function Heeded(ms: seq<Message>): seq<Message> {
    if ms == [] then [] else (if ms[0].Note? then [] else [ms[0]]) + Heeded(ms[1..])
  }

  lemma {:induction false} HeededApart(a: seq<Message>, b: seq<Message>)
    ensures Heeded(a + b) == Heeded(a) + Heeded(b)
  {
    if a == [] {
      assert a + b == b;
    } else {
      assert (a + b)[1..] == a[1..] + b;
      HeededApart(a[1..], b);
    }
  }

  lemma {:induction false} FirstReply(outs: seq<Codeword>)
    requires outs != [] && outs[0].op / 8 != 6
    ensures var ds, n := OP.ReplyDigitsAll(outs), HostLen(outs[0].op);
            && |ds| >= n && ds != [] && ds[0] == outs[0].op
            && ds[..n] == OP.ReplyDigits(outs[0]) && ds[n..] == OP.ReplyDigitsAll(outs[1..])
  {
    SameLength(outs[0].op);
    hide OP.Leading;
  }

  lemma {:induction false} AfterMoves(r: Reader, w: Codeword, hist: seq<Word>)
    requires Agrees(r, hist) && Readable(w, hist)
    ensures var ds := OP.ReplyDigits(w);
            && IsReply(ds) && Reading(ds, r) == Understood(w, hist) != Strange && Agrees(After(r, ds), Noted(w, hist))
            && After(r, ds).last == Moved(Understood(w, hist), r.last)
            && After(r, ds).addrSet == (r.addrSet || Understood(w, hist).Place?)
  {
    ReplyRead(w, r, hist);
    hide OP.ReplyDigits, Understood, Agrees, Noted, Reading, IsReply;
  }

  lemma {:induction false} HeededFirst(ms: seq<Message>, n: nat, last: Word)
    requires ms != [] && n < |Heeded(ms)| && Heeded(ms)[n].Datum? && forall k :: 0 <= k < n ==> Heeded(ms)[k].Place?
    ensures var hs, more := Heeded(ms), Heeded(ms[1..]);
            && if ms[0].Note? then hs == more
               else hs == [ms[0]] + more && hs[1..] == more && (ms[0].Datum? <==> n == 0)
                    && LastAfter(hs[..n + 1], last) == LastAfter(more[..n], Moved(ms[0], last))
                    && (n == 0 ==> LastAfter(more[..n], Moved(ms[0], last)) == Moved(ms[0], last))
  {
    if !ms[0].Note? {
      var hs, more := Heeded(ms), Heeded(ms[1..]);
      assert hs == [ms[0]] + more;
      assert hs[..n + 1] == [ms[0]] + more[..n] && ([ms[0]] + more[..n])[1..] == more[..n];
    }
  }

  predicate IsError(m: Message) { m == Note(3) || m == Note(5) }
  predicate IsInterrupt(m: Message) { m == Note(4) }

  // What one reply does to the two flags.
  lemma {:induction false} FlagsAfter(r: Reader, ds: seq<Digit>)
    requires Formed(r) && IsReply(ds)
    ensures var m, s := Reading(ds, r), After(r, ds);
            s.interrupt == (r.interrupt || IsInterrupt(m)) && s.busErr == (r.busErr || IsError(m))
  {
    hide TableWord, Value;
  }

  // readword on one reply.
  lemma {:induction false} ReadReply(r: Reader, val: Word, w: Codeword, outs: seq<Codeword>, hist: seq<Word>)
      returns (s: Reader)
    requires Agrees(r, hist) && Readable(w, hist)
    ensures Formed(r) && Agrees(s, Noted(w, hist)) && Formed(s)
    ensures var m, rest := Understood(w, hist), OP.ReplyDigitsAll(outs);
            && m != Strange && s.last == Moved(m, r.last) && s.addrSet == (r.addrSet || m.Place?)
            && s.interrupt == (r.interrupt || IsInterrupt(m)) && s.busErr == (r.busErr || IsError(m))
            && ReadWord(r, val, OP.ReplyDigitsAll([w] + outs))
               == match m
                  case Datum(v, _) => Got(s, v, rest)
                  case Place(a) => ReadWord(s, a, rest)
                  case Note(k) => if k == 3 || k == 5 then Thrown(s, rest) else ReadWord(s, val, rest)
                  case Strange => Got(s, val, rest)
  {
    hide Agrees, Readable, Understood, Noted, OP.ReplyDigits, OP.ReplyDigitsAll, IsReply, Reading, After, HostLen, Moved;
    var all := [w] + outs;
    assert all[0] == w && all[1..] == outs;
    ReadableOp(w, hist);
    FirstReply(all);
    AfterMoves(r, w, hist);
    AgreesFormed(r, hist);
    s := After(r, OP.ReplyDigits(w));
    FlagsAfter(r, OP.ReplyDigits(w));
    AgreesFormed(s, Noted(w, hist));
  }

  lemma {:induction false} DecodedFirst(outs: seq<Codeword>, hist: seq<Word>)
    requires AllReadable(outs, hist) && Calm(DecodeAll(outs, hist)) && DecodeAll(outs, hist) != []
    ensures outs != []
    ensures var ms, w, more := DecodeAll(outs, hist), outs[0], outs[1..];
            var later := Noted(w, hist);
            && outs == [w] + more && Readable(w, hist) && AllReadable(more, later) && Calm(DecodeAll(more, later))
            && ms[0] == Understood(w, hist) && ms[1..] == DecodeAll(more, later)
            && NotedAll(outs, hist) == NotedAll(more, later) && (ms[0].Note? ==> ms[0].kind != 3 && ms[0].kind != 5)
  {
    hide Understood, Noted, Readable;
    var ms, rest := DecodeAll(outs, hist), DecodeAll(outs[1..], Noted(outs[0], hist));
    assert ms == [ms[0]] + rest;
    assert forall k :: 0 <= k < |rest| ==> rest[k] == ms[k + 1];
  }

  // readword passes over notes, and over the n addresses before the next word, and takes that.
  lemma {:induction false} NextWord(r: Reader, val: Word, outs: seq<Codeword>, hist: seq<Word>, n: nat)
      returns (s: Reader, rest: seq<Codeword>, now: seq<Word>)
    requires Agrees(r, hist) && AllReadable(outs, hist) && Calm(DecodeAll(outs, hist))
    requires var hs := Heeded(DecodeAll(outs, hist)); n < |hs| && hs[n].Datum? && forall k :: 0 <= k < n ==> hs[k].Place?
    ensures Agrees(s, now) && AllReadable(rest, now) && Calm(DecodeAll(rest, now)) && NotedAll(rest, now) == NotedAll(outs, hist)
    ensures var hs := Heeded(DecodeAll(outs, hist));
            && Formed(r) && ReadWord(r, val, OP.ReplyDigitsAll(outs)) == Got(s, hs[n].data, OP.ReplyDigitsAll(rest))
            && Heeded(DecodeAll(rest, now)) == hs[n + 1..]
            && s.last == LastAfter(hs[..n + 1], r.last) && s.addrSet == (r.addrSet || n > 0)
    decreases |outs|
  {
    hide *;
    SomeHeeded(DecodeAll(outs, hist), n);
    DecodedFirst(outs, hist);
    var w, ms, more := outs[0], DecodeAll(outs, hist), outs[1..];
    var m, later := ms[0], Noted(w, hist);
    HeededFirst(ms, n, r.last);
    var t := ReadReply(r, val, w, more, hist);
    if m.Datum? {
      s, rest, now := t, more, later;
    } else if m.Place? {
      s, rest, now := NextWord(t, m.addr, more, later, n - 1);
    } else {
      s, rest, now := NextWord(t, val, more, later, n);
      SameAddress(m, r.last);
    }
  }

  lemma {:induction false} SomeHeeded(ms: seq<Message>, n: nat)
    requires n < |Heeded(ms)|
    ensures ms != []
  {
  }

  lemma {:induction false} SameAddress(m: Message, last: Word)
    requires m.Note?
    ensures Moved(m, last) == last
  {
  }

  lemma {:induction false} ReadableOp(w: Codeword, hist: seq<Word>)
    requires Readable(w, hist)
    ensures w.op / 8 != 6
  {
  }

  lemma {:induction false} AgreesFormed(r: Reader, hist: seq<Word>)
    requires Agrees(r, hist)
    ensures Formed(r)
  {
  }

  lemma {:induction false} WordsApart(a: seq<Message>, b: seq<Message>)
    ensures Words(a + b) == Words(a) + Words(b)
    decreases |a|
  {
    if a == [] {
      assert a + b == b;
    } else {
      assert (a + b)[1..] == a[1..] + b && (a + b)[0] == a[0];
      WordsApart(a[1..], b);
    }
  }

  lemma {:induction false} LastApart(a: seq<Message>, b: seq<Message>, last: Word)
    ensures LastAfter(a + b, last) == LastAfter(b, LastAfter(a, last))
    decreases |a|
  {
    hide Moved;
    if a == [] {
      assert a + b == b;
    } else {
      assert (a + b)[1..] == a[1..] + b && (a + b)[0] == a[0];
      LastApart(a[1..], b, Moved(a[0], last));
    }
  }

  lemma {:induction false} NoWords(ms: seq<Message>)
    requires forall k :: 0 <= k < |ms| ==> ms[k].Place?
    ensures Words(ms) == []
  {
    if ms != [] { NoWords(ms[1..]); }
  }

  // readv, fed the digits of any codewords that can be read, among them n that the host heeds, the last of these a
  // word: it returns every word among them, in order, and knows the address then, and the tables agree again.
  lemma {:induction false} WordsRead(r: Reader, outs: seq<Codeword>, hist: seq<Word>, n: nat)
      returns (s: Reader, rest: seq<Codeword>, now: seq<Word>)
    requires Agrees(r, hist) && AllReadable(outs, hist) && Calm(DecodeAll(outs, hist))
    requires var hs := Heeded(DecodeAll(outs, hist));
             n <= |hs| && (n > 0 ==> hs[n - 1].Datum?) && forall k :: 0 <= k < n ==> hs[k].Place? || hs[k].Datum?
    ensures Agrees(s, now) && AllReadable(rest, now) && Calm(DecodeAll(rest, now)) && NotedAll(rest, now) == NotedAll(outs, hist)
    ensures Formed(r)
    ensures var hs := Heeded(DecodeAll(outs, hist));
            && ReadWords(r, |Words(hs[..n])|, OP.ReplyDigitsAll(outs)) == AllGot(s, Words(hs[..n]), OP.ReplyDigitsAll(rest))
            && Heeded(DecodeAll(rest, now)) == hs[n..]
            && s.last == LastAfter(hs[..n], r.last)
            && (s.addrSet <==> r.addrSet || exists k :: 0 <= k < n && hs[k].Place?)
    decreases n
  {
    hide Agrees, AllReadable, Calm, ReadWord, DecodeAll, OP.ReplyDigitsAll, NotedAll, Heeded;
    AgreesFormed(r, hist);
    var hs := Heeded(DecodeAll(outs, hist));
    if n == 0 {
      s, rest, now := r, outs, hist;
    } else {
      var k := 0;
      while !hs[k].Datum?
        invariant 0 <= k < n && forall j :: 0 <= j < k ==> hs[j].Place?
        decreases n - k
      {
        k := k + 1;
      }
      var t, more, later := NextWord(r, 0, outs, hist, k);
      s, rest, now := WordsRead(t, more, later, n - (k + 1));
      Joined(hs, k, n, r.last);
      hide Words, LastAfter;
    }
  }

  lemma {:induction false} Joined(hs: seq<Message>, k: nat, n: nat, last: Word)
    requires k < n <= |hs| && hs[k].Datum? && forall j :: 0 <= j < k ==> hs[j].Place?
    ensures hs[k + 1..][..n - (k + 1)] == hs[k + 1..n]
    ensures Words(hs[..n]) == [hs[k].data] + Words(hs[k + 1..n])
    ensures LastAfter(hs[..n], last) == LastAfter(hs[k + 1..n], LastAfter(hs[..k + 1], last))
  {
    NoWords(hs[..k]);
    assert hs[..k + 1] == hs[..k] + [hs[k]] && [hs[k]][1..] == [];
    WordsApart(hs[..k], [hs[k]]);
    assert hs[..n] == hs[..k + 1] + hs[k + 1..n];
    WordsApart(hs[..k + 1], hs[k + 1..n]);
    LastApart(hs[..k + 1], hs[k + 1..n], last);
  }

  lemma {:induction false} QuietEnd(outs: seq<Codeword>, hist: seq<Word>)
    requires AllReadable(outs, hist) && Heeded(DecodeAll(outs, hist)) == []
    ensures NotedAll(outs, hist) == hist
    decreases |outs|
  {
    if outs != [] {
      var ms := DecodeAll(outs, hist);
      assert ms[0].Note? && outs[0].op < 6 && ms[1..] == DecodeAll(outs[1..], Noted(outs[0], hist));
      QuietEnd(outs[1..], hist);
    }
  }

  // An address restarts the reader's words as it restarts the sender's, whatever notes come before it.
  lemma {:induction false} PlaceRestarts(outs: seq<Codeword>, hist: seq<Word>)
    requires AllReadable(outs, hist)
    requires var hs := Heeded(DecodeAll(outs, hist)); hs != [] && hs[0].Place?
    ensures DecodeAll(outs, []) == DecodeAll(outs, hist) && AllReadable(outs, []) && NotedAll(outs, []) == NotedAll(outs, hist)
    decreases |outs|
  {
    var ms := DecodeAll(outs, hist);
    assert ms[1..] == DecodeAll(outs[1..], Noted(outs[0], hist));
    if ms[0].Note? {
      assert outs[0].op < 6;
      PlaceRestarts(outs[1..], hist);
    } else {
      assert outs[0].op / 8 == 1;
    }
  }

  // ---- An error among the replies ----

  // An interrupt among them.
  predicate Interrupted(ms: seq<Message>) { exists k :: 0 <= k < |ms| && IsInterrupt(ms[k]) }

  lemma {:induction false} InterruptedMore(ms: seq<Message>, n: nat)
    requires ms != [] && n < |ms|
    ensures Interrupted(ms[..n + 1]) <==> IsInterrupt(ms[0]) || Interrupted(ms[1..][..n])
  {
    var head, tail := ms[..n + 1], ms[1..][..n];
    assert forall k :: 0 <= k < |tail| ==> tail[k] == head[k + 1];
    assert head[0] == ms[0];
    if Interrupted(head) {
      var k :| 0 <= k < |head| && IsInterrupt(head[k]);
      if k > 0 { assert IsInterrupt(tail[k - 1]); }
    }
    if Interrupted(tail) {
      var k :| 0 <= k < |tail| && IsInterrupt(tail[k]);
      assert IsInterrupt(head[k + 1]);
    }
  }

  // Of the first k messages none is an error, and then one is.
  predicate ErrorAt(ms: seq<Message>, k: nat) { k < |ms| && IsError(ms[k]) && forall j :: 0 <= j < k ==> !IsError(ms[j]) }

  lemma {:induction false} ErrorLater(ms: seq<Message>, k: nat)
    requires ErrorAt(ms, k) && k > 0
    ensures ErrorAt(ms[1..], k - 1) && !IsError(ms[0])
    ensures Words(ms[..k]) == (if ms[0].Datum? then [ms[0].data] else []) + Words(ms[1..][..k - 1])
    ensures Interrupted(ms[..k]) <==> IsInterrupt(ms[0]) || Interrupted(ms[1..][..k - 1])
  {
    assert ms[..k][1..] == ms[1..][..k - 1];
    InterruptedMore(ms, k - 1);
  }

  // readv, when an error comes before it has its n words: it stops there, with the words before it; the flag of errors is
  // up, and that of interrupts exactly if it was or one was told before the error.
  lemma {:induction false} ErrorThrown(r: Reader, val: Word, outs: seq<Codeword>, hist: seq<Word>, n: nat, k: nat)
    requires Agrees(r, hist) && AllReadable(outs, hist) && ErrorAt(DecodeAll(outs, hist), k)
    requires |Words(DecodeAll(outs, hist)[..k])| < n
    ensures Formed(r)
    ensures var ms, o := DecodeAll(outs, hist), ReadFrom(r, val, n, OP.ReplyDigitsAll(outs));
            o.NotAll? && o.words == Words(ms[..k]) && o.r.busErr && (o.r.interrupt <==> r.interrupt || Interrupted(ms[..k]))
    decreases |outs|
  {
    hide Agrees, Readable, Understood, Noted, OP.ReplyDigits, OP.ReplyDigitsAll, ReadWord;
    var w, ms := outs[0], DecodeAll(outs, hist);
    var more, later, m := outs[1..], Noted(w, hist), Understood(w, hist);
    assert outs == [w] + more && ms == [m] + DecodeAll(more, later) && ms[1..] == DecodeAll(more, later);
    var s := ReadReply(r, val, w, more, hist);
    if k == 0 {
      assert ms[..0] == [];
    } else {
      ErrorLater(ms, k);
      hide Words, Interrupted, IsInterrupt;
      if m.Datum? {
        ErrorThrown(s, 0, more, later, n - 1, k - 1);
      } else {
        ErrorThrown(s, if m.Place? then m.addr else val, more, later, n, k - 1);
      }
    }
  }

  // readv with a first word begun before: val is what an unknown code would return.
  function ReadFrom(r: Reader, val: Word, n: nat, ds: seq<Digit>): (o: Outcomes)
    requires Formed(r)
    ensures Formed(o.r) && (val == 0 ==> o == ReadWords(r, n, ds))
  {
    if n == 0 then AllGot(r, [], ds) else
    match ReadWord(r, val, ds)
    case Got(s, v, rest) =>
      (match ReadWords(s, n - 1, rest)
       case AllGot(t, vs, more) => AllGot(t, [v] + vs, more)
       case NotAll(t, vs) => NotAll(t, [v] + vs))
    case Thrown(s, _) => NotAll(s, [])
    case Starved(s) => NotAll(s, [])
  }

  // ---- The table restarted on one side only ----

  // encode_address sets m_rdaddr to zero.  This is harmless, whatever has been read so far, when n words have been
  // sent raw since the last address and the next is to go to place rd.
  ghost predicate ResetHarmless(n: nat, rd: nat) {
    forall r: Reader, hist: seq<Word> :: |hist| == n && r.rd == rd && Agrees(r, hist) ==> Agrees(r.(rd := 0), hist)
  }

  lemma {:induction false} ResetHarmlessWhen(n: nat, rd: nat)
    requires rd < READ_TABLE
    ensures ResetHarmless(n, rd) <==> n == 0 || rd == 0
  {
    if n > 0 && rd > 0 {
      var tbl: seq<Word> := seq(READ_TABLE, i => if i == rd - 1 then 1 else 0);
      var hist: seq<Word> := seq(n, j requires 0 <= j < n => tbl[(rd - (n - j)) % READ_TABLE]);
      var r := Reader(true, 0, tbl, rd, false, false);
      assert TableWord(r.(rd := 0), 1) == 0 && Recent(hist, 1) == 1;
      assert Agrees(r, hist) && !Agrees(r.(rd := 0), hist);
    }
  }
}
