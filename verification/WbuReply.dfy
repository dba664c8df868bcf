// What a reply codeword means to the host, given the words it has been sent since the last address.
module WbuReply {
  import opened WbuCode

  // A reply: where reading starts, a word that was read, or a short note (of six kinds).
  datatype Message = Place(addr: Word) | Datum(data: Word, inc: bool) | Note(kind: nat) | Strange

  // ---- What the executor says, before compression ----

  function Said(w: Codeword): Message {
    if w.op / 4 == 2 then Place(w.op % 4 * 0x4000_0000 + w.low)
    else if w.op / 8 == 7 then Datum(Data(w), w.op % 2 == 1)
    else if w.op < 6 then Note(w.op)
    else Strange
  }

  // ---- What the host makes of a codeword ----

  function Past(hist: seq<Word>, k: nat): Word { if 1 <= k <= |hist| then Recent(hist, k) else 0 }

  function Understood(w: Codeword, hist: seq<Word>): Message {
    var up := w.op % 2 == 1;
    if w.op < 6 then Note(w.op)
    else if w.op / 4 == 2 then Place(w.op % 4 * 0x4000_0000 + w.low)
    else if w.op == 0x0c then Place(w.low / 0x100_0000)
    else if w.op == 0x0d then Place(w.low / 0x4_0000)
    else if w.op == 0x0e then Place(w.low / 0x1000)
    else if w.op == 0x0f then Place(w.low / 64)
    else if w.op / 2 == 3 then Datum(Past(hist, 1), up)
    else if w.op / 16 == 1 then Datum(Past(hist, w.op / 2 % 8 * 64 + w.low / 0x100_0000 + 10), up)
    else if w.op / 16 == 2 then Datum(Past(hist, w.op / 2 % 8 + 2), up)
    else if w.op / 8 == 7 then Datum(Data(w), up)
    else Strange
  }

  // Both ends remember the words sent raw, since the last address.
  function Noted(w: Codeword, hist: seq<Word>): seq<Word> {
    if w.op / 8 == 1 then [] else if w.op / 8 == 7 then hist + [Data(w)] else hist
  }

  // How far back a codeword refers, if it does.
  function Back(w: Codeword): nat {
    if w.op / 2 == 3 then 1
    else if w.op / 16 == 1 then w.op / 2 % 8 * 64 + w.low / 0x100_0000 + 10
    else if w.op / 16 == 2 then w.op / 2 % 8 + 2
    else 0
  }

  // A codeword that can be read: a reference stays within the words sent.
  predicate Readable(w: Codeword, hist: seq<Word>) { w.op / 8 != 6 && Back(w) <= |hist| && Back(w) < 1024 }

  // The host, decoding codeword after codeword with the words it remembers.
  function DecodeAll(outs: seq<Codeword>, hist: seq<Word>): seq<Message>
    decreases |outs|
  {
    if outs == [] then [] else [Understood(outs[0], hist)] + DecodeAll(outs[1..], Noted(outs[0], hist))
  }

  function NotedAll(outs: seq<Codeword>, hist: seq<Word>): seq<Word>
    decreases |outs|
  {
    if outs == [] then hist else NotedAll(outs[1..], Noted(outs[0], hist))
  }

  lemma {:induction false} DecodeApart(a: seq<Codeword>, b: seq<Codeword>, hist: seq<Word>)
    ensures DecodeAll(a + b, hist) == DecodeAll(a, hist) + DecodeAll(b, NotedAll(a, hist))
    ensures NotedAll(a + b, hist) == NotedAll(b, NotedAll(a, hist))
    decreases |a|
  {
    hide Understood, Noted;
    if a == [] {
      assert a + b == b;
    } else {
      assert (a + b)[1..] == a[1..] + b && (a + b)[0] == a[0];
      DecodeApart(a[1..], b, Noted(a[0], hist));
    }
  }

  predicate AllReadable(outs: seq<Codeword>, hist: seq<Word>)
    decreases |outs|
  {
    outs == [] || (Readable(outs[0], hist) && AllReadable(outs[1..], Noted(outs[0], hist)))
  }

  lemma {:induction false} ReadableApart(a: seq<Codeword>, b: seq<Codeword>, hist: seq<Word>)
    requires AllReadable(a, hist) && AllReadable(b, NotedAll(a, hist))
    ensures AllReadable(a + b, hist)
    decreases |a|
  {
    hide Readable, Noted;
    if a == [] {
      assert a + b == b;
    } else {
      assert (a + b)[1..] == a[1..] + b && (a + b)[0] == a[0];
      ReadableApart(a[1..], b, Noted(a[0], hist));
    }
  }
}
