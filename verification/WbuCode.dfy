// The command language of the debug link: six-bit digits sent as printable characters, gathered into
// codewords of one to six digits whose first digit tells their length and their meaning.
module WbuCode {
  type Digit = d: nat | d < 64
  type Byte = b: nat | b < 256
  type Word = w: nat | w < 0x1_0000_0000

  const NEWLINE: Byte := 0x0a

  // What the executor is asked to do.  A stale write names a value older than anything this session sent.
  datatype Command =
    | SetAddr(addr: Word)
    | AddAddr(diff: Word)
    | WriteWord(data: Word, inc: bool)
    | StaleWrite(inc: bool)
    | EndWrite
    | ReadBlock(len: nat, inc: bool)
    | Nothing

  // ---- Characters ----

  // charenc
  function CharEnc(d: Digit): (b: Byte)
    ensures b != NEWLINE && IsDigit(b) && CharDec(b) == d
  {
    if d < 10 then 0x30 + d
    else if d < 36 then 0x41 + d - 10
    else if d < 62 then 0x61 + d - 36
    else if d == 62 then 0x40
    else 0x25
  }

  // chardec; 0x100 marks a character outside the code
  function CharDec(b: Byte): (r: nat)
    ensures r < 64 <==> IsDigit(b)
  {
    if 0x30 <= b <= 0x39 then b - 0x30
    else if 0x41 <= b <= 0x5a then b - 0x41 + 10
    else if 0x61 <= b <= 0x7a then b - 0x61 + 36
    else if b == 0x40 then 62
    else if b == 0x25 then 63
    else 0x100
  }

  predicate IsDigit(b: Byte) {
    0x30 <= b <= 0x39 || 0x40 <= b <= 0x5a || 0x61 <= b <= 0x7a || b == 0x25
  }

  function Chars(ds: seq<Digit>): (r: seq<Byte>)
    ensures |r| == |ds|
  {
    seq(|ds|, k requires 0 <= k < |ds| => CharEnc(ds[k]))
  }

  lemma {:induction false} CharsApart(a: seq<Digit>, b: seq<Digit>)
    ensures Chars(a + b) == Chars(a) + Chars(b)
  {
  }

  // The digits among characters.
  function Stripped(bs: seq<Byte>): seq<Digit> {
    if bs == [] then []
    else DigitIn(bs[0]) + Stripped(bs[1..])
  }
  function DigitIn(b: Byte): seq<Digit> { if IsDigit(b) then [CharDec(b)] else [] }

  lemma {:induction false} StrippedApart(a: seq<Byte>, b: seq<Byte>)
    ensures Stripped(a + b) == Stripped(a) + Stripped(b)
  {
    if a == [] {
      assert a + b == b;
    } else {
      hide DigitIn;
      assert (a + b)[1..] == a[1..] + b && (a + b)[0] == a[0];
      StrippedApart(a[1..], b);
    }
  }

  // ---- Digits and numbers ----

  // The number that digits spell, most significant first, after those that already spelled acc.
  function Value(acc: nat, ds: seq<Digit>): nat
    decreases |ds|
  {
    if ds == [] then acc else Value(acc * 64 + ds[0], ds[1..])
  }

  function Digits2(n: nat): seq<Digit> { [n / 64 % 64, n % 64] }
  function Digits3(n: nat): seq<Digit> { [n / 0x1000 % 64, n / 64 % 64, n % 64] }
  function Digits4(n: nat): seq<Digit> { [n / 0x4_0000 % 64, n / 0x1000 % 64, n / 64 % 64, n % 64] }
  function Digits5(n: nat): seq<Digit> {
    [n / 0x100_0000 % 64, n / 0x4_0000 % 64, n / 0x1000 % 64, n / 64 % 64, n % 64]
  }

  lemma {:induction false} ValueStep(acc: nat, d: Digit, ds: seq<Digit>)
    ensures Value(acc, [d] + ds) == Value(acc * 64 + d, ds)
  {
    assert ([d] + ds)[1..] == ds;
  }

  lemma {:induction false} Value2(n: nat)
    requires n < 0x1000
    ensures Value(0, Digits2(n)) == n
  {
    ValueStep(0, n / 64 % 64, [n % 64]);
    ValueStep(n / 64 % 64, n % 64, []);
    assert [n / 64 % 64] + [n % 64] == Digits2(n);
  }

  lemma {:induction false} ValueTail(acc: nat, d: Digit, e: nat, ds: seq<Digit>)
    requires acc * 64 + d == e
    ensures Value(acc, [d] + ds) == Value(e, ds)
  {
    ValueStep(acc, d, ds);
  }

  lemma {:induction false} Value3(n: nat)
    requires n < 0x4_0000
    ensures Value(0, Digits3(n)) == n
  {
    var b, c: Digit := n / 64 % 64, n % 64;
    ValueTail(0, n / 0x1000 % 64, n / 0x1000, [b, c]);
    ValueTail(n / 0x1000, b, n / 64, [c]);
    ValueTail(n / 64, c, n, []);
    assert Digits3(n) == [n / 0x1000 % 64] + [b, c];
    assert [b, c] == [b] + [c];
  }

  lemma {:induction false} Value4(n: nat)
    requires n < 0x100_0000
    ensures Value(0, Digits4(n)) == n
  {
    var a, b, c: Digit := n / 0x1000 % 64, n / 64 % 64, n % 64;
    ValueTail(0, n / 0x4_0000 % 64, n / 0x4_0000, [a, b, c]);
    ValueTail(n / 0x4_0000, a, n / 0x1000, [b, c]);
    ValueTail(n / 0x1000, b, n / 64, [c]);
    ValueTail(n / 64, c, n, []);
    assert Digits4(n) == [n / 0x4_0000 % 64] + [a, b, c];
    assert [a, b, c] == [a] + [b, c];
    assert [b, c] == [b] + [c];
  }

  lemma {:induction false} Value5(n: nat)
    requires n < 0x4000_0000
    ensures Value(0, Digits5(n)) == n
  {
    var z, a, b, c: Digit := n / 0x4_0000 % 64, n / 0x1000 % 64, n / 64 % 64, n % 64;
    ValueTail(0, n / 0x100_0000 % 64, n / 0x100_0000, [z, a, b, c]);
    ValueTail(n / 0x100_0000, z, n / 0x4_0000, [a, b, c]);
    ValueTail(n / 0x4_0000, a, n / 0x1000, [b, c]);
    ValueTail(n / 0x1000, b, n / 64, [c]);
    ValueTail(n / 64, c, n, []);
    assert Digits5(n) == [n / 0x100_0000 % 64] + [z, a, b, c];
    assert [z, a, b, c] == [z] + [a, b, c];
    assert [a, b, c] == [a] + [b, c];
    assert [b, c] == [b] + [c];
  }

  // ---- Codewords ----

  // How many digits follow from the first one.
  function CodeLen(op: Digit): (n: nat)
    ensures 1 <= n <= 6
  {
    if op / 16 == 3 then 2
    else if op / 16 == 2 then 1
    else if op / 8 == 2 then 2
    else if op / 8 == 1 then 2 + op / 2 % 4
    else 6
  }

  predicate IsCode(ds: seq<Digit>) { |ds| > 0 && |ds| == CodeLen(ds[0]) }

  // The word written k raw words ago.
  function Recent(hist: seq<Word>, k: nat): Word
    requires 1 <= k <= |hist|
  {
    hist[|hist| - k]
  }

  predicate Recalls(hist: seq<Word>, k: nat) { 1 <= k <= |hist| && k < 256 }

  // A number of n bits, extended to 32 bits by its sign.
  function Signed(v: nat, top: nat): Word
    requires top <= 0x100_0000 && v < top
  {
    if v < top / 2 then v else v + 0x1_0000_0000 - top
  }

  function Top(n: nat): (t: nat)
    ensures t <= 0x100_0000
  {
    if n == 1 then 64 else if n == 2 then 0x1000 else if n == 3 then 0x4_0000 else 0x100_0000
  }

  function Offset(v: nat, n: nat): Word {
    if v < Top(n) then Signed(v, Top(n)) else 0
  }

  // What a whole codeword asks for, given the raw words written before it.
  function Decode(ds: seq<Digit>, hist: seq<Word>): Command
    requires IsCode(ds)
  {
    var op, v := ds[0], Value(0, ds[1..]);
    if op < 4 then SetAddr((op * 0x4000_0000 + v) % 0x1_0000_0000)
    else if op / 8 == 1 then (if op % 2 == 0 then SetAddr(v % 0x1_0000_0000) else AddAddr(Offset(v, |ds| - 1)))
    else if op / 8 == 2 then
      var k := op / 2 % 4 * 64 + ds[1];
      if Recalls(hist, k) then WriteWord(Recent(hist, k), op % 2 == 1) else StaleWrite(op % 2 == 1)
    else if op / 8 == 3 then WriteWord((op / 2 % 4 * 0x4000_0000 + v) % 0x1_0000_0000, op % 2 == 1)
    else if op == 0x2e then EndWrite
    else if op / 16 == 2 then ReadBlock(1 + op / 2 % 8, op % 2 == 1)
    else if op / 16 == 3 then ReadBlock(9 + op / 2 % 8 * 64 + ds[1], op % 2 == 1)
    else Nothing
  }

  function Remember(ds: seq<Digit>, hist: seq<Word>): seq<Word>
    requires IsCode(ds)
  {
    var c := Decode(ds, hist);
    if ds[0] / 8 == 3 && c.WriteWord? then hist + [c.data] else hist
  }

  // ---- The receiver ----

  // The digits of a codeword so far, whether the last codeword was a write, and the raw words written.
  datatype Receiver = Receiver(pending: seq<Digit>, lastWrite: bool, hist: seq<Word>)
  datatype Heard = Heard(r: Receiver, commands: seq<Command>)

  function TakeCode(r: Receiver, ds: seq<Digit>): Heard
    requires IsCode(ds)
  {
    Heard(Receiver([], ds[0] / 16 == 1, Remember(ds, r.hist)), [Decode(ds, r.hist)])
  }

  // A character outside the code restarts the framing, and ends a burst of writes.
  function Hear(r: Receiver, b: Byte): Heard {
    if !IsDigit(b) then
      Heard(Receiver([], false, r.hist), if r.lastWrite then [EndWrite] else [])
    else
      var ds := r.pending + [CharDec(b)];
      if IsCode(ds) then TakeCode(r, ds) else Heard(r.(pending := ds), [])
  }

  function HearAll(r: Receiver, bs: seq<Byte>): Heard
    decreases |bs|
  {
    if bs == [] then Heard(r, [])
    else
      var first := Hear(r, bs[0]);
      var rest := HearAll(first.r, bs[1..]);
      Heard(rest.r, first.commands + rest.commands)
  }

  lemma {:induction false} HearApart(r: Receiver, a: seq<Byte>, b: seq<Byte>)
    ensures var x := HearAll(r, a);
            var y := HearAll(x.r, b);
            HearAll(r, a + b) == Heard(y.r, x.commands + y.commands)
    decreases |a|
  {
    hide Hear;
    if a == [] {
      assert a + b == b;
    } else {
      var first := Hear(r, a[0]);
      assert (a + b)[1..] == a[1..] + b && (a + b)[0] == a[0];
      HearApart(first.r, a[1..], b);
      var x, y := HearAll(first.r, a[1..]), HearAll(HearAll(r, a).r, b);
      assert first.commands + (x.commands + y.commands) == (first.commands + x.commands) + y.commands;
    }
  }

  // The digits of a codeword that is still incomplete are only gathered.
  lemma {:induction false} HearPart(r: Receiver, ds: seq<Digit>)
    requires |ds| > 0 ==> |r.pending + ds| < CodeLen((r.pending + ds)[0])
    ensures HearAll(r, Chars(ds)) == Heard(r.(pending := r.pending + ds), [])
    decreases |ds|
  {
    if ds == [] {
      assert r.pending + ds == r.pending;
    } else {
      var p := r.pending + [ds[0]];
      assert p + ds[1..] == r.pending + ds;
      assert Chars(ds)[1..] == Chars(ds[1..]);
      assert p[0] == (r.pending + ds)[0];
      HearPart(r.(pending := p), ds[1..]);
    }
  }

  lemma {:induction false} TakeDigit(r: Receiver, ds: seq<Digit>)
    requires r.pending == [] && IsCode(ds)
    ensures var n := |ds| - 1; Hear(r.(pending := ds[..n]), CharEnc(ds[n])) == TakeCode(r, ds)
  {
    var n := |ds| - 1;
    assert ds[..n] + [ds[n]] == ds;
  }

  // A codeword is heard as itself, whatever was written before.
  lemma {:induction false} HearCode(r: Receiver, ds: seq<Digit>)
    requires r.pending == [] && IsCode(ds)
    ensures HearAll(r, Chars(ds)) == TakeCode(r, ds)
  {
    hide TakeCode;
    var n := |ds| - 1;
    var last := Chars([ds[n]]);
    HearPart(r, ds[..n]);
    HearApart(r, Chars(ds[..n]), last);
    assert Chars(ds) == Chars(ds[..n]) + last;
    assert ds[..n] + [ds[n]] == ds;
    assert last[1..] == [];
    assert r.pending + ds[..n] == ds[..n];
    var done := TakeCode(r, ds);
    assert Hear(r.(pending := ds[..n]), last[0]) == done by { TakeDigit(r, ds); }
    assert done.commands + [] == done.commands;
  }

  // ---- Words of thirty-six bits ----

  type Low = n: nat | n < 0x4000_0000

  // The first digit, and the other five as one number.
  datatype Codeword = Codeword(op: Digit, low: Low)

  // The thirty-two bits of data, around the bit that says whether the address goes up.
  function Data(w: Codeword): Word { w.op / 2 % 4 * 0x4000_0000 + w.low }

  // What the executor makes of a word; one that still refers to the table it takes only outside a burst.
  function Ordered(w: Codeword): Command {
    if w.op < 4 then SetAddr(w.op * 0x4000_0000 + w.low)
    else if w.op / 8 == 1 then AddAddr(Data(w))
    else if w.op / 8 == 2 then StaleWrite(w.op % 2 == 1)
    else if w.op / 8 == 3 then WriteWord(Data(w), w.op % 2 == 1)
    else if w.op == 0x2e then EndWrite
    else if w.op / 16 == 3 then ReadBlock(w.low % 1024, w.op % 2 == 1)
    else Nothing
  }
}
