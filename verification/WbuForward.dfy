// The command direction of the debug link, from the calls on the host to the operations on the bus.
module WbuForward {
  import opened Arithmetic
  import opened WbuCode
  import opened WbuHost

  // ---- The executor, one command at a time ----

  datatype BusOp = BusWrite(addr: Word, data: Word) | BusRead(addr: Word) | Improper
  datatype Burst = NoBurst | Burst(inc: bool)
  datatype Exec = Exec(addr: Word, burst: Burst)
  datatype Done = Done(e: Exec, ops: seq<BusOp>)

  function Plus(a: Word, n: nat): Word { (a + n) % 0x1_0000_0000 }

  function Reads(addr: Word, n: nat, inc: bool): seq<BusOp>
    decreases n
  {
    if n == 0 then [] else [BusRead(addr)] + Reads(if inc then Plus(addr, 1) else addr, n - 1, inc)
  }

  // A burst of writes keeps the increment of its first word, and takes nothing but writes and its end.  What the
  // link has no use for, or not now, is marked.
  function Execute(e: Exec, c: Command): Done {
    if e.burst.Burst? then
      match c
      case WriteWord(data, _) =>
        Done(e.(addr := if e.burst.inc then Plus(e.addr, 1) else e.addr), [BusWrite(e.addr, data)])
      case EndWrite => Done(e.(burst := NoBurst), [])
      case _ => Done(e.(burst := NoBurst), [Improper])
    else
      match c
      case SetAddr(a) => Done(e.(addr := a), [])
      case AddAddr(d) => Done(e.(addr := Plus(e.addr, d)), [])
      case WriteWord(data, inc) =>
        Done(Exec(if inc then Plus(e.addr, 1) else e.addr, Burst(inc)), [BusWrite(e.addr, data)])
      case ReadBlock(n, inc) => Done(e.(addr := if inc then Plus(e.addr, n) else e.addr), Reads(e.addr, n, inc))
      case EndWrite => Done(e, [])
      case _ => Done(e, [Improper])
  }

  function ExecuteAll(e: Exec, cs: seq<Command>): Done
    decreases |cs|
  {
    if cs == [] then Done(e, []) else
    var first := Execute(e, cs[0]);
    var rest := ExecuteAll(first.e, cs[1..]);
    Done(rest.e, first.ops + rest.ops)
  }

  // ---- What the calls mean: the per-word loops of sw/devbus.h ----

  // The bus has word addresses of thirty bits.
  function Cell(a: nat): (c: nat)
    ensures c < 0x4000_0000
  {
    a % 0x4000_0000
  }

  function OnBus(op: BusOp): BusOp {
    match op
    case BusWrite(a, d) => BusWrite(Cell(a), d)
    case BusRead(a) => BusRead(Cell(a))
    case Improper => Improper
  }
  function AllOnBus(ops: seq<BusOp>): (r: seq<BusOp>)
    ensures |r| == |ops|
  {
    seq(|ops|, k requires 0 <= k < |ops| => OnBus(ops[k]))
  }

  function WordLoop(cell: nat, inc: bool, vals: seq<Word>): seq<BusOp>
    decreases |vals|
  {
    if vals == [] then [] else
    [BusWrite(Cell(cell), vals[0])] + WordLoop(if inc then cell + 1 else cell, inc, vals[1..])
  }

  function ReadLoop(cell: nat, inc: bool, len: nat): seq<BusOp>
    decreases len
  {
    if len == 0 then [] else [BusRead(Cell(cell))] + ReadLoop(if inc then cell + 1 else cell, inc, len - 1)
  }

  function Meaning(call: Call): seq<BusOp> {
    if !Aligned(call.a) then [] else
    match call
    case Write(a, inc, vals) => WordLoop(a / 4, inc, vals)
    case Read(a, inc, len) => ReadLoop(a / 4, inc, len)
  }

  function MeaningAll(calls: seq<Call>): seq<BusOp>
    decreases |calls|
  {
    if calls == [] then [] else Meaning(calls[0]) + MeaningAll(calls[1..])
  }

  // ---- Addresses ----

  // The band of forward distances that the code for five digits mislabels, when no absolute code is as short.
  predicate InBand(addrSet: bool, last: Word, a: Word) {
    addrSet && 0x2_0000 <= Distance(last, a) < 0x80_0000 && a / 4 > 0xff_ffff
  }

  // An address code arrives when the receiver takes it as one codeword, and that moves the executor to a, from
  // wherever m_lastaddr says it is, or from anywhere when that is unknown.
  ghost predicate Arrives(addrSet: bool, last: Word, a: Word, code: seq<Digit>) {
    && IsCode(code)
    && forall from: Word, hist: seq<Word> :: (addrSet ==> Cell(from) == last / 4) ==>
         MovesTo(Exec(from, NoBurst), Decode(code, hist), a)
  }

  predicate MovesTo(e: Exec, c: Command, a: Word) {
    var d := Execute(e, c);
    d.ops == [] && d.e.burst == NoBurst && Cell(d.e.addr) == a / 4
  }

  // One of the codes that spell an address out.
  predicate IsAbsolute(v: nat, code: seq<Digit>) {
    || (v < 64 && code == [0x08, v])
    || (v < 0x1000 && code == [0x0a] + Digits2(v))
    || (v < 0x4_0000 && code == [0x0c] + Digits3(v))
    || (v < 0x100_0000 && code == [0x0e] + Digits4(v))
    || (v < 0x4000_0000 && code == [0] + Digits5(v))
  }

  lemma {:induction false} AbsoluteArrives(addrSet: bool, last: Word, a: Word, code: seq<Digit>)
    requires Aligned(a)
    requires IsAbsolute(a / 4, code)
    ensures Arrives(addrSet, last, a, code)
  {
    hide MovesTo, Decode, IsAbsolute;
    forall from: Word, hist: seq<Word> | addrSet ==> Cell(from) == last / 4
      ensures IsCode(code) && MovesTo(Exec(from, NoBurst), Decode(code, hist), a)
    {
      AbsoluteDecodes(a / 4, code, hist);
      SetMoves(from, a);
    }
    AbsoluteDecodes(a / 4, code, []);
  }

  lemma {:induction false} AbsoluteDecodes(v: nat, code: seq<Digit>, hist: seq<Word>)
    requires IsAbsolute(v, code)
    ensures IsCode(code) && v < 0x4000_0000 && Decode(code, hist) == SetAddr(v)
  {
    hide Digits2, Digits3, Digits4, Digits5;
    assert |code| == CodeLen(code[0]) by { DigitCounts(v); }
    AbsoluteTail(v, code);
    hide IsAbsolute, Value;
  }

  lemma {:induction false} DigitCounts(n: nat)
    ensures |Digits2(n)| == 2 && |Digits3(n)| == 3 && |Digits4(n)| == 4 && |Digits5(n)| == 5
  {
  }

  lemma {:induction false} AbsoluteTail(v: nat, code: seq<Digit>)
    requires IsAbsolute(v, code)
    ensures code[0] in {0, 8, 10, 12, 14} && Value(0, code[1..]) == v < 0x4000_0000
  {
    hide Digits2, Digits3, Digits4, Digits5, Value;
    SpelledValue(v, code[1..]);
  }

  lemma {:induction false} SetMoves(from: Word, a: Word)
    ensures MovesTo(Exec(from, NoBurst), SetAddr(a / 4), a)
  {
  }

  lemma {:induction false} SpelledValue(v: nat, ds: seq<Digit>)
    requires (ds == [v] && v < 64) || (ds == Digits2(v) && v < 0x1000) || (ds == Digits3(v) && v < 0x4_0000)
             || (ds == Digits4(v) && v < 0x100_0000) || (ds == Digits5(v) && v < 0x4000_0000)
    ensures Value(0, ds) == v
  {
    if ds == [v] && v < 64 { ValueTail(0, v, v, []); assert [v] + [] == ds; }
    else if |ds| == 2 { Value2(v); }
    else if |ds| == 3 { Value3(v); }
    else if |ds| == 4 { Value4(v); }
    else { Value5(v); }
  }

  lemma {:induction false} CellOfSum(q: nat, w: nat)
    requires q <= 4 && w < 0x4000_0000
    ensures Cell((q * 0x4000_0000 + w) % 0x1_0000_0000) == w
  {
  }

  lemma {:induction false} DistanceReaches(last: Word, a: Word, from: Word)
    requires Aligned(a) && Aligned(last) && Cell(from) == last / 4
    ensures Cell(Plus(from, Distance(last, a))) == a / 4
  {
    var q, l, w := from / 0x4000_0000, last / 4, a / 4;
    assert from == q * 0x4000_0000 + l;
    assert Distance(last, a) == if w >= l then w - l else 0x4000_0000 + w - l;
    CellOfSum(if w >= l then q else q + 1, w);
  }

  lemma {:induction false} RelativeArrives(last: Word, a: Word, code: seq<Digit>)
    requires Aligned(a) && Aligned(last) && Distance(last, a) < 0x2_0000 && code == Relative(Distance(last, a))
    ensures Arrives(true, last, a, code)
  {
    var d := Distance(last, a);
    forall from: Word, hist: seq<Word> | Cell(from) == last / 4
      ensures MovesTo(Exec(from, NoBurst), Decode(code, hist), a)
    {
      RelativeDecodes(d, hist);
      AddMoves(last, a, from);
    }
    hide MovesTo, Decode, Distance;
  }

  lemma {:induction false} RelativeDecodes(d: nat, hist: seq<Word>)
    requires d < 0x2_0000
    ensures var code := Relative(d); IsCode(code) && Decode(code, hist) == AddAddr(d)
  {
    var code := Relative(d);
    if d < 32 { assert code[1..] == [d]; }
    SpelledValue(d, code[1..]);
    hide Value, Digits2, Digits3;
  }

  lemma {:induction false} AddMoves(last: Word, a: Word, from: Word)
    requires Aligned(a) && Aligned(last) && Cell(from) == last / 4
    ensures MovesTo(Exec(from, NoBurst), AddAddr(Distance(last, a)), a)
  {
    DistanceReaches(last, a, from);
    hide Distance, Plus, Cell;
  }

  // Five digits under a first digit that promises four: the receiver would break the code in two.
  lemma {:induction false} BandIsNoCode(d: nat, last: Word, a: Word)
    requires 0x2_0000 <= d < 0x80_0000
    ensures !Arrives(true, last, a, Relative(d))
  {
    assert CodeLen(Relative(d)[0]) == 4;
  }

  // The code that encode_address chooses arrives exactly outside the band.
  lemma {:induction false} AddressArrives(addrSet: bool, last: Word, a: Word)
    requires Aligned(a) && Aligned(last) && !(addrSet && a == last)
    ensures Arrives(addrSet, last, a, AddressCode(addrSet, last, a)) <==> !InBand(addrSet, last, a)
  {
    var d := Distance(last, a);
    var code := AddressCode(addrSet, last, a);
    ChosenCode(addrSet, last, a);
    hide Arrives, AddressCode, IsAbsolute, Distance, Relative;
    if IsAbsolute(a / 4, code) { AbsoluteArrives(addrSet, last, a, code); }
    else if d < 0x2_0000 { RelativeArrives(last, a, code); }
    else { BandIsNoCode(d, last, a); }
  }

  lemma {:induction false} ChosenCode(addrSet: bool, last: Word, a: Word)
    requires !(addrSet && a == last)
    ensures var code, d := AddressCode(addrSet, last, a), Distance(last, a);
            if addrSet && d < 0x80_0000 && !IsAbsolute(a / 4, code)
            then code == Relative(d) && (d >= 0x2_0000 ==> a / 4 > 0xff_ffff)
            else IsAbsolute(a / 4, code) && !InBand(addrSet, last, a)
  {
    hide Distance, Digits2, Digits3, Digits4, Digits5;
    RelativeLength(Distance(last, a));
    hide Relative;
  }

  lemma {:induction false} RelativeLength(d: nat)
    ensures |Relative(d)| == if d < 32 then 2 else if d < 2048 then 3 else if d < 0x2_0000 then 4 else if d < 0x80_0000 then 5 else 0
    ensures d < 0x80_0000 ==> Relative(d)[0] in {0x09, 0x0b, 0x0d}
  {
  }

  // ---- Codewords for writes and reads ----

  lemma {:induction false} WriteDecodes(hist: seq<Word>, inc: bool, v: Word)
    ensures var code := WriteCode(hist, inc, v);
            && IsCode(code) && code[0] / 16 == 1
            && Decode(code, hist) == WriteWord(v, inc) && Remember(code, hist) == AfterWrite(hist, v)
  {
    var k, up := Match(hist, v, 1), if inc then 1 else 0;
    if k == 0 {
      RawDecodes(hist, inc, v);
      hide Decode, Digits5;
    } else {
      RefDecodes(hist, k, up);
      hide Decode, Match, Digits5;
    }
  }

  lemma {:induction false} RefDecodes(hist: seq<Word>, k: nat, up: nat)
    requires Recalls(hist, k) && up < 2
    ensures var code := [0x10 + k / 64 * 2 + up, k % 64];
            IsCode(code) && code[0] / 8 == 2 && code[0] / 16 == 1 && Decode(code, hist) == WriteWord(Recent(hist, k), up == 1)
  {
    RefDigits(k, up);
    hide Value, CodeLen;
  }

  lemma {:induction false} RefDigits(k: nat, up: nat)
    requires k < 256 && up < 2
    ensures var op := 0x10 + k / 64 * 2 + up;
            op / 8 == 2 && op / 16 == 1 && CodeLen(op) == 2 && op % 2 == up && op / 2 % 4 * 64 + k % 64 == k
  {
    assert k / 64 < 4;
  }

  lemma {:induction false} RawDecodes(hist: seq<Word>, inc: bool, v: Word)
    ensures var code := [0x18 + v / 0x4000_0000 * 2 + if inc then 1 else 0] + Digits5(v);
            IsCode(code) && code[0] / 8 == 3 && Decode(code, hist) == WriteWord(v, inc)
  {
    var q, low, up := v / 0x4000_0000, v % 0x4000_0000, if inc then 1 else 0;
    var code := [0x18 + q * 2 + up] + Digits5(v);
    OpDigit(q, up);
    assert Value(0, code[1..]) == low by {
      SameDigits(v);
      Value5(low);
      assert code[1..] == Digits5(low);
    }
    assert |code| == 6 && q * 0x4000_0000 + low == v;
    hide Digits5, Value, CodeLen;
    assert IsCode(code);
    RawMeans(code, hist, q, low, up);
  }

  lemma {:induction false} RawMeans(code: seq<Digit>, hist: seq<Word>, q: nat, low: nat, up: nat)
    requires IsCode(code) && q < 4 && up < 2 && low < 0x4000_0000 && code[0] == 0x18 + q * 2 + up && Value(0, code[1..]) == low
    ensures Decode(code, hist) == WriteWord(q * 0x4000_0000 + low, up == 1)
  {
    hide Value, CodeLen;
    OpDigit(q, up);
    assert q * 0x4000_0000 + low < 0x1_0000_0000;
  }

  lemma {:induction false} OpDigit(q: nat, up: nat)
    requires q < 4 && up < 2
    ensures var op := 0x18 + q * 2 + up; op / 8 == 3 && op / 2 % 4 == q && op % 2 == up && CodeLen(op) == 6
  {
  }

  lemma {:induction false} SameDigits(v: Word)
    ensures Digits5(v) == Digits5(v % 0x4000_0000)
  {
    var q, low := v / 0x4000_0000, v % 0x4000_0000;
    SameDigit(q, low, 0x100_0000, 1);
    SameDigit(q, low, 0x4_0000, 64);
    SameDigit(q, low, 0x1000, 0x1000);
    SameDigit(q, low, 64, 0x4_0000);
    SameDigit(q, low, 1, 0x100_0000);
  }

  // What is added above thirty bits does not reach a digit at k of them.
  lemma {:induction false} SameDigit(q: nat, low: nat, k: nat, m: nat)
    requires k > 0 && 64 * m * k == 0x4000_0000
    ensures (q * 0x4000_0000 + low) / k % 64 == low / k % 64
  {
    var d, r := low / k, low % k;
    var above := q * m;
    assert q * 0x4000_0000 == 64 * above * k by { Reordered(q, m, k); }
    assert q * 0x4000_0000 + low == (64 * above + d) * k + r by { Collected(64 * above, d, k, r, low); }
    DivMod(q * 0x4000_0000 + low, k, 64 * above + d, r);
    MultipleGone(above, d);
  }

  lemma {:induction false} Reordered(q: nat, m: nat, k: nat)
    ensures q * (64 * m * k) == 64 * (q * m) * k
  {
  }

  lemma {:induction false} Collected(x: nat, d: nat, k: nat, r: nat, low: nat)
    requires low == d * k + r
    ensures x * k + low == (x + d) * k + r
  {
  }

  lemma {:induction false} MultipleGone(x: nat, d: nat)
    ensures (64 * x + d) % 64 == d % 64
  {
  }

  // Every read length comes back, except that eight words at one address read as the end of a write.
  lemma {:induction false} ReadLength(len: nat, inc: bool, hist: seq<Word>)
    requires 1 <= len < 520
    ensures var code := ReadCode(len, inc);
            && IsCode(code) && code[0] / 16 >= 2
            && (Decode(code, hist) == ReadBlock(len, inc) <==> !(len == 8 && !inc))
            && (len == 8 && !inc ==> Decode(code, hist) == EndWrite)
  {
    hide Value;
    var up := if inc then 1 else 0;
    if len <= 8 { ShortRead(len, up); } else { LongRead(len, up); }
    hide CodeLen;
  }

  lemma {:induction false} ShortRead(len: nat, up: nat)
    requires 1 <= len <= 8 && up < 2
    ensures var op := 0x20 + (len - 1) % 8 * 2 + up;
            op / 16 == 2 && CodeLen(op) == 1 && op / 2 % 8 == len - 1 && op % 2 == up && (op == 0x2e <==> len == 8 && up == 0)
  {
  }

  lemma {:induction false} LongRead(len: nat, up: nat)
    requires 8 < len < 520 && up < 2
    ensures var op := 0x30 + (len - 9) / 64 % 8 * 2 + up;
            op / 16 == 3 && CodeLen(op) == 2 && op % 2 == up && op / 2 % 8 * 64 + (len - 9) % 64 == len - 9
  {
    assert (len - 9) / 64 < 8;
  }

  // ---- Delivery ----

  datatype Fpga = Fpga(r: Receiver, e: Exec)
  datatype Delivered = Delivered(f: Fpga, ops: seq<BusOp>)

  function Deliver(f: Fpga, bs: seq<Byte>): Delivered {
    var heard := HearAll(f.r, bs);
    var done := ExecuteAll(f.e, heard.commands);
    Delivered(Fpga(heard.r, done.e), done.ops)
  }

  lemma {:induction false} ExecuteApart(e: Exec, a: seq<Command>, b: seq<Command>)
    ensures var x := ExecuteAll(e, a);
            var y := ExecuteAll(x.e, b);
            ExecuteAll(e, a + b) == Done(y.e, x.ops + y.ops)
    decreases |a|
  {
    hide Execute;
    if a == [] {
      assert a + b == b;
    } else {
      var first := Execute(e, a[0]);
      assert (a + b)[1..] == a[1..] + b && (a + b)[0] == a[0];
      ExecuteApart(first.e, a[1..], b);
      var x, y := ExecuteAll(first.e, a[1..]), ExecuteAll(ExecuteAll(e, a).e, b);
      assert first.ops + (x.ops + y.ops) == (first.ops + x.ops) + y.ops;
    }
  }

  lemma {:induction false} DeliverApart(f: Fpga, a: seq<Byte>, b: seq<Byte>)
    ensures var x := Deliver(f, a);
            var y := Deliver(x.f, b);
            Deliver(f, a + b) == Delivered(y.f, x.ops + y.ops)
  {
    HearApart(f.r, a, b);
    var x := HearAll(f.r, a);
    ExecuteApart(f.e, x.commands, HearAll(x.r, b).commands);
    hide HearAll, ExecuteAll;
  }

  lemma {:induction false} DeliverCode(f: Fpga, code: seq<Digit>)
    requires f.r.pending == [] && IsCode(code)
    ensures var c := Decode(code, f.r.hist);
            var r := Receiver([], code[0] / 16 == 1, Remember(code, f.r.hist));
            Deliver(f, Chars(code)) == Delivered(Fpga(r, Execute(f.e, c).e), Execute(f.e, c).ops)
  {
    HearCode(f.r, code);
    var c := Decode(code, f.r.hist);
    assert HearAll(f.r, Chars(code)).commands == [c];
    ExecuteOne(f.e, c);
    hide HearAll, Decode, Remember, Execute, ExecuteAll, Chars;
  }

  lemma {:induction false} ExecuteOne(e: Exec, c: Command)
    ensures ExecuteAll(e, [c]) == Execute(e, c)
  {
    hide Execute;
    assert [c][1..] == [];
    assert Execute(e, c).ops + [] == Execute(e, c).ops;
  }

  lemma {:induction false} DeliverNewline(f: Fpga)
    requires f.r.lastWrite <==> f.e.burst.Burst?
    ensures Deliver(f, [NEWLINE]) == Delivered(Fpga(Receiver([], false, f.r.hist), f.e.(burst := NoBurst)), [])
  {
    assert [NEWLINE][1..] == [];
    assert HearAll(f.r, [NEWLINE]).commands == if f.r.lastWrite then [EndWrite] else [];
    ExecuteOne(f.e, EndWrite);
  }

  // ---- The two ends in step ----

  ghost predicate InSync(h: Host, f: Fpga) {
    && f.r.pending == [] && !f.r.lastWrite && f.r.hist == h.hist
    && f.e.burst == NoBurst
    && Aligned(h.last) && (h.addrSet ==> Cell(f.e.addr) == h.last / 4)
  }

  lemma {:induction false} OnBusApart(a: seq<BusOp>, b: seq<BusOp>)
    ensures AllOnBus(a + b) == AllOnBus(a) + AllOnBus(b)
  {
  }

  // Inside a burst, or at its start.
  ghost predicate Writing(f: Fpga, hist: seq<Word>, inc: bool, begun: bool) {
    && f.r.pending == [] && f.r.hist == hist
    && f.r.lastWrite == begun && f.e.burst == if begun then Burst(inc) else NoBurst
  }

  lemma {:induction false} DeliverWrite(f: Fpga, hist: seq<Word>, inc: bool, begun: bool, v: Word)
    requires Writing(f, hist, inc, begun)
    ensures var d := Deliver(f, Chars(WriteCode(hist, inc, v)));
            && Writing(d.f, AfterWrite(hist, v), inc, true) && d.ops == [BusWrite(f.e.addr, v)]
            && d.f.e.addr == if inc then Plus(f.e.addr, 1) else f.e.addr
  {
    WriteDecodes(hist, inc, v);
    DeliverCode(f, WriteCode(hist, inc, v));
    hide Deliver, WriteCode, Decode, Remember, IsCode;
  }

  lemma {:induction false} NextCell(a: Word, cell: nat)
    requires Cell(a) == Cell(cell)
    ensures Cell(Plus(a, 1)) == Cell(cell + 1)
  {
  }

  lemma {:induction false} DeliverWrites(f: Fpga, hist: seq<Word>, inc: bool, begun: bool, vals: seq<Word>, cell: nat)
    requires Writing(f, hist, inc, begun) && Cell(f.e.addr) == Cell(cell)
    ensures var d := Deliver(f, WriteChars(hist, inc, vals));
            && Writing(d.f, AfterWrites(hist, vals), inc, begun || vals != [])
            && AllOnBus(d.ops) == WordLoop(cell, inc, vals)
            && Cell(d.f.e.addr) == Cell(if inc then cell + |vals| else cell)
    decreases |vals|
  {
    hide Writing, WriteCode, AfterWrite, Cell, Plus, Chars;
    if vals == [] {
      NothingDelivered(f);
    } else {
      var code := Chars(WriteCode(hist, inc, vals[0]));
      DeliverWrite(f, hist, inc, begun, vals[0]);
      var d := Deliver(f, code);
      var next := if inc then cell + 1 else cell;
      NextCell(f.e.addr, cell);
      DeliverWrites(d.f, AfterWrite(hist, vals[0]), inc, true, vals[1..], next);
      DeliverApart(f, code, WriteChars(AfterWrite(hist, vals[0]), inc, vals[1..]));
      OnBusApart(d.ops, Deliver(d.f, WriteChars(AfterWrite(hist, vals[0]), inc, vals[1..])).ops);
      assert AllOnBus(d.ops) == [BusWrite(Cell(cell), vals[0])];
      hide Deliver, AllOnBus;
    }
  }

  lemma {:induction false} NothingDelivered(f: Fpga)
    ensures Deliver(f, []) == Delivered(f, [])
  {
  }

  lemma {:induction false} ReadsOnBus(addr: Word, n: nat, inc: bool, cell: nat)
    requires Cell(addr) == Cell(cell)
    ensures AllOnBus(Reads(addr, n, inc)) == ReadLoop(cell, inc, n)
    decreases n
  {
    if n > 0 {
      var next, up := if inc then Plus(addr, 1) else addr, if inc then cell + 1 else cell;
      NextCell(addr, cell);
      ReadsOnBus(next, n - 1, inc, up);
      OnBusApart([BusRead(addr)], Reads(next, n - 1, inc));
      assert AllOnBus([BusRead(addr)]) == [BusRead(Cell(cell))];
    }
  }

  // A read of this many words asks for a block of eight words at one address, which no code can say.
  predicate Unsayable(len: nat, inc: bool) { !inc && len % READBLOCK == 8 }

  lemma {:induction false} DeliverBlock(f: Fpga, inc: bool, n: nat, cell: nat)
    requires f.r.pending == [] && f.e.burst == NoBurst && Cell(f.e.addr) == Cell(cell)
    requires 1 <= n <= READBLOCK && !(n == 8 && !inc)
    ensures var d := Deliver(f, Chars(ReadCode(n, inc)) + [NEWLINE]);
            && d.f.r == Receiver([], false, f.r.hist) && d.f.e.burst == NoBurst
            && Cell(d.f.e.addr) == Cell(if inc then cell + n else cell)
            && AllOnBus(d.ops) == ReadLoop(cell, inc, n)
  {
    var code := ReadCode(n, inc);
    ReadLength(n, inc, f.r.hist);
    DeliverCode(f, code);
    var d := Deliver(f, Chars(code));
    assert d.f.r == Receiver([], false, f.r.hist) && d.ops == Reads(f.e.addr, n, inc);
    DeliverApart(f, Chars(code), [NEWLINE]);
    DeliverNewline(d.f);
    ReadsOnBus(f.e.addr, n, inc, cell);
    CellsAhead(f.e.addr, cell, n);
    assert d.ops + [] == d.ops;
    hide Deliver, Decode, Remember, IsCode, Chars, ReadCode, Cell, Plus, Reads, ReadLoop, AllOnBus;
  }

  lemma {:induction false} CellsAhead(a: Word, cell: nat, n: nat)
    requires Cell(a) == Cell(cell)
    ensures Cell(Plus(a, n)) == Cell(cell + n)
  {
  }

  lemma {:induction false} ReadLoopApart(cell: nat, inc: bool, a: nat, b: nat)
    ensures ReadLoop(cell, inc, a + b) == ReadLoop(cell, inc, a) + ReadLoop(if inc then cell + a else cell, inc, b)
    decreases a
  {
    if a > 0 { ReadLoopApart(if inc then cell + 1 else cell, inc, a - 1, b); }
  }

  lemma {:induction false} DeliverReads(f: Fpga, inc: bool, len: nat, cell: nat)
    requires f.r.pending == [] && !f.r.lastWrite && f.e.burst == NoBurst && Cell(f.e.addr) == Cell(cell)
    requires !Unsayable(len, inc)
    ensures var d := Deliver(f, ReadChars(len, inc));
            && d.f.r == f.r && d.f.e.burst == NoBurst
            && Cell(d.f.e.addr) == Cell(if inc then cell + len else cell)
            && AllOnBus(d.ops) == ReadLoop(cell, inc, len)
    decreases len
  {
    hide Deliver, Chars, ReadCode, Cell, ReadLoop, AllOnBus;
    if len == 0 {
      NothingDelivered(f);
      assert AllOnBus([]) == ReadLoop(cell, inc, 0) by { NoLoop(cell, inc); }
    } else if len <= READBLOCK {
      DeliverBlock(f, inc, len, cell);
    } else {
      var block, rest := Chars(ReadCode(READBLOCK, inc)) + [NEWLINE], ReadChars(len - READBLOCK, inc);
      DeliverBlock(f, inc, READBLOCK, cell);
      var d, next := Deliver(f, block), if inc then cell + READBLOCK else cell;
      DeliverReads(d.f, inc, len - READBLOCK, next);
      DeliverApart(f, block, rest);
      OnBusApart(d.ops, Deliver(d.f, rest).ops);
      ReadLoopApart(cell, inc, READBLOCK, len - READBLOCK);
    }
  }

  // The block of eight is taken for the end of a write, and nothing is read.
  lemma {:induction false} DeliverEight(f: Fpga)
    requires f.r.pending == [] && !f.r.lastWrite && f.e.burst == NoBurst
    ensures Deliver(f, Chars(ReadCode(8, false)) + [NEWLINE]) == Delivered(f, [])
  {
    var code := ReadCode(8, false);
    ReadLength(8, false, f.r.hist);
    DeliverCode(f, code);
    var d := Deliver(f, Chars(code));
    assert d.f == f && d.ops == [];
    DeliverApart(f, Chars(code), [NEWLINE]);
    DeliverNewline(f);
    hide Deliver, Decode, Chars;
  }

  lemma {:induction false} DeliverShort(f: Fpga, len: nat, cell: nat)
    requires f.r.pending == [] && !f.r.lastWrite && f.e.burst == NoBurst && Cell(f.e.addr) == Cell(cell)
    requires Unsayable(len, false)
    ensures |Deliver(f, ReadChars(len, false)).ops| == len - 8
    decreases len
  {
    hide Deliver, Chars, ReadCode, Cell;
    if len == 8 {
      DeliverEight(f);
    } else {
      var block, rest := Chars(ReadCode(READBLOCK, false)) + [NEWLINE], ReadChars(len - READBLOCK, false);
      DeliverBlock(f, false, READBLOCK, cell);
      var d := Deliver(f, block);
      LoopLength(cell, false, READBLOCK);
      DeliverShort(d.f, len - READBLOCK, cell);
      DeliverApart(f, block, rest);
    }
  }

  lemma {:induction false} LoopLength(cell: nat, inc: bool, n: nat)
    ensures |ReadLoop(cell, inc, n)| == n
    decreases n
  {
    if n > 0 { LoopLength(if inc then cell + 1 else cell, inc, n - 1); }
  }

  lemma {:induction false} NoLoop(cell: nat, inc: bool)
    ensures AllOnBus([]) == ReadLoop(cell, inc, 0) == WordLoop(cell, inc, []) == []
  {
  }

  // ---- Whole calls ----

  // What a caller can check before a call: the address is not in the band, there is something to write, and
  // the length can be said.
  predicate Sayable(h: Host, call: Call) {
    !Aligned(call.a) ||
    match call
    case Write(a, _, vals) => vals != [] && !InBand(h.addrSet, h.last, a)
    case Read(a, inc, len) => len == 0 || (!InBand(h.addrSet, h.last, a) && !Unsayable(len, inc))
  }

  lemma {:induction false} DeliverAddress(h: Host, f: Fpga, a: Word)
    requires InSync(h, f) && Aligned(a) && !InBand(h.addrSet, h.last, a)
    ensures var d := Deliver(f, Chars(AddressCode(h.addrSet, h.last, a)));
            && d.ops == [] && d.f.e.burst == NoBurst && Cell(d.f.e.addr) == a / 4
            && d.f.r == f.r
  {
    if h.addrSet && a == h.last {
      assert Chars([]) == [];
      NothingDelivered(f);
    } else {
      var code := AddressCode(h.addrSet, h.last, a);
      AddressArrives(h.addrSet, h.last, a);
      assert MovesTo(Exec(f.e.addr, NoBurst), Decode(code, f.r.hist), a);
      AddressOp(h.addrSet, h.last, a);
      DeliverCode(f, code);
      hide Deliver, Decode, AddressCode, InBand;
    }
  }

  // In the band the board takes the first four digits for a shorter distance, and the fifth for the beginning of
  // something else: the executor ends elsewhere.
  lemma {:induction false} BandMisses(h: Host, f: Fpga, a: Word)
    requires InSync(h, f) && Aligned(a) && InBand(h.addrSet, h.last, a)
    ensures Cell(Deliver(f, Chars(AddressCode(h.addrSet, h.last, a))).f.e.addr) != a / 4
  {
    var d := Distance(h.last, a);
    var head, tail := [0x0d] + Digits3(d / 64), [d % 64];
    var code := AddressCode(h.addrSet, h.last, a);
    BandCode(h, a);
    CharsApart(head, tail);
    DeliverApart(f, Chars(head), Chars(tail));
    HeadMoves(f, d / 64);
    var g := Deliver(f, Chars(head)).f;
    TailMoves(g, d % 64);
    var n :| 0 <= n <= 8 && Deliver(g, Chars(tail)).f.e.addr == Plus(g.e.addr, n);
    FarOff(f.e.addr, h.last, a, g.e.addr, Deliver(g, Chars(tail)).f.e.addr, n);
    hide Deliver, AddressCode, Digits3, Chars, Distance;
  }

  lemma {:induction false} BandCode(h: Host, a: Word)
    requires InBand(h.addrSet, h.last, a)
    ensures var d := Distance(h.last, a); AddressCode(h.addrSet, h.last, a) == ([0x0d] + Digits3(d / 64)) + [d % 64]
  {
    var d := Distance(h.last, a);
    assert Relative(d) == [0x0d] + Digits4(d);
    hide Distance;
  }

  lemma {:induction false} HeadMoves(f: Fpga, d: nat)
    requires f.r.pending == [] && f.e.burst == NoBurst && d < 0x2_0000
    ensures Deliver(f, Chars([0x0d] + Digits3(d))).f == Fpga(Receiver([], false, f.r.hist), f.e.(addr := Plus(f.e.addr, d)))
  {
    var code := [0x0d] + Digits3(d);
    assert IsCode(code) && Decode(code, f.r.hist) == AddAddr(d) by {
      SpelledValue(d, code[1..]);
      hide Value, Digits3;
    }
    DeliverCode(f, code);
    hide Deliver, Decode, Digits3, Chars;
  }

  // One digit more: it waits, or ends a write, or is a short read.
  lemma {:induction false} TailMoves(f: Fpga, t: Digit)
    requires f.r.pending == [] && f.e.burst == NoBurst
    ensures exists n :: 0 <= n <= 8 && Deliver(f, Chars([t])).f.e.addr == Plus(f.e.addr, n)
  {
    if IsCode([t]) {
      DeliverCode(f, [t]);
      var c := Decode([t], f.r.hist);
      assert c == EndWrite || c == ReadBlock(1 + t / 2 % 8, t % 2 == 1);
      assert Execute(f.e, c).e.addr == Plus(f.e.addr, if c.ReadBlock? && c.inc then c.len else 0);
    } else {
      HearPart(f.r, [t]);
      assert Plus(f.e.addr, 0) == f.e.addr;
    }
    hide Deliver, Chars;
  }

  lemma {:induction false} FarOff(from: Word, last: Word, a: Word, mid: Word, end: Word, n: nat)
    requires Aligned(a) && Aligned(last) && Cell(from) == last / 4 && 0x2_0000 <= Distance(last, a) < 0x80_0000
    requires mid == Plus(from, Distance(last, a) / 64) && end == Plus(mid, n) && n <= 8
    ensures Cell(end) != a / 4
  {
    var d := Distance(last, a);
    DistanceReaches(last, a, from);
    CellsAhead(from, from, d);
    CellsAhead(from, from, d / 64);
    CellsAhead(mid, from + d / 64, n);
    assert Cell(end) == Cell(from + d / 64 + n);
    Apart(from + d / 64 + n, from + d);
    hide Distance, Plus, Cell;
  }

  lemma {:induction false} Apart(x: nat, y: nat)
    requires x < y < x + 0x4000_0000
    ensures Cell(x) != Cell(y)
  {
  }

  // The code for an address moves the executor there exactly outside the band.
  lemma {:induction false} AddressDelivered(h: Host, f: Fpga, a: Word)
    requires InSync(h, f) && Aligned(a)
    ensures Cell(Deliver(f, Chars(AddressCode(h.addrSet, h.last, a))).f.e.addr) == a / 4 <==> !InBand(h.addrSet, h.last, a)
  {
    hide Deliver, Chars, AddressCode, InBand, InSync, Cell;
    if InBand(h.addrSet, h.last, a) { BandMisses(h, f, a); } else { DeliverAddress(h, f, a); }
  }

  // There are such addresses: half a megabyte on from 64 megabytes.
  lemma {:induction false} BandWitness()
    ensures Aligned(0x408_0000) && InBand(true, 0x400_0000, 0x408_0000)
  {
  }

  lemma {:induction false} AddressOp(addrSet: bool, last: Word, a: Word)
    requires !(addrSet && a == last)
    ensures var code := AddressCode(addrSet, last, a); |code| > 0 && code[0] < 0x10
  {
  }

  lemma {:induction false} AdvanceCell(a: Word, n: nat)
    requires Aligned(a)
    ensures Aligned(Advance(a, n)) && Advance(a, n) / 4 == Cell(a / 4 + n)
  {
  }

  lemma {:induction false} InCell(a: Word)
    ensures Cell(a / 4) == a / 4
  {
  }

  lemma {:induction false} WriteArrives(h: Host, f: Fpga, a: Word, inc: bool, vals: seq<Word>)
    requires InSync(h, f) && Aligned(a) && Sayable(h, Write(a, inc, vals))
    ensures var s := Send(h, Write(a, inc, vals));
            var d := Deliver(f, s.chars);
            InSync(s.h, d.f) && AllOnBus(d.ops) == Meaning(Write(a, inc, vals))
  {
    hide Deliver, Chars, AddressCode, WriteChars, AfterWrites, Cell, AllOnBus, WordLoop, Advance, InBand;
    var address, words := Chars(AddressCode(h.addrSet, h.last, a)), WriteChars(h.hist, inc, vals);
    InCell(a);
    DeliverAddress(h, f, a);
    var d := Deliver(f, address);
    DeliverWrites(d.f, h.hist, inc, false, vals, a / 4);
    var e := Deliver(d.f, words);
    assert address + words + [NEWLINE] == address + (words + [NEWLINE]);
    DeliverApart(f, address, words + [NEWLINE]);
    DeliverApart(d.f, words, [NEWLINE]);
    DeliverNewline(e.f);
    AdvanceCell(a, |vals|);
    assert [] + (e.ops + []) == e.ops;
  }

  lemma {:induction false} ReadArrives(h: Host, f: Fpga, a: Word, inc: bool, len: nat)
    requires InSync(h, f) && Aligned(a) && len > 0 && Sayable(h, Read(a, inc, len))
    ensures var s := Send(h, Read(a, inc, len));
            var d := Deliver(f, s.chars);
            InSync(s.h, d.f) && AllOnBus(d.ops) == Meaning(Read(a, inc, len))
  {
    hide Deliver, Chars, AddressCode, ReadChars, Cell, AllOnBus, ReadLoop, Advance, InBand, Unsayable;
    var address, blocks := Chars(AddressCode(h.addrSet, h.last, a)), ReadChars(len, inc);
    InCell(a);
    DeliverAddress(h, f, a);
    var d := Deliver(f, address);
    DeliverReads(d.f, inc, len, a / 4);
    DeliverApart(f, address, blocks);
    AdvanceCell(a, len);
    assert [] + Deliver(d.f, blocks).ops == Deliver(d.f, blocks).ops;
  }

  // With its address outside the band, a read arrives exactly when no block of it is unsayable.
  lemma {:induction false} ReadArrivesWhen(h: Host, f: Fpga, a: Word, inc: bool, len: nat)
    requires InSync(h, f) && Aligned(a) && len > 0 && !InBand(h.addrSet, h.last, a)
    ensures AllOnBus(Deliver(f, Send(h, Read(a, inc, len)).chars).ops) == Meaning(Read(a, inc, len)) <==> !Unsayable(len, inc)
  {
    if !Unsayable(len, inc) {
      ReadArrives(h, f, a, inc, len);
    } else {
      var address, blocks := Chars(AddressCode(h.addrSet, h.last, a)), ReadChars(len, inc);
      InCell(a);
      DeliverAddress(h, f, a);
      DeliverShort(Deliver(f, address).f, len, a / 4);
      DeliverApart(f, address, blocks);
      LoopLength(a / 4, inc, len);
    }
    hide InSync, Deliver, ReadLoop, Chars, AddressCode, ReadChars, Unsayable, InBand;
  }

  lemma {:induction false} CallArrives(h: Host, f: Fpga, call: Call)
    requires InSync(h, f) && Sayable(h, call)
    ensures var s := Send(h, call);
            var d := Deliver(f, s.chars);
            InSync(s.h, d.f) && AllOnBus(d.ops) == Meaning(call)
  {
    hide InSync, Sayable, Deliver, AllOnBus;
    if !Aligned(call.a) || (call.Read? && call.len == 0) {
      NothingDelivered(f);
      NoLoop(call.a / 4, call.inc);
    } else if call.Write? {
      WriteArrives(h, f, call.a, call.inc, call.vals);
    } else {
      ReadArrives(h, f, call.a, call.inc, call.len);
    }
  }

  predicate AllSayable(h: Host, calls: seq<Call>)
    decreases |calls|
  {
    calls == [] || (Sayable(h, calls[0]) && AllSayable(Send(h, calls[0]).h, calls[1..]))
  }

  // For every session of calls, from any state in which the two ends agree, the bus sees exactly the
  // operations of the per-word loops, in order, and the two ends agree again afterwards.
  lemma {:induction false} SessionArrives(h: Host, f: Fpga, calls: seq<Call>)
    requires InSync(h, f) && AllSayable(h, calls)
    ensures var s := SendAll(h, calls);
            var d := Deliver(f, s.chars);
            InSync(s.h, d.f) && AllOnBus(d.ops) == MeaningAll(calls)
    decreases |calls|
  {
    hide InSync, Sayable, Deliver, AllOnBus, Meaning, Send;
    if calls == [] {
      NothingDelivered(f);
      NoLoop(0, false);
    } else {
      var first := Send(h, calls[0]);
      CallArrives(h, f, calls[0]);
      var d, rest := Deliver(f, first.chars), SendAll(first.h, calls[1..]);
      SessionArrives(first.h, d.f, calls[1..]);
      DeliverApart(f, first.chars, rest.chars);
      OnBusApart(d.ops, Deliver(d.f, rest.chars).ops);
    }
  }

  // An empty write moves the host and not the board: where the host knows its address, the two ends stay in step
  // exactly when the write is to that address.
  lemma {:induction false} EmptyWrite(h: Host, f: Fpga, a: Word, inc: bool)
    requires InSync(h, f) && Aligned(a) && h.addrSet
    ensures var s := Send(h, Write(a, inc, []));
            InSync(s.h, Deliver(f, s.chars).f) <==> a == h.last
  {
    NothingDelivered(f);
    EmptySend(h, a, inc);
    hide Deliver, Send, Cell;
  }

  lemma {:induction false} EmptySend(h: Host, a: Word, inc: bool)
    requires Aligned(a)
    ensures Send(h, Write(a, inc, [])) == Sent(Host(true, a, h.hist), [])
  {
    hide AddressCode, Chars, WriteChars;
  }

  // Where the host knows no address, it cannot tell: with everything that it knows the same, the executor may stand
  // at the address of the write or elsewhere, and the ends are then in step or not.
  lemma {:induction false} EmptyWriteUntold(h: Host, f: Fpga, a: Word, inc: bool)
    requires InSync(h, f) && Aligned(a) && !h.addrSet
    ensures var s, here, there := Send(h, Write(a, inc, [])), Exec(a / 4, NoBurst), Exec(Plus(a / 4, 1), NoBurst);
            && InSync(h, f.(e := here)) && InSync(h, f.(e := there))
            && InSync(s.h, Deliver(f.(e := here), s.chars).f) && !InSync(s.h, Deliver(f.(e := there), s.chars).f)
  {
    NothingDelivered(f.(e := Exec(a / 4, NoBurst)));
    NothingDelivered(f.(e := Exec(Plus(a / 4, 1), NoBurst)));
    EmptySend(h, a, inc);
    hide Deliver, Send;
  }

  // ---- The shortest code ----

  function Range(n: nat): (r: nat)
    ensures r > 0
  {
    if n == 0 then 1 else 64 * Range(n - 1)
  }

  lemma {:induction false} ValueBelow(acc: nat, ds: seq<Digit>)
    ensures Value(acc, ds) < (acc + 1) * Range(|ds|)
    decreases |ds|
  {
    if ds != [] {
      var r := Range(|ds| - 1);
      ValueBelow(acc * 64 + ds[0], ds[1..]);
      assert (63 - ds[0]) * r >= 0;
      assert (acc * 64 + ds[0] + 1) * r + (63 - ds[0]) * r == (acc + 1) * (64 * r);
    }
  }

  // How far the digits of an address code reach.
  lemma {:induction false} CodeReaches(c: seq<Digit>, hist: seq<Word>)
    requires IsCode(c) && |c| < 6
    ensures match Decode(c, hist)
            case SetAddr(x) => x < Range(|c| - 1)
            case AddAddr(x) => 2 * x < Range(|c| - 1) || x >= 0x4000_0000
            case _ => true
    ensures Decode(c, hist).SetAddr? || Decode(c, hist).AddAddr? ==> 2 <= |c|
  {
    ValueBelow(0, c[1..]);
    Ranges();
    hide Value, Range, Recent;
  }

  lemma {:induction false} Ranges()
    ensures Range(1) == 0x40 && Range(2) == 0x1000 && Range(3) == 0x4_0000 && Range(4) == 0x100_0000
  {
    assert Range(0) == 1;
    assert Range(1) == 64 * Range(0);
    assert Range(2) == 64 * Range(1);
    assert Range(3) == 64 * Range(2);
    assert Range(4) == 64 * Range(3);
  }

  // No code for the address itself, nor for the distance to it forward, is shorter than the one that is sent.
  lemma {:induction false} ShortestCode(addrSet: bool, last: Word, a: Word, c: seq<Digit>, hist: seq<Word>)
    requires Aligned(a) && !(addrSet && a == last) && !InBand(addrSet, last, a) && IsCode(c)
    requires Decode(c, hist) == SetAddr(a / 4) || (addrSet && Decode(c, hist) == AddAddr(Distance(last, a)))
    ensures |AddressCode(addrSet, last, a)| <= |c|
  {
    if |c| < 6 { CodeReaches(c, hist); }
    Ranges();
    hide Range, Decode, Distance;
  }
}
