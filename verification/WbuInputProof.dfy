// The clocked receiver keeps to the character-level receiver, whatever the table held when it started.
module WbuInputProof {
  import opened WbuCode
  import opened WbuInput

  // Where the character that came in last has got to.
  datatype Phase =
    | Idle
    | Hexed(b: Byte)
    | Gathered(ds: seq<Digit>)
    | Framed(ds: seq<Digit>)
    | Loaded(n: nat, ds: seq<Digit>)

  // A stale write stands for a write of an unknown word.
  predicate Matches(c: Command, spec: Command) {
    c == spec || (spec.StaleWrite? && c.WriteWord? && c.inc == spec.inc)
  }

  function Scale(n: nat): (k: nat)
    ensures k > 0
  {
    if n == 2 then 0x100_0000 else if n == 3 then 0x4_0000 else if n == 4 then 0x1000 else if n == 5 then 64 else 1
  }

  // A word begins with these digits; what follows them is of no account.
  ghost predicate Carries(w: Codeword, ds: seq<Digit>) {
    1 <= |ds| <= 6 && w.op == ds[0] && (|ds| > 1 ==> w.low / Scale(|ds|) == Value(0, ds[1..]))
  }

  // The FPGA's entry k places behind its write address is the raw word k words ago.
  ghost predicate TableAgrees(tbl: seq<Word>, wr: nat, hist: seq<Word>) {
    |tbl| == 256 && wr < 256
    && forall k :: 1 <= k < 256 && k <= |hist| ==> tbl[(wr - k) % 256] == Recent(hist, k)
  }

  ghost predicate FramerIdle(c: Framer, r: Receiver) {
    && |c.shift| == 6 && !c.stb && (c.lastcw == 1 <==> r.lastWrite)
    && c.len == |r.pending|
    && if r.pending == [] then c.cwLen == 0
       else c.len < c.cwLen && c.cwLen == CodeLen(r.pending[0]) && c.shift[..c.len] == r.pending
  }

  predicate Quiet(d: Unpacker) { !d.stb0 && !d.stb1 && !d.stb2 }

  // A command that is being worked out, n clocks after it was taken.
  ghost predicate Expanding(d: Unpacker, n: nat, ds: seq<Digit>, was: seq<Word>) {
    && IsCode(ds) && Carries(d.word, ds)
    && d.stb0 == (n == 0) && d.stb1 == (n == 1) && d.stb2 == (n == 2)
    && (Refers(ds, was) && n == 1 ==> d.cmdAddr < |d.tbl| && d.tbl[d.cmdAddr] == Recent(was, Distance(ds)))
    && (Refers(ds, was) && n == 2 ==> d.cword == Recent(was, Distance(ds)))
    && (n >= 1 ==> d.addr == AddrStep(d.word) && d.rdLen == RdLenStep(d.word))
  }

  function Distance(ds: seq<Digit>): nat
    requires |ds| >= 2
  {
    var op: nat := ds[0];
    op / 2 % 4 * 64 + ds[1]
  }

  predicate Refers(ds: seq<Digit>, hist: seq<Word>) { |ds| == 2 && ds[0] / 8 == 2 && Recalls(hist, Distance(ds)) }

  ghost predicate InPhase(p: Pipe, r: Receiver, ph: Phase) {
    Formed(p) &&
    match ph
    case Idle => !p.hex.stb && FramerIdle(p.cw, r) && Quiet(p.de) && TableAgrees(p.de.tbl, p.de.wrAddr, r.hist)
    case Hexed(b) =>
      p.hex == HexStep(In(true, b)) && FramerIdle(p.cw, r) && Quiet(p.de)
      && TableAgrees(p.de.tbl, p.de.wrAddr, r.hist)
    case Gathered(ds) =>
      && !p.hex.stb && !p.cw.stb && IsCode(ds) && p.cw.len == p.cw.cwLen == |ds| && p.cw.shift[..|ds|] == ds
      && Quiet(p.de) && TableAgrees(p.de.tbl, p.de.wrAddr, r.hist)
    case Framed(ds) =>
      && !p.hex.stb && p.cw.stb && p.cw.len == p.cw.cwLen == 0 && IsCode(ds) && Carries(p.cw.word, ds)
      && Quiet(p.de) && TableAgrees(p.de.tbl, p.de.wrAddr, r.hist)
    case Loaded(n, ds) =>
      && n < 3 && IsCode(ds) && !p.hex.stb && FramerIdle(p.cw, TakeCode(r, ds).r) && Expanding(p.de, n, ds, r.hist)
      && TableAgrees(p.de.tbl, p.de.wrAddr, Remember(ds, r.hist))
  }

  // ---- One character, step by step ----

  lemma {:induction false} TakesChar(p: Pipe, r: Receiver, b: Byte)
    requires InPhase(p, r, Idle)
    ensures var q := Step(p, In(true, b)); InPhase(q, r, Hexed(b)) && Shown(q) == []
  {
  }

  lemma {:induction false} StaysIdle(p: Pipe, r: Receiver, b: Byte)
    requires InPhase(p, r, Idle)
    ensures var q := Step(p, In(false, b)); InPhase(q, r, Idle) && Shown(q) == []
  {
  }

  // What the framing does with a character.
  function Taken(r: Receiver, b: Byte): Phase {
    if !IsDigit(b) then (if r.lastWrite then Framed([0x2e]) else Idle)
    else
      var ds := r.pending + [CharDec(b)];
      if IsCode(ds) then Gathered(ds) else Idle
  }

  lemma {:induction false} Frames(p: Pipe, r: Receiver, b: Byte, c: Byte)
    requires InPhase(p, r, Hexed(b))
    ensures var q := Step(p, In(false, c));
            && InPhase(q, if Taken(r, b) == Idle then Hear(r, b).r else r, Taken(r, b)) && Shown(q) == []
  {
    SameCode(b);
    var q := Step(p, In(false, c));
    hide HexBits, CharDec, UnpackerStep;
    if IsDigit(b) { Gathers(p.cw, r, HexBits(b)); } else { Restarts(p.cw, r); }
    hide FramerIdle, FramerStep, TableAgrees;
  }

  lemma {:induction false} Gathers(c: Framer, r: Receiver, d: Digit)
    requires FramerIdle(c, r)
    ensures var ds := r.pending + [d];
            var e := FramerStep(c, Hex(true, true, d));
            if IsCode(ds) then !e.stb && e.len == e.cwLen == |ds| && |e.shift| == 6 && e.shift[..|ds|] == ds
            else FramerIdle(e, r.(pending := ds))
  {
    var ds := r.pending + [d];
    if r.pending != [] { assert ds[0] == r.pending[0]; }
    assert c.len < 6;
    assert c.shift[c.len := d][..|ds|] == ds;
    hide Join, CodeLen;
  }

  lemma {:induction false} Restarts(c: Framer, r: Receiver)
    requires FramerIdle(c, r)
    ensures var e := FramerStep(c, Hex(true, false, 0));
            if r.lastWrite then e.stb && e.len == e.cwLen == 0 && |e.shift| == 6 && Carries(e.word, [0x2e])
            else FramerIdle(e, Receiver([], false, r.hist))
  {
    hide Join;
  }

  lemma {:induction false} Emits(p: Pipe, r: Receiver, ds: seq<Digit>, c: Byte)
    requires InPhase(p, r, Gathered(ds))
    ensures var q := Step(p, In(false, c)); InPhase(q, r, Framed(ds)) && Shown(q) == []
  {
    JoinCarries(p.cw.shift, ds);
    hide HexBits, CharDec, AddrStep, RdLenStep, Expand, Join, Carries;
  }

  lemma {:induction false} TopOf(top: nat, rest: nat, k: nat)
    requires k in {64, 0x1000, 0x4_0000, 0x100_0000} && rest < k
    ensures (top * k + rest) / k == top
  {
  }

  lemma {:induction false} ValueSnoc(acc: nat, ds: seq<Digit>, d: Digit)
    ensures Value(acc, ds + [d]) == Glue(Value(acc, ds), d)
    decreases |ds|
  {
    if ds == [] {
      assert (ds + [d])[1..] == [];
    } else {
      assert (ds + [d])[1..] == ds[1..] + [d];
      ValueSnoc(acc * 64 + ds[0], ds[1..], d);
    }
  }

  // A prefix of the shift register spells what the first digits of the joined word do.
  lemma {:induction false} PrefixValue(s: seq<Digit>, n: nat)
    requires |s| == 6 && 1 <= n <= 5
    ensures Value(0, s[1..n + 1]) == (if n == 1 then s[1] else Glue(Value(0, s[1..n]), s[n]))
  {
    assert s[1..n + 1] == s[1..n] + [s[n]];
    ValueSnoc(0, s[1..n], s[n]);
    if n == 1 { assert s[1..n] == []; }
  }

  lemma {:induction false} JoinCarries(s: seq<Digit>, ds: seq<Digit>)
    requires |s| == 6 && 1 <= |ds| <= 6 && s[..|ds|] == ds
    ensures Carries(Join(s), ds)
  {
    FiveDigits(s);
    PrefixValue(s, 1);
    PrefixValue(s, 2);
    PrefixValue(s, 3);
    PrefixValue(s, 4);
    PrefixValue(s, 5);
    assert |ds| > 1 ==> ds[1..] == s[1..|ds|];
    TopOf(s[1], ((s[2] as int * 64 + s[3]) * 64 + s[4]) * 64 + s[5], 0x100_0000);
    TopOf(Glue(s[1], s[2]), (s[3] as int * 64 + s[4]) * 64 + s[5], 0x4_0000);
    TopOf(Glue(Glue(s[1], s[2]), s[3]), s[4] as int * 64 + s[5], 0x1000);
    TopOf(Glue(Glue(Glue(s[1], s[2]), s[3]), s[4]), s[5], 64);
    hide Value;
  }

  // Every codeword is stored at the write address; only a raw write keeps it, by moving on.
  lemma {:induction false} StoreAgrees(tbl: seq<Word>, wr: nat, hist: seq<Word>, v: Word)
    requires TableAgrees(tbl, wr, hist)
    ensures TableAgrees(tbl[wr := v], wr, hist) && TableAgrees(tbl[wr := v], (wr + 1) % 256, hist + [v])
  {
    var stored, now := tbl[wr := v], hist + [v];
    forall k | 1 <= k < 256 && k <= |hist| ensures stored[(wr - k) % 256] == Recent(hist, k) {
      assert (wr - k) % 256 != wr;
    }
    forall k | 1 <= k < 256 && k <= |now| ensures stored[((wr + 1) % 256 - k) % 256] == Recent(now, k) {
      if k == 1 { assert ((wr + 1) % 256 - 1) % 256 == wr; }
      else {
        assert ((wr + 1) % 256 - k) % 256 == (wr - (k - 1)) % 256 != wr;
        assert Recent(now, k) == Recent(hist, k - 1);
      }
    }
  }

  lemma {:induction false} RawData(w: Codeword, ds: seq<Digit>, hist: seq<Word>)
    requires IsCode(ds) && Carries(w, ds)
    ensures Remember(ds, hist) == if w.op / 8 == 3 then hist + [Data(w)] else hist
  {
    hide Value;
  }

  lemma {:induction false} Loads(p: Pipe, r: Receiver, ds: seq<Digit>, c: Byte)
    requires InPhase(p, r, Framed(ds))
    ensures var q := Step(p, In(false, c)); InPhase(q, r, Loaded(0, ds)) && Shown(q) == []
  {
    StoreAgrees(p.de.tbl, p.de.wrAddr, r.hist, Data(p.cw.word));
    RawData(p.cw.word, ds, r.hist);
    hide TableAgrees, Data, Remember, Carries, AddrStep, RdLenStep, Expand, Join, Decode;
  }

  lemma {:induction false} Refers2(w: Codeword, ds: seq<Digit>, hist: seq<Word>)
    requires Carries(w, ds) && Refers(ds, hist)
    ensures w.op / 2 % 4 * 64 + w.low / 0x100_0000 == Distance(ds)
  {
    assert ds[1..] == [ds[1]];
    ValueTail(0, ds[1], ds[1], []);
    assert [ds[1]] + [] == [ds[1]];
  }

  // The address field, whatever its length.
  lemma {:induction false} FieldIs(w: Codeword, ds: seq<Digit>, v: nat)
    requires IsCode(ds) && Carries(w, ds) && w.op / 8 == 1 && v == Value(0, ds[1..])
    ensures v < Top(|ds| - 1)
    ensures AddrStep(w) == if w.op % 2 == 0 then v else Extend25(v, Top(|ds| - 1))
  {
    var low := w.low;
    assert |ds| == 2 + w.op / 2 % 4;
    hide Value;
    if |ds| == 2 { assert v == low / 0x100_0000 < 64; assert w.op % 8 <= 1; }
    else if |ds| == 3 { assert v == low / 0x4_0000 < 0x1000; assert 2 <= w.op % 8 <= 3; }
    else if |ds| == 4 { assert v == low / 0x1000 < 0x4_0000; assert 4 <= w.op % 8 <= 5; }
    else { assert v == low / 64 < 0x100_0000; assert 6 <= w.op % 8; }
  }

  lemma {:induction false} WideIs(v: nat, top: nat)
    requires top in {64, 0x1000, 0x4_0000, 0x100_0000} && v < top
    ensures WideAddr(Extend25(v, top)) == Signed(v, top) && WideAddr(v) == v
  {
  }

  lemma {:induction false} Rejoined(n: Word)
    ensures var w := Codeword(8 + n / 0x4000_0000 * 2 + 1, n % 0x4000_0000); w.op / 8 == 1 && Data(w) == n
  {
    var q := n / 0x4000_0000;
    assert q < 4 && n == q * 0x4000_0000 + n % 0x4000_0000;
  }

  lemma {:induction false} RejoinedWrite(n: Word, up: nat)
    requires up < 2
    ensures var w := Codeword(24 + n / 0x4000_0000 * 2 + up, n % 0x4000_0000);
            w.op / 8 == 3 && w.op / 16 == 1 && w.op % 2 == up && Data(w) == n
  {
    var q := n / 0x4000_0000;
    assert q < 4 && n == q * 0x4000_0000 + n % 0x4000_0000;
  }

  lemma {:induction false} AddressMeans(w: Codeword, ds: seq<Digit>, hist: seq<Word>, cword: Word)
    requires IsCode(ds) && Carries(w, ds) && w.op / 8 == 1
    ensures Ordered(Expand(w, WideAddr(AddrStep(w)), cword, RdLenStep(w))) == Decode(ds, hist)
  {
    var v, n := Value(0, ds[1..]), |ds| - 1;
    FieldIs(w, ds, v);
    WideIs(v, Top(n));
    Rejoined(Signed(v, Top(n)));
    assert Decode(ds, hist) == if w.op % 2 == 0 then SetAddr(v) else AddAddr(Signed(v, Top(n)));
    hide Value, AddrStep, RdLenStep, Top, Signed, Extend25, Decode, WideAddr, Data, CodeLen, Scale;
  }

  lemma {:induction false} ReadMeans(w: Codeword, ds: seq<Digit>, hist: seq<Word>, addr: Word, cword: Word)
    requires IsCode(ds) && Carries(w, ds) && w.op / 16 >= 2
    ensures Ordered(Expand(w, addr, cword, RdLenStep(w))) == Decode(ds, hist)
  {
    if w.op / 16 == 3 {
      assert |ds| == 2 && ds[1..] == [ds[1]];
      ValueTail(0, ds[1], ds[1], []);
      assert [ds[1]] + [] == [ds[1]];
      assert w.low / 0x100_0000 == ds[1];
    }
    hide Value, Carries, CodeLen;
  }

  lemma {:induction false} WriteMeans(w: Codeword, ds: seq<Digit>, hist: seq<Word>, addr: Word, cword: Word)
    requires IsCode(ds) && Carries(w, ds) && w.op / 16 == 1 && (Refers(ds, hist) ==> cword == Recent(hist, Distance(ds)))
    ensures Matches(Ordered(Expand(w, addr, cword, RdLenStep(w))), Decode(ds, hist))
  {
    RejoinedWrite(cword, w.op % 2);
    if w.op / 8 == 3 { RawData(w, ds, hist); }
    hide Value, RdLenStep;
  }

  lemma {:induction false} OtherMeans(w: Codeword, ds: seq<Digit>, hist: seq<Word>, addr: Word, cword: Word)
    requires IsCode(ds) && Carries(w, ds) && w.op / 8 == 0
    ensures Ordered(Expand(w, addr, cword, RdLenStep(w))) == Decode(ds, hist)
  {
    hide Value, RdLenStep;
    assert |ds| == 6 && w.low == Value(0, ds[1..]);
    assert Expand(w, addr, cword, RdLenStep(w)) == w;
    hide Expand, Carries, CodeLen;
    assert w.op < 4 ==> Decode(ds, hist) == SetAddr(w.op * 0x4000_0000 + w.low);
  }

  // The table value, the address and the length that are worked out beside a codeword make it mean what its
  // digits mean.
  lemma {:induction false} ExpandMeans(w: Codeword, ds: seq<Digit>, hist: seq<Word>, cword: Word)
    requires IsCode(ds) && Carries(w, ds) && (Refers(ds, hist) ==> cword == Recent(hist, Distance(ds)))
    ensures Matches(Ordered(Expand(w, WideAddr(AddrStep(w)), cword, RdLenStep(w))), Decode(ds, hist))
  {
    var addr := WideAddr(AddrStep(w));
    hide *;
    if w.op / 8 == 1 { AddressMeans(w, ds, hist, cword); Same(Decode(ds, hist)); }
    else if w.op / 16 == 1 { WriteMeans(w, ds, hist, addr, cword); }
    else if w.op / 16 >= 2 { ReadMeans(w, ds, hist, addr, cword); Same(Decode(ds, hist)); }
    else { OtherMeans(w, ds, hist, addr, cword); Same(Decode(ds, hist)); }
  }

  lemma {:induction false} Same(c: Command)
    ensures Matches(c, c)
  {
  }

  lemma {:induction false} Expands(p: Pipe, r: Receiver, n: nat, ds: seq<Digit>, c: Byte)
    requires InPhase(p, r, Loaded(n, ds))
    ensures var q := Step(p, In(false, c));
            if n < 2 then InPhase(q, r, Loaded(n + 1, ds)) && Shown(q) == []
            else InPhase(q, TakeCode(r, ds).r, Idle) && |Shown(q)| == 1 && Matches(Shown(q)[0], Decode(ds, r.hist))
  {
    var d := p.de;
    if Refers(ds, r.hist) { Refers2(d.word, ds, r.hist); }
    if n == 2 { ExpandMeans(d.word, ds, r.hist, d.cword); }
    hide Carries, AddrStep, RdLenStep, Expand, Join, Decode, Matches;
  }

  // ---- Whole characters, and whole lines ----

  function Left(ph: Phase): nat {
    match ph
    case Idle => 0
    case Hexed(_) => 6
    case Gathered(_) => 5
    case Framed(_) => 4
    case Loaded(n, _) => if n < 3 then 3 - n else 0
  }

  predicate Sound(ph: Phase) {
    match ph
    case Idle => true
    case Hexed(_) => true
    case Gathered(ds) => IsCode(ds)
    case Framed(ds) => IsCode(ds)
    case Loaded(n, ds) => n < 3 && IsCode(ds)
  }

  // Where the next clock takes a phase, and what comes out on it.
  datatype Moved = Moved(r: Receiver, ph: Phase, now: seq<Command>)

  function Move(r: Receiver, ph: Phase): Moved
    requires Sound(ph)
  {
    match ph
    case Idle => Moved(r, Idle, [])
    case Hexed(b) => Moved(if Taken(r, b) == Idle then Hear(r, b).r else r, Taken(r, b), [])
    case Gathered(ds) => Moved(r, Framed(ds), [])
    case Framed(ds) => Moved(r, Loaded(0, ds), [])
    case Loaded(n, ds) =>
      if n < 2 then Moved(r, Loaded(n + 1, ds), []) else Moved(TakeCode(r, ds).r, Idle, [Decode(ds, r.hist)])
  }

  // Everything that is still to come.
  function Goal(r: Receiver, ph: Phase): Heard
    requires Sound(ph)
  {
    match ph
    case Idle => Heard(r, [])
    case Hexed(b) => Hear(r, b)
    case Gathered(ds) => TakeCode(r, ds)
    case Framed(ds) => TakeCode(r, ds)
    case Loaded(_, ds) => TakeCode(r, ds)
  }

  lemma {:induction false} MoveKeepsGoal(r: Receiver, ph: Phase)
    requires Sound(ph)
    ensures var m := Move(r, ph);
            && Sound(m.ph) && Left(m.ph) <= (if Left(ph) > 0 then Left(ph) - 1 else 0)
            && Goal(r, ph) == Heard(Goal(m.r, m.ph).r, m.now + Goal(m.r, m.ph).commands)
  {
    if ph.Hexed? && Taken(r, ph.b) == Framed([0x2e]) { assert Goal(r, ph).commands == [EndWrite]; }
  }

  predicate AllMatch(cs: seq<Command>, specs: seq<Command>) {
    |cs| == |specs| && forall k :: 0 <= k < |cs| ==> Matches(cs[k], specs[k])
  }

  lemma {:induction false} PhaseStep(p: Pipe, r: Receiver, ph: Phase, c: Byte)
    requires InPhase(p, r, ph)
    ensures Sound(ph)
    ensures var q, m := Step(p, In(false, c)), Move(r, ph); InPhase(q, m.r, m.ph) && AllMatch(Shown(q), m.now)
  {
    PhaseIsSound(p, r, ph);
    hide InPhase, Formed, Step, Hear, Taken, TakeCode, Decode, Matches, IsCode, Shown;
    match ph
    case Idle => StaysIdle(p, r, c);
    case Hexed(b) => Frames(p, r, b, c);
    case Gathered(ds) => Emits(p, r, ds, c);
    case Framed(ds) => Loads(p, r, ds, c);
    case Loaded(n, ds) => Expands(p, r, n, ds, c);
  }

  lemma {:induction false} PhaseIsSound(p: Pipe, r: Receiver, ph: Phase)
    requires InPhase(p, r, ph)
    ensures Formed(p) && Sound(ph)
  {
  }

  function Quietly(bs: seq<Byte>): (r: seq<In>)
    ensures |r| == |bs|
  {
    seq(|bs|, k requires 0 <= k < |bs| => In(false, bs[k]))
  }

  lemma {:induction false} Drains(p: Pipe, r: Receiver, ph: Phase, bs: seq<Byte>)
    requires InPhase(p, r, ph) && |bs| >= Left(ph)
    ensures Formed(p) && Sound(ph)
    ensures var g := Goal(r, ph); InPhase(Run(p, Quietly(bs)), g.r, Idle) && AllMatch(Outputs(p, Quietly(bs)), g.commands)
    decreases |bs|
  {
    PhaseIsSound(p, r, ph);
    hide InPhase, Formed, Step, Shown, Matches;
    if bs == [] {
    } else {
      var m, q := Move(r, ph), Step(p, In(false, bs[0]));
      PhaseStep(p, r, ph, bs[0]);
      MoveKeepsGoal(r, ph);
      hide Move, Goal;
      assert Quietly(bs)[0] == In(false, bs[0]) && Quietly(bs)[1..] == Quietly(bs[1..]);
      Drains(q, m.r, m.ph, bs[1..]);
    }
  }

  // A character, and the quiet clocks before the next one.
  datatype Key = Key(b: Byte, idle: seq<Byte>)

  // The slowest path through the pipeline, from a character to the word it completes.
  const SETTLE := 6

  function KeyClocks(k: Key): seq<In> { [In(true, k.b)] + Quietly(k.idle) }

  function Clocks(keys: seq<Key>): seq<In>
    decreases |keys|
  {
    if keys == [] then [] else KeyClocks(keys[0]) + Clocks(keys[1..])
  }

  function Typed(keys: seq<Key>): (bs: seq<Byte>)
    ensures |bs| == |keys|
  {
    seq(|keys|, k requires 0 <= k < |keys| => keys[k].b)
  }

  lemma {:induction false} RunApart(p: Pipe, a: seq<In>, b: seq<In>)
    requires Formed(p)
    ensures Run(p, a + b) == Run(Run(p, a), b)
    ensures Outputs(p, a + b) == Outputs(p, a) + Outputs(Run(p, a), b)
    decreases |a|
  {
    hide Formed, Step, Shown;
    if a == [] {
      assert a + b == b;
    } else {
      assert (a + b)[1..] == a[1..] + b && (a + b)[0] == a[0];
      RunApart(Step(p, a[0]), a[1..], b);
    }
  }

  lemma {:induction false} KeyHeard(p: Pipe, r: Receiver, k: Key)
    requires InPhase(p, r, Idle) && |k.idle| >= SETTLE
    ensures Formed(p)
    ensures var h := Hear(r, k.b);
            InPhase(Run(p, KeyClocks(k)), h.r, Idle) && AllMatch(Outputs(p, KeyClocks(k)), h.commands)
  {
    PhaseIsSound(p, r, Idle);
    TakesChar(p, r, k.b);
    hide InPhase, Formed, Step, Shown, Hear, Matches;
    var q := Step(p, In(true, k.b));
    Drains(q, r, Hexed(k.b), k.idle);
    assert KeyClocks(k)[1..] == Quietly(k.idle);
    assert [] + Outputs(q, Quietly(k.idle)) == Outputs(q, Quietly(k.idle));
  }

  // Whatever arrives, at whatever pace that leaves the pipeline time to settle, and whatever the table and the
  // write address held before, the commands that come out are those the character-level receiver hears.
  lemma {:induction false} LineHeard(p: Pipe, r: Receiver, keys: seq<Key>)
    requires InPhase(p, r, Idle) && forall k :: 0 <= k < |keys| ==> |keys[k].idle| >= SETTLE
    ensures Formed(p)
    ensures var h := HearAll(r, Typed(keys));
            InPhase(Run(p, Clocks(keys)), h.r, Idle) && AllMatch(Outputs(p, Clocks(keys)), h.commands)
    decreases |keys|
  {
    PhaseIsSound(p, r, Idle);
    hide InPhase, Formed, Step, Shown, Hear, Matches, KeyClocks;
    if keys == [] {
    } else {
      var k, h := keys[0], Hear(r, keys[0].b);
      KeyHeard(p, r, k);
      RunApart(p, KeyClocks(k), Clocks(keys[1..]));
      assert Typed(keys)[1..] == Typed(keys[1..]);
      LineHeard(Run(p, KeyClocks(k)), h.r, keys[1..]);
    }
  }

  // A receiver that has just been powered up, or has been idle.
  lemma {:induction false} AnyTable(p: Pipe)
    requires Formed(p) && !p.hex.stb && !p.cw.stb && p.cw.len == 0 && p.cw.cwLen == 0 && Quiet(p.de)
    ensures InPhase(p, Receiver([], p.cw.lastcw == 1, []), Idle)
  {
  }
}
