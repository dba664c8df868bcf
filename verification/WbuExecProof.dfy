// The executor does exactly what each command asks, for every pattern of stalls and acknowledgments.
module WbuExecProof {
  import opened Sequences
  import opened WbuCode
  import opened WbuForward
  import opened WbuExec

  // ---- What a command asks for ----

  // The replies, without the data of reads.
  datatype Kind = Address(addr: Word) | Datum(inc: bool) | Written

  // The executor between commands; news says that the next read is to announce its address.
  datatype Spec = Spec(e: Exec, news: bool)
  datatype Asked = Asked(next: Spec, ops: seq<BusOp>, kinds: seq<Kind>)

  function Ask(p: Spec, c: Command): Asked {
    var d := Execute(p.e, c);
    Asked(Spec(d.e, match c
                    case SetAddr(_) => true
                    case AddAddr(_) => true
                    case EndWrite => p.news
                    case Nothing => p.news
                    case _ => false),
          d.ops,
          match c
          case ReadBlock(n, inc) => (if p.news then [Address(p.e.addr)] else []) + Times(Datum(inc), n)
          case WriteWord(_, _) => [Written]
          case _ => [])
  }

  // The commands that arrive in their order: inside a burst only writes and its end, and no empty reads.
  predicate Proper(p: Spec, c: Command) {
    && !c.StaleWrite? && !c.Nothing?
    && (p.e.burst.Burst? ==> c.WriteWord? || c.EndWrite?)
    && (c.ReadBlock? ==> 1 <= c.len < 1024)
  }

  function AskAll(p: Spec, cs: seq<Command>): Asked
    decreases |cs|
  {
    if cs == [] then Asked(p, [], []) else
    var first := Ask(p, cs[0]);
    var rest := AskAll(first.next, cs[1..]);
    Asked(rest.next, first.ops + rest.ops, first.kinds + rest.kinds)
  }

  // ---- What the registers still have to do ----

  ghost predicate Inv(s: Sys) {
    var x := s.x;
    && !x.state.FlushWrites?
    && (x.cyc <==> !x.state.Resting?)
    && (x.stb <==> x.state.ReadRequest? || x.state.WriteRequest?)
    && s.open == x.acksNeeded < 1024
    && (x.state.Resting? ==> s.open == 0)
    && (x.state.ReadRequest? ==> !x.we && 1 <= x.len && s.open + x.len < 1024
                                 && (x.singleRead || x.lastRead <==> x.len == 1))
    && (x.state.WriteRequest? || x.state.WaitOnNextWrite? ==> x.we)
    && (x.lastAck ==> s.open <= 1)
    && (x.zeroAcks ==> s.open == 0)
  }

  function Todo(x: Regs): seq<BusOp> {
    if x.state.ReadRequest? then Reads(x.addr, x.len, x.inc)
    else if x.state.WriteRequest? then [BusWrite(x.addr, x.data)]
    else []
  }

  function Owed(s: Sys): seq<Kind> {
    var x := s.x;
    if x.state.ReadRequest? then Times(Datum(x.inc), s.open + x.len)
    else if x.state.WriteRequest? then [Written]
    else if x.state.WaitOnAck? && !x.we then Times(Datum(x.inc), s.open)
    else []
  }

  // Where the executor will stand when it has done what it still has to do.
  function Standing(x: Regs): Spec {
    var addr := if !x.inc then x.addr
                else if x.state.ReadRequest? then Plus(x.addr, x.len)
                else if x.state.WriteRequest? then Plus(x.addr, 1)
                else x.addr;
    Spec(Exec(addr, if x.state.WriteRequest? || x.state.WaitOnNextWrite? then Burst(x.inc) else NoBurst),
         x.state.Resting? && x.newAddr)
  }

  // ---- What a clock shows ----

  function Taken(i: In): seq<Command> { if i.stb then [Ordered(i.word)] else [] }

  function Issued(s: Sys, i: In): seq<BusOp> {
    if !Strobes(s.x, i) then []
    else if s.x.we then [BusWrite(s.x.addr, s.x.data)] else [BusRead(s.x.addr)]
  }

  // The words that the acknowledgments of reads bring.
  function Fetched(s: Sys, i: In): seq<Word> { if i.ack && !s.x.we then [i.data] else [] }

  function KindOf(w: Codeword): seq<Kind> {
    if w.op / 4 == 2 then [Address(w.op % 4 * 0x4000_0000 + w.low)]
    else if w.op / 8 == 7 then [Datum(w.op % 2 == 1)]
    else if w.op == WRITE_DONE then [Written]
    else []
  }

  function Replied(t: Regs): seq<Kind> { if t.outStb then KindOf(t.out) else [] }

  function Returned(t: Regs): seq<Word> { if t.outStb && t.out.op / 8 == 7 then [Data(t.out)] else [] }

  // ---- One clock ----

  // The words that come when they may.
  ghost predicate Fed(s: Sys, i: In) { Legal(s, i) && (i.stb ==> Proper(Standing(s.x), Ordered(i.word))) }

  // What resting registers become, by the command that is taken.
  lemma {:induction false} RestTakes(x: Regs, i: In)
    requires i.stb && !Ordered(i.word).StaleWrite? && !Ordered(i.word).Nothing?
    ensures var t, b, c := FromRest(x, i), FromRest(x, i.(stb := false)), Ordered(i.word);
            && (i.word.op < 32 <==> c.SetAddr? || c.AddAddr? || c.WriteWord?)
            && match c
               case SetAddr(a) => t == b.(addr := a)
               case AddAddr(d) => t == b.(addr := Plus(x.addr, d))
               case WriteWord(data, inc) =>
                 t == b.(state := WriteRequest, cyc := true, stb := true) && b.inc == inc && b.data == data && b.we
               case ReadBlock(n, inc) =>
                 t == b.(outStb := x.newAddr, state := ReadRequest, cyc := true, stb := true) && b.inc == inc && !b.we
                 && i.word.low % 1024 == n
               case _ => t == b
  {
    OpClasses(i.word.op);
    hide Data, AddrReply, Plus;
  }

  lemma {:induction false} OpClasses(op: Digit)
    ensures (op < 4 ==> op / 16 == 0 && op / 8 == 0) && (op / 8 == 1 ==> op / 16 == 0 && 8 <= op < 32)
    ensures (op / 8 == 3 ==> op / 16 == 1 && 16 <= op < 32) && (op / 16 == 3 ==> op >= 48 && op / 8 >= 6)
  {
  }

  lemma {:induction false} Untaken(x: Regs, i: In)
    requires !i.stb && !i.err
    ensures var t := FromRest(x, i);
            && t == x.(cyc := false, stb := false, outStb := false, inc := t.inc, out := AddrReply(x.addr), we := t.we,
                       data := t.data)
    ensures var t := FromNextWrite(x, i);
            && t == x.(cyc := true, stb := false, outStb := false, out := t.out, data := t.data)
  {
  }

  lemma {:induction false} BurstTakes(x: Regs, i: In)
    requires i.stb && !i.err && (Ordered(i.word).WriteWord? || Ordered(i.word).EndWrite?)
    ensures var t, b, c := FromNextWrite(x, i), FromNextWrite(x, i.(stb := false)), Ordered(i.word);
            if c.WriteWord? then t == b.(state := WriteRequest, stb := true) && b.data == c.data
            else t == b.(state := WaitOnAck)
    ensures !Foreign(i)
  {
  }

  // The registers after a resting clock.
  ghost predicate RestingTo(x: Regs, t: Regs, c: Command) {
    match c
    case SetAddr(a) => t.state.Resting? && t.addr == a && t.newAddr && !t.outStb
    case AddAddr(d) => t.state.Resting? && t.addr == Plus(x.addr, d) && t.newAddr && !t.outStb
    case WriteWord(data, inc) =>
      t.state.WriteRequest? && t.addr == x.addr && t.data == data && t.inc == inc && t.we && !t.outStb
    case ReadBlock(n, inc) =>
      t.state.ReadRequest? && t.addr == x.addr && t.len == n && t.inc == inc && !t.we && t.outStb == x.newAddr
      && t.out == AddrReply(x.addr)
    case _ => t.state.Resting? && t.addr == x.addr && t.newAddr == x.newAddr && !t.outStb
  }

  lemma {:induction false} RestingNext(s: Sys, i: In)
    requires Inv(s) && Fed(s, i) && s.x.state.Resting?
    ensures var t := SysStep(s, i);
            && t.open == 0 && t.x.cyc == t.x.stb == !t.x.state.Resting?
            && RestingTo(s.x, t.x, if i.stb then Ordered(i.word) else Nothing)
  {
    if i.stb { RestTakes(s.x, i); }
    Untaken(s.x, i.(stb := false));
    assert !i.stb ==> i.(stb := false) == i;
    hide Ordered, NextAcks, Data, DataReply, AddrReply, Token, Plus, FromRest;
  }

  // The registers after a clock between two writes of a burst.
  ghost predicate BurstTo(x: Regs, t: Regs, c: Command) {
    && t.addr == x.addr && t.inc == x.inc && t.we && !t.outStb && t.cyc
    && match c
       case WriteWord(data, _) => t.state.WriteRequest? && t.stb && t.data == data
       case EndWrite => t.state.WaitOnAck? && !t.stb
       case _ => t.state.WaitOnNextWrite? && !t.stb
  }

  lemma {:induction false} BurstNext(s: Sys, i: In)
    requires Inv(s) && Fed(s, i) && s.x.state.WaitOnNextWrite?
    ensures BurstTo(s.x, SysStep(s, i).x, if i.stb then Ordered(i.word) else Nothing)
  {
    if i.stb { BurstTakes(s.x, i); }
    Untaken(s.x, i.(stb := false));
    assert !i.stb ==> i.(stb := false) == i;
    hide Ordered, NextAcks, NextNewAddr, NextLen, Data, DataReply, AddrReply, Token, Plus, FromNextWrite;
  }

  // The shape that every state gives to the bus lines.
  ghost predicate Shape(t: Sys) {
    var x := t.x;
    && !x.state.FlushWrites? && (x.cyc <==> !x.state.Resting?)
    && (x.stb <==> x.state.ReadRequest? || x.state.WriteRequest?)
    && (x.state.Resting? ==> t.open == 0)
    && (x.state.WriteRequest? || x.state.WaitOnNextWrite? ==> x.we)
  }

  lemma {:induction false} ShapeReading(s: Sys, i: In)
    requires Inv(s) && Legal(s, i) && s.x.state.ReadRequest?
    ensures Shape(SysStep(s, i))
  {
    hide NextAcks, NextNewAddr, Data, DataReply, AddrReply, Token, Plus, FromRest, FromNextWrite, NextLen, FromWrite, FromAck;
  }

  lemma {:induction false} ShapeWriting(s: Sys, i: In)
    requires Inv(s) && Legal(s, i) && s.x.state.WriteRequest?
    ensures Shape(SysStep(s, i))
  {
    hide NextAcks, NextNewAddr, Data, DataReply, AddrReply, Token, Plus, FromRest, FromNextWrite, NextLen, FromRead, FromAck;
  }

  lemma {:induction false} ShapeWaiting(s: Sys, i: In)
    requires Inv(s) && Legal(s, i) && s.x.state.WaitOnAck?
    ensures Shape(SysStep(s, i))
  {
    hide NextAcks, NextNewAddr, Data, DataReply, AddrReply, Token, Plus, FromRest, FromNextWrite, NextLen, FromRead, FromWrite;
  }

  lemma {:induction false} ShapeResting(s: Sys, i: In)
    requires Inv(s) && Fed(s, i) && s.x.state.Resting?
    ensures Shape(SysStep(s, i))
  {
    RestingNext(s, i);
    hide Step, Ordered;
  }

  lemma {:induction false} ShapeBurst(s: Sys, i: In)
    requires Inv(s) && Fed(s, i) && s.x.state.WaitOnNextWrite?
    ensures Shape(SysStep(s, i))
  {
    BurstNext(s, i);
    hide Step, Ordered;
  }

  lemma {:induction false} InvRead(s: Sys, i: In)
    requires Inv(s) && Fed(s, i)
    ensures var t := SysStep(s, i);
            var x := t.x;
            (x.state.ReadRequest? ==> !x.we && 1 <= x.len && t.open + x.len < 1024
                                      && (x.singleRead || x.lastRead <==> x.len == 1))
  {
    if s.x.state.Resting? && i.stb { RestTakes(s.x, i); }
    hide Ordered, NextAcks, NextNewAddr, Data, DataReply, AddrReply, Token, Plus;
  }

  lemma {:induction false} InvInitially(s: Sys)
    requires Initial(s)
    ensures Inv(s)
  {
  }

  lemma {:induction false} InvStep(s: Sys, i: In)
    requires Inv(s) && Fed(s, i)
    ensures Inv(SysStep(s, i))
  {
    InvRead(s, i);
    if s.x.state.Resting? { ShapeResting(s, i); }
    else if s.x.state.WaitOnNextWrite? { ShapeBurst(s, i); }
    else if s.x.state.ReadRequest? { ShapeReading(s, i); }
    else if s.x.state.WriteRequest? { ShapeWriting(s, i); }
    else { ShapeWaiting(s, i); }
    hide Step, Fed;
  }

  lemma {:induction false} PlusSum(a: Word, n: nat, m: nat)
    ensures Plus(Plus(a, n), m) == Plus(a, n + m)
  {
  }

  lemma {:induction false} AskOne(p: Spec, c: Command)
    ensures AskAll(p, [c]) == Ask(p, c)
  {
    assert [c][1..] == [];
    assert Ask(p, c).ops + [] == Ask(p, c).ops && Ask(p, c).kinds + [] == Ask(p, c).kinds;
    hide Ask;
  }

  // A busy executor does part of what it still has to do.
  lemma {:induction false} OpsReading(s: Sys, i: In)
    requires Inv(s) && Legal(s, i) && s.x.state.ReadRequest?
    ensures var t := SysStep(s, i); Issued(s, i) + Todo(t.x) == Todo(s.x) && Standing(t.x) == Standing(s.x)
  {
    PlusSum(s.x.addr, 1, s.x.len - 1);
    hide NextAcks, NextNewAddr, Data, DataReply, AddrReply, Token, Plus, FromRest, FromNextWrite, FromWrite, FromAck;
  }

  lemma {:induction false} OpsWriting(s: Sys, i: In)
    requires Inv(s) && Legal(s, i) && s.x.state.WriteRequest?
    ensures var t := SysStep(s, i); Issued(s, i) + Todo(t.x) == Todo(s.x) && Standing(t.x) == Standing(s.x)
  {
    hide NextAcks, NextNewAddr, Data, DataReply, AddrReply, Token, Plus, FromRest, FromNextWrite, FromRead, FromAck;
  }

  lemma {:induction false} OpsWaiting(s: Sys, i: In)
    requires Inv(s) && Legal(s, i) && s.x.state.WaitOnAck?
    ensures var t := SysStep(s, i); Issued(s, i) + Todo(t.x) == Todo(s.x) && Standing(t.x) == Standing(s.x)
  {
    hide NextAcks, Data, DataReply, AddrReply, Token, Plus, FromRest, FromNextWrite, FromRead, FromWrite;
  }

  lemma {:induction false} OpsResting(s: Sys, i: In)
    requires Inv(s) && Fed(s, i) && s.x.state.Resting?
    ensures var t := SysStep(s, i);
            Issued(s, i) == Todo(s.x) == [] &&
            if !i.stb then Todo(t.x) == [] && Standing(t.x) == Standing(s.x)
            else
              var a := Ask(Standing(s.x), Ordered(i.word));
              Todo(t.x) == a.ops && Standing(t.x) == a.next
  {
    RestingNext(s, i);
    hide Step, Ordered, Plus, Reads;
  }

  lemma {:induction false} OpsBurst(s: Sys, i: In)
    requires Inv(s) && Fed(s, i) && s.x.state.WaitOnNextWrite?
    ensures var t := SysStep(s, i);
            Issued(s, i) == Todo(s.x) == [] &&
            if !i.stb then Todo(t.x) == [] && Standing(t.x) == Standing(s.x)
            else
              var a := Ask(Standing(s.x), Ordered(i.word));
              Todo(t.x) == a.ops && Standing(t.x) == a.next
  {
    BurstNext(s, i);
    hide Step, Ordered, Plus;
  }

  lemma {:induction false} OpsStep(s: Sys, i: In)
    requires Inv(s) && Fed(s, i)
    ensures var t := SysStep(s, i);
            var a := AskAll(Standing(s.x), Taken(i));
            Issued(s, i) + Todo(t.x) == Todo(s.x) + a.ops && Standing(t.x) == a.next
  {
    if i.stb { AskOne(Standing(s.x), Ordered(i.word)); }
    if s.x.state.Resting? { OpsResting(s, i); }
    else if s.x.state.WaitOnNextWrite? { OpsBurst(s, i); }
    else if s.x.state.ReadRequest? { OpsReading(s, i); }
    else if s.x.state.WriteRequest? { OpsWriting(s, i); }
    else { OpsWaiting(s, i); }
    hide Step, Todo, Standing, Issued, Ask, Ordered;
  }

  lemma {:induction false} ReplyKinds(addr: Word, data: Word, inc: bool)
    ensures KindOf(AddrReply(addr)) == [Address(addr)]
    ensures var w := DataReply(data, inc); KindOf(w) == [Datum(inc)] && w.op / 8 == 7 && Data(w) == data
    ensures AddrReply(addr).op / 8 != 7 && KindOf(Token(WRITE_DONE, data)) == [Written] && Token(WRITE_DONE, data).op / 8 != 7
  {
    var q := data / 0x4000_0000;
    assert q < 4 && addr / 0x4000_0000 < 4;
    assert (56 + q * 2 + 1) / 2 % 4 == q && (56 + q * 2) / 2 % 4 == q;
  }

  lemma {:induction false} RepliesReading(s: Sys, i: In)
    requires Inv(s) && Legal(s, i) && s.x.state.ReadRequest?
    ensures var t := SysStep(s, i); Replied(t.x) + Owed(t) == Owed(s) && Returned(t.x) == Fetched(s, i)
  {
    ReplyKinds(s.x.addr, i.data, s.x.inc);
    hide NextAcks, NextNewAddr, Data, DataReply, AddrReply, Token, Plus, FromRest, FromNextWrite, KindOf, FromWrite, FromAck;
  }

  lemma {:induction false} RepliesWriting(s: Sys, i: In)
    requires Inv(s) && Legal(s, i) && s.x.state.WriteRequest?
    ensures var t := SysStep(s, i); Replied(t.x) + Owed(t) == Owed(s) && Returned(t.x) == Fetched(s, i)
  {
    ReplyKinds(s.x.addr, i.data, s.x.inc);
    hide NextAcks, NextNewAddr, Data, DataReply, AddrReply, Token, Plus, FromRest, FromNextWrite, KindOf, FromRead, FromAck;
  }

  lemma {:induction false} RepliesWaiting(s: Sys, i: In)
    requires Inv(s) && Legal(s, i) && s.x.state.WaitOnAck?
    ensures var t := SysStep(s, i); Replied(t.x) + Owed(t) == Owed(s) && Returned(t.x) == Fetched(s, i)
  {
    ReplyKinds(s.x.addr, i.data, s.x.inc);
    hide NextAcks, NextNewAddr, Data, DataReply, AddrReply, Token, Plus, FromRest, FromNextWrite, KindOf, FromRead, FromWrite;
  }

  lemma {:induction false} RepliesResting(s: Sys, i: In)
    requires Inv(s) && Fed(s, i) && s.x.state.Resting?
    ensures var t := SysStep(s, i);
            Owed(s) == [] && Returned(t.x) == Fetched(s, i) == []
            && Replied(t.x) + Owed(t) == if i.stb then Ask(Standing(s.x), Ordered(i.word)).kinds else []
  {
    RestingNext(s, i);
    ReplyKinds(s.x.addr, 0, false);
    hide Step, Ordered, Plus, KindOf, AddrReply;
  }

  lemma {:induction false} RepliesBurst(s: Sys, i: In)
    requires Inv(s) && Fed(s, i) && s.x.state.WaitOnNextWrite?
    ensures var t := SysStep(s, i);
            Owed(s) == [] && Returned(t.x) == Fetched(s, i) == []
            && Replied(t.x) + Owed(t) == if i.stb then Ask(Standing(s.x), Ordered(i.word)).kinds else []
  {
    BurstNext(s, i);
    hide Step, Ordered, Plus, KindOf;
  }

  lemma {:induction false} RepliesStep(s: Sys, i: In)
    requires Inv(s) && Fed(s, i)
    ensures var t := SysStep(s, i);
            var a := AskAll(Standing(s.x), Taken(i));
            Replied(t.x) + Owed(t) == Owed(s) + a.kinds && Returned(t.x) == Fetched(s, i)
  {
    if i.stb { AskOne(Standing(s.x), Ordered(i.word)); }
    if s.x.state.Resting? { RepliesResting(s, i); }
    else if s.x.state.WaitOnNextWrite? { RepliesBurst(s, i); }
    else if s.x.state.ReadRequest? { RepliesReading(s, i); }
    else if s.x.state.WriteRequest? { RepliesWriting(s, i); }
    else { RepliesWaiting(s, i); }
    hide Step, Standing, Replied, Owed, Returned, Fetched, Ask, Ordered;
  }

  // Every reply is of one of the three kinds.
  lemma {:induction false} ReplyWellFormed(s: Sys, i: In)
    requires Inv(s) && Fed(s, i)
    ensures var t := SysStep(s, i).x; t.outStb ==> |KindOf(t.out)| == 1
  {
    ReplyKinds(s.x.addr, i.data, s.x.inc);
    if s.x.state.Resting? { RestingNext(s, i); hide Step, KindOf, Ordered, AddrReply; }
    else if s.x.state.WaitOnNextWrite? { BurstNext(s, i); hide Step, KindOf, Ordered; }
    else { OnBusReply(s.x, i); hide KindOf, AddrReply, DataReply, Token, FromRead, FromWrite, FromAck; }
  }

  lemma {:induction false} OnBusReply(x: Regs, i: In)
    requires Busy(x) && !i.rst && !i.err
    ensures var t := Machine(x, i);
            t.outStb ==> t.out == DataReply(i.data, x.inc) || t.out == Token(WRITE_DONE, i.data)
  {
    hide DataReply, Token, Plus, AddrReply, Data, FromRest, FromNextWrite, FromFlush;
    if x.state.ReadRequest? { hide FromWrite, FromAck; }
    else if x.state.WriteRequest? { hide FromRead, FromAck; }
    else { hide FromRead, FromWrite; }
  }

  // ---- Runs ----

  // Every clock of a run is one the executor may be given.
  ghost predicate FedAll(s: Sys, ins: seq<In>)
    decreases |ins|
  {
    ins == [] || (Fed(s, ins[0]) && FedAll(SysStep(s, ins[0]), ins[1..]))
  }

  function Run(s: Sys, ins: seq<In>): Sys
    decreases |ins|
  {
    if ins == [] || !Legal(s, ins[0]) then s else Run(SysStep(s, ins[0]), ins[1..])
  }

  function Commands(ins: seq<In>): seq<Command>
    decreases |ins|
  {
    if ins == [] then [] else Taken(ins[0]) + Commands(ins[1..])
  }

  // What a run shows: bus operations, kinds of replies, data words in replies, and data words fetched.
  datatype Trace = Trace(ops: seq<BusOp>, kinds: seq<Kind>, returned: seq<Word>, fetched: seq<Word>)

  function Shown(s: Sys, ins: seq<In>): Trace
    decreases |ins|
  {
    if ins == [] || !Legal(s, ins[0]) then Trace([], [], [], []) else
    var t := SysStep(s, ins[0]);
    var rest := Shown(t, ins[1..]);
    Trace(Issued(s, ins[0]) + rest.ops, Replied(t.x) + rest.kinds, Returned(t.x) + rest.returned,
          Fetched(s, ins[0]) + rest.fetched)
  }

  lemma {:induction false} AskApart(p: Spec, a: seq<Command>, b: seq<Command>)
    ensures var x := AskAll(p, a);
            var y := AskAll(x.next, b);
            AskAll(p, a + b) == Asked(y.next, x.ops + y.ops, x.kinds + y.kinds)
    decreases |a|
  {
    hide Ask;
    if a == [] {
      assert a + b == b;
    } else {
      assert (a + b)[1..] == a[1..] + b && (a + b)[0] == a[0];
      var first := Ask(p, a[0]);
      AskApart(first.next, a[1..], b);
      var x, y := AskAll(first.next, a[1..]), AskAll(AskAll(p, a).next, b);
      assert first.ops + (x.ops + y.ops) == (first.ops + x.ops) + y.ops;
      assert first.kinds + (x.kinds + y.kinds) == (first.kinds + x.kinds) + y.kinds;
    }
  }

  // At every moment, what has been put on the bus and what is still to do are together exactly what the commands
  // taken so far ask for, in order; so are the replies; and the data words in replies are those fetched.
  lemma {:induction false} ExecutorExact(s: Sys, ins: seq<In>)
    requires Inv(s) && FedAll(s, ins)
    ensures var t, a, x := Run(s, ins), AskAll(Standing(s.x), Commands(ins)), Shown(s, ins);
            && Inv(t) && Standing(t.x) == a.next
            && x.ops + Todo(t.x) == Todo(s.x) + a.ops
            && x.kinds + Owed(t) == Owed(s) + a.kinds
            && x.returned == x.fetched && |x.fetched| == Datums(x.kinds)
    decreases |ins|
  {
    hide Inv, Legal, Fed, Step, Standing, Todo, Owed, Taken, Issued, Replied, Returned, Fetched, Ask;
    if ins == [] {
      assert Datums([]) == 0;
    } else {
      var i := ins[0];
      FedLegal(s, i);
      var t := SysStep(s, i);
      InvStep(s, i);
      OpsStep(s, i);
      RepliesStep(s, i);
      DatumStep(s, i);
      ExecutorExact(t, ins[1..]);
      AskApart(Standing(s.x), Taken(i), Commands(ins[1..]));
      var a, b := AskAll(Standing(s.x), Taken(i)), AskAll(Standing(t.x), Commands(ins[1..]));
      var x, e := Shown(t, ins[1..]), Run(t, ins[1..]);
      Chain(Issued(s, i), x.ops, Todo(s.x), Todo(t.x), Todo(e.x), a.ops, b.ops);
      Chain(Replied(t.x), x.kinds, Owed(s), Owed(t), Owed(e), a.kinds, b.kinds);
      DatumsApart(Replied(t.x), x.kinds);
    }
  }

  lemma {:induction false} FedLegal(s: Sys, i: In)
    requires Fed(s, i)
    ensures Legal(s, i)
  {
  }

  function Datums(kinds: seq<Kind>): nat {
    if kinds == [] then 0 else (if kinds[0].Datum? then 1 else 0) + Datums(kinds[1..])
  }

  lemma {:induction false} DatumsApart(a: seq<Kind>, b: seq<Kind>)
    ensures Datums(a + b) == Datums(a) + Datums(b)
  {
    if a == [] {
      assert a + b == b;
    } else {
      assert (a + b)[1..] == a[1..] + b;
      DatumsApart(a[1..], b);
    }
  }

  lemma {:induction false} DatumsTimes(inc: bool, n: nat)
    ensures Datums(Times(Datum(inc), n)) == n
  {
    if n > 0 {
      assert Times(Datum(inc), n)[1..] == Times(Datum(inc), n - 1);
      DatumsTimes(inc, n - 1);
    }
  }

  lemma {:induction false} DatumStep(s: Sys, i: In)
    requires Inv(s) && Fed(s, i)
    ensures var t := SysStep(s, i); |Fetched(s, i)| == Datums(Replied(t.x))
  {
    RepliesStep(s, i);
    DatumOfReply(SysStep(s, i).x);
    hide Step, Inv, Fed, Owed, Standing, Ask, Replied, Returned, Fetched;
  }

  lemma {:induction false} DatumOfReply(t: Regs)
    ensures |Returned(t)| == Datums(Replied(t))
  {
    if t.outStb && KindOf(t.out) != [] { assert KindOf(t.out)[1..] == []; }
  }

  // The cycle line falls only when everything asked for has been done, and acknowledged.
  lemma {:induction false} CycleHeld(s: Sys, i: In)
    requires Inv(s) && Fed(s, i) && s.x.cyc && !SysStep(s, i).x.cyc
    ensures var t := SysStep(s, i); t.open == 0 && Todo(t.x) == [] && Owed(t) == []
  {
    InvStep(s, i);
    hide Step;
  }

  // A read of n words, from one rest to the next: n strobes at the right addresses, the address if it is news,
  // and n data words, which are those the bus acknowledged, in their order.
  lemma {:induction false} ReadBurstExact(s: Sys, ins: seq<In>, n: nat, inc: bool)
    requires Inv(s) && s.x.state.Resting? && FedAll(s, ins) && Commands(ins) == [ReadBlock(n, inc)]
    requires Run(s, ins).x.state.Resting?
    ensures var x := Shown(s, ins);
            && x.ops == Reads(s.x.addr, n, inc)
            && x.kinds == (if s.x.newAddr then [Address(s.x.addr)] else []) + Times(Datum(inc), n)
            && |x.fetched| == n && x.returned == x.fetched
            && Run(s, ins).x.addr == if inc then Plus(s.x.addr, n) else s.x.addr
  {
    hide Inv, FedAll, Shown, Run, Reads, Plus, Times, AskAll, Datums;
    ExecutorExact(s, ins);
    var x, head := Shown(s, ins), if s.x.newAddr then [Address(s.x.addr)] else [];
    AskOne(Standing(s.x), ReadBlock(n, inc));
    assert x.ops + [] == x.ops && x.kinds + [] == x.kinds;
    DatumsApart(head, Times(Datum(inc), n));
    DatumsTimes(inc, n);
    NoDatum(s.x.addr, s.x.newAddr);
  }

  lemma {:induction false} NoDatum(addr: Word, yes: bool)
    ensures Datums(if yes then [Address(addr)] else []) == 0
  {
    if yes { assert [Address(addr)][1..] == []; }
  }

  // ---- Progress ----

  // The clocks on which something happens, until the executor can take the next command.
  function Work(s: Sys): nat {
    match s.x.state
    case ReadRequest => 2 * s.x.len + s.open + 3
    case WriteRequest => 1
    case WaitOnAck => if s.open > 0 then s.open + 2 else if s.x.zeroAcks then 1 else 2
    case _ => 0
  }

  // Something happens: a transfer is accepted or acknowledged, or there is nothing more to wait for.
  predicate Useful(s: Sys, i: In) {
    match s.x.state
    case ReadRequest => Strobes(s.x, i) || i.ack
    case WriteRequest => Strobes(s.x, i)
    case WaitOnAck => i.ack || s.open == 0
    case _ => false
  }

  lemma {:induction false} WorkStep(s: Sys, i: In)
    requires Inv(s) && Legal(s, i) && Busy(s.x)
    ensures Work(SysStep(s, i)) + (if Useful(s, i) then 1 else 0) <= Work(s)
  {
    hide Ordered, NextNewAddr, Data, DataReply, AddrReply, Token, Plus, FromRest, FromNextWrite;
  }

  // The useful clocks until the executor can take another command.
  function UsefulClocks(s: Sys, ins: seq<In>): nat
    decreases |ins|
  {
    if ins == [] || !Busy(s.x) || !Legal(s, ins[0]) then 0
    else (if Useful(s, ins[0]) then 1 else 0) + UsefulClocks(SysStep(s, ins[0]), ins[1..])
  }

  // However the bus stalls and acknowledges, a command takes a bounded number of useful clocks: 2 n + 3 for a
  // read of n words.
  lemma {:induction false} BusyEnds(s: Sys, ins: seq<In>)
    requires Inv(s)
    ensures UsefulClocks(s, ins) <= Work(s)
    decreases |ins|
  {
    hide Inv, Step, Work, Legal, Useful;
    if !(ins == [] || !Busy(s.x) || !Legal(s, ins[0])) {
      WorkStep(s, ins[0]);
      BusyFed(s, ins[0]);
      InvStep(s, ins[0]);
      BusyEnds(SysStep(s, ins[0]), ins[1..]);
    }
  }

  lemma {:induction false} BusyFed(s: Sys, i: In)
    requires Busy(s.x) && Legal(s, i)
    ensures Fed(s, i)
  {
  }

  // ---- Commands that arrive in their order ----

  ghost predicate AllProper(p: Spec, cs: seq<Command>)
    decreases |cs|
  {
    cs == [] || (Proper(p, cs[0]) && AllProper(Ask(p, cs[0]).next, cs[1..]))
  }

  ghost predicate LegalAll(s: Sys, ins: seq<In>)
    decreases |ins|
  {
    ins == [] || (Legal(s, ins[0]) && LegalAll(SysStep(s, ins[0]), ins[1..]))
  }

  lemma {:induction false} ProperFeeds(s: Sys, ins: seq<In>)
    requires Inv(s) && LegalAll(s, ins) && AllProper(Standing(s.x), Commands(ins))
    ensures FedAll(s, ins)
    decreases |ins|
  {
    hide Inv, Legal, Step, Ask, Proper, Ordered, Standing;
    if ins != [] {
      var i, rest := ins[0], Commands(ins[1..]);
      if i.stb { assert (Taken(i) + rest)[0] == Ordered(i.word) && (Taken(i) + rest)[1..] == rest; }
      else { assert Taken(i) + rest == rest; }
      assert Fed(s, i);
      OpsStep(s, i);
      InvStep(s, i);
      if i.stb { AskOne(Standing(s.x), Ordered(i.word)); }
      ProperFeeds(SysStep(s, i), ins[1..]);
    }
  }
}
