// Read-your-writes for the SDRAM controller, over whole runs and byte by byte.
module SdramMemory {
  import opened SdramController
  import opened SdramSystem
  import opened SdramInvariant
  import opened SdramTheorems

  // log, extended with the requests whose commands were given during a run, in the order of the commands.
  function Logged(s: Sys, ins: seq<Input>, log: seq<Request>): seq<Request>
    requires Formed(s)
    decreases |ins|
  {
    if ins == [] then log else
    var t := SysStep(s, ins[0]);
    Logged(t, ins[1..], log + NewCommand(t))
  }

  function Replay(m: map<nat, Word>, log: seq<Request>): map<nat, Word> {
    if log == [] then m else
    var n := |log| - 1;
    var before := Replay(m, log[..n]);
    if log[n].we then Apply(before, log[n]) else before
  }

  // The four byte lanes of a word, and of the byte selects.
  function Lane(w: Word, k: nat): Byte {
    if k == 0 then w.hi.hi else if k == 1 then w.hi.lo else if k == 2 then w.lo.hi else w.lo.lo
  }
  predicate Selects(r: Request, k: nat) {
    if k == 0 then r.selHi.hi else if k == 1 then r.selHi.lo else if k == 2 then r.selLo.hi else r.selLo.lo
  }

  // The byte that the latest write to lane k of address a left there, or what was there at first.
  function LastWritten(log: seq<Request>, a: nat, k: nat, first: Byte): Byte {
    if log == [] then first else
    var n := |log| - 1;
    if log[n].we && log[n].addr == a && Selects(log[n], k) then Lane(log[n].data, k)
    else LastWritten(log[..n], a, k, first)
  }

  lemma {:induction false} ReplayIsLastWritten(m: map<nat, Word>, log: seq<Request>, a: nat, k: nat)
    ensures Lane(ReadWord(Replay(m, log), a), k) == LastWritten(log, a, k, Lane(ReadWord(m, a), k))
  {
    if log != [] { ReplayIsLastWritten(m, log[..|log| - 1], a, k); }
  }

  // The transfers in flight are the last commands of the log, each promised what the log before it left.
  ghost predicate Linked(ops: seq<Op>, mem: map<nat, Word>, m: map<nat, Word>, log: seq<Request>) {
    && |ops| <= |log|
    && mem == Replay(m, log)
    && forall k :: 0 <= k < |ops| ==> IsEntry(ops[k], m, log, |log| - |ops| + k)
  }

  ghost predicate IsEntry(op: Op, m: map<nat, Word>, log: seq<Request>, at: int) {
    && 0 <= at < |log| && op.req == log[at] && op.promise == ReadWord(Replay(m, log[..at]), op.req.addr)
  }

  lemma {:induction false} LinkedOlder(ops: seq<Op>, mem: map<nat, Word>, m: map<nat, Word>, log: seq<Request>, drop: nat)
    requires Linked(ops, mem, m, log) && drop <= |ops|
    ensures Linked(Aged(ops[drop..]), mem, m, log)
  {
    var rem := ops[drop..];
    forall k | 0 <= k < |rem| ensures IsEntry(Aged(rem)[k], m, log, |log| - |rem| + k) {
      assert IsEntry(ops[drop + k], m, log, |log| - |ops| + (drop + k));
    }
  }

  lemma {:induction false} ReplayAdd(m: map<nat, Word>, log: seq<Request>, r: Request)
    ensures Replay(m, log + [r]) == if r.we then Apply(Replay(m, log), r) else Replay(m, log)
  {
    assert (log + [r])[..|log|] == log;
  }

  lemma {:induction false} LinkedNewer(ops: seq<Op>, mem: map<nat, Word>, m: map<nat, Word>, log: seq<Request>, r: Request)
    requires Linked(ops, mem, m, log)
    ensures Linked(ops + [Op(r, ReadWord(mem, r.addr), 0)], if r.we then Apply(mem, r) else mem, m, log + [r])
  {
    hide Apply, ReadWord, Replay;
    var op := Op(r, ReadWord(mem, r.addr), 0);
    ReplayAdd(m, log, r);
    assert (log + [r])[..|log|] == log;
    assert IsEntry(op, m, log + [r], |log|);
    forall k | 0 <= k < |ops| ensures IsEntry(ops[k], m, log + [r], |log| - |ops| + k) {
      assert IsEntry(ops[k], m, log, |log| - |ops| + k);
      assert (log + [r])[..|log| - |ops| + k] == log[..|log| - |ops| + k];
    }
    hide IsEntry;
  }

  lemma {:induction false} LinkedStep(s: Sys, i: Input, m: map<nat, Word>, log: seq<Request>)
    requires Inv(s) && Linked(s.board.issued, s.board.mem, m, log)
    ensures var t := SysStep(s, i); Inv(t) && Linked(t.board.issued, t.board.mem, m, log + NewCommand(t))
  {
    InvStep(s, i);
    DecidePermitted(s.ctrl, i.bus.cyc);
    LinkedStepWith(s, Decide(s.ctrl, i.bus.cyc), i, m, log);
  }

  lemma {:induction false} LinkedStepWith(s: Sys, d: Command, i: Input, m: map<nat, Word>, log: seq<Request>)
    requires Inv(s) && Linked(s.board.issued, s.board.mem, m, log) && Permitted(s.ctrl, i.bus.cyc, d)
    ensures var t := SysStepWith(s, d, i); Linked(t.board.issued, t.board.mem, m, log + NewCommand(t))
  {
    assert Formed(s);
    hide Inv, Linked, SysStepWith, Permitted;
    var t, ops := SysStepWith(s, d, i), s.board.issued;
    var drop := if !i.bus.cyc then |ops| else if s.ctrl.ack[0] && |ops| > 0 then 1 else 0;
    BoardStep(s, d, i);
    assert ops[drop..] == Remaining(s, i.bus.cyc);
    hide *;
    LinkedOlder(ops, s.board.mem, m, log, drop) by { assert drop <= |ops|; }
    if d.Read? || d.Write? {
      LinkedNewer(Aged(ops[drop..]), s.board.mem, m, log, s.ctrl.req);
      assert NewCommand(t) == [s.ctrl.req] by { NewCommandIs(t); }
    } else {
      assert NewCommand(t) == [] by { NewCommandIs(t); }
      assert log + [] == log;
    }
  }

  lemma {:induction false} NewCommandIs(t: Sys)
    requires Formed(t)
    ensures NewCommand(t) == if t.ctrl.pins.IsTransfer() then [t.ctrl.req] else []
  {
  }

  lemma {:induction false} LinkedRun(s: Sys, ins: seq<Input>, m: map<nat, Word>, log: seq<Request>)
    requires Inv(s) && Linked(s.board.issued, s.board.mem, m, log)
    ensures var t := Run(s, ins); Linked(t.board.issued, t.board.mem, m, Logged(s, ins, log))
    decreases |ins|
  {
    if ins != [] {
      LinkedStep(s, ins[0], m, log);
      var t := SysStep(s, ins[0]);
      hide Inv, SysStep, Linked, NewCommand;
      LinkedRun(t, ins[1..], m, log + NewCommand(t));
    }
  }

  // Every acknowledgment belongs to the oldest outstanding command, and if that is a read then each byte of
  // the word on the bus is the one last written to it by the commands before, under the byte selects, however
  // banks were closed, rows changed, refreshes forced and bus cycles dropped in between.
  lemma {:induction false} ReadYourWrites(s: Sys, ins: seq<Input>, k: nat)
    requires InitialSys(s) && Acked(Run(s, ins))
    ensures var t, log := Run(s, ins), Logged(s, ins, []);
            var at := |log| - |t.board.issued|;
            && 0 <= at < |log|
            && (!log[at].we ==>
                  Lane(BusData(t), k)
                  == LastWritten(log[..at], log[at].addr, k, Lane(ChipWord(s.chip.mem, log[at].addr), k)))
  {
    hide *;
    StartLinked(s);
    var t, log, m := Run(s, ins), Logged(s, ins, []), s.board.mem;
    InvAlways(s, ins);
    LinkedRun(s, ins, m, []);
    HeadOnBus(t);
    EntryRead(t.board.issued, t.board.mem, m, log, k);
  }

  lemma {:induction false} StartLinked(s: Sys)
    requires InitialSys(s)
    ensures Formed(s) && Inv(s) && Linked(s.board.issued, s.board.mem, s.board.mem, [])
    ensures forall a: Addr :: ReadWord(s.board.mem, a) == ChipWord(s.chip.mem, a)
  {
    InvInitially(s);
  }

  lemma {:induction false} EntryRead(ops: seq<Op>, mem: map<nat, Word>, m: map<nat, Word>, log: seq<Request>, k: nat)
    requires Linked(ops, mem, m, log) && |ops| > 0
    ensures var at := |log| - |ops|;
            && 0 <= at < |log| && log[at] == ops[0].req
            && Lane(ops[0].promise, k)
               == LastWritten(log[..at], log[at].addr, k, Lane(ReadWord(m, log[at].addr), k))
  {
    var at := |log| - |ops|;
    assert IsEntry(ops[0], m, log, at);
    ReplayIsLastWritten(m, log[..at], log[at].addr, k);
  }

  lemma {:induction false} HeadOnBus(s: Sys)
    requires Inv(s) && Acked(s)
    ensures |s.board.issued| > 0 && (!s.board.issued[0].req.we ==> BusData(s) == s.board.issued[0].promise)
  {
    AckedHead(s);
    if |s.board.issued| > 0 { assert InFlight(s, s.board.issued[0]); }
  }

  // ---- The same, in the words of the bus ----

  // The requests accepted during a run.
  function Requested(s: Sys, ins: seq<Input>): seq<Request>
    requires Formed(s)
    decreases |ins|
  {
    if ins == [] then [] else OnBus(s, ins[0]) + Requested(SysStep(s, ins[0]), ins[1..])
  }

  lemma {:induction false} RequestsOneClock(s: Sys, i: Input)
    requires Inv(s) && i.bus.cyc
    ensures var t := SysStep(s, i);
            && Inv(t) && s.board.waiting + OnBus(s, i) == NewCommand(t) + t.board.waiting
            && |NewCommand(t)| == |SeenOnPins(t)|
  {
    InvStep(s, i);
    TransferSeen(SysStep(s, i));
    DecidePermitted(s.ctrl, true);
    WaitingRequests(s, Decide(s.ctrl, true), i);
  }

  // A run, one clock on.
  lemma {:induction false} RequestsOn(s: Sys, ins: seq<Input>, log: seq<Request>)
    requires Formed(s) && ins != [] && Held(ins)
    ensures var t, more := SysStep(s, ins[0]), ins[1..];
            && ins[0].bus.cyc && Held(more)
            && Run(s, ins) == Run(t, more) && Logged(s, ins, log) == Logged(t, more, log + NewCommand(t))
            && Requested(s, ins) == OnBus(s, ins[0]) + Requested(t, more)
            && Commanded(s, ins) == SeenOnPins(t) + Commanded(t, more)
  {
    hide SysStep, OnBus, NewCommand, SeenOnPins, Formed, Accepts;
  }

  lemma {:induction false} NoRequest(s: Sys, log: seq<Request>)
    requires Formed(s)
    ensures Run(s, []) == s && Logged(s, [], log) == log && Requested(s, []) == [] && Commanded(s, []) == []
  {
  }

  // The commands given, and then the one that waits, are the requests accepted, whole and in order.
  lemma {:induction false} RequestsKept(s: Sys, ins: seq<Input>, log: seq<Request>)
    requires Inv(s) && Held(ins)
    ensures (log + s.board.waiting) + Requested(s, ins) == Logged(s, ins, log) + Run(s, ins).board.waiting
    ensures |Logged(s, ins, log)| == |log| + |Commanded(s, ins)|
    decreases |ins|
  {
    assert Formed(s);
    hide *;
    if ins == [] {
      NoRequest(s, log);
      assert (log + s.board.waiting) + [] == log + s.board.waiting;
    } else {
      RequestsOn(s, ins, log);
      RequestsOneClock(s, ins[0]);
      var t := SysStep(s, ins[0]);
      RequestsKept(t, ins[1..], log + NewCommand(t));
      Reassociate(log, s.board.waiting, OnBus(s, ins[0]), NewCommand(t), t.board.waiting, Requested(t, ins[1..]));
    }
  }

  lemma {:induction false} Reassociate<T>(log: seq<T>, w: seq<T>, b: seq<T>, p: seq<T>, w': seq<T>, rest: seq<T>)
    requires w + b == p + w'
    ensures (log + w) + (b + rest) == ((log + p) + w') + rest
  {
    assert (log + w) + (b + rest) == log + (w + b) + rest;
  }

  // While a bus cycle is held, the n-th acknowledgment answers the n-th request accepted in it, and if that is a
  // read then each byte of the word on the bus is the one last written there, by the requests accepted before it
  // in this cycle, or by the commands of earlier cycles.
  lemma {:induction false} ReadsAnswered(s: Sys, before: seq<Input>, ins: seq<Input>, k: nat)
    requires InitialSys(s) && Run(s, before).board.waiting == [] && Run(s, before).board.issued == []
    requires Held(ins) && Acked(Run(Run(s, before), ins))
    ensures var m := Run(s, before);
            var t, earlier, reqs, n := Run(m, ins), Logged(s, before, []), Requested(m, ins), Acks(m, ins);
            && n < |reqs|
            && (!reqs[n].we ==>
                  Lane(BusData(t), k)
                  == LastWritten(earlier + reqs[..n], reqs[n].addr, k, Lane(ChipWord(s.chip.mem, reqs[n].addr), k)))
  {
    hide *;
    StartLinked(s);
    InvAlways(s, before);
    var m, earlier := Run(s, before), Logged(s, before, []);
    var t, reqs, n, log := Run(m, ins), Requested(m, ins), Acks(m, ins), Logged(m, ins, earlier);
    InvRun(m, ins);
    LinkedRun(s, before, s.board.mem, []);
    LinkedRun(m, ins, s.board.mem, earlier);
    RequestsKept(m, ins, earlier);
    CountKept(m, ins);
    HeadOnBus(t);
    EntryRead(t.board.issued, t.board.mem, s.board.mem, log, k);
    assert earlier + reqs == log + t.board.waiting;
    assert |log| - |t.board.issued| == |earlier| + n;
    assert log[|earlier| + n] == (log + t.board.waiting)[|earlier| + n] == reqs[n];
    assert log[..|earlier| + n] == (log + t.board.waiting)[..|earlier| + n] == earlier + reqs[..n];
  }

  // ---- Every request gets in ----

  // A bus cycle that keeps asking.
  predicate Asking(ins: seq<Input>) { forall k :: 0 <= k < |ins| ==> ins[k].bus.cyc && ins[k].bus.stb }

  // A bound on the clocks until the stall is over: that of the request before, or of nothing.
  function Stalled(c: Ctrl): nat requires WellFormed(c) {
    if !c.stall then 0 else if c.pending then Patience(c) else 1
  }

  lemma {:induction false} StallEnds(s: Sys, i: Input)
    requires Inv(s) && Operating(s) && i.bus.cyc && s.ctrl.stall
    ensures var t := SysStep(s, i); Inv(t) && Operating(t) && Stalled(t.ctrl) < Stalled(s.ctrl)
  {
    if s.ctrl.pending {
      PatienceTick(s, i);
      PatiencePositive(s.ctrl);
    } else {
      InvStep(s, i);
      NothingToStall(s, i);
    }
    hide Inv, SysStep, Patience;
  }

  lemma {:induction false} PatiencePositive(c: Ctrl)
    requires WellFormed(c)
    ensures Patience(c) > 0
  {
  }

  // With nothing pending, the stall lasts a clock at most.
  lemma {:induction false} NothingToStall(s: Sys, i: Input)
    requires Inv(s) && Operating(s) && !s.ctrl.pending && !Accepts(s.ctrl, i.bus)
    ensures var t := SysStep(s, i); Operating(t) && !t.ctrl.stall
  {
    hide NextBanks, NextTilIdle, NextAck, NextDqm, CommandPins;
  }

  lemma {:induction false} GetsIn(s: Sys, ins: seq<Input>)
    requires Inv(s) && Operating(s) && Asking(ins) && |ins| > Stalled(s.ctrl)
    ensures Requested(s, ins) != []
    decreases |ins|
  {
    hide *;
    ReadyIn(s);
    AskingOn(s, ins);
    RequestsOn(s, ins, []);
    if s.ctrl.stall {
      StallEnds(s, ins[0]);
      ReadyIn(SysStep(s, ins[0]));
      GetsIn(SysStep(s, ins[0]), ins[1..]);
    }
  }

  lemma {:induction false} AskingOn(s: Sys, ins: seq<Input>)
    requires Formed(s) && Asking(ins) && ins != []
    ensures Held(ins) && Asking(ins[1..]) && (!s.ctrl.stall ==> OnBus(s, ins[0]) != [])
  {
  }

  lemma {:induction false} StalledAtAll(c: Ctrl)
    requires CtrlInv(c)
    ensures Stalled(c) <= 28
  {
    PatienceBound(c);
    hide CtrlInv, Patience;
  }

  // Once operating, whatever went before, a bus cycle that keeps asking has a request accepted in every 29 clocks.
  lemma {:induction false} AcceptedWithin(s: Sys, before: seq<Input>, ins: seq<Input>)
    requires InitialSys(s) && |before| >= 20516 && Asking(ins) && |ins| == 29
    ensures Requested(Run(s, before), ins) != []
  {
    StartupCompletes(s, before);
    InvAlways(s, before);
    hide *;
    ReadyIn(Run(s, before));
    GetsIn(Run(s, before), ins);
  }

  lemma {:induction false} ReadyIn(s: Sys)
    requires Inv(s)
    ensures Formed(s) && Stalled(s.ctrl) <= 28
  {
    StalledAtAll(s.ctrl);
    hide Stalled;
  }

  // And so n requests in 29 n clocks, at the least.
  lemma {:induction false} Throughput(s: Sys, ins: seq<Input>, n: nat)
    requires Inv(s) && Operating(s) && Asking(ins) && |ins| == 29 * n
    ensures |Requested(s, ins)| >= n
    decreases n
  {
    hide Inv, Stalled, Operating, SysStep;
    ReadyIn(s);
    if n > 0 {
      var a, b := ins[..29], ins[29..];
      assert ins == a + b;
      GetsIn(s, a);
      RequestsApart(s, a, b);
      StaysOperating(s, a);
      Throughput(Run(s, a), b, n - 1);
    }
  }

  lemma {:induction false} RequestsApart(s: Sys, a: seq<Input>, b: seq<Input>)
    requires Formed(s)
    ensures Formed(Run(s, a)) && Requested(s, a + b) == Requested(s, a) + Requested(Run(s, a), b)
    decreases |a|
  {
    hide SysStep, OnBus, Formed;
    if a == [] {
      assert a + b == b;
    } else {
      assert (a + b)[0] == a[0] && (a + b)[1..] == a[1..] + b;
      RequestsApart(SysStep(s, a[0]), a[1..], b);
    }
  }

  lemma {:induction false} StaysOperating(s: Sys, ins: seq<Input>)
    requires Inv(s) && Operating(s)
    ensures Inv(Run(s, ins)) && Operating(Run(s, ins))
    decreases |ins|
  {
    if ins != [] {
      DeadlineTick(s, ins[0]);
      hide Inv, Operating, SysStep;
      StaysOperating(SysStep(s, ins[0]), ins[1..]);
    }
  }
}
