// The whole command direction: calls on the host, characters on the wire, words out of the clocked receiver,
// and operations on a bus that stalls and acknowledges as it likes.
module WbuLink {
  import opened WbuCode
  import opened WbuHost
  import opened WbuForward
  import P = WbuInputProof
  import I = WbuInput
  import opened WbuExec
  import opened WbuExecProof

  predicate Sensible(c: Command) { c.ReadBlock? ==> 1 <= c.len < 1024 }

  predicate AllSensible(cs: seq<Command>) { forall k :: 0 <= k < |cs| ==> Sensible(cs[k]) }

  lemma {:induction false} HearSensible(r: Receiver, b: Byte)
    ensures AllSensible(Hear(r, b).commands)
  {
    hide Value;
  }

  lemma {:induction false} AllHeardSensible(r: Receiver, bs: seq<Byte>)
    ensures AllSensible(HearAll(r, bs).commands)
    decreases |bs|
  {
    hide Hear, Sensible;
    if bs != [] {
      HearSensible(r, bs[0]);
      AllHeardSensible(Hear(r, bs[0]).r, bs[1..]);
    }
  }

  predicate NoneImproper(ops: seq<BusOp>) { forall k :: 0 <= k < |ops| ==> !ops[k].Improper? }

  // When the bus sees nothing improper, every command came when it could be taken, and meant something.
  lemma {:induction false} OpsProper(p: Spec, cs: seq<Command>)
    requires AllSensible(cs) && NoneImproper(ExecuteAll(p.e, cs).ops)
    ensures AllProper(p, cs) && forall k :: 0 <= k < |cs| ==> !cs[k].StaleWrite?
    ensures AskAll(p, cs).ops == ExecuteAll(p.e, cs).ops && AskAll(p, cs).next.e == ExecuteAll(p.e, cs).e
    decreases |cs|
  {
    if cs != [] {
      var d := Execute(p.e, cs[0]);
      var rest := ExecuteAll(d.e, cs[1..]);
      assert NoneImproper(d.ops) by { assert forall k :: 0 <= k < |d.ops| ==> d.ops[k] == (d.ops + rest.ops)[k]; }
      assert NoneImproper(rest.ops) by {
        assert forall k :: 0 <= k < |rest.ops| ==> rest.ops[k] == (d.ops + rest.ops)[|d.ops| + k];
      }
      OneProper(p, cs[0]);
      hide Execute, Proper, Sensible, NoneImproper;
      OpsProper(Ask(p, cs[0]).next, cs[1..]);
    }
  }

  lemma {:induction false} OneProper(p: Spec, c: Command)
    requires Sensible(c) && NoneImproper(Execute(p.e, c).ops)
    ensures Proper(p, c)
  {
    var ops := Execute(p.e, c).ops;
    assert |ops| > 0 ==> !ops[0].Improper?;
    hide Reads, Plus;
  }

  lemma {:induction false} LoopProper(cell: nat, inc: bool, vals: seq<Word>)
    ensures NoneImproper(WordLoop(cell, inc, vals))
    decreases |vals|
  {
    if vals != [] { LoopProper(if inc then cell + 1 else cell, inc, vals[1..]); }
  }

  lemma {:induction false} ReadProper(cell: nat, inc: bool, len: nat)
    ensures NoneImproper(ReadLoop(cell, inc, len))
    decreases len
  {
    if len > 0 { ReadProper(if inc then cell + 1 else cell, inc, len - 1); }
  }

  lemma {:induction false} MeaningProper(calls: seq<Call>)
    ensures NoneImproper(MeaningAll(calls))
    decreases |calls|
  {
    if calls != [] {
      var c := calls[0];
      if c.Write? { LoopProper(c.a / 4, c.inc, c.vals); } else { ReadProper(c.a / 4, c.inc, c.len); }
      MeaningProper(calls[1..]);
    }
  }

  lemma {:induction false} OnBusProper(ops: seq<BusOp>)
    requires NoneImproper(AllOnBus(ops))
    ensures NoneImproper(ops)
  {
    forall k | 0 <= k < |ops| ensures !ops[k].Improper? { assert !AllOnBus(ops)[k].Improper?; }
  }

  lemma {:induction false} MatchesSame(cs: seq<Command>, specs: seq<Command>)
    requires P.AllMatch(cs, specs) && forall k :: 0 <= k < |specs| ==> !specs[k].StaleWrite?
    ensures cs == specs
  {
  }

  // The words that come out of the clocked receiver are the commands of the session, and all of them proper.
  lemma {:induction false} SessionCommands(h: Host, f: Fpga, calls: seq<Call>, p: I.Pipe, keys: seq<P.Key>, news: bool)
    requires InSync(h, f) && AllSayable(h, calls)
    requires P.InPhase(p, f.r, P.Idle) && P.Typed(keys) == SendAll(h, calls).chars
    requires forall k :: 0 <= k < |keys| ==> |keys[k].idle| >= P.SETTLE
    requires I.Formed(p)
    ensures var specs := HearAll(f.r, SendAll(h, calls).chars).commands;
            && I.Outputs(p, P.Clocks(keys)) == specs && AllProper(Spec(f.e, news), specs)
            && AskAll(Spec(f.e, news), specs).ops == ExecuteAll(f.e, specs).ops
            && AskAll(Spec(f.e, news), specs).next.e == ExecuteAll(f.e, specs).e
  {
    var sent := SendAll(h, calls);
    var specs := HearAll(f.r, sent.chars).commands;
    SessionArrives(h, f, calls);
    var ops := ExecuteAll(f.e, specs).ops;
    assert Deliver(f, sent.chars).ops == ops;
    MeaningProper(calls);
    OnBusProper(ops);
    AllHeardSensible(f.r, sent.chars);
    OpsProper(Spec(f.e, news), specs);
    P.LineHeard(p, f.r, keys);
    MatchesSame(I.Outputs(p, P.Clocks(keys)), specs);
  }

  // A session of calls is typed to the receiver, however slowly; its words wait in a queue until the executor
  // takes them.  Then what has gone out on the bus, with what the executor is still doing, is exactly what the
  // per-word loops do, and once the executor rests the two ends agree again.
  lemma {:induction false} SessionOnHardware(h: Host, f: Fpga, calls: seq<Call>, p: I.Pipe, keys: seq<P.Key>, s: Sys, ins: seq<In>)
    requires InSync(h, f) && AllSayable(h, calls)
    requires P.InPhase(p, f.r, P.Idle) && P.Typed(keys) == SendAll(h, calls).chars
    requires forall k :: 0 <= k < |keys| ==> |keys[k].idle| >= P.SETTLE
    requires Inv(s) && s.x.state.Resting? && s.x.addr == f.e.addr
    requires I.Formed(p) && LegalAll(s, ins) && Commands(ins) == I.Outputs(p, P.Clocks(keys))
    ensures var t := Run(s, ins);
            && AllOnBus(Shown(s, ins).ops + Todo(t.x)) == MeaningAll(calls)
            && (t.x.state.Resting? ==>
                  Todo(t.x) == [] && InSync(SendAll(h, calls).h, Fpga(HearAll(f.r, P.Typed(keys)).r, Exec(t.x.addr, NoBurst))))
  {
    var sent, specs, t := SendAll(h, calls), HearAll(f.r, P.Typed(keys)).commands, Run(s, ins);
    var p0 := Standing(s.x);
    assert p0.e == f.e && p0 == Spec(f.e, p0.news) by { StandsAt(s.x); AgreesAt(h, f); }
    SessionArrives(h, f, calls);
    SessionCommands(h, f, calls, p, keys, p0.news);
    var ops := ExecuteAll(f.e, specs).ops;
    assert Deliver(f, sent.chars).ops == ops;
    ProperFeeds(s, ins);
    ExecutorExact(s, ins);
    assert Todo(s.x) == [];
    assert [] + AskAll(p0, specs).ops == ops;
    if t.x.state.Resting? { StandsAt(t.x); }
    hide Inv, InSync, AllOnBus, MeaningAll, ExecuteAll, AskAll, Shown, Run, HearAll, SendAll;
  }

  lemma {:induction false} StandsAt(x: Regs)
    requires x.state.Resting?
    ensures Standing(x).e == Exec(x.addr, NoBurst) && Todo(x) == []
  {
  }

  lemma {:induction false} AgreesAt(h: Host, f: Fpga)
    requires InSync(h, f)
    ensures f.e == Exec(f.e.addr, NoBurst)
  {
  }
}
