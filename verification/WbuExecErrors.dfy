// What the executor does when the bus answers with an error, or is reset, or a burst is broken off.
module WbuExecErrors {
  import opened WbuCode
  import opened WbuExec
  import opened WbuExecProof

  // The bus answers what is open, each transfer once, with an acknowledgment or an error; and words come only when the
  // executor can take them.
  predicate Answered(s: Sys, i: In) {
    && !i.rst && (i.stb ==> !Busy(s.x)) && !(i.ack && i.err)
    && (i.ack || i.err ==> s.x.cyc && s.open + (if Strobes(s.x, i) then 1 else 0) > 0)
  }

  // What is still open when the cycle ends is given up.
  function ErrStep(s: Sys, i: In): Sys
    requires Answered(s, i)
  {
    var x := Step(s.x, i);
    Sys(x, if x.cyc then s.open + (if Strobes(s.x, i) then 1 else 0) - (if i.ack || i.err then 1 else 0) else 0)
  }

  ghost predicate TellsError(x: Regs) { x.outStb && x.out.op == 5 }

  // Ready for a command, with nothing open.
  ghost predicate Recovered(x: Regs) { x.state.Resting? && Inv(Sys(x, 0)) && !x.outStb }

  // ---- Every error is told ----

  lemma {:induction false} ErrorTold(s: Sys, i: In)
    requires Inv(s) && Answered(s, i) && i.err
    ensures TellsError(ErrStep(s, i).x)
  {
    hide NextAcks, NextNewAddr, NextLen, Data, DataReply, AddrReply, FromRest;
  }

  // ---- An error among reads ----

  // It ends the read exactly when it does not come as the last strobe is accepted; and when it comes before that, the
  // cycle and the strobe stay for a clock more, so that another read may still be accepted.
  lemma {:induction false} ReadEndsWhen(s: Sys, i: In)
    requires Inv(s) && Answered(s, i) && i.err && s.x.state.ReadRequest?
    ensures var t := ErrStep(s, i).x;
            && (t.state.Resting? <==> i.stall || s.x.len > 1)
            && (t.state.Resting? ==> t.cyc && t.stb && !t.we)
            && (!t.state.Resting? ==> Forgotten(ErrStep(s, i)))
  {
    hide NextNewAddr, Data, DataReply, AddrReply, Token, FromRest, FromWrite, FromAck, FromNextWrite;
  }

  // Waiting for one acknowledgment more than will come.
  ghost predicate Forgotten(s: Sys) {
    && s.x.state.WaitOnAck? && s.x.cyc && !s.x.stb && !s.x.we && s.x.acksNeeded == s.open + 1 < 1025
    && (s.x.lastAck ==> s.x.acksNeeded <= 1) && !s.x.zeroAcks
  }

  lemma {:induction false} ForgottenStep(s: Sys, i: In)
    requires Forgotten(s) && s.open < 1023 && Answered(s, i) && !i.err
    ensures Forgotten(ErrStep(s, i)) && ErrStep(s, i).open <= s.open
  {
    hide NextNewAddr, NextLen, Data, DataReply, AddrReply, Token, FromRest, FromRead, FromWrite, FromNextWrite;
  }

  ghost predicate AnsweredAll(s: Sys, ins: seq<In>)
    decreases |ins|
  {
    ins == [] || (Answered(s, ins[0]) && !ins[0].err && AnsweredAll(ErrStep(s, ins[0]), ins[1..]))
  }

  function ErrRun(s: Sys, ins: seq<In>): Sys
    requires AnsweredAll(s, ins)
    decreases |ins|
  {
    if ins == [] then s else ErrRun(ErrStep(s, ins[0]), ins[1..])
  }

  lemma {:induction false} WaitsForEver(s: Sys, ins: seq<In>)
    requires Forgotten(s) && s.open < 1023 && AnsweredAll(s, ins)
    ensures Forgotten(ErrRun(s, ins))
    decreases |ins|
  {
    hide Forgotten, Answered, Step;
    if ins != [] {
      ForgottenStep(s, ins[0]);
      WaitsForEver(ErrStep(s, ins[0]), ins[1..]);
    }
  }

  // An error that comes as the last strobe of a read is accepted is told and then forgotten: whatever acknowledgments
  // the transfers still open get, the executor is busy until there is another error or a reset.
  lemma {:induction false} ReadHangs(s: Sys, i: In, ins: seq<In>)
    requires Inv(s) && Answered(s, i) && i.err && s.x.state.ReadRequest? && !i.stall && s.x.len == 1
    requires AnsweredAll(ErrStep(s, i), ins)
    ensures Busy(ErrRun(ErrStep(s, i), ins).x)
  {
    ReadEndsWhen(s, i);
    OpenBound(s, i);
    WaitsForEver(ErrStep(s, i), ins);
    hide Inv, Step, Answered, AnsweredAll;
  }

  lemma {:induction false} OpenBound(s: Sys, i: In)
    requires Inv(s) && Answered(s, i) && i.err && s.x.state.ReadRequest?
    ensures ErrStep(s, i).open < 1023
  {
    hide Step;
  }

  // An error that does end a read: two clocks later, if no word comes, the executor is ready again.
  lemma {:induction false} ReadRecovers(s: Sys, i: In, j: In, k: In)
    requires Inv(s) && Answered(s, i) && i.err && s.x.state.ReadRequest? && (i.stall || s.x.len > 1)
    requires !j.rst && !j.stb && !k.rst && !k.stb
    ensures Recovered(Step(Step(Step(s.x, i), j), k))
  {
    ReadEndsWhen(s, i);
    RestClock(Step(s.x, i), j);
    RestClock(Step(Step(s.x, i), j), k);
    hide Step, Inv;
  }

  lemma {:induction false} RestClock(x: Regs, j: In)
    requires x.state.Resting? && !j.rst && !j.stb
    ensures var t := Step(x, j); t.state.Resting? && !t.cyc && !t.stb && (!x.cyc ==> Recovered(t))
  {
    hide NextNewAddr, NextLen, Data, AddrReply;
  }

  // While the last answers are awaited, an error ends the command at once.
  lemma {:induction false} WaitRecovers(s: Sys, i: In, j: In)
    requires Inv(s) && Answered(s, i) && i.err && s.x.state.WaitOnAck? && !j.rst && !j.stb
    ensures Recovered(Step(Step(s.x, i), j))
  {
    assert Step(s.x, i).state.Resting? && !Step(s.x, i).cyc;
    RestClock(Step(s.x, i), j);
    hide Step, Inv, Recovered;
  }

  // ---- An error among writes ----

  // Given up, and waiting for the end of the burst.
  ghost predicate Abandoned(x: Regs) { x.state.FlushWrites? && !x.cyc && !x.stb }

  predicate EndsBurst(i: In) { !i.rst && i.stb && i.word.op == 0x2e }
  predicate InBurst(i: In) { !i.rst && (i.stb ==> i.word.op / 8 == 3) }

  lemma {:induction false} AbandonStep(x: Regs, i: In)
    requires Abandoned(x) && (InBurst(i) || EndsBurst(i))
    ensures var t := Step(x, i);
            && !t.outStb && t.addr == x.addr && t.acksNeeded == 0
            && if EndsBurst(i) then Recovered(t) else Abandoned(t)
  {
    hide NextNewAddr, NextLen, Data;
  }

  function RegRun(x: Regs, ins: seq<In>): Regs
    decreases |ins|
  {
    if ins == [] then x else RegRun(Step(x, ins[0]), ins[1..])
  }

  // No strobe and no reply on any clock.
  ghost predicate Silent(x: Regs, ins: seq<In>)
    decreases |ins|
  {
    !x.stb && !x.cyc && (ins == [] || (!Step(x, ins[0]).outStb && Silent(Step(x, ins[0]), ins[1..])))
  }

  lemma {:induction false} AbandonRun(x: Regs, ins: seq<In>, last: In)
    requires Abandoned(x) && EndsBurst(last) && forall k :: 0 <= k < |ins| ==> InBurst(ins[k])
    ensures Silent(x, ins + [last]) && Recovered(RegRun(x, ins + [last]))
    decreases |ins|
  {
    hide Step, InBurst, EndsBurst, Recovered;
    if ins == [] {
      assert ([] + [last])[0] == last && ([] + [last])[1..] == [];
      AbandonStep(x, last);
      RecoveredRests(Step(x, last));
      assert ins + [last] == [last] && [last][1..] == [];
    } else {
      var all := ins + [last];
      assert all[0] == ins[0] && all[1..] == ins[1..] + [last];
      assert InBurst(ins[0]);
      NotBoth(ins[0]);
      AbandonStep(x, ins[0]);
      AbandonRun(Step(x, ins[0]), ins[1..], last);
    }
  }

  lemma {:induction false} NotBoth(i: In)
    requires InBurst(i)
    ensures !EndsBurst(i)
  {
  }

  lemma {:induction false} RecoveredRests(x: Regs)
    requires Recovered(x)
    ensures !x.stb && !x.cyc
  {
  }

  // An error in a burst of writes is told once; the writes that follow go nowhere and are not answered; and after the end
  // of the burst the executor is ready again.
  lemma {:induction false} WritesAbandoned(s: Sys, i: In, ins: seq<In>, last: In)
    requires Inv(s) && Answered(s, i) && i.err && (s.x.state.WriteRequest? || s.x.state.WaitOnNextWrite?)
    requires InBurst(i) && EndsBurst(last) && forall k :: 0 <= k < |ins| ==> InBurst(ins[k])
    ensures var t := Step(s.x, i);
            TellsError(t) && Silent(t, ins + [last]) && Recovered(RegRun(t, ins + [last]))
  {
    ErrorTold(s, i);
    assert Abandoned(Step(s.x, i)) by { Abandons(s, i); }
    AbandonRun(Step(s.x, i), ins, last);
    hide Step, Inv, Answered, InBurst, EndsBurst, Silent, RegRun;
  }

  lemma {:induction false} Abandons(s: Sys, i: In)
    requires Inv(s) && Answered(s, i) && i.err && (s.x.state.WriteRequest? || s.x.state.WaitOnNextWrite?) && InBurst(i)
    ensures Abandoned(Step(s.x, i))
  {
    hide NextAcks, NextNewAddr, NextLen, Data, DataReply, AddrReply, Token, FromRest, FromRead;
  }

  // ---- A burst broken off, and a reset ----

  // A word that does not belong in a burst ends it, as an error, and is itself lost.
  lemma {:induction false} BurstBroken(x: Regs, i: In, j: In)
    requires (x.state.WaitOnNextWrite? || x.state.FlushWrites?) && !i.rst && Foreign(i) && !j.rst && !j.stb
    ensures TellsError(Step(x, i)) && Step(x, i).state.Resting? && !Step(x, i).cyc && Step(x, i).addr == x.addr
    ensures Recovered(Step(Step(x, i), j))
  {
    RestClock(Step(x, i), j);
    hide NextAcks, NextNewAddr, NextLen, Data, AddrReply, Recovered;
  }

  // From any registers whatever.
  lemma {:induction false} ResetRests(x: Regs, i: In, j: In)
    requires i.rst && !j.rst && !j.stb
    ensures Step(x, i).outStb && Step(x, i).out.op == 3 && Recovered(Step(Step(x, i), j))
  {
    RestClock(Step(x, i), j);
    hide NextAcks, NextNewAddr, NextLen, Data, AddrReply, Recovered;
  }
}
