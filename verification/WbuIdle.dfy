// The stage that puts notes between the replies, rtl/wbuidleint.v, clock by clock.
module WbuIdle {
  import opened Sequences
  import opened WbuCode

  // o_stb, o_codword, o_busy, int_request, int_sent, idle_state and idle_counter
  datatype Regs = Regs(stb: bool, word: Codeword, busy: bool, request: bool, sent: bool, idleState: bool, counter: nat)

  // A reply offered, the bus cycle, the bus being busy, the interrupt line, and whether the next stage is busy.
  datatype In = In(stb: bool, word: Codeword, cyc: bool, busBusy: bool, interrupt: bool, txBusy: bool)

  const IDLE_NOTE: Digit := 0
  const BUSY_NOTE: Digit := 1
  const INTERRUPT_NOTE: Digit := 4
  const EXPIRED := 0x8_0000_0000
  const PACE := 43

  predicate Free(s: Regs) { !s.stb && !s.busy }
  predicate Passes(s: Regs, i: In) { s.stb && !i.txBusy }
  predicate Interrupts(s: Regs, i: In) { Free(s) && !i.stb && s.request && !s.sent }
  predicate Idles(s: Regs, i: In) {
    Free(s) && !i.stb && !(s.request && !s.sent) && !s.idleState && s.counter / EXPIRED % 2 == 1
  }

  function Step(s: Regs, i: In): Regs {
    Regs(if s.stb then i.txBusy else if s.busy then false else i.stb || Interrupts(s, i) || Idles(s, i),
         if !Free(s) then s.word
         else if i.stb then i.word
         else if Interrupts(s, i) then Codeword(INTERRUPT_NOTE, 0)
         else if Idles(s, i) then Codeword(if i.cyc then BUSY_NOTE else IDLE_NOTE, 0)
         else s.word,
         s.stb || (!s.busy && (i.stb || Interrupts(s, i) || Idles(s, i))),
         if Passes(s, i) && s.word.op == INTERRUPT_NOTE then i.interrupt else s.request || i.interrupt,
         if s.request && Free(s) && !i.stb then true else s.sent && i.interrupt,
         if Passes(s, i) && s.word.op / 2 == 0 then true else s.idleState && s.counter / EXPIRED % 2 == 1,
         if i.stb || s.stb || i.busBusy then 0
         else if s.counter / EXPIRED % 2 == 0 then (s.counter + PACE) % (2 * EXPIRED)
         else s.counter)
  }

  function Run(s: Regs, ins: seq<In>): Regs
    decreases |ins|
  {
    if ins == [] then s else Run(Step(s, ins[0]), ins[1..])
  }

  // ---- What goes through ----

  // The reply that is taken, the note that is made, the word that goes on; and the one that waits.
  function Taken(s: Regs, i: In): seq<Codeword> { if i.stb && !s.busy && !s.stb then [i.word] else [] }
  function Made(s: Regs, i: In): seq<Codeword> {
    if Interrupts(s, i) then [Codeword(INTERRUPT_NOTE, 0)]
    else if Idles(s, i) then [Codeword(if i.cyc then BUSY_NOTE else IDLE_NOTE, 0)]
    else []
  }
  function Passed(s: Regs, i: In): seq<Codeword> { if Passes(s, i) then [s.word] else [] }
  function Waiting(s: Regs): seq<Codeword> { if s.stb then [s.word] else [] }

  function TakenAll(s: Regs, ins: seq<In>): seq<Codeword>
    decreases |ins|
  {
    if ins == [] then [] else Taken(s, ins[0]) + TakenAll(Step(s, ins[0]), ins[1..])
  }

  function MadeAll(s: Regs, ins: seq<In>): seq<Codeword>
    decreases |ins|
  {
    if ins == [] then [] else Made(s, ins[0]) + MadeAll(Step(s, ins[0]), ins[1..])
  }

  function PassedAll(s: Regs, ins: seq<In>): seq<Codeword>
    decreases |ins|
  {
    if ins == [] then [] else Passed(s, ins[0]) + PassedAll(Step(s, ins[0]), ins[1..])
  }

  lemma {:induction false} OneClock(s: Regs, i: In)
    ensures Passed(s, i) + Waiting(Step(s, i)) == Waiting(s) + (Taken(s, i) + Made(s, i))
    ensures Taken(s, i) == [] || Made(s, i) == []
  {
  }

  // The replies, and notes put in between: nothing is lost, repeated or reordered, however busy the next stage is.
  lemma {:induction false} NotesBetween(s: Regs, ins: seq<In>) returns (all: seq<Codeword>)
    ensures Woven(all, TakenAll(s, ins), MadeAll(s, ins))
    ensures PassedAll(s, ins) + Waiting(Run(s, ins)) == Waiting(s) + all
    decreases |ins|
  {
    hide Step, Taken, Made, Passed, Waiting;
    if ins == [] {
      all := [];
    } else {
      var i, t := ins[0], Step(s, ins[0]);
      var more := NotesBetween(t, ins[1..]);
      OneClock(s, i);
      var now := Taken(s, i) + Made(s, i);
      all := now + more;
      Chain(Passed(s, i), PassedAll(t, ins[1..]), Waiting(s), Waiting(t), Waiting(Run(t, ins[1..])), now, more);
      Count(s, i);
      WovenMore(more, TakenAll(t, ins[1..]), MadeAll(t, ins[1..]), Taken(s, i), Made(s, i));
    }
  }

  lemma {:induction false} Count(s: Regs, i: In)
    ensures |Taken(s, i)| <= 1 && |Made(s, i)| <= 1
  {
  }

  lemma {:induction false} WovenMore(more: seq<Codeword>, a: seq<Codeword>, b: seq<Codeword>, x: seq<Codeword>, y: seq<Codeword>)
    requires Woven(more, a, b) && |x| <= 1 && |y| <= 1 && (x == [] || y == [])
    ensures Woven((x + y) + more, x + a, y + b)
  {
    if x != [] {
      assert (x + y) + more == [x[0]] + more && x + a == [x[0]] + a && y + b == b;
      WovenFirst(x[0], more, a, b);
    } else if y != [] {
      assert (x + y) + more == [y[0]] + more && y + b == [y[0]] + b && x + a == a;
      WovenSecond(y[0], more, a, b);
    } else {
      assert (x + y) + more == more && x + a == a && y + b == b;
    }
  }

  // A reply that is offered is taken within three clocks on which the next stage is free.
  lemma {:induction false} TakenInTime(s: Regs, ins: seq<In>)
    requires |ins| == 3 && forall k :: 0 <= k < |ins| ==> ins[k].stb && !ins[k].txBusy
    ensures TakenAll(s, ins) != []
  {
    var a := Step(s, ins[0]);
    var b := Step(a, ins[1]);
    assert TakenAll(s, ins) == Taken(s, ins[0]) + TakenAll(a, ins[1..]);
    assert TakenAll(a, ins[1..]) == Taken(a, ins[1]) + TakenAll(b, ins[2..]);
    assert TakenAll(b, ins[2..]) == Taken(b, ins[2]) + TakenAll(Step(b, ins[2]), ins[3..]);
    hide TakenAll;
  }

  // ---- The notes ----

  // Notes of an interrupt are made only for interrupts.
  lemma {:induction false} NoInterrupts(s: Regs, ins: seq<In>)
    requires !s.request && forall k :: 0 <= k < |ins| ==> !ins[k].interrupt
    ensures forall k :: 0 <= k < |MadeAll(s, ins)| ==> MadeAll(s, ins)[k].op < 2
    decreases |ins|
  {
    if ins != [] {
      assert !Step(s, ins[0]).request;
      NoInterrupts(Step(s, ins[0]), ins[1..]);
      hide Step;
    }
  }

  predicate Raised(ins: seq<In>) { forall k :: 0 <= k < |ins| ==> ins[k].interrupt }
  predicate Unoffered(ins: seq<In>) { forall k :: 0 <= k < |ins| ==> !ins[k].stb && !ins[k].txBusy }

  // While the line stays raised an interrupt is told once.
  lemma {:induction false} ToldOnce(s: Regs, ins: seq<In>)
    requires s.sent && Raised(ins)
    ensures Run(s, ins).sent && forall k :: 0 <= k < |MadeAll(s, ins)| ==> MadeAll(s, ins)[k].op < 2
    decreases |ins|
  {
    if ins != [] {
      assert ins[0].interrupt && Step(s, ins[0]).sent;
      ToldOnce(Step(s, ins[0]), ins[1..]);
      hide Step;
    }
  }

  ghost predicate Tells(ws: seq<Codeword>) { exists k :: 0 <= k < |ws| && ws[k].op == INTERRUPT_NOTE }

  // An interrupt that is raised, however shortly, is told within four clocks if no reply comes first and the next stage
  // takes what is there; and if it is still raised then, it will not be told again.
  lemma {:induction false} InterruptTold(s: Regs, i: In, ins: seq<In>)
    requires !s.sent && (s.stb ==> s.busy && s.word.op != INTERRUPT_NOTE) && i.interrupt
    requires Unoffered([i] + ins) && |ins| == 3
    ensures Tells(MadeAll(s, [i] + ins)) && (Raised([i] + ins) ==> Run(s, [i] + ins).sent)
  {
    var all := [i] + ins;
    assert all[1..] == ins && all[0] == i && all[1] == ins[0] && all[2] == ins[1] && all[3] == ins[2];
    var a := Step(s, i);
    var b := Step(a, ins[0]);
    var c := Step(b, ins[1]);
    TellsNow(s, all);
    TellsNow(a, ins);
    TellsNow(b, ins[1..]);
    TellsNow(c, ins[2..]);
    assert Run(s, all) == Run(c, ins[2..]) == Step(c, ins[2]) by {
      assert Run(s, all) == Run(a, ins) && Run(a, ins) == Run(b, ins[1..]) && Run(b, ins[1..]) == Run(c, ins[2..]);
    }
    hide MadeAll, Made, Tells, Run;
  }

  lemma {:induction false} TellsNow(s: Regs, ins: seq<In>)
    requires ins != []
    ensures Interrupts(s, ins[0]) || Tells(MadeAll(Step(s, ins[0]), ins[1..])) ==> Tells(MadeAll(s, ins))
  {
    var now: seq<Codeword>, more: seq<Codeword> := Made(s, ins[0]), MadeAll(Step(s, ins[0]), ins[1..]);
    assert MadeAll(s, ins) == now + more;
    if Interrupts(s, ins[0]) {
      assert (now + more)[0].op == INTERRUPT_NOTE;
    } else if Tells(more) {
      var k :| 0 <= k < |more| && more[k].op == INTERRUPT_NOTE;
      assert (now + more)[|now| + k] == more[k];
    }
    hide Step;
  }

  // How many notes tell of an interrupt, and on how many clocks there was one.
  function Told(ws: seq<Codeword>): nat { if ws == [] then 0 else (if ws[0].op == INTERRUPT_NOTE then 1 else 0) + Told(ws[1..]) }
  function Raises(ins: seq<In>): nat { if ins == [] then 0 else (if ins[0].interrupt then 1 else 0) + Raises(ins[1..]) }

  // An interrupt that has not been told.
  function Untold(s: Regs): nat { if s.request && !(s.stb && s.word.op == INTERRUPT_NOTE) then 1 else 0 }

  lemma {:induction false} ToldStep(s: Regs, i: In)
    ensures Told(Made(s, i)) + Untold(Step(s, i)) <= Untold(s) + if i.interrupt then 1 else 0
  {
    var made := Made(s, i);
    assert made != [] ==> made[1..] == [];
    hide EXPIRED, PACE;
  }

  lemma {:induction false} ToldApart(a: seq<Codeword>, b: seq<Codeword>)
    ensures Told(a + b) == Told(a) + Told(b)
  {
    if a == [] {
      assert a + b == b;
    } else {
      assert (a + b)[1..] == a[1..] + b && (a + b)[0] == a[0];
      ToldApart(a[1..], b);
    }
  }

  // No interrupt is told twice, whatever holds the notes up.
  lemma {:induction false} NoEcho(s: Regs, ins: seq<In>)
    ensures Told(MadeAll(s, ins)) <= Untold(s) + Raises(ins)
    decreases |ins|
  {
    hide Step, Made, Untold;
    if ins != [] {
      ToldStep(s, ins[0]);
      NoEcho(Step(s, ins[0]), ins[1..]);
      ToldApart(Made(s, ins[0]), MadeAll(Step(s, ins[0]), ins[1..]));
    }
  }

  // ---- The idle notes ----

  // The flag that is to keep a note of idleness from being repeated is gone a clock after it is set.
  ghost predicate Forgetful(s: Regs) { s.idleState ==> s.counter == 0 }

  lemma {:induction false} ForgetfulStep(s: Regs, i: In)
    requires Forgetful(s)
    ensures Forgetful(Step(s, i))
  {
  }

  // Nothing goes on, and nothing is raised.
  predicate Quiet(ins: seq<In>) {
    forall k :: 0 <= k < |ins| ==> !ins[k].stb && !ins[k].busBusy && !ins[k].interrupt && !ins[k].txBusy
  }

  // Clocks of quiet before a note of it.
  const PATIENCE := 799_063_683

  ghost predicate Counting(s: Regs, n: nat) {
    Free(s) && !s.request && Forgetful(s) && n <= PATIENCE && s.counter == n * PACE
  }

  lemma {:induction false} CountsOn(s: Regs, i: In, n: nat)
    requires Counting(s, n) && !i.stb && !i.busBusy && !i.interrupt
    ensures Idles(s, i) <==> n == PATIENCE
    ensures n < PATIENCE ==> Counting(Step(s, i), n + 1)
    ensures n == PATIENCE ==> Made(s, i) == [Codeword(if i.cyc then 1 else 0, 0)]
  {
    assert PATIENCE * PACE >= EXPIRED > (PATIENCE - 1) * PACE;
    if n < PATIENCE { assert n * PACE <= (PATIENCE - 1) * PACE; }
  }

  lemma {:induction false} Counts(s: Regs, ins: seq<In>, n: nat)
    requires Counting(s, n) && Quiet(ins)
    ensures |ins| + n <= PATIENCE ==> MadeAll(s, ins) == []
    decreases |ins|
  {
    if ins != [] {
      assert !ins[0].stb && !ins[0].busBusy && !ins[0].interrupt;
      CountsOn(s, ins[0], n);
      hide Step, Counting;
      if n < PATIENCE { Counts(Step(s, ins[0]), ins[1..], n + 1); }
    }
  }

  // After a clock of traffic there is none for so long.
  lemma {:induction false} NotBefore(s: Regs, i: In, ins: seq<In>)
    requires Free(s) && !s.request && Forgetful(s) && i.busBusy && !i.stb && !i.interrupt && !Idles(s, i)
    requires Quiet(ins) && |ins| <= PATIENCE
    ensures MadeAll(Step(s, i), ins) == []
  {
    Counts(Step(s, i), ins, 0);
  }

  lemma {:induction false} NoteGoes(s: Regs, a: In, b: In, c: In)
    requires Counting(s, PATIENCE) && Quiet([a, b, c])
    ensures var x := Step(s, a);
            var y := Step(x, b);
            Made(x, b) == Made(y, c) == [] && Counting(Step(y, c), 1)
  {
    assert [a, b, c][0] == a && [a, b, c][1] == b && [a, b, c][2] == c;
    CountsOn(s, a, PATIENCE);
  }

  // As long as it stays quiet, a note is made at least every PATIENCE + 3 clocks: the same note again.
  lemma {:induction false} IdleRepeats(s: Regs, ins: seq<In>, k: nat, n: nat)
    requires Counting(s, k) && Quiet(ins) && |ins| + k >= n * (PATIENCE + 3)
    ensures |MadeAll(s, ins)| >= n
    decreases |ins|
  {
    if n > 0 {
      assert n * (PATIENCE + 3) == (n - 1) * (PATIENCE + 3) + PATIENCE + 3;
      assert !ins[0].stb && !ins[0].busBusy && !ins[0].interrupt;
      CountsOn(s, ins[0], k);
      hide Step, Counting;
      if k < PATIENCE {
        IdleRepeats(Step(s, ins[0]), ins[1..], k + 1, n);
      } else {
        NoteGoes(s, ins[0], ins[1], ins[2]);
        var x := Step(s, ins[0]);
        var y := Step(x, ins[1]);
        assert ins[1..][1..] == ins[2..] && ins[2..][1..] == ins[3..];
        assert MadeAll(s, ins) == Made(s, ins[0]) + MadeAll(x, ins[1..]) && MadeAll(x, ins[1..]) == MadeAll(y, ins[2..]);
        assert MadeAll(y, ins[2..]) == MadeAll(Step(y, ins[2]), ins[3..]);
        IdleRepeats(Step(y, ins[2]), ins[3..], 1, n - 1);
      }
    }
  }
}
