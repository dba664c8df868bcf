// A run of the scope, with the widths and limits of the design and room for eight words, whose buffer begins with a
// repeat, so that the length that the software works out for it is wrong.
module ScopeExample {
  import opened Scope
  import opened ScopeProof
  import opened ScopeStop
  import opened ScopeReader

  const EIGHT := Config(0x8000_0000, 0x7fff_ffff, 8)
  const HOLD := 10

  // Fifteen sevens and then something new on every clock; the trigger rises as soon as it can count.
  function Value(k: nat): Low { if k < 15 || k >= 0x8000_0000 then 7 else k }
  function Given(k: nat): In { In(false, true, k >= 10, false, false, HOLD, Value(k)) }

  // The registers after k clocks.
  function Seen(k: nat): Entry {
    if k == 0 then BLANK else if k == 1 then Entry(false, 0) else if k <= 12 then Entry(false, 7)
    else if k <= 16 then Entry(true, k - 13) else Entry(false, Value(k - 2))
  }
  function Last(k: nat): Low { if k == 0 then 0 else Value(k - 1) }

  function ControlAt(k: nat): Control {
    Control(k >= 11, if k <= 11 then 0 else if k <= 22 then k - 11 else 11, k >= 22,
            [k >= 23, k >= 24, k >= 25, k >= 26, k >= 27], k >= 10)
  }
  function RunsAt(k: nat): Runs {
    Runs(if 13 <= k <= 16 then k - 12 else 0, Last(k), k <= 11, 1 <= k <= 12, k == 0, k <= 1 || k >= 16)
  }
  predicate RecordAt(k: nat) { 2 <= k <= 14 || 18 <= k <= 25 }
  function PlaceAt(k: nat): nat {
    if k <= 2 then 0 else if k <= 15 then (k - 2) % 8 else if k <= 18 then 5 else if k <= 26 then (k - 5) % 8 else 5
  }

  // The words decided after k clocks, and their number.
  function Word(j: nat): Entry {
    if j == 0 then BLANK else if j == 1 then Entry(false, 0) else if j <= 12 then Entry(false, 7)
    else if j == 13 then Entry(true, 3) else Entry(false, Value(j + 1))
  }
  function Decided(k: nat): nat { if k <= 1 then 0 else if k <= 14 then k - 1 else if k <= 17 then 13 else if k <= 25 then k - 4 else 21 }

  predicate At(k: nat, y: Sys) {
    && Formed(EIGHT, y.s) && y.s.c == ControlAt(k) && y.s.r == RunsAt(k)
    && y.s.w.imm == Seen(k) && y.s.w.lst == (if k == 0 then BLANK else Seen(k - 1)) && y.s.w.record == RecordAt(k)
    && y.s.m.waddr == PlaceAt(k) && y.decided == seq(Decided(k), j requires 0 <= j => Word(j))
  }

  lemma {:induction false} ControlNext(k: nat, s: Regs)
    requires k < 27 && s.c == ControlAt(k) && s.w.record == RecordAt(k) && s.m.waddr == PlaceAt(k)
    ensures ControlStep(EIGHT, s.c, s.w, s.m, Given(k)) == ControlAt(k + 1)
  {
    var p := ControlAt(k).stopPipe;
    assert [s.c.stopped] + p[..4] == ControlAt(k + 1).stopPipe;
  }

  lemma {:induction false} RunsNext(k: nat, s: Regs)
    requires k < 27 && s.c == ControlAt(k) && s.r == RunsAt(k)
    ensures RunsStep(EIGHT, s, Given(k)) == RunsAt(k + 1)
  {
  }

  lemma {:induction false} WordsNext(k: nat, s: Regs)
    requires k < 27 && s.c == ControlAt(k) && s.r == RunsAt(k) && s.w.imm == Seen(k)
    requires s.w.lst == if k == 0 then BLANK else Seen(k - 1)
    ensures var w := WordsStep(EIGHT, s, Given(k)); w.imm == Seen(k + 1) && w.lst == Seen(k) && w.record == RecordAt(k + 1)
    ensures RecordAt(k + 1) <==> Decided(k + 1) == Decided(k) + 1
    ensures RecordAt(k + 1) ==> s.w.lst == Word(Decided(k))
    ensures !RecordAt(k + 1) ==> Decided(k + 1) == Decided(k)
  {
  }

  lemma {:induction false} Onward(k: nat, y: Sys)
    requires k < 27 && At(k, y)
    ensures At(k + 1, SysStep(EIGHT, y, Given(k)))
  {
    var z := SysStep(EIGHT, y, Given(k));
    ControlNext(k, y.s);
    RunsNext(k, y.s);
    WordsNext(k, y.s);
    assert z.s.w == WordsStep(EIGHT, y.s, Given(k)) && z.s.m == MemoryStep(EIGHT, y.s.m, y.s.w, Given(k));
    assert Deciding(y.s, Given(k)) <==> RecordAt(k + 1);
    Growing(k, y.decided, y.s.w.lst);
    PlaceNext(k, y.s, z.s);
    hide ControlStep, RunsStep, WordsStep, MemoryStep, Step, Word, Seen, Value, ControlAt, RunsAt, PlaceAt, Decided, RecordAt;
  }

  lemma {:induction false} Growing(k: nat, ws: seq<Entry>, e: Entry)
    requires ws == seq(Decided(k), j requires 0 <= j => Word(j))
    requires if RecordAt(k + 1) then Decided(k + 1) == Decided(k) + 1 && e == Word(Decided(k)) else Decided(k + 1) == Decided(k)
    ensures (if RecordAt(k + 1) then ws + [e] else ws) == seq(Decided(k + 1), j requires 0 <= j => Word(j))
  {
    hide Word, Decided, RecordAt;
  }

  lemma {:induction false} PlaceNext(k: nat, s: Regs, z: Regs)
    requires k < 27 && s.m.waddr == PlaceAt(k) && s.w.record == RecordAt(k) && |s.m.mem| == 8
    requires z.m == MemoryStep(EIGHT, s.m, s.w, Given(k))
    ensures z.m.waddr == PlaceAt(k + 1)
  {
  }

  function Inputs(k: nat): (ins: seq<In>)
    requires k <= 27
    ensures |ins| == 27 - k && forall j :: 0 <= j < |ins| ==> ins[j] == Given(k + j)
  {
    seq(27 - k, j requires 0 <= j => Given(k + j))
  }

  lemma {:induction false} ToTheEnd(k: nat, y: Sys)
    requires k <= 27 && At(k, y)
    ensures At(27, Run(EIGHT, y, Inputs(k)))
    decreases 27 - k
  {
    hide Given, SysStep;
    if k < 27 {
      Onward(k, y);
      ToTheEnd(k + 1, SysStep(EIGHT, y, Given(k)));
      assert Inputs(k)[0] == Given(k) && Inputs(k)[1..] == Inputs(k + 1);
    }
    hide At;
  }

  function Start(): Sys {
    var r := Runs(0, 0, true, false, true, true);
    Sys(Regs(ControlAt(0), r, Words(BLANK, BLANK, false, BLANK), Memory(0, seq(8, _ => BLANK))), [], [])
  }

  const PAGE := [Entry(true, 3), Entry(false, 15), Entry(false, 16), Entry(false, 17), Entry(false, 18), Entry(false, 19),
                 Entry(false, 20), Entry(false, 21)]

  // Twenty-seven clocks after a reset the scope has been triggered and has stopped, and what the bus reads out begins with
  // a run of four: eleven samples, of which the software counts eight.
  lemma {:induction false} BeginsWithRepeat() returns (t: Sys)
    ensures Initial(EIGHT, Start()) && NoReset(Inputs(0)) && t == Run(EIGHT, Start(), Inputs(0))
    ensures t.s.c.triggered && |t.s.c.stopPipe| == 5 && t.s.c.stopPipe[4]
    ensures |t.s.m.mem| == 8 && ReadOut(t.s.m) == PAGE && !LengthRight(PAGE) && AddressLen(PAGE) == 8 && Spans(PAGE) == 11
  {
    t := Run(EIGHT, Start(), Inputs(0));
    Beginning();
    ToTheEnd(0, Start());
    FilledAtStop(EIGHT, Start(), Inputs(0));
    ReadOutIsLatest(8, t.s.m, t.decided);
    Page(t.decided);
    hide Run, ReadOut, Initial, MemoryInv, Ring, Spans, AddressLen, Decided, Word;
  }

  lemma {:induction false} Beginning()
    ensures Initial(EIGHT, Start()) && At(0, Start()) && NoReset(Inputs(0))
  {
    assert Start().decided == seq(Decided(0), j requires 0 <= j => Word(j));
  }

  lemma {:induction false} Page(ws: seq<Entry>)
    requires ws == seq(Decided(27), j requires 0 <= j => Word(j))
    ensures |ws| >= 8 && ws[|ws| - 8..] == PAGE && !LengthRight(PAGE) && AddressLen(PAGE) == 8 && Spans(PAGE) == 11
  {
    assert ws[13..] == PAGE;
    assert Spans(PAGE[7..]) == 1 && Spans(PAGE[6..]) == 2 && Spans(PAGE[5..]) == 3 && Spans(PAGE[4..]) == 4;
    assert Spans(PAGE[3..]) == 5 && Spans(PAGE[2..]) == 6 && Spans(PAGE[1..]) == 7;
  }
}
