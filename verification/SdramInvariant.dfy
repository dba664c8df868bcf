// A one-step inductive invariant of the SDRAM controller together with its chip.
module SdramInvariant {
  import opened SdramController
  import opened SdramChip
  import opened SdramSystem

  ghost predicate ShiftPattern(b: Bank) { (b.b2 && b.b0 ==> b.b1) && (!b.b2 && b.b1 ==> b.b0) }

  ghost predicate BankInv(c: Ctrl) requires WellFormed(c) {
    (forall k :: 0 <= k < 4 ==> ShiftPattern(c.banks[k])) && (c.startup.mode ==> AllClosed(c))
  }

  // The registered look-ups lag by a clock, yet whatever they allow is right when it is used.
  ghost predicate LookupInv(c: Ctrl) requires WellFormed(c) {
    var b := c.banks[BankOf(c.req.addr)];
    && c.fwd == NextFwd(c.req.addr)
    && (c.bankValid ==> b.row == RowOf(c.req.addr) && b.b1)
    && (b.b2 && b.b1 ==> (c.bankValid <==> b.row == RowOf(c.req.addr)))
  }

  ghost predicate TransferInv(c: Ctrl) requires WellFormed(c) {
    var b := c.banks[BankOf(c.req.addr)];
    && c.tilIdle <= 4
    && (c.pending && !c.stall <==> c.pins.IsTransfer())
    && (c.nxtDmod <==> c.pins.IsWrite())
    && (c.nxtDmod ==> c.pins.dmod && c.tilIdle == 1)
    && (c.pins.IsTransfer() ==>
          && c.pins.bs == BankOf(c.req.addr) && c.pins.addr == ColOf(c.req.addr)
          && c.pins.weN == !c.req.we && b.Open() && b.row == RowOf(c.req.addr))
  }

  ghost predicate RefreshInv(c: Ctrl) requires WellFormed(c) {
    && c.refreshClk <= REFRESH_PERIOD && c.inRefreshClk <= 6
    && (c.needRefresh ==> c.refreshClk == 0)
    && (c.inRefreshClk > 0 ==> c.inRefresh)
    && (c.inRefresh ==> c.refreshClk == 619 + c.inRefreshClk)
    && (c.inRefresh || c.pins.IsRefresh() ==> AllClosed(c) && c.tilIdle == 0)
    && (c.pins.IsRefresh() && !c.inRefresh && !c.needRefresh ==> !c.pending)
  }

  ghost predicate StartupInv(c: Ctrl, chip: Chip) requires WellFormed(c) && ChipFormed(chip) {
    var m := c.startup;
    if !m.mode then chip.power == POWERED_UP && m.phase.SetMode? && m.clocks == 0 && m.zero else
    && c.stall && !c.pending && c.tilIdle == 0 && !c.nxtDmod && !c.pins.IsTransfer()
    && (forall k :: 0 <= k < 6 ==> !c.ack[k])
    && !c.pins.dmod && c.pins.dqm == Enable(true, true)
    && (forall k :: 0 <= k < 4 ==> chip.banks[k].Closed())
    && match m.phase
       case PowerUp =>
         && (m.idle > 0 ==> m.hold) && m.idle <= 20500
         && m.rasN && m.casN && m.weN && c.pins.rasN && c.pins.casN && c.pins.weN
         && (if m.idle > 500 then chip.power == 0 && chip.wait == m.idle - 500 else chip.power == 1)
       case InitialRefresh =>
         && m.clocks <= 10 && (m.zero <==> m.clocks == 0) && !m.hold && m.idle == 0
         && !m.csN && !m.rasN
         && (if m.clocks == 10
             then m.casN && !m.weN && A10(m.addr) && chip.power == 1 && c.pins.rasN && c.pins.casN && c.pins.weN
             else !m.casN && m.weN)
         && (if m.clocks == 9 then c.pins.IsPrecharge() else m.clocks < 9 ==> c.pins.IsRefresh())
         && (2 <= m.clocks <= 9 ==> chip.power == 2 && chip.wait == m.clocks - 1)
         && (m.clocks < 2 ==> chip.power == 3)
       case SetMode =>
         && m.clocks <= 2 && (m.zero <==> m.clocks == 0)
         && !m.rasN && !m.casN && !m.weN
         && (if m.clocks == 2 then !m.csN && m.addr == MODE_WORD && chip.power == 3 && c.pins.IsRefresh() else m.csN)
         && (m.clocks == 1 ==> c.pins.IsModeSet() && chip.power == 4 && chip.wait == 2)
         && (m.clocks == 0 ==> c.pins.csN && chip.power == 4 && chip.wait == 1)
  }

  ghost predicate CtrlInv(c: Ctrl) {
    WellFormed(c) && BankInv(c) && LookupInv(c) && TransferInv(c) && RefreshInv(c)
  }

  // Clocks until a drain that must not be interrupted puts its refresh command on the pins.
  function DrainLeft(c: Ctrl): nat requires WellFormed(c) {
    var wait := if c.tilIdle > 0 then c.tilIdle else if c.nxtDmod || AnyOpening(c) then 1 else 0;
    wait + (if AnyActive(c) then 4
            else if exists k :: 0 <= k < 4 && c.banks[k].b1 then 3
            else if exists k :: 0 <= k < 4 && c.banks[k].b0 then 2 else 1)
  }

  // An upper bound on the clocks until the next refresh command is on the pins.
  function Deadline(c: Ctrl): nat requires WellFormed(c) {
    if c.pins.IsRefresh() then REFRESH_PERIOD + 10
    else if c.needRefresh then DrainLeft(c)
    else c.refreshClk + 9
  }

  // One chip bank x, open for MAX_OPEN_TIME - time clocks, against the controller's bank y and a bound d on the clocks to the next refresh.
  ghost predicate Tracks(x: Bank, y: Bank, time: int, d: int) {
    && x.b2 == y.b2 && x.b1 == y.b1 && x.b0 == y.b0
    && (x.Closed() || (x.row == y.row && time >= 9000 + d))
  }

  // The chip's banks are the controller's, and its pipeline is quiet whenever the controller drives.
  ghost predicate ChipInv(c: Ctrl, chip: Chip) requires WellFormed(c) && ChipFormed(chip) {
    && chip.ok
    && (forall k :: 0 <= k < 4 ==>
          Tracks(chip.banks[k], c.banks[k], chip.openTime[k], Deadline(c)))
    && chip.beat2 == (if c.nxtDmod then Beat(2 * c.req.addr + 1) else NoBeat)
    && (forall k :: 0 <= k < 4 && chip.q[k].Driven? ==> k < c.tilIdle)
    && (c.pins.dmod ==> forall k :: 0 <= k < 4 ==> chip.q[k].Quiet?)
  }

  // Where the two beats of a read stand when its acknowledgment is d clocks away.
  ghost predicate Underway(s: Sys, w: Word, d: int) requires Formed(s) {
    && (d == 5 ==> s.chip.q[2] == Driven(w.hi) && s.chip.q[3] == Driven(w.lo))
    && (d == 4 ==> s.chip.q[1] == Driven(w.hi) && s.chip.q[2] == Driven(w.lo))
    && (d == 3 ==> s.chip.q[0] == Driven(w.hi) && s.chip.q[1] == Driven(w.lo))
    && (d == 2 ==> s.ext == w.hi && s.chip.q[0] == Driven(w.lo))
    && (d == 1 ==> s.ram == w.hi && s.ext == w.lo)
    && (d == 0 ==> s.ctrl.last == w.hi && s.ram == w.lo)
  }

  // Bit k of the barrel, from bit at upward, is set exactly when the next transfer is due in k clocks.
  ghost predicate AckMatches(ops: seq<Op>, ack: seq<bool>, at: nat)
    requires |ack| == 6 && at <= 6
    decreases 6 - at
  {
    if at == 6 then ops == []
    else if ack[at] then |ops| > 0 && Due(ops[0]) == at && AckMatches(ops[1..], ack, at + 1)
    else AckMatches(ops, ack, at + 1)
  }

  // Every transfer in the queue is due within the time the controller still waits, and a read has its
  // beats in place.
  ghost predicate InFlight(s: Sys, op: Op) requires Formed(s) {
    && Due(op) <= s.ctrl.tilIdle + 1
    && (Due(op) == 5 ==> s.ctrl.pins.IsRead())
    && (!op.req.we ==> Underway(s, op.promise, Due(op)))
  }

  ghost predicate QueueInv(s: Sys) requires Formed(s) {
    && s.board.waiting == (if s.ctrl.pending && !s.ctrl.pins.IsTransfer() then [s.ctrl.req] else [])
    && AckMatches(s.board.issued, s.ctrl.ack, 0)
    && (forall i :: 0 <= i < |s.board.issued| ==> InFlight(s, s.board.issued[i]))
  }

  // The word at a, once the second beat of a write that is on its way has landed.
  ghost function Settled(m: map<nat, Half>, second: bool, r: Request, a: Addr): Word {
    var w := ChipWord(m, a);
    if second && a == r.addr then Word(w.hi, MergeHalf(w.lo, r.data.lo, r.selLo)) else w
  }

  ghost predicate MemoryInv(s: Sys) {
    forall a: Addr :: ReadWord(s.board.mem, a) == Settled(s.chip.mem, s.ctrl.nxtDmod, s.ctrl.req, a)
  }

  ghost predicate Inv(s: Sys) {
    && Formed(s) && CtrlInv(s.ctrl) && StartupInv(s.ctrl, s.chip) && ChipInv(s.ctrl, s.chip)
    && QueueInv(s) && MemoryInv(s)
  }

  lemma {:induction false} InvInitially(s: Sys)
    requires InitialSys(s)
    ensures Inv(s)
  {
    MatchEmpty(s.ctrl.ack, 0);
  }

  // What the state guarantees about a command that the controller chooses.
  ghost predicate Permitted(s: Ctrl, cyc: bool, c: Command) requires WellFormed(s) {
    var r := s.banks[BankOf(s.req.addr)];
    && (s.startup.mode || s.nxtDmod ==> c == Nop)
    && (c.Activate? || c.Precharge? || c.Read? || c.Write? ==> cyc && !s.needRefresh && !s.inRefresh && s.pending)
    && match c
       case Nop => true
       case PrechargeAll => s.tilIdle == 0 && !AnyOpening(s) && AnyActive(s)
       case AutoRefresh => s.tilIdle == 0 && AllClosed(s) && !s.inRefresh && (cyc ==> s.needRefresh)
       case Activate(k, row) =>
         k < 4 && s.banks[k].Closed() && (k == BankOf(s.req.addr) ==> row == RowOf(s.req.addr))
       case Precharge(k) => k < 4 && s.banks[k].b2 && s.banks[k].b1 && (k == BankOf(s.req.addr) ==> !s.bankValid)
       case Read => Waiting(s) && !s.req.we && r.b2 && s.bankValid && s.tilIdle < 4
       case Write => Waiting(s) && s.req.we && r.b2 && s.bankValid && s.tilIdle == 0
  }

  lemma {:induction false} DecidePermitted(s: Ctrl, cyc: bool)
    requires CtrlInv(s)
    ensures Permitted(s, cyc, Decide(s, cyc))
  {
    if s.req.addr % 256 >= 0xf0 { ForwardElsewhere(s.req.addr); }
  }

  // A forward command goes to another bank than the one being served.
  lemma {:induction false} ForwardElsewhere(a: Addr)
    requires a % 256 >= 0xf0
    ensures FwdBank(NextFwd(a)) != BankOf(a)
  {
  }

  lemma {:induction false} BankStep(s: Ctrl, c: Command, b: Bus, ram: Half)
    requires CtrlInv(s) && Permitted(s, b.cyc, c)
    ensures BankInv(StepWith(s, c, b, ram))
  {
  }

  // One bank over one clock: b1 and b0 follow, and a row is loaded only into a closed bank.
  lemma {:induction false} BankMoves(s: Ctrl, c: Command, cyc: bool, k: nat)
    requires CtrlInv(s) && Permitted(s, cyc, c) && k < 4
    ensures var x, y := s.banks[k], NextBanks(s, c)[k];
            && y.b1 == x.b2 && y.b0 == x.b1
            && (x.b2 || x.b1 || x.b0 ==> y.row == x.row && (y.b2 ==> x.b2))
  {
  }

  lemma {:induction false} LookupStep(s: Ctrl, c: Command, b: Bus, ram: Half)
    requires CtrlInv(s) && Permitted(s, b.cyc, c)
    ensures LookupInv(StepWith(s, c, b, ram))
  {
    var t := StepWith(s, c, b, ram);
    BankMoves(s, c, b.cyc, BankOf(t.req.addr));
  }

  lemma {:induction false} TransferStep(s: Ctrl, chip: Chip, c: Command, b: Bus, ram: Half)
    requires CtrlInv(s) && Permitted(s, b.cyc, c) && ChipFormed(chip) && StartupInv(s, chip)
    ensures TransferInv(StepWith(s, c, b, ram))
  {
  }

  lemma {:induction false} RefreshStep(s: Ctrl, chip: Chip, c: Command, b: Bus, ram: Half)
    requires CtrlInv(s) && Permitted(s, b.cyc, c) && ChipFormed(chip) && StartupInv(s, chip)
    ensures RefreshInv(StepWith(s, c, b, ram))
  {
  }

  lemma {:induction false} DeadlineStep(s: Ctrl, b: Bus, ram: Half)
    requires CtrlInv(s) && !s.startup.mode
    ensures var t := Step(s, b, ram); t.pins.IsRefresh() || Deadline(t) < Deadline(s)
  {
    DecidePermitted(s, b.cyc);
    forall k | 0 <= k < 4 { BankMoves(s, Decide(s, b.cyc), b.cyc, k); }
  }

  lemma {:induction false} StartupStep(s: Ctrl, chip: Chip, c: Command, b: Bus, ram: Half)
    requires CtrlInv(s) && Permitted(s, b.cyc, c) && ChipFormed(chip) && StartupInv(s, chip) && ChipInv(s, chip)
    ensures var t := StepWith(s, c, b, ram); StartupInv(t, Consume(chip, t.pins))
  {
    if s.startup.mode { StartingStep(s, chip, c, b, ram); } else { StartedStep(s, chip, c, b, ram); }
    hide StartupInv, StepWith, CtrlInv, ChipInv, Consume, Permitted;
  }

  lemma {:induction false} StartingStep(s: Ctrl, chip: Chip, c: Command, b: Bus, ram: Half)
    requires CtrlInv(s) && Permitted(s, b.cyc, c) && ChipFormed(chip) && StartupInv(s, chip) && s.startup.mode
    ensures var t := StepWith(s, c, b, ram); StartupInv(t, Consume(chip, t.pins))
  {
    hide NextBanks, Legal, Put, Obey, OpenTime;
  }

  lemma {:induction false} StartedStep(s: Ctrl, chip: Chip, c: Command, b: Bus, ram: Half)
    requires CtrlInv(s) && Permitted(s, b.cyc, c) && ChipFormed(chip) && StartupInv(s, chip) && !s.startup.mode
    ensures var t := StepWith(s, c, b, ram); StartupInv(t, Consume(chip, t.pins))
  {
    hide NextBanks, Legal, Put, Obey, OpenTime;
  }

  lemma {:induction false} ChipBankStep(s: Ctrl, c: Command, b: Bus, x: Bank, time: int, d: int, e: int, k: nat)
    requires CtrlInv(s) && Permitted(s, b.cyc, c) && k < 4 && !s.startup.mode
    requires Tracks(x, s.banks[k], time, d) && e <= REFRESH_PERIOD + 10 && (c == AutoRefresh || e < d)
    ensures var p := CommandPins(s, c, b.cyc);
            Tracks(Obey(k, Shift(x), p), NextBanks(s, c)[k], OpenTime(k, Shift(x), time, p), e)
  {
    BankMoves(s, c, b.cyc, k);
    match c case Nop => case PrechargeAll => case AutoRefresh => case Activate(j, r) =>
    case Precharge(j) => case Read => case Write =>
  }

  lemma {:induction false} ChipLegal(s: Ctrl, chip: Chip, c: Command, b: Bus)
    requires CtrlInv(s) && Permitted(s, b.cyc, c) && ChipFormed(chip) && StartupInv(s, chip) && ChipInv(s, chip)
    requires !s.startup.mode
    ensures Legal([Shift(chip.banks[0]), Shift(chip.banks[1]), Shift(chip.banks[2]), Shift(chip.banks[3])],
                  chip.openTime, chip.q[1], CommandPins(s, c, b.cyc))
  {
  }

  // Rows, bank and column form, in the simulator's own arithmetic, twice the bus address.
  lemma {:induction false} LinearIsTwice(a: Addr)
    ensures Linear(RowOf(a), BankOf(a), ColOf(a)) == 2 * a
  {
  }

  lemma {:induction false} ChipPipeStep(s: Ctrl, chip: Chip, c: Command, b: Bus, ram: Half)
    requires CtrlInv(s) && Permitted(s, b.cyc, c) && ChipFormed(chip) && StartupInv(s, chip) && ChipInv(s, chip)
    requires !s.startup.mode
    ensures var t := StepWith(s, c, b, ram);
            var d := Consume(chip, t.pins);
            && d.beat2 == (if t.nxtDmod then Beat(2 * t.req.addr + 1) else NoBeat)
            && (forall k :: 0 <= k < 4 && d.q[k].Driven? ==> k < t.tilIdle)
            && (t.pins.dmod ==> forall k :: 0 <= k < 4 ==> d.q[k].Quiet?)
  {
    SecondBeat(s, chip, c, b, ram);
    DrivenWhile(s, chip, c, b, ram);
    NeverBoth(s, chip, c, b, ram);
    hide *;
  }

  // The second beat of a write goes to the half after the first.
  lemma {:induction false} SecondBeat(s: Ctrl, chip: Chip, c: Command, b: Bus, ram: Half)
    requires CtrlInv(s) && Permitted(s, b.cyc, c) && ChipFormed(chip) && StartupInv(s, chip) && ChipInv(s, chip)
    requires !s.startup.mode
    ensures var t := StepWith(s, c, b, ram);
            Consume(chip, t.pins).beat2 == if t.nxtDmod then Beat(2 * t.req.addr + 1) else NoBeat
  {
    LinearIsTwice(s.req.addr);
    BankMoves(s, c, b.cyc, BankOf(s.req.addr));
    hide Put, At, Legal, Obey, OpenTime;
  }

  // The chip drives the data pins only while the controller counts.
  lemma {:induction false} DrivenWhile(s: Ctrl, chip: Chip, c: Command, b: Bus, ram: Half)
    requires CtrlInv(s) && Permitted(s, b.cyc, c) && ChipFormed(chip) && StartupInv(s, chip) && ChipInv(s, chip)
    requires !s.startup.mode
    ensures var t := StepWith(s, c, b, ram);
            var d := Consume(chip, t.pins);
            |d.q| == 4 && forall k :: 0 <= k < 4 && d.q[k].Driven? ==> k < t.tilIdle
  {
    hide Put, At, Legal, Obey, OpenTime, Linear, Shift;
  }

  lemma {:induction false} NeverBoth(s: Ctrl, chip: Chip, c: Command, b: Bus, ram: Half)
    requires CtrlInv(s) && Permitted(s, b.cyc, c) && ChipFormed(chip) && StartupInv(s, chip) && ChipInv(s, chip)
    requires !s.startup.mode
    ensures var t := StepWith(s, c, b, ram);
            var d := Consume(chip, t.pins);
            |d.q| == 4 && (t.pins.dmod ==> forall k :: 0 <= k < 4 ==> d.q[k].Quiet?)
  {
    hide Put, At, Legal, Obey, OpenTime, Linear, Shift;
  }

  lemma {:induction false} DeadlineBound(c: Ctrl)
    requires WellFormed(c) && c.tilIdle <= 4 && c.refreshClk <= REFRESH_PERIOD
    ensures Deadline(c) <= REFRESH_PERIOD + 10
  {
  }

  lemma {:induction false} ChipBanksStep(s: Ctrl, chip: Chip, c: Command, b: Bus, d: int, e: int)
    requires CtrlInv(s) && Permitted(s, b.cyc, c) && ChipFormed(chip) && StartupInv(s, chip) && !s.startup.mode
    requires forall k :: 0 <= k < 4 ==> Tracks(chip.banks[k], s.banks[k], chip.openTime[k], d)
    requires e <= REFRESH_PERIOD + 10 && (c == AutoRefresh || e < d)
    ensures var chip' := Consume(chip, CommandPins(s, c, b.cyc));
            forall k :: 0 <= k < 4 ==> Tracks(chip'.banks[k], NextBanks(s, c)[k], chip'.openTime[k], e)
  {
    var p := CommandPins(s, c, b.cyc);
    var chip' := Consume(chip, p);
    forall k | 0 <= k < 4
      ensures chip'.banks[k] == Obey(k, Shift(chip.banks[k]), p)
              && chip'.openTime[k] == OpenTime(k, Shift(chip.banks[k]), chip.openTime[k], p)
    {
    }
    hide Consume, CommandPins, NextBanks, Permitted, StartupInv, CtrlInv, Obey, OpenTime, Shift, Tracks;
    forall k | 0 <= k < 4 ensures Tracks(chip'.banks[k], NextBanks(s, c)[k], chip'.openTime[k], e) {
      ChipBankStep(s, c, b, chip.banks[k], chip.openTime[k], d, e, k);
    }
  }

  lemma {:induction false} ChipStep(s: Ctrl, chip: Chip, c: Command, b: Bus, ram: Half)
    requires CtrlInv(s) && Permitted(s, b.cyc, c) && ChipFormed(chip) && StartupInv(s, chip) && ChipInv(s, chip)
    requires !s.startup.mode
    requires var t := StepWith(s, c, b, ram); t.pins.IsRefresh() || Deadline(t) < Deadline(s)
    ensures var t := StepWith(s, c, b, ram); ChipInv(t, Consume(chip, t.pins))
  {
    var t := StepWith(s, c, b, ram);
    DeadlineBound(t) by { assert t.tilIdle == NextTilIdle(s, c); }
    ChipBanksStep(s, chip, c, b, Deadline(s), Deadline(t));
    ChipLegal(s, chip, c, b);
    ChipPipeStep(s, chip, c, b, ram);
  }

  lemma {:induction false} ChipStartupStep(s: Ctrl, chip: Chip, c: Command, b: Bus, ram: Half)
    requires CtrlInv(s) && Permitted(s, b.cyc, c) && ChipFormed(chip) && StartupInv(s, chip) && ChipInv(s, chip)
    requires s.startup.mode
    ensures var t := StepWith(s, c, b, ram); ChipInv(t, Consume(chip, t.pins))
  {
  }

  lemma {:induction false} MatchBounds(ops: seq<Op>, ack: seq<bool>, at: nat)
    requires |ack| == 6 && at <= 6 && AckMatches(ops, ack, at)
    ensures forall i :: 0 <= i < |ops| ==> at <= Due(ops[i]) < 6
    ensures forall i, j :: 0 <= i < j < |ops| ==> Due(ops[i]) < Due(ops[j])
    decreases 6 - at
  {
    if at < 6 {
      if ack[at] {
        MatchBounds(ops[1..], ack, at + 1);
        assert ops == [ops[0]] + ops[1..];
      } else {
        MatchBounds(ops, ack, at + 1);
      }
    }
  }

  // The transfers still to be acknowledged after this clock, each a clock nearer to it.
  function Remaining(s: Sys, cyc: bool): seq<Op> requires Formed(s) {
    if !cyc then [] else if s.ctrl.ack[0] && |s.board.issued| > 0 then s.board.issued[1..] else s.board.issued
  }

  lemma {:induction false} BoardStep(s: Sys, d: Command, i: Input)
    requires Inv(s) && Permitted(s.ctrl, i.bus.cyc, d)
    ensures var t := SysStepWith(s, d, i);
            var ops := Aged(Remaining(s, i.bus.cyc));
            && t.ctrl.ack == NextAck(s.ctrl, d, i.bus.cyc)
            && (t.ctrl.pins.IsTransfer() <==> d.Read? || d.Write?)
            && (d.Read? || d.Write? ==>
                  && s.board.waiting == [s.ctrl.req] && t.board.waiting == []
                  && t.ctrl.pending && t.ctrl.req == s.ctrl.req
                  && t.board.issued == ops + [Op(s.ctrl.req, ReadWord(s.board.mem, s.ctrl.req.addr), 0)]
                  && t.board.mem == if s.ctrl.req.we then Apply(s.board.mem, s.ctrl.req) else s.board.mem)
            && (!d.Read? && !d.Write? ==>
                  && t.board.waiting == (if t.ctrl.pending then [t.ctrl.req] else [])
                  && t.board.issued == ops && t.board.mem == s.board.mem)
  {
  }

  lemma {:induction false} MatchShift(ops: seq<Op>, ack: seq<bool>, next: seq<bool>, at: nat)
    requires |ack| == |next| == 6 && 0 < at <= 6 && AckMatches(ops, ack, at)
    requires !next[5] && forall k :: at <= k < 6 ==> next[k - 1] == ack[k]
    ensures AckMatches(Aged(ops), next, at - 1)
    decreases 6 - at
  {
    if at < 6 {
      if ack[at] {
        MatchShift(ops[1..], ack, next, at + 1);
        assert Aged(ops)[1..] == Aged(ops[1..]);
      } else {
        MatchShift(ops, ack, next, at + 1);
      }
    } else {
      assert AckMatches([], next, 6);
    }
  }

  lemma {:induction false} MatchInsert(ops: seq<Op>, ack: seq<bool>, op: Op, at: nat)
    requires |ack| == 6 && at <= 6 && AckMatches(ops, ack, at)
    requires at <= Due(op) < 6 && forall k :: 0 <= k < |ops| ==> Due(ops[k]) < Due(op)
    ensures AckMatches(ops + [op], ack[Due(op) := true], at)
    decreases 6 - at
  {
    var d := Due(op);
    if at < d {
      if ack[at] {
        MatchInsert(ops[1..], ack, op, at + 1);
        assert (ops + [op])[1..] == ops[1..] + [op];
      } else {
        MatchInsert(ops, ack, op, at + 1);
      }
    } else {
      var first := if ops == [] then op else ops[0];
      MatchBounds(ops, ack, at);
      assert ops == [] by { assert ops != [] ==> Due(first) < at; }
      MatchNone(ack[d := true], ack, at + 1);
      assert (ops + [op])[1..] == [];
    }
  }

  lemma {:induction false} MatchNone(next: seq<bool>, ack: seq<bool>, at: nat)
    requires |ack| == |next| == 6 && at <= 6 && AckMatches([], ack, at)
    requires forall k :: at <= k < 6 ==> next[k] == ack[k]
    ensures AckMatches([], next, at)
    decreases 6 - at
  {
    if at < 6 { MatchNone(next, ack, at + 1); }
  }

  // The queue of transfers and the barrel of acknowledgments stay matched, whichever command is given.
  lemma {:induction false} QueueNext(ops: seq<Op>, ack: seq<bool>, til: nat, cyc: bool, d: Command, op: Op, next: seq<bool>)
    requires |ack| == |next| == 6 && AckMatches(ops, ack, 0)
    requires forall k :: 0 <= k < |ops| ==> Due(ops[k]) <= til + 1
    requires d.Read? ==> cyc && til < 4 && Due(op) == 5
    requires d.Write? ==> cyc && til == 0 && Due(op) == 1
    requires next == if !cyc then [false, false, false, false, false, false]
                     else [ack[1], d.Write? || ack[2], ack[3], ack[4], ack[5], d.Read?]
    ensures var rem := Aged(if !cyc then [] else if ack[0] && |ops| > 0 then ops[1..] else ops);
            var all := if d.Read? || d.Write? then rem + [op] else rem;
            && AckMatches(all, next, 0)
            && (forall k :: 0 <= k < |rem| ==> 0 <= Due(rem[k]) <= til)
  {
    if cyc {
      var rem := if ack[0] && |ops| > 0 then ops[1..] else ops;
      var shifted := [ack[1], ack[2], ack[3], ack[4], ack[5], false];
      QueueShift(ops, ack, til);
      hide AckMatches, Aged;
      if d.Read? || d.Write? {
        MatchInsert(Aged(rem), shifted, op, 0);
        assert next == shifted[Due(op) := true];
      } else {
        assert next == shifted;
      }
    } else {
      MatchEmpty(next, 0);
    }
  }

  // What is left of the queue moves one place down with the barrel.
  lemma {:induction false} QueueShift(ops: seq<Op>, ack: seq<bool>, til: nat)
    requires |ack| == 6 && AckMatches(ops, ack, 0) && forall k :: 0 <= k < |ops| ==> Due(ops[k]) <= til + 1
    ensures var rem := Aged(if ack[0] && |ops| > 0 then ops[1..] else ops);
            && AckMatches(rem, [ack[1], ack[2], ack[3], ack[4], ack[5], false], 0)
            && forall k :: 0 <= k < |rem| ==> 0 <= Due(rem[k]) <= til
  {
    MatchBounds(ops, ack, 0);
    MatchShift(if ack[0] && |ops| > 0 then ops[1..] else ops, ack, [ack[1], ack[2], ack[3], ack[4], ack[5], false], 1);
  }

  lemma {:induction false} AckStep(s: Sys, d: Command, i: Input)
    requires Inv(s) && Permitted(s.ctrl, i.bus.cyc, d)
    ensures NextAck(s.ctrl, d, i.bus.cyc)
         == var a := s.ctrl.ack;
            if !i.bus.cyc then [false, false, false, false, false, false]
            else [a[1], d.Write? || a[2], a[3], a[4], a[5], d.Read?]
  {
  }

  lemma {:induction false} MatchEmpty(ack: seq<bool>, at: nat)
    requires |ack| == 6 && at <= 6 && forall k :: at <= k < 6 ==> !ack[k]
    ensures AckMatches([], ack, at)
    decreases 6 - at
  {
    if at < 6 { MatchEmpty(ack, at + 1); }
  }

  // The beats of a read move one place along on every clock, through the chip and then the two latches.
  lemma {:induction false} PipeStep(s: Sys, d: Command, i: Input, w: Word, due: int)
    requires Formed(s) && CtrlInv(s.ctrl) && StartupInv(s.ctrl, s.chip) && ChipInv(s.ctrl, s.chip)
    requires Permitted(s.ctrl, i.bus.cyc, d) && !s.ctrl.startup.mode
    requires 1 <= due <= s.ctrl.tilIdle + 1 && Underway(s, w, due) && (due == 5 ==> s.ctrl.pins.IsRead())
    ensures Underway(SysStepWith(s, d, i), w, due - 1)
  {
    var t := SysStepWith(s, d, i);
    assert t.ctrl.pins.dqm == NextDqm(s.ctrl);
    assert t.ctrl.pins.IsRead() <==> d.Read?;
  }

  lemma {:induction false} TransferTarget(s: Ctrl, chip: Chip, d: Command, b: Bus)
    requires CtrlInv(s) && Permitted(s, b.cyc, d) && (d.Read? || d.Write?)
    requires ChipFormed(chip) && StartupInv(s, chip) && ChipInv(s, chip)
    ensures var p := CommandPins(s, d, b.cyc);
            p.bs < 4 && Linear(Shift(chip.banks[p.bs]).row, p.bs, p.addr) == 2 * s.req.addr
  {
    LinearIsTwice(s.req.addr);
    var k := BankOf(s.req.addr);
    assert Tracks(chip.banks[k], s.banks[k], chip.openTime[k], Deadline(s));
  }

  function Mask(e: Enable): Enable { Enable(!e.hi, !e.lo) }

  // The chip's memory after a clock: the first beat of a write, the second beat of the one before, or neither.
  lemma {:induction false} ChipMemory(s: Ctrl, chip: Chip, d: Command, b: Bus)
    requires CtrlInv(s) && Permitted(s, b.cyc, d) && !s.startup.mode
    requires ChipFormed(chip) && StartupInv(s, chip) && ChipInv(s, chip)
    ensures var r := s.req;
            Consume(chip, CommandPins(s, d, b.cyc)).mem ==
            if s.nxtDmod then Put(chip.mem, 2 * r.addr + 1, r.data.lo, Mask(r.selLo))
            else if d.Write? then Put(chip.mem, 2 * r.addr, r.data.hi, Mask(r.selHi))
            else chip.mem
  {
    var p := CommandPins(s, d, b.cyc);
    assert chip.power == POWERED_UP;
    assert p.IsWrite() <==> d.Write?;
    assert p.dqm == NextDqm(s) && p.data == if s.nxtDmod then s.req.data.lo else s.req.data.hi;
    if d.Write? { TransferTarget(s, chip, d, b); }
    ChipMemoryIs(chip, p);
    hide Consume, CommandPins, Permitted, CtrlInv, StartupInv, Linear, Shift, Put;
  }

  lemma {:induction false} ChipMemoryIs(chip: Chip, p: Pins)
    requires ChipFormed(chip) && chip.power == POWERED_UP && (p.IsWrite() ==> p.bs < 4)
    ensures var m1 := if chip.beat2.Beat? then Put(chip.mem, chip.beat2.at, p.data, p.dqm) else chip.mem;
            Consume(chip, p).mem ==
            if p.IsWrite() then Put(m1, Linear(Shift(chip.banks[p.bs]).row, p.bs, p.addr), p.data, p.dqm) else m1
  {
    hide Put, Linear, Legal, Obey, OpenTime;
  }

  lemma {:induction false} ReadStarts(s: Ctrl, chip: Chip, b: Bus)
    requires CtrlInv(s) && Permitted(s, b.cyc, Read) && !s.startup.mode
    requires ChipFormed(chip) && StartupInv(s, chip) && ChipInv(s, chip)
    ensures var w := ChipWord(chip.mem, s.req.addr);
            var q := Consume(chip, CommandPins(s, Read, b.cyc)).q;
            q[2] == Driven(w.hi) && q[3] == Driven(w.lo)
  {
    TransferTarget(s, chip, Read, b);
    assert NextDqm(s) == Enable(false, false);
  }

  lemma {:induction false} ReadPromise(s: Sys, b: Bus)
    requires Inv(s) && Permitted(s.ctrl, b.cyc, Read)
    ensures ReadWord(s.board.mem, s.ctrl.req.addr) == ChipWord(s.chip.mem, s.ctrl.req.addr)
  {
    var a := s.ctrl.req.addr;
    assert ReadWord(s.board.mem, a) == Settled(s.chip.mem, s.ctrl.nxtDmod, s.ctrl.req, a);
  }

  // An entry that was not acknowledged on this clock is in flight on the next.
  lemma {:induction false} FlightStep(s: Sys, d: Command, i: Input, op: Op)
    requires Formed(s) && CtrlInv(s.ctrl) && StartupInv(s.ctrl, s.chip) && ChipInv(s.ctrl, s.chip)
    requires Permitted(s.ctrl, i.bus.cyc, d) && !s.ctrl.startup.mode
    requires InFlight(s, op) && Due(op) >= 1
    ensures InFlight(SysStepWith(s, d, i), op.(age := op.age + 1))
  {
    if !op.req.we { PipeStep(s, d, i, op.promise, Due(op)); }
    assert SysStepWith(s, d, i).ctrl.tilIdle == NextTilIdle(s.ctrl, d);
  }

  lemma {:induction false} FlightStarts(s: Sys, d: Command, i: Input)
    requires Inv(s) && Permitted(s.ctrl, i.bus.cyc, d) && (d.Read? || d.Write?)
    ensures InFlight(SysStepWith(s, d, i), Op(s.ctrl.req, ReadWord(s.board.mem, s.ctrl.req.addr), 0))
  {
    if d.Read? { ReadStarts(s.ctrl, s.chip, i.bus); ReadPromise(s, i.bus); }
  }

  lemma {:induction false} FlightsStep(s: Sys, d: Command, i: Input)
    requires Inv(s) && Permitted(s.ctrl, i.bus.cyc, d) && !s.ctrl.startup.mode
    ensures var t, ops := SysStepWith(s, d, i), Aged(Remaining(s, i.bus.cyc));
            forall k :: 0 <= k < |ops| ==> InFlight(t, ops[k])
  {
    hide SysStepWith;
    var t, ops, rem := SysStepWith(s, d, i), s.board.issued, Remaining(s, i.bus.cyc);
    assert CtrlInv(s.ctrl) && StartupInv(s.ctrl, s.chip) && ChipInv(s.ctrl, s.chip) && QueueInv(s);
    hide Inv, CtrlInv, StartupInv, ChipInv, Permitted;
    MatchBounds(ops, s.ctrl.ack, 0);
    forall k | 0 <= k < |rem| ensures InFlight(t, Aged(rem)[k]) {
      var j := if s.ctrl.ack[0] then k + 1 else k;
      assert rem[k] == ops[j] && InFlight(s, ops[j]) && Due(ops[j]) >= 1;
      hide InFlight;
      FlightStep(s, d, i, rem[k]);
    }
  }

  lemma {:induction false} QueueStep(s: Sys, t: Sys, d: Command, i: Input)
    requires Inv(s) && Permitted(s.ctrl, i.bus.cyc, d) && !s.ctrl.startup.mode && t == SysStepWith(s, d, i)
    ensures QueueInv(t)
  {
    hide SysStepWith;
    QueueFacts(s, d, i);
    hide Inv, Permitted, NextAck, Underway;
    var ops := Aged(Remaining(s, i.bus.cyc));
    var op := Op(s.ctrl.req, ReadWord(s.board.mem, s.ctrl.req.addr), 0);
    BoardStep(s, d, i);
    AckStep(s, d, i);
    QueueNext(s.board.issued, s.ctrl.ack, s.ctrl.tilIdle, i.bus.cyc, d, op, t.ctrl.ack);
    FlightsStep(s, d, i);
    if d.Read? || d.Write? { FlightStarts(s, d, i); }
    hide InFlight, Aged, ReadWord, Remaining;
  }

  lemma {:induction false} QueueFacts(s: Sys, d: Command, i: Input)
    requires Inv(s) && Permitted(s.ctrl, i.bus.cyc, d) && !s.ctrl.startup.mode
    ensures AckMatches(s.board.issued, s.ctrl.ack, 0)
    ensures forall k :: 0 <= k < |s.board.issued| ==> InFlight(s, s.board.issued[k])
    ensures (d.Read? ==> i.bus.cyc && s.ctrl.tilIdle < 4 && !s.ctrl.req.we)
            && (d.Write? ==> i.bus.cyc && s.ctrl.tilIdle == 0 && s.ctrl.req.we)
  {
    hide InFlight;
  }

  lemma {:induction false} MemoryAt(m: map<nat, Half>, b: map<nat, Word>, second: bool, write: bool, r: Request, a: Addr)
    requires ReadWord(b, a) == Settled(m, second, r, a) && !(second && write)
    ensures var next := if second then Put(m, 2 * r.addr + 1, r.data.lo, Mask(r.selLo))
                        else if write then Put(m, 2 * r.addr, r.data.hi, Mask(r.selHi)) else m;
            ReadWord(if write then Apply(b, r) else b, a) == Settled(next, write, r, a)
  {
  }

  lemma {:induction false} SystemParts(s: Sys, d: Command, i: Input)
    requires Formed(s)
    ensures var t := SysStepWith(s, d, i);
            && t.ctrl == StepWith(s.ctrl, d, i.bus, s.ram)
            && t.ctrl.pins == CommandPins(s.ctrl, d, i.bus.cyc)
            && t.chip == Consume(s.chip, CommandPins(s.ctrl, d, i.bus.cyc))
            && t.ctrl.nxtDmod == d.Write?
  {
  }

  lemma {:induction false} MemoryStep(s: Sys, t: Sys, write: bool)
    requires MemoryInv(s) && t.ctrl.nxtDmod == write && !(s.ctrl.nxtDmod && write)
    requires write ==> t.ctrl.req == s.ctrl.req
    requires t.board.mem == if write then Apply(s.board.mem, s.ctrl.req) else s.board.mem
    requires var r := s.ctrl.req;
             t.chip.mem == if s.ctrl.nxtDmod then Put(s.chip.mem, 2 * r.addr + 1, r.data.lo, Mask(r.selLo))
                           else if write then Put(s.chip.mem, 2 * r.addr, r.data.hi, Mask(r.selHi))
                           else s.chip.mem
    ensures MemoryInv(t)
  {
    forall a: Addr ensures ReadWord(t.board.mem, a) == Settled(t.chip.mem, t.ctrl.nxtDmod, t.ctrl.req, a) {
      assert ReadWord(s.board.mem, a) == Settled(s.chip.mem, s.ctrl.nxtDmod, s.ctrl.req, a);
      MemoryAt(s.chip.mem, s.board.mem, s.ctrl.nxtDmod, write, s.ctrl.req, a);
    }
  }

  lemma {:induction false} NoneDue(ops: seq<Op>, ack: seq<bool>, at: nat)
    requires |ack| == 6 && at <= 6 && AckMatches(ops, ack, at) && forall k :: at <= k < 6 ==> !ack[k]
    ensures ops == []
    decreases 6 - at
  {
    if at < 6 { NoneDue(ops, ack, at + 1); }
  }

  lemma {:induction false} ControlStep(s: Ctrl, chip: Chip, d: Command, b: Bus, ram: Half)
    requires CtrlInv(s) && Permitted(s, b.cyc, d) && ChipFormed(chip) && StartupInv(s, chip) && ChipInv(s, chip)
    ensures var t := StepWith(s, d, b, ram); CtrlInv(t) && StartupInv(t, Consume(chip, t.pins))
  {
    BankStep(s, d, b, ram);
    LookupStep(s, d, b, ram);
    TransferStep(s, chip, d, b, ram);
    RefreshStep(s, chip, d, b, ram);
    StartupStep(s, chip, d, b, ram);
  }

  lemma {:induction false} MemoryTraffic(s: Sys, t: Sys, d: Command, i: Input)
    requires Formed(s) && CtrlInv(s.ctrl) && StartupInv(s.ctrl, s.chip) && ChipInv(s.ctrl, s.chip) && MemoryInv(s)
    requires Permitted(s.ctrl, i.bus.cyc, d) && !s.ctrl.startup.mode && t == SysStepWith(s, d, i)
    requires t.board.mem == if d.Write? then Apply(s.board.mem, s.ctrl.req) else s.board.mem
    requires d.Write? ==> t.ctrl.req == s.ctrl.req
    ensures MemoryInv(t)
  {
    SystemParts(s, d, i);
    ChipMemory(s.ctrl, s.chip, d, i.bus);
    MemoryStep(s, t, d.Write?);
  }

  lemma {:induction false} TrafficStep(s: Sys, t: Sys, d: Command, i: Input)
    requires Inv(s) && Permitted(s.ctrl, i.bus.cyc, d) && t == SysStepWith(s, d, i)
    ensures QueueInv(t) && MemoryInv(t)
  {
    if s.ctrl.startup.mode {
    } else {
      QueueStep(s, t, d, i);
      MemoryTraffic(s, t, d, i);
    }
  }

  lemma {:induction false} InvStep(s: Sys, i: Input)
    requires Inv(s)
    ensures Inv(SysStep(s, i))
  {
    assert CtrlInv(s.ctrl) && StartupInv(s.ctrl, s.chip) && ChipInv(s.ctrl, s.chip);
    hide CtrlInv, StartupInv, ChipInv, QueueInv, MemoryInv, Permitted;
    var d := Decide(s.ctrl, i.bus.cyc);
    DecidePermitted(s.ctrl, i.bus.cyc);
    ControlStep(s.ctrl, s.chip, d, i.bus, s.ram);
    TrafficStep(s, SysStepWith(s, d, i), d, i);
    if s.ctrl.startup.mode {
      ChipStartupStep(s.ctrl, s.chip, d, i.bus, s.ram);
    } else {
      DeadlineStep(s.ctrl, i.bus, s.ram);
      ChipStep(s.ctrl, s.chip, d, i.bus, s.ram);
    }
  }

  lemma {:induction false} InvRun(s: Sys, ins: seq<Input>)
    requires Inv(s)
    ensures Inv(Run(s, ins))
    decreases |ins|
  {
    assert Formed(s);
    hide Inv;
    if ins != [] {
      InvStep(s, ins[0]);
      InvRun(SysStep(s, ins[0]), ins[1..]);
    }
  }

  // The invariant holds on every clock of every run, whatever the bus does.
  lemma {:induction false} InvAlways(s: Sys, ins: seq<Input>)
    requires InitialSys(s)
    ensures Inv(Run(s, ins))
  {
    InvInitially(s);
    InvRun(s, ins);
  }
}
