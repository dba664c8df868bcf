// What the SDRAM controller promises, on every clock of every run.
module SdramTheorems {
  import opened Arithmetic
  import opened SdramController
  import opened SdramChip
  import opened SdramSystem
  import opened SdramInvariant

  predicate Operating(s: Sys) { !s.ctrl.startup.mode }

  // ---- Start-up ----

  function StartupLeft(m: Startup): nat {
    if !m.mode then 0 else
    match m.phase
    case PowerUp => m.idle + (if m.hold then 1 else 0) + 15
    case InitialRefresh => m.clocks + 4
    case SetMode => m.clocks + 1
  }

  lemma {:induction false} StartupTick(c: Ctrl, chip: Chip)
    requires WellFormed(c) && ChipFormed(chip) && StartupInv(c, chip)
    ensures var left := StartupLeft(c.startup);
            StartupLeft(NextStartup(c.startup)) == if left > 0 then left - 1 else 0
  {
  }

  lemma {:induction false} StartupTakes(s: Sys, ins: seq<Input>)
    requires Inv(s)
    ensures var left := StartupLeft(s.ctrl.startup);
            StartupLeft(Run(s, ins).ctrl.startup) == if |ins| < left then left - |ins| else 0
    decreases |ins|
  {
    if ins != [] {
      var t := SysStep(s, ins[0]);
      InvStep(s, ins[0]);
      StartupTick(s.ctrl, s.chip);
      assert t.ctrl.startup == NextStartup(s.ctrl.startup);
      StartupTakes(t, ins[1..]);
    }
  }

  // The start-up protocol takes 20516 clocks and is never entered again.
  lemma {:induction false} StartupCompletes(s: Sys, ins: seq<Input>)
    requires InitialSys(s)
    ensures Operating(Run(s, ins)) <==> |ins| >= 20516
  {
    InvAlways(s, []);
    StartupTakes(s, ins);
    InvAlways(s, ins);
  }

  // ---- Command legality ----

  // No check of the chip monitor ever fires: not in power-up, and not in operation.
  lemma {:induction false} CommandsLegal(s: Sys, ins: seq<Input>)
    requires InitialSys(s)
    ensures Run(s, ins).chip.ok
  {
    InvAlways(s, ins);
  }

  // What the chip is set to: bursts of two, one place after the other, read two clocks after the command, and every
  // write a burst too.
  lemma {:induction false} ModeChosen(s: Sys, ins: seq<Input>, i: Input)
    requires InitialSys(s)
    ensures var c, p := Run(s, ins).chip, SysStep(Run(s, ins), i).ctrl.pins;
            c.power == 3 && p.IsModeSet() ==> p.addr % 8 == 1 && p.addr / 8 % 2 == 0 && p.addr / 16 % 8 == 2 && p.addr / 128 == 0
  {
    assert Formed(s);
    hide *;
    var m := Run(s, ins);
    InvAlways(s, ins);
    InvStep(m, i);
    Monitored(m, i);
    Monitored(SysStep(m, i), i);
    ChipOneClock(m, i);
    if m.chip.power == 3 && SysStep(m, i).ctrl.pins.IsModeSet() { ModeMeans(m.chip, SysStep(m, i).ctrl.pins); }
  }

  lemma {:induction false} Monitored(s: Sys, i: Input)
    requires Inv(s)
    ensures Formed(s) && ChipFormed(s.chip) && s.chip.ok
  {
  }

  lemma {:induction false} ChipOneClock(s: Sys, i: Input)
    requires Formed(s)
    ensures SysStep(s, i).chip == Consume(s.chip, SysStep(s, i).ctrl.pins)
  {
  }

  lemma {:induction false} ModeMeans(c: Chip, p: Pins)
    requires ChipFormed(c) && c.power == 3 && p.IsModeSet() && Consume(c, p).ok
    ensures p.addr % 8 == 1 && p.addr / 8 % 2 == 0 && p.addr / 16 % 8 == 2 && p.addr / 128 == 0
  {
  }

  // While a refresh is being waited for, nothing but a no-operation goes to the chip.
  lemma {:induction false} QuietInRefresh(s: Sys, ins: seq<Input>, i: Input)
    requires InitialSys(s) && Operating(Run(s, ins)) && Run(s, ins).ctrl.inRefresh
    ensures SysStep(Run(s, ins), i).ctrl.pins.IsIdle()
  {
    InvAlways(s, ins);
  }

  // ---- Refresh deadline ----

  // A refresh that has come due is given exactly twice running: the controller sees it only a clock after it is given.
  lemma {:induction false} RefreshTwice(c: Ctrl, b1: Bus, b2: Bus, b3: Bus, r1: Half, r2: Half, r3: Half)
    requires CtrlInv(c) && !c.startup.mode && c.needRefresh && !c.pins.IsRefresh() && Decide(c, b1.cyc) == AutoRefresh
    ensures WellFormed(c)
    ensures var t := Step(c, b1, r1);
            var u := Step(t, b2, r2);
            t.pins.IsRefresh() && u.pins.IsRefresh() && !Step(u, b3, r3).pins.IsRefresh()
  {
    var t := Step(c, b1, r1);
    assert t.pins.IsRefresh() && t.needRefresh && !t.inRefresh && AllClosed(t) && t.tilIdle == 0 && !t.nxtDmod && !t.startup.mode;
    var u := Step(t, b2, r2);
    assert Decide(t, b2.cyc) == AutoRefresh;
    assert u.pins.IsRefresh() && u.inRefresh && !u.startup.mode && !u.nxtDmod;
  }

  lemma {:induction false} DeadlineTick(s: Sys, i: Input)
    requires Inv(s) && Operating(s)
    ensures var t := SysStep(s, i);
            && Inv(t) && Operating(t) && (t.ctrl.pins.IsRefresh() || Deadline(t.ctrl) < Deadline(s.ctrl))
  {
    DeadlineStep(s.ctrl, i.bus, s.ram);
    InvStep(s, i);
  }

  // Some clock of the run has a refresh command on the pins.
  predicate Refreshes(s: Sys, ins: seq<Input>)
    requires Formed(s)
    decreases |ins|
  {
    ins != [] && var t := SysStep(s, ins[0]); t.ctrl.pins.IsRefresh() || Refreshes(t, ins[1..])
  }

  lemma {:induction false} RefreshComes(s: Sys, ins: seq<Input>)
    requires Inv(s) && Operating(s) && |ins| >= Deadline(s.ctrl)
    ensures Refreshes(s, ins)
    decreases |ins|
  {
    DeadlinePositive(s.ctrl);
    DeadlineTick(s, ins[0]);
    var t := SysStep(s, ins[0]);
    hide Inv, SysStep;
    if !t.ctrl.pins.IsRefresh() { RefreshComes(t, ins[1..]); }
  }

  // Once operating, whatever the bus master does, some refresh command is on the pins within 635 clocks.
  lemma {:induction false} RefreshDeadline(s: Sys, before: seq<Input>, ins: seq<Input>)
    requires InitialSys(s) && |before| >= 20516 && |ins| >= 635
    ensures Refreshes(Run(s, before), ins)
  {
    StartupCompletes(s, before);
    InvAlways(s, before);
    DeadlineBound(Run(s, before).ctrl);
    RefreshComes(Run(s, before), ins);
  }

  // A bound on the clocks until a bus at rest lets the next refresh through, early as it is.
  function RestLeft(c: Ctrl): nat requires WellFormed(c) {
    if c.pins.IsRefresh() then 380 else (if c.refreshClk > 255 then c.refreshClk - 255 else 0) + DrainLeft(c)
  }

  lemma {:induction false} RestStep(s: Ctrl, b: Bus, ram: Half)
    requires CtrlInv(s) && !s.startup.mode && !b.cyc
    ensures var t := Step(s, b, ram); t.pins.IsRefresh() || RestLeft(t) < RestLeft(s)
  {
    DecidePermitted(s, b.cyc);
    forall k | 0 <= k < 4 { BankMoves(s, Decide(s, b.cyc), b.cyc, k); }
  }

  predicate AtRest(ins: seq<Input>) { forall k :: 0 <= k < |ins| ==> !ins[k].bus.cyc }

  lemma {:induction false} AtRestOn(ins: seq<Input>)
    requires AtRest(ins)
    ensures ins != [] ==> !ins[0].bus.cyc && AtRest(ins[1..])
  {
  }

  lemma {:induction false} RestRefreshes(s: Sys, ins: seq<Input>)
    requires Inv(s) && Operating(s) && |ins| >= RestLeft(s.ctrl) && AtRest(ins)
    ensures Refreshes(s, ins)
    decreases |ins|
  {
    CtrlParts(s);
    AtRestOn(ins);
    hide *;
    RestBound(s.ctrl);
    RestTick(s, ins[0]);
    var t := SysStep(s, ins[0]);
    CtrlParts(t);
    RefreshesOn(s, ins);
    if !t.ctrl.pins.IsRefresh() {
      RestRefreshes(t, ins[1..]);
    }
  }

  lemma {:induction false} RefreshesOn(s: Sys, ins: seq<Input>)
    requires Formed(s) && ins != []
    ensures var t := SysStep(s, ins[0]); Refreshes(s, ins) <==> t.ctrl.pins.IsRefresh() || Refreshes(t, ins[1..])
  {
  }

  lemma {:induction false} RestBound(c: Ctrl)
    requires CtrlInv(c)
    ensures WellFormed(c) && 0 < RestLeft(c) <= 380
  {
  }

  lemma {:induction false} CtrlParts(s: Sys)
    requires Inv(s) && Operating(s)
    ensures Formed(s) && CtrlInv(s.ctrl) && WellFormed(s.ctrl) && !s.ctrl.startup.mode
  {
  }

  lemma {:induction false} CtrlOneClock(s: Sys, i: Input)
    requires Formed(s)
    ensures SysStep(s, i).ctrl == Step(s.ctrl, i.bus, s.ram)
  {
  }

  lemma {:induction false} RestTick(s: Sys, i: Input)
    requires Inv(s) && Operating(s) && !i.bus.cyc
    ensures var t := SysStep(s, i);
            Inv(t) && Operating(t) && (t.ctrl.pins.IsRefresh() || RestLeft(t.ctrl) < RestLeft(s.ctrl))
  {
    hide *;
    CtrlParts(s);
    RestStep(s.ctrl, i.bus, s.ram);
    DeadlineTick(s, i);
    CtrlParts(SysStep(s, i));
    CtrlOneClock(s, i);
  }

  // Once operating, a bus at rest for 380 clocks sees a refresh in them.
  lemma {:induction false} RestingRefresh(s: Sys, before: seq<Input>, ins: seq<Input>)
    requires InitialSys(s) && |before| >= 20516 && |ins| >= 380 && AtRest(ins)
    ensures Refreshes(Run(s, before), ins)
  {
    StartupCompletes(s, before);
    InvAlways(s, before);
    hide *;
    CtrlParts(Run(s, before));
    RestBound(Run(s, before).ctrl);
    RestRefreshes(Run(s, before), ins);
  }

  lemma {:induction false} ApartStep(s: Ctrl, b: Bus, ram: Half)
    requires CtrlInv(s) && !s.startup.mode && !s.pins.IsRefresh() && !s.needRefresh && s.refreshClk > 255
    ensures var t := Step(s, b, ram); !t.pins.IsRefresh() && !t.needRefresh && t.refreshClk == s.refreshClk - 1
  {
  }

  lemma {:induction false} ApartTick(s: Sys, i: Input)
    requires Inv(s) && Operating(s) && !s.ctrl.pins.IsRefresh() && !s.ctrl.needRefresh && s.ctrl.refreshClk > 255
    ensures var t := SysStep(s, i);
            Inv(t) && Operating(t) && !t.ctrl.pins.IsRefresh() && !t.ctrl.needRefresh && t.ctrl.refreshClk == s.ctrl.refreshClk - 1
  {
    hide *;
    CtrlParts(s);
    ApartStep(s.ctrl, i.bus, s.ram);
    DeadlineTick(s, i);
    CtrlParts(SysStep(s, i));
    CtrlOneClock(s, i);
  }

  lemma {:induction false} ApartRun(s: Sys, ins: seq<Input>)
    requires Inv(s) && Operating(s) && !s.ctrl.pins.IsRefresh() && !s.ctrl.needRefresh
    requires |ins| + 255 <= s.ctrl.refreshClk
    ensures !Refreshes(s, ins)
    decreases |ins|
  {
    hide SysStep, Operating;
    assert Formed(s);
    if ins != [] {
      ApartTick(s, ins[0]);
      hide Inv;
      ApartRun(SysStep(s, ins[0]), ins[1..]);
    }
  }

  // The last of a group of refreshes is followed by none for 370 clocks.
  lemma {:induction false} RefreshesApart(s: Sys, i: Input, ins: seq<Input>)
    requires Inv(s) && Operating(s) && s.ctrl.pins.IsRefresh() && !SysStep(s, i).ctrl.pins.IsRefresh() && |ins| <= 370
    ensures !Refreshes(SysStep(s, i), ins)
  {
    DeadlineTick(s, i);
    Restarts(s, i);
    ApartRun(SysStep(s, i), ins);
    hide Inv, SysStep, Refreshes, Operating;
  }

  lemma {:induction false} Restarts(s: Sys, i: Input)
    requires Formed(s) && s.ctrl.pins.IsRefresh()
    ensures var c := SysStep(s, i).ctrl; c.refreshClk == 625 && !c.needRefresh
  {
  }

  // ---- Every request is served, once, in order ----

  // Clocks to open, or close and open, the requested row, and give the command.
  function RowWork(c: Ctrl): nat requires WellFormed(c) {
    var b := c.banks[BankOf(c.req.addr)];
    var hit := b.row == RowOf(c.req.addr);
    if b.b2 && hit then (if b.b1 then 1 else 2)
    else if b.b2 then (if b.b1 && b.b0 then 6 else if b.b1 then 7 else 8)
    else if b.b1 then 5 else if b.b0 then 4 else 3
  }

  function Work(c: Ctrl): nat requires WellFormed(c) {
    var gap := if c.req.we then c.tilIdle + 1 else if c.tilIdle > 3 then c.tilIdle - 2 else 1;
    if RowWork(c) > gap then RowWork(c) else gap
  }

  // A bound on the clocks until a waiting request has its command on the pins: at most one refresh, which may
  // be a pair of refresh commands, comes between.
  function Patience(c: Ctrl): nat requires WellFormed(c) {
    if c.pins.IsRefresh() then (if c.inRefresh then 11 else 12)
    else if c.inRefresh then c.inRefreshClk + 4
    else if c.needRefresh then DrainLeft(c) + 12
    else if c.refreshClk < Work(c) then c.refreshClk + 21
    else Work(c)
  }

  lemma {:induction false} PatienceBound(c: Ctrl)
    requires CtrlInv(c)
    ensures 0 < Patience(c) <= 28
  {
  }

  // The request stays, and is served or nearer to it.
  predicate Nearer(c: Ctrl, t: Ctrl) {
    WellFormed(c) && WellFormed(t) && t.req == c.req
    && (t.pins.IsTransfer() || (Waiting(t) && Patience(t) < Patience(c)))
  }

  lemma {:induction false} PatienceInRefresh(c: Ctrl, b: Bus, ram: Half)
    requires CtrlInv(c) && !c.startup.mode && Waiting(c) && b.cyc
    requires c.pins.IsRefresh() || c.inRefresh
    ensures Nearer(c, Step(c, b, ram))
  {
    DecidePermitted(c, true);
    forall k | 0 <= k < 4 { BankMoves(c, Decide(c, true), true, k); }
  }

  lemma {:induction false} PatienceToRefresh(c: Ctrl, b: Bus, ram: Half)
    requires CtrlInv(c) && !c.startup.mode && Waiting(c) && b.cyc
    requires !c.pins.IsRefresh() && !c.inRefresh && c.needRefresh
    ensures Nearer(c, Step(c, b, ram))
  {
    DecidePermitted(c, true);
    forall k | 0 <= k < 4 { BankMoves(c, Decide(c, true), true, k); }
  }

  lemma {:induction false} PatienceAtWork(c: Ctrl, b: Bus, ram: Half)
    requires CtrlInv(c) && !c.startup.mode && Waiting(c) && b.cyc
    requires !c.pins.IsRefresh() && !c.inRefresh && !c.needRefresh
    ensures Nearer(c, Step(c, b, ram))
  {
    DecidePermitted(c, true);
    forall k | 0 <= k < 4 { BankMoves(c, Decide(c, true), true, k); }
  }

  lemma {:induction false} PatienceStep(c: Ctrl, b: Bus, ram: Half)
    requires CtrlInv(c) && !c.startup.mode && Waiting(c) && b.cyc
    ensures var t := Step(c, b, ram);
            && t.req == c.req
            && (t.pins.IsTransfer() || (Waiting(t) && Patience(t) < Patience(c)))
  {
    hide CtrlInv, Step, Patience;
    if c.pins.IsRefresh() || c.inRefresh { PatienceInRefresh(c, b, ram); }
    else if c.needRefresh { PatienceToRefresh(c, b, ram); }
    else { PatienceAtWork(c, b, ram); }
  }

  lemma {:induction false} DeadlinePositive(c: Ctrl)
    requires WellFormed(c)
    ensures Deadline(c) > 0
  {
  }

  lemma {:induction false} PatienceTick(s: Sys, i: Input)
    requires Inv(s) && Operating(s) && Waiting(s.ctrl) && i.bus.cyc
    ensures var t := SysStep(s, i);
            && Inv(t) && Operating(t) && t.ctrl.req == s.ctrl.req
            && ((t.ctrl.pins.IsTransfer() && !t.ctrl.stall) || (Waiting(t.ctrl) && Patience(t.ctrl) < Patience(s.ctrl)))
  {
    PatienceStep(s.ctrl, i.bus, s.ram);
    InvStep(s, i);
  }

  // Some clock of the run has the command of r on the pins, and that clock does not stall the bus.
  predicate Serves(s: Sys, ins: seq<Input>, r: Request)
    requires Formed(s)
    decreases |ins|
  {
    ins != [] && var t := SysStep(s, ins[0]);
    (t.ctrl.pins.IsTransfer() && t.ctrl.req == r && !t.ctrl.stall) || Serves(t, ins[1..], r)
  }

  lemma {:induction false} ServiceComes(s: Sys, ins: seq<Input>)
    requires Inv(s) && Operating(s) && Waiting(s.ctrl) && |ins| >= Patience(s.ctrl)
    requires forall k :: 0 <= k < |ins| ==> ins[k].bus.cyc
    ensures Serves(s, ins, s.ctrl.req)
    decreases |ins|
  {
    PatienceBound(s.ctrl);
    assert Formed(s);
    hide Inv, Patience;
    PatienceTick(s, ins[0]);
    var t := SysStep(s, ins[0]);
    hide SysStep;
    if !t.ctrl.pins.IsTransfer() { ServiceComes(t, ins[1..]); }
  }

  // While the bus cycle is held, a waiting request has its command on the pins, and its stall is over, within
  // 28 clocks; rtl/wbsdram.v allows itself 30.
  lemma {:induction false} ServedWithin(s: Sys, before: seq<Input>, ins: seq<Input>)
    requires InitialSys(s) && Waiting(Run(s, before).ctrl) && |ins| == 28
    requires forall k :: 0 <= k < |ins| ==> ins[k].bus.cyc
    ensures Serves(Run(s, before), ins, Run(s, before).ctrl.req)
  {
    InvAlways(s, before);
    PatienceBound(Run(s, before).ctrl);
    ServiceComes(Run(s, before), ins);
  }

  // What the outside can see of a transfer: its direction, and the bus address that its open row, bank and
  // column stand for.
  datatype Seen = Seen(we: bool, addr: nat)

  function SeenOnPins(s: Sys): seq<Seen> requires Formed(s) {
    var p := s.ctrl.pins;
    if p.IsTransfer() && p.bs < 4
    then [Seen(!p.weN, Linear(s.chip.banks[p.bs].row, p.bs, p.addr) / 2)] else []
  }

  function SeenOnBus(s: Sys, i: Input): seq<Seen> requires Formed(s) {
    if Accepts(s.ctrl, i.bus) then [Seen(i.bus.req.we, i.bus.req.addr)] else []
  }

  function Accepted(s: Sys, ins: seq<Input>): seq<Seen>
    requires Formed(s)
    decreases |ins|
  {
    if ins == [] then [] else SeenOnBus(s, ins[0]) + Accepted(SysStep(s, ins[0]), ins[1..])
  }

  function Commanded(s: Sys, ins: seq<Input>): seq<Seen>
    requires Formed(s)
    decreases |ins|
  {
    if ins == [] then [] else
    var t := SysStep(s, ins[0]);
    SeenOnPins(t) + Commanded(t, ins[1..])
  }

  function Acks(s: Sys, ins: seq<Input>): nat
    requires Formed(s)
    decreases |ins|
  {
    if ins == [] then 0 else (if Acked(s) then 1 else 0) + Acks(SysStep(s, ins[0]), ins[1..])
  }

  function Labels(rs: seq<Request>): (r: seq<Seen>)
    ensures |r| == |rs|
  {
    seq(|rs|, k requires 0 <= k < |rs| => Seen(rs[k].we, rs[k].addr))
  }

  // A transfer on the pins addresses the open row of the request it belongs to.
  lemma {:induction false} TransferFacts(s: Sys)
    requires Inv(s) && s.ctrl.pins.IsTransfer()
    ensures var p, a := s.ctrl.pins, s.ctrl.req.addr;
            && p.bs == BankOf(a) < 4 && p.addr == ColOf(a) && p.weN == !s.ctrl.req.we
            && s.chip.banks[p.bs].row == RowOf(a)
  {
    var k := BankOf(s.ctrl.req.addr);
    assert Tracks(s.chip.banks[k], s.ctrl.banks[k], s.chip.openTime[k], Deadline(s.ctrl));
  }

  lemma {:induction false} TransferSeen(s: Sys)
    requires Inv(s)
    ensures SeenOnPins(s) == if s.ctrl.pins.IsTransfer() then [Seen(s.ctrl.req.we, s.ctrl.req.addr)] else []
  {
    assert Formed(s);
    hide *;
    if s.ctrl.pins.IsTransfer() {
      TransferFacts(s);
      LinearIsTwice(s.ctrl.req.addr);
    }
    SeenIs(s);
  }

  lemma {:induction false} SeenIs(s: Sys)
    requires Formed(s)
    ensures var p := s.ctrl.pins;
            SeenOnPins(s) ==
            if p.IsTransfer() && p.bs < 4
            then [Seen(!p.weN, Linear(s.chip.banks[p.bs].row, p.bs, p.addr) / 2)] else []
  {
    hide Linear;
  }

  lemma {:induction false} TrafficOneClock(s: Sys, i: Input)
    requires Inv(s) && i.bus.cyc
    ensures var t := SysStep(s, i);
            && Inv(t)
            && Labels(s.board.waiting) + SeenOnBus(s, i) == SeenOnPins(t) + Labels(t.board.waiting)
            && |t.board.issued| + (if Acked(s) then 1 else 0) == |s.board.issued| + |SeenOnPins(t)|
  {
    InvStep(s, i);
    TransferSeen(SysStep(s, i));
    DecidePermitted(s.ctrl, true);
    WaitingOneClock(s, Decide(s.ctrl, true), i);
  }

  function OnBus(s: Sys, i: Input): seq<Request> requires Formed(s) {
    if Accepts(s.ctrl, i.bus) then [i.bus.req] else []
  }

  function NewCommand(t: Sys): seq<Request> requires Formed(t) {
    if t.ctrl.pins.IsTransfer() then [t.ctrl.req] else []
  }

  lemma {:induction false} WaitingRequests(s: Sys, d: Command, i: Input)
    requires Inv(s) && i.bus.cyc && Permitted(s.ctrl, true, d)
    ensures var t := SysStepWith(s, d, i); s.board.waiting + OnBus(s, i) == NewCommand(t) + t.board.waiting
  {
    assert Formed(s);
    hide Inv, Permitted;
    BoardStep(s, d, i);
    AcceptedNext(s, d, i);
    hide SysStepWith;
  }

  lemma {:induction false} LabelsApart(a: seq<Request>, b: seq<Request>)
    ensures Labels(a + b) == Labels(a) + Labels(b)
  {
  }

  lemma {:induction false} WaitingOneClock(s: Sys, d: Command, i: Input)
    requires Inv(s) && i.bus.cyc && Permitted(s.ctrl, true, d)
    ensures var t := SysStepWith(s, d, i);
            Labels(s.board.waiting) + SeenOnBus(s, i)
            == (if t.ctrl.pins.IsTransfer() then [Seen(t.ctrl.req.we, t.ctrl.req.addr)] else [])
               + Labels(t.board.waiting)
  {
    assert Formed(s);
    hide Inv, Permitted, SysStepWith, Accepts;
    var t := SysStepWith(s, d, i);
    WaitingRequests(s, d, i);
    LabelsApart(s.board.waiting, OnBus(s, i));
    LabelsApart(NewCommand(t), t.board.waiting);
    assert Labels(OnBus(s, i)) == SeenOnBus(s, i);
    assert Labels(NewCommand(t)) == if t.ctrl.pins.IsTransfer() then [Seen(t.ctrl.req.we, t.ctrl.req.addr)] else [];
    hide Labels;
  }

  lemma {:induction false} AckedHead(s: Sys)
    requires Inv(s)
    ensures Acked(s) ==> |s.board.issued| > 0 && Due(s.board.issued[0]) == 0
  {
  }

  lemma {:induction false} AcceptedNext(s: Sys, d: Command, i: Input)
    requires Inv(s) && i.bus.cyc && Permitted(s.ctrl, true, d)
    ensures var t := SysStepWith(s, d, i);
            && (Accepts(s.ctrl, i.bus) ==> t.ctrl.pending && t.ctrl.req == i.bus.req && !d.Read? && !d.Write?
                                           && s.board.waiting == [])
            && (!Accepts(s.ctrl, i.bus) && t.ctrl.pending ==> s.ctrl.pending && t.ctrl.req == s.ctrl.req
                                                              && s.board.waiting == [s.ctrl.req])
            && (!t.ctrl.pending ==> s.board.waiting == [])
  {
  }

  lemma {:induction false} Regroup<T>(w: seq<T>, b: seq<T>, p: seq<T>, w': seq<T>, a: seq<T>, c: seq<T>, e: seq<T>)
    requires w + b == p + w' && w' + a == c + e
    ensures w + (b + a) == (p + c) + e
  {
    assert w + (b + a) == (w + b) + a == p + (w' + a);
  }

  predicate Held(ins: seq<Input>) { forall k :: 0 <= k < |ins| ==> ins[k].bus.cyc }

  // A run, one clock on.
  lemma {:induction false} OneClockOn(s: Sys, ins: seq<Input>)
    requires Formed(s) && ins != [] && Held(ins)
    ensures var t, more := SysStep(s, ins[0]), ins[1..];
            && ins[0].bus.cyc && Held(more) && Run(s, ins) == Run(t, more)
            && Accepted(s, ins) == SeenOnBus(s, ins[0]) + Accepted(t, more)
            && Commanded(s, ins) == SeenOnPins(t) + Commanded(t, more)
            && Acks(s, ins) == (if Acked(s) then 1 else 0) + Acks(t, more)
  {
    hide SysStep, SeenOnBus, SeenOnPins, Formed, Accepts, Acked;
  }

  lemma {:induction false} NoClock(s: Sys)
    requires Formed(s)
    ensures Run(s, []) == s && Accepted(s, []) == [] && Commanded(s, []) == [] && Acks(s, []) == 0
  {
  }

  lemma {:induction false} OrderKept(s: Sys, ins: seq<Input>)
    requires Inv(s) && Held(ins)
    ensures Labels(s.board.waiting) + Accepted(s, ins) == Commanded(s, ins) + Labels(Run(s, ins).board.waiting)
    decreases |ins|
  {
    assert Formed(s);
    hide *;
    if ins == [] {
      NoClock(s);
      assert Labels(s.board.waiting) + [] == [] + Labels(s.board.waiting);
    } else {
      OneClockOn(s, ins);
      TrafficOneClock(s, ins[0]);
      var t := SysStep(s, ins[0]);
      OrderKept(t, ins[1..]);
      Regroup(Labels(s.board.waiting), SeenOnBus(s, ins[0]), SeenOnPins(t), Labels(t.board.waiting),
              Accepted(t, ins[1..]), Commanded(t, ins[1..]), Labels(Run(s, ins).board.waiting));
    }
  }

  lemma {:induction false} CountOneClock(s: Sys, i: Input)
    requires Inv(s) && i.bus.cyc
    ensures var t := SysStep(s, i);
            Inv(t) && |t.board.issued| + (if Acked(s) then 1 else 0) == |s.board.issued| + |SeenOnPins(t)|
  {
    assert Formed(s);
    hide *;
    TrafficOneClock(s, i);
  }

  lemma {:induction false} CountKept(s: Sys, ins: seq<Input>)
    requires Inv(s) && Held(ins)
    ensures |s.board.issued| + |Commanded(s, ins)| == Acks(s, ins) + |Run(s, ins).board.issued|
    decreases |ins|
  {
    assert Formed(s);
    hide *;
    if ins == [] {
      NoClock(s);
    } else {
      OneClockOn(s, ins);
      CountOneClock(s, ins[0]);
      CountKept(SysStep(s, ins[0]), ins[1..]);
    }
  }

  // While a bus cycle is held, the commands on the pins are exactly the accepted requests, in order and each
  // once, short of the one still waiting; and every command but those still in flight has had its one
  // acknowledgment.
  lemma {:induction false} ExactlyOnceInOrder(s: Sys, before: seq<Input>, ins: seq<Input>)
    requires InitialSys(s) && Run(s, before).board.waiting == [] && Run(s, before).board.issued == []
    requires Held(ins)
    ensures var m := Run(s, before);
            var t := Run(m, ins);
            && Accepted(m, ins) == Commanded(m, ins) + Labels(t.board.waiting)
            && |Commanded(m, ins)| == Acks(m, ins) + |t.board.issued|
            && |t.board.waiting| <= 1 && |t.board.issued| <= 6
  {
    InvAlways(s, before);
    hide *;
    var m := Run(s, before);
    OrderKept(m, ins);
    CountKept(m, ins);
    InvRun(m, ins);
    QueueShort(Run(m, ins));
    assert Labels([]) + Accepted(m, ins) == Accepted(m, ins);
  }

  lemma {:induction false} QueueShort(s: Sys)
    requires Inv(s)
    ensures |s.board.issued| <= 6 && |s.board.waiting| <= 1
  {
    MatchLength(s.board.issued, s.ctrl.ack, 0);
  }

  lemma {:induction false} MatchLength(ops: seq<Op>, ack: seq<bool>, at: nat)
    requires |ack| == 6 && at <= 6 && AckMatches(ops, ack, at)
    ensures |ops| <= 6 - at
    decreases 6 - at
  {
    if at < 6 { MatchLength(if ack[at] then ops[1..] else ops, ack, at + 1); }
  }

  // ---- Looking ahead ----

  // Clocks until the bank is open on the row, if they are all left to it.
  function ToOpen(b: Bank, row: nat): nat {
    if b.b2 && b.row == row then 0
    else if b.b2 then (if b.b1 then 4 else 5)
    else if b.b1 then 3 else if b.b0 then 2 else 1
  }

  // The bank and row of the next words, as the controller looks them up; and no clock is needed for the request itself.
  function Next(c: Ctrl): Bank requires WellFormed(c) { c.banks[FwdBank(c.fwd)] }

  ghost predicate Known(c: Ctrl) requires WellFormed(c) {
    && (Next(c).b2 && Next(c).b1 && Next(c).row == FwdRow(c.fwd) ==> c.fwdValid)
    && (c.fwdValid ==> Next(c).b2 && Next(c).row == FwdRow(c.fwd))
  }

  predicate Spare(c: Ctrl) requires WellFormed(c) {
    var b := c.banks[BankOf(c.req.addr)];
    !(Waiting(c) && (if c.bankValid then b.b2 && (if c.req.we then c.tilIdle == 0 else c.tilIdle < 4) else b.Closed() || b.Open()))
  }

  lemma {:induction false} NextIsOther(a: Addr)
    requires a % 256 >= 240
    ensures FwdBank(NextFwd(a)) == (BankOf(a) + 1) % 4 != BankOf(a)
  {
    var q, r := a / 256, a % 256;
    assert a == 256 * q + r && r / 32 == 7;
    assert a / 32 == 8 * q + 7;
    NextBlock(q + 1);
    OtherBank(q);
  }

  lemma {:induction false} NextBlock(n: nat)
    ensures 8 * n % 0x4_0000 / 8 % 4 == n % 4
  {
    var h, l := n / 0x8000, n % 0x8000;
    DivMod(8 * n, 0x4_0000, h, 8 * l);
    DivMod(8 * l, 8, l, 0);
    DivMod(n, 4, 0x2000 * h + l / 4, l % 4);
  }

  lemma {:induction false} OtherBank(q: nat)
    ensures (q + 1) % 4 == (q % 4 + 1) % 4 != q % 4
  {
  }

  // While a request in the last sixteen words of its row is in hand, nothing closes the bank of the words after it again,
  // and every clock that the request does not need brings it nearer to being open on their row.
  lemma {:induction false} LooksAhead(s: Ctrl, b: Bus, ram: Half)
    requires CtrlInv(s) && !s.startup.mode && b.cyc && !s.needRefresh && !s.inRefresh && !s.nxtDmod && Known(s)
    requires s.pending && s.req.addr % 256 >= 240
    ensures var f, row := FwdBank(s.fwd), FwdRow(s.fwd);
            var was, now := ToOpen(s.banks[f], row), ToOpen(Step(s, b, ram).banks[f], row);
            now <= was <= 5 && (Spare(s) && was > 0 ==> now < was)
    ensures Step(s, b, ram).fwd == s.fwd ==> Known(Step(s, b, ram))
  {
    NextIsOther(s.req.addr);
    hide CommandPins, NextAck, NextDqm, NextTilIdle, NextStartup, RowMatch, NextFwd, BankOf;
  }
}
