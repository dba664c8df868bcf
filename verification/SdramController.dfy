// The SDRAM controller of rtl/wbsdram.v: its registers and what one clock does to them.
module SdramController {
  type Byte = b: int | 0 <= b < 256
  type Addr = a: nat | a < 0x80_0000            // 23 bits: 13 of row, 2 of bank, 8 of column

  datatype Half = Half(hi: Byte, lo: Byte)      // one beat on the 16-bit data pins
  datatype Word = Word(hi: Half, lo: Half)
  datatype Enable = Enable(hi: bool, lo: bool)  // byte selects of one beat
  datatype Request = Request(we: bool, addr: Addr, data: Word, selHi: Enable, selLo: Enable)
  datatype Bus = Bus(cyc: bool, stb: bool, req: Request)

  // bank_active[k] is the shift register { b2, b1, b0 }; row is bank_row[k].
  datatype Bank = Bank(b2: bool, b1: bool, b0: bool, row: nat) {
    predicate Closed() { !b2 && !b1 && !b0 }
    predicate Open() { b2 && b1 && b0 }
    predicate Opening() { b2 && !b1 }
  }

  datatype Pins = Pins(csN: bool, rasN: bool, casN: bool, weN: bool, bs: nat, addr: nat,
                       dmod: bool, data: Half, dqm: Enable)
  {
    predicate IsRefresh() { !csN && !rasN && !casN && weN }
    predicate IsActivate() { !csN && !rasN && casN && weN }
    predicate IsPrecharge() { !csN && !rasN && casN && !weN }
    predicate IsRead() { !csN && rasN && !casN && weN }
    predicate IsWrite() { !csN && rasN && !casN && !weN }
    predicate IsModeSet() { !csN && !rasN && !casN && !weN }
    predicate IsIdle() { csN || (rasN && casN && weN) }
    predicate IsTransfer() { !csN && rasN && !casN }
  }

  datatype Phase = PowerUp | InitialRefresh | SetMode
  datatype Startup = Startup(idle: nat, hold: bool, mode: bool, clocks: nat, zero: bool, phase: Phase,
                             csN: bool, rasN: bool, casN: bool, weN: bool, addr: nat)

  datatype Ctrl = Ctrl(
    pins: Pins, refreshClk: nat, needRefresh: bool, inRefreshClk: nat, inRefresh: bool,
    banks: seq<Bank>, ack: seq<bool>, pending: bool, req: Request, fwd: nat,
    bankValid: bool, fwdValid: bool, tilIdle: nat, nxtDmod: bool, stall: bool,
    startup: Startup, last: Half)

  // What the controller decides to put on the command pins.
  datatype Command =
    | Nop | PrechargeAll | AutoRefresh | Activate(bank: nat, row: nat) | Precharge(bank: nat) | Read | Write

  const REFRESH_PERIOD := 625
  const MODE_WORD := 0x021

  function BankOf(a: nat): nat { a / 256 % 4 }
  function RowOf(a: nat): nat { a / 1024 }
  function ColOf(a: nat): nat { a % 256 * 2 }
  // fwd_addr[22:5], held as the number formed by its eighteen bits
  function FwdBank(f: nat): nat { f / 8 % 4 }
  function FwdRow(f: nat): nat { f / 32 }
  function NextFwd(a: nat): nat { (a / 32 + 1) % 0x4_0000 }

  predicate A10(addr: nat) { addr / 1024 % 2 == 1 }
  function WithA10(addr: nat, v: bool): (r: nat)
    ensures A10(r) == v
  {
    var low := addr % 1024 + addr / 2048 * 2048;
    if v then low + 1024 else low
  }

  predicate WellFormed(s: Ctrl) { |s.banks| == 4 && |s.ack| == 6 }

  // bus_cyc: a request enters the controller on this clock.
  predicate Accepts(s: Ctrl, b: Bus) { b.cyc && b.stb && !s.stall }

  predicate Waiting(s: Ctrl) { s.pending && s.stall }

  predicate AnyOpening(s: Ctrl) requires WellFormed(s) {
    s.banks[0].Opening() || s.banks[1].Opening() || s.banks[2].Opening() || s.banks[3].Opening()
  }
  predicate AnyActive(s: Ctrl) requires WellFormed(s) {
    s.banks[0].b2 || s.banks[1].b2 || s.banks[2].b2 || s.banks[3].b2
  }
  predicate AllClosed(s: Ctrl) requires WellFormed(s) {
    s.banks[0].Closed() && s.banks[1].Closed() && s.banks[2].Closed() && s.banks[3].Closed()
  }

  function Drain(s: Ctrl): Command
    requires WellFormed(s)
  {
    if AnyOpening(s) || s.tilIdle > 0 then Nop
    else if AnyActive(s) then PrechargeAll
    else if !AllClosed(s) then Nop
    else if !s.inRefresh && (s.refreshClk < 256 || s.needRefresh) then AutoRefresh
    else Nop
  }

  function Forward(s: Ctrl): Command
    requires WellFormed(s)
  {
    var f := FwdBank(s.fwd);
    if s.banks[f].b2 && s.banks[f].b1 then Precharge(f)
    else if s.banks[f].Closed() then Activate(f, FwdRow(s.fwd))
    else Nop
  }

  function Serve(s: Ctrl): Command
    requires WellFormed(s)
  {
    var b := BankOf(s.req.addr);
    if Waiting(s) && !s.bankValid && s.banks[b].Closed() then Activate(b, RowOf(s.req.addr))
    else if Waiting(s) && !s.bankValid && s.banks[b].Open() then Precharge(b)
    else if Waiting(s) && !s.req.we && s.banks[b].b2 && s.bankValid && s.tilIdle < 4 then Read
    else if Waiting(s) && s.req.we && s.banks[b].b2 && s.bankValid && s.tilIdle == 0 then Write
    else if s.pending && s.req.addr % 256 >= 0xf0 && !s.fwdValid then Forward(s)
    else Nop
  }

  function Decide(s: Ctrl, cyc: bool): Command
    requires WellFormed(s)
  {
    if s.startup.mode || s.nxtDmod then Nop
    else if !cyc || s.needRefresh then Drain(s)
    else if s.inRefresh then Nop
    else Serve(s)
  }

  function NextBank(k: nat, b: Bank, c: Command): Bank {
    match c
    case PrechargeAll => Bank(false, b.b2, b.b1, b.row)
    case Precharge(j) => Bank(if j == k then false else b.b2, b.b2, b.b1, b.row)
    case Activate(j, row) => if j == k then Bank(true, b.b2, b.b1, row) else Bank(b.b2, b.b2, b.b1, b.row)
    case _ => Bank(b.b2, b.b2, b.b1, b.row)
  }

  function NextPins(s: Ctrl, c: Command, cyc: bool, data: Half, dqm: Enable): Pins {
    var p := s.pins;
    match c
    case Nop => Pins(!cyc, true, true, true, p.bs, p.addr, s.nxtDmod, data, dqm)
    case PrechargeAll => Pins(false, false, true, false, p.bs, WithA10(p.addr, true), s.nxtDmod, data, dqm)
    case AutoRefresh => Pins(false, false, false, true, p.bs, p.addr, s.nxtDmod, data, dqm)
    case Activate(b, row) => Pins(false, false, true, true, b, row, s.nxtDmod, data, dqm)
    case Precharge(b) => Pins(false, false, true, false, b, WithA10(p.addr, false), s.nxtDmod, data, dqm)
    case Read => Pins(false, true, false, true, BankOf(s.req.addr), ColOf(s.req.addr), s.nxtDmod, data, dqm)
    case Write => Pins(false, true, false, false, BankOf(s.req.addr), ColOf(s.req.addr), true, data, dqm)
  }

  function StartupPins(s: Ctrl, data: Half): Pins {
    var m := s.startup;
    Pins(m.csN, m.rasN, m.casN, m.weN, s.pins.bs, m.addr, false, data, Enable(true, true))
  }

  function NextStartup(m: Startup): Startup {
    var idle := if m.idle > 0 then m.idle - 1 else 0;
    var n := Startup(idle, m.idle > 0, m.mode,
                     if m.zero then m.clocks else (m.clocks + 15) % 16,
                     if m.zero then true else m.clocks == 1,
                     m.phase, false, true, true, true, MODE_WORD);
    match m.phase
    case PowerUp =>
      if m.hold then n
      else n.(phase := InitialRefresh, clocks := 10, zero := false,
              rasN := false, weN := false, addr := WithA10(MODE_WORD, true))
    case InitialRefresh =>
      var r := n.(rasN := false, casN := false);
      if m.zero then r.(phase := SetMode, weN := false, clocks := 2, zero := false) else r
    case SetMode =>
      n.(csN := true, rasN := false, casN := false, weN := false, mode := m.mode && !m.zero)
  }

  function NextAck(s: Ctrl, c: Command, cyc: bool): seq<bool>
    requires WellFormed(s)
  {
    if s.startup.mode || !cyc then [false, false, false, false, false, false]
    else [s.ack[1], if c == Write then true else s.ack[2], s.ack[3], s.ack[4], s.ack[5], c == Read]
  }

  function RowMatch(s: Ctrl, a: Addr): bool
    requires WellFormed(s)
  {
    s.banks[BankOf(a)].b2 && s.banks[BankOf(a)].row == RowOf(a)
  }

  function NextDqm(s: Ctrl): Enable {
    if s.startup.mode then Enable(true, true)
    else if !s.req.we then Enable(false, false)
    else if s.nxtDmod then Enable(!s.req.selLo.hi, !s.req.selLo.lo)
    else Enable(!s.req.selHi.hi, !s.req.selHi.lo)
  }

  // One clock: every register takes its next value from the present ones and the inputs.
  function Step(s: Ctrl, b: Bus, ramData: Half): (t: Ctrl)
    requires WellFormed(s)
    ensures WellFormed(t)
  {
    StepWith(s, Decide(s, b.cyc), b, ramData)
  }

  function NextBanks(s: Ctrl, c: Command): (r: seq<Bank>)
    requires WellFormed(s)
    ensures |r| == 4
  {
    if s.startup.mode
    then [Bank(false, false, false, s.banks[0].row), Bank(false, false, false, s.banks[1].row),
          Bank(false, false, false, s.banks[2].row), Bank(false, false, false, s.banks[3].row)]
    else [NextBank(0, s.banks[0], c), NextBank(1, s.banks[1], c),
          NextBank(2, s.banks[2], c), NextBank(3, s.banks[3], c)]
  }

  function NextTilIdle(s: Ctrl, c: Command): nat {
    if s.startup.mode then s.tilIdle
    else if c == Read then 4 else if c == Write then 1
    else if s.tilIdle > 0 then s.tilIdle - 1 else 0
  }

  function CommandPins(s: Ctrl, c: Command, cyc: bool): Pins {
    var data := if s.nxtDmod then s.req.data.lo else s.req.data.hi;
    if s.startup.mode then StartupPins(s, data) else NextPins(s, c, cyc, data, NextDqm(s))
  }

  function StepWith(s: Ctrl, c: Command, b: Bus, ramData: Half): (t: Ctrl)
    requires WellFormed(s)
    ensures WellFormed(t)
  {
    var acc := Accepts(s, b);
    var req := if acc then b.req else s.req;
    var refresh := s.pins.IsRefresh();
    Ctrl(
      CommandPins(s, c, b.cyc),
      if refresh then REFRESH_PERIOD else if s.refreshClk > 0 then s.refreshClk - 1 else 0,
      s.refreshClk == 0 && !refresh,
      if refresh then 6 else if s.inRefreshClk > 0 then s.inRefreshClk - 1 else 0,
      s.inRefreshClk > 0 || refresh,
      NextBanks(s, c),
      NextAck(s, c, b.cyc),
      acc || (s.pending && !s.pins.IsTransfer() && b.cyc),
      req,
      if acc then NextFwd(b.req.addr) else s.fwd,
      RowMatch(s, req.addr),
      s.banks[FwdBank(s.fwd)].b2 && s.banks[FwdBank(s.fwd)].row == FwdRow(s.fwd),
      NextTilIdle(s, c),
      c == Write,
      s.startup.mode || (c != Read && c != Write && (s.pending || acc)),
      NextStartup(s.startup),
      ramData)
  }

  // The registers that rtl/wbsdram.v initializes; the others start with any value.
  predicate Initial(s: Ctrl) {
    && WellFormed(s)
    && !s.pins.csN && s.pins.rasN && s.pins.casN && s.pins.weN
    && !s.pins.dmod && s.pins.dqm == Enable(true, true)
    && s.refreshClk == 0 && !s.needRefresh && s.inRefreshClk == 0 && !s.inRefresh
    && AllClosed(s)
    && s.ack == [false, false, false, false, false, false]
    && !s.pending && s.req.addr == 0 && s.fwd == 1 && !s.bankValid && !s.fwdValid
    && s.tilIdle == 0 && !s.nxtDmod && s.stall
    && s.startup == Startup(20500, true, true, 15, false, PowerUp, true, true, true, true, MODE_WORD)
  }
}
