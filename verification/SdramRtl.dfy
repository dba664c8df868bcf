// The clocked blocks of rtl/wbsdram.v, statement by statement: a default for every register, then what the
// branches override.  Every right-hand side reads the registers as they were before the clock.
module SdramRtl {
  import opened SdramController

  // The registers of lines 114 to 140, and those of lines 183 to 215.
  datatype Timers = Timers(refreshClk: nat, needRefresh: bool, inRefreshClk: nat, inRefresh: bool)
  datatype Pending = Pending(valid: bool, req: Request, fwd: nat, bankValid: bool, fwdValid: bool)

  class Wbsdram {
    var pins: Pins
    var timers: Timers
    var banks: seq<Bank>
    var rBarrellAck: seq<bool>
    var r: Pending
    var clocksTilIdle: nat
    var nxtDmod: bool
    var wbStall: bool
    var startup: Startup
    var lastRamData: Half

    ghost function State(): Ctrl
      reads this
    {
      Ctrl(pins, timers.refreshClk, timers.needRefresh, timers.inRefreshClk, timers.inRefresh, banks, rBarrellAck,
           r.valid, r.req, r.fwd, r.bankValid, r.fwdValid, clocksTilIdle, nxtDmod, wbStall, startup, lastRamData)
    }

    constructor (reset: Ctrl)
      requires Initial(reset)
      ensures State() == reset
    {
      pins, banks, rBarrellAck, startup, lastRamData := reset.pins, reset.banks, reset.ack, reset.startup, reset.last;
      timers := Timers(reset.refreshClk, reset.needRefresh, reset.inRefreshClk, reset.inRefresh);
      r := Pending(reset.pending, reset.req, reset.fwd, reset.bankValid, reset.fwdValid);
      clocksTilIdle, nxtDmod, wbStall := reset.tilIdle, reset.nxtDmod, reset.stall;
    }

    // Lines 285 to 288: unless told otherwise, every bank goes on as it is.
    function Shifted(): (r: seq<Bank>)
      reads this
      requires WellFormed(State())
      ensures r == NextBanks(State().(startup := startup.(mode := false)), Nop)
    {
      [Bank(banks[0].b2, banks[0].b2, banks[0].b1, banks[0].row),
       Bank(banks[1].b2, banks[1].b2, banks[1].b1, banks[1].row),
       Bank(banks[2].b2, banks[2].b2, banks[2].b1, banks[2].row),
       Bank(banks[3].b2, banks[3].b2, banks[3].b1, banks[3].row)]
    }

    // Lines 311 to 345: close every bank, then refresh.
    method DrainBranch(p0: Pins, bs0: seq<Bank>, cyc: bool) returns (p: Pins, bs: seq<Bank>)
      requires WellFormed(State()) && !startup.mode
      requires p0 == NextPins(State(), Nop, cyc, p0.data, p0.dqm) && bs0 == Shifted()
      ensures p == NextPins(State(), Drain(State()), cyc, p0.data, p0.dqm)
      ensures bs == NextBanks(State(), Drain(State()))
    {
      var b0, b1, b2, b3 := banks[0], banks[1], banks[2], banks[3];
      p, bs := p0, bs0;
      if b0.Opening() || b1.Opening() || b2.Opening() || b3.Opening() || clocksTilIdle > 0 {
      } else if b0.b2 || b1.b2 || b2.b2 || b3.b2 {
        p := Pins(false, false, true, false, p.bs, WithA10(pins.addr, true), p.dmod, p.data, p.dqm);
        bs := [bs[0].(b2 := false), bs[1].(b2 := false), bs[2].(b2 := false), bs[3].(b2 := false)];
      } else if !(b0.Closed() && b1.Closed() && b2.Closed() && b3.Closed()) {
      } else if !timers.inRefresh && (timers.refreshClk < 256 || timers.needRefresh) {
        p := Pins(false, false, false, true, p.bs, p.addr, p.dmod, p.data, p.dqm);
      }
    }

    // Lines 351 to 359, and 424 to 432: open a row of a closed bank.
    method ActivateRow(p0: Pins, bs0: seq<Bank>, k: nat, row: nat) returns (p: Pins, bs: seq<Bank>)
      requires WellFormed(State()) && !startup.mode && k < 4 && banks[k].Closed()
      requires p0 == NextPins(State(), Nop, true, p0.data, p0.dqm) && bs0 == Shifted()
      ensures p == NextPins(State(), Activate(k, row), true, p0.data, p0.dqm)
      ensures bs == NextBanks(State(), Activate(k, row))
    {
      p := Pins(false, false, true, true, k, row, p0.dmod, p0.data, p0.dqm);
      bs := bs0[k := Bank(true, false, false, row)];
    }

    // Lines 364 to 372, and 414 to 420: close one bank.
    method CloseBank(p0: Pins, bs0: seq<Bank>, k: nat) returns (p: Pins, bs: seq<Bank>)
      requires WellFormed(State()) && !startup.mode && k < 4
      requires p0 == NextPins(State(), Nop, true, p0.data, p0.dqm) && bs0 == Shifted()
      ensures p == NextPins(State(), Precharge(k), true, p0.data, p0.dqm)
      ensures bs == NextBanks(State(), Precharge(k))
    {
      p := Pins(false, false, true, false, k, WithA10(pins.addr, false), p0.dmod, p0.data, p0.dqm);
      bs := bs0[k := Bank(false, banks[k].b2, banks[k].b1, banks[k].row)];
    }

    // Lines 349 to 433: serve the pending request, or else get the next bank ready.
    method ServeBranch(p0: Pins, bs0: seq<Bank>) returns (p: Pins, bs: seq<Bank>, read: bool, write: bool)
      requires WellFormed(State()) && !startup.mode
      requires p0 == NextPins(State(), Nop, true, p0.data, p0.dqm) && bs0 == Shifted()
      ensures p == NextPins(State(), Serve(State()), true, p0.data, p0.dqm)
      ensures bs == NextBanks(State(), Serve(State()))
      ensures read == (Serve(State()) == Read) && write == (Serve(State()) == Write)
    {
      hide NextBanks;
      var k, f := BankOf(r.req.addr), FwdBank(r.fwd);
      var pending := r.valid && wbStall;
      p, bs, read, write := p0, bs0, false, false;
      if pending && !r.bankValid && banks[k].Closed() {
        p, bs := ActivateRow(p, bs, k, RowOf(r.req.addr));
      } else if pending && !r.bankValid && banks[k].Open() {
        p, bs := CloseBank(p, bs, k);
      } else if pending && !r.req.we && banks[k].b2 && r.bankValid && clocksTilIdle < 4 {
        p := Pins(false, true, false, true, k, ColOf(r.req.addr), p.dmod, p.data, p.dqm);
        SameBanks(Read);
        read := true;
      } else if pending && r.req.we && banks[k].b2 && r.bankValid && clocksTilIdle == 0 {
        p := Pins(false, true, false, false, k, ColOf(r.req.addr), true, p.data, p.dqm);
        SameBanks(Write);
        write := true;
      } else if r.valid && r.req.addr % 256 >= 0xf0 && !r.fwdValid && banks[f].b2 && banks[f].b1 {
        p, bs := CloseBank(p, bs, f);
      } else if r.valid && r.req.addr % 256 >= 0xf0 && !r.fwdValid && banks[f].Closed() {
        p, bs := ActivateRow(p, bs, f, FwdRow(r.fwd));
      } else {
        SameBanks(Nop);
      }
    }

    lemma {:induction false} SameBanks(c: Command)
      requires WellFormed(State()) && !startup.mode && (c == Read || c == Write || c == Nop)
      ensures NextBanks(State(), c) == Shifted()
    {
    }

    // The block of lines 252 to 437 that drives the command pins and the banks.
    method CommandBlock(bus: Bus, data: Half, dqm: Enable) returns (p: Pins, bs: seq<Bank>, read: bool, write: bool)
      requires WellFormed(State())
      requires dqm == NextDqm(State()) && data == if nxtDmod then r.req.data.lo else r.req.data.hi
      ensures var s := State();
              var c := Decide(s, bus.cyc);
              && p == CommandPins(s, c, bus.cyc) && bs == NextBanks(s, c)
              && read == (c == Read) && write == (c == Write) && (startup.mode ==> c == Nop)
    {
      read, write := false, false;
      if startup.mode {
        bs := [Bank(false, false, false, banks[0].row), Bank(false, false, false, banks[1].row),
               Bank(false, false, false, banks[2].row), Bank(false, false, false, banks[3].row)];
        p := Pins(startup.csN, startup.rasN, startup.casN, startup.weN, pins.bs, startup.addr, false, data, dqm);
      } else {
        bs := Shifted();
        p := Pins(!bus.cyc, true, true, true, pins.bs, pins.addr, nxtDmod, data, dqm);
        if nxtDmod {
        } else if !bus.cyc || timers.needRefresh {
          p, bs := DrainBranch(p, bs, bus.cyc);
        } else if timers.inRefresh {
        } else {
          p, bs, read, write := ServeBranch(p, bs);
        }
      }
    }

    // The acknowledgment barrel, the idle count and the stall line of the same block.
    method HandshakeBlock(bus: Bus, read: bool, write: bool, ghost c: Command) returns (ack: seq<bool>, til: nat, stall: bool)
      requires WellFormed(State()) && read == (c == Read) && write == (c == Write)
      requires startup.mode ==> c == Nop
      ensures var s := State();
              && ack == NextAck(s, c, bus.cyc) && til == NextTilIdle(s, c)
              && stall == (s.startup.mode || (!read && !write && (s.pending || Accepts(s, bus))))
    {
      til := clocksTilIdle;
      if startup.mode {
        ack := [false, false, false, false, false, false];
        stall := true;
        return;
      }
      stall := r.valid || (bus.cyc && bus.stb && !wbStall);
      ack := [rBarrellAck[1], rBarrellAck[2], rBarrellAck[3], rBarrellAck[4], rBarrellAck[5], false];
      if clocksTilIdle > 0 { til := clocksTilIdle - 1; }
      if read { til, stall, ack := 4, false, ack[5 := true]; }
      if write { til, stall, ack := 1, false, ack[1 := true]; }
      if !bus.cyc { ack := [false, false, false, false, false, false]; }
    }

    // Lines 183 to 215: the pending request and the two look-ups.
    method RequestBlock(bus: Bus) returns (p: Pending)
      requires WellFormed(State())
      ensures var s := State();
              && p.valid == (Accepts(s, bus) || (s.pending && !s.pins.IsTransfer() && bus.cyc))
              && p.req == (if Accepts(s, bus) then bus.req else s.req)
              && p.fwd == (if Accepts(s, bus) then NextFwd(bus.req.addr) else s.fwd)
              && p.bankValid == RowMatch(s, p.req.addr)
              && p.fwdValid == (s.banks[FwdBank(s.fwd)].b2 && s.banks[FwdBank(s.fwd)].row == FwdRow(s.fwd))
    {
      var valid, req, fwd := r.valid, r.req, r.fwd;
      if bus.cyc && bus.stb && !wbStall {
        valid, req, fwd := true, bus.req, NextFwd(bus.req.addr);
      } else if !pins.csN && pins.rasN && !pins.casN {
        valid := false;
      } else if !bus.cyc {
        valid := false;
      }
      var look, fwdLook := banks[BankOf(req.addr)], banks[FwdBank(r.fwd)];
      p := Pending(valid, req, fwd, look.b2 && look.row == RowOf(req.addr),
                   fwdLook.b2 && fwdLook.row == FwdRow(r.fwd));
    }

    // Lines 530 to 546: the data pins and their mask.
    method DataBlock() returns (data: Half, dqm: Enable)
      requires WellFormed(State())
      ensures dqm == NextDqm(State()) && data == if nxtDmod then r.req.data.lo else r.req.data.hi
    {
      data := if nxtDmod then r.req.data.lo else r.req.data.hi;
      dqm := Enable(false, false);
      if startup.mode {
        dqm := Enable(true, true);
      } else if r.req.we {
        dqm := if nxtDmod then Enable(!r.req.selLo.hi, !r.req.selLo.lo) else Enable(!r.req.selHi.hi, !r.req.selHi.lo);
      }
    }

    // Lines 119 to 140: the refresh timers.
    method TimerBlock() returns (t: Timers)
      ensures var refresh := pins.IsRefresh();
              && t.refreshClk == (if refresh then REFRESH_PERIOD else if timers.refreshClk > 0 then timers.refreshClk - 1 else 0)
              && t.inRefreshClk == (if refresh then 6 else if timers.inRefreshClk > 0 then timers.inRefreshClk - 1 else 0)
              && t.needRefresh == (timers.refreshClk == 0 && !refresh)
              && t.inRefresh == (timers.inRefreshClk > 0 || refresh)
    {
      var refreshCmd := !pins.csN && !pins.rasN && !pins.casN && pins.weN;
      var rclk, irclk := timers.refreshClk, timers.inRefreshClk;
      if refreshCmd { rclk := REFRESH_PERIOD; } else if rclk > 0 { rclk := rclk - 1; }
      if refreshCmd { irclk := 6; } else if irclk > 0 { irclk := irclk - 1; }
      t := Timers(rclk, timers.refreshClk == 0 && !refreshCmd, irclk, timers.inRefreshClk > 0 || refreshCmd);
    }

    // Lines 439 to 530: wait, precharge all, refresh, set the mode.
    method StartupBlock() returns (m: Startup)
      ensures m == NextStartup(startup)
    {
      var idle, hold := startup.idle, startup.idle > 0;
      if hold { idle := idle - 1; }
      var mode, phase, clocks, zero := startup.mode, startup.phase, startup.clocks, startup.zero;
      if !zero {
        clocks := (clocks + 15) % 16;
        zero := startup.clocks == 1;
      }
      var csN, rasN, casN, weN, addr := false, true, true, true, MODE_WORD;
      if phase == PowerUp {
        if !startup.hold {
          phase, clocks, zero := InitialRefresh, 10, false;
          rasN, weN, addr := false, false, WithA10(addr, true);
        }
      } else if phase == InitialRefresh {
        rasN, casN := false, false;
        if startup.zero {
          phase, weN := SetMode, false;
          clocks, zero := 2, false;
        }
      } else {
        csN, rasN, casN, weN := true, false, false, false;
        if startup.zero { mode := false; }
      }
      m := Startup(idle, hold, mode, clocks, zero, phase, csN, rasN, casN, weN, addr);
    }

    // What every register is about to become.
    method NextState(bus: Bus, ramData: Half) returns (t: Ctrl)
      requires WellFormed(State())
      ensures t == Step(State(), bus, ramData)
    {
      hide Decide, NextAck, NextTilIdle, CommandPins, NextBanks, NextDqm, RowMatch, NextStartup;
      var data, dqm := DataBlock();
      var p, bs, read, write := CommandBlock(bus, data, dqm);
      var ack, til, stall := HandshakeBlock(bus, read, write, Decide(State(), bus.cyc));
      var next := RequestBlock(bus);
      var c := TimerBlock();
      var m := StartupBlock();
      t := Ctrl(p, c.refreshClk, c.needRefresh, c.inRefreshClk, c.inRefresh, bs, ack, next.valid, next.req, next.fwd,
                next.bankValid, next.fwdValid, til, write, stall, m, ramData);
    }

    // The clock edge: every register takes its next value at once.
    method Latch(t: Ctrl)
      modifies this
      ensures State() == t
    {
      pins, banks, rBarrellAck, startup, lastRamData := t.pins, t.banks, t.ack, t.startup, t.last;
      timers := Timers(t.refreshClk, t.needRefresh, t.inRefreshClk, t.inRefresh);
      r := Pending(t.pending, t.req, t.fwd, t.bankValid, t.fwdValid);
      clocksTilIdle, nxtDmod, wbStall := t.tilIdle, t.nxtDmod, t.stall;
    }

    method Clock(bus: Bus, ramData: Half)
      requires WellFormed(State())
      modifies this
      ensures State() == Step(old(State()), bus, ramData)
    {
      var t := NextState(bus, ramData);
      hide Step, State;
      Latch(t);
    }
  }
}
