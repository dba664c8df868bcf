// The memory chip of bench/cpp/sdramsim.cpp as the object that the simulator keeps, called once a clock.  The simulator
// gives the data of a read three calls after the command, and so stands for the chip, with its latency of two, and the
// first of the two input latches behind it.
module SdramSim {
  import opened SdramController
  import opened SdramChip

  class Sdramsim {
    var pwrup: nat
    var clocksTillIdle: nat
    var bankStatus: seq<Bank>
    var bankOpenTime: seq<int>
    var mem: map<nat, Half>
    var qdata: seq<Drive>          // m_qdata from m_qloc on
    var nextWr: Beat
    var passed: bool               // false once an assertion of the simulator has failed

    ghost function State(): Chip
      reads this
    {
      Chip(pwrup, clocksTillIdle, bankStatus, bankOpenTime, mem, if |qdata| == 5 then qdata[1..] else [], nextWr, passed)
    }

    constructor (contents: map<nat, Half>)
      ensures InitialChip(State()) && mem == contents
    {
      var closed := Bank(false, false, false, 0);
      pwrup, clocksTillIdle, passed, nextWr, mem := 0, POWER_UP_WAIT, true, NoBeat, contents;
      bankStatus, bankOpenTime := [closed, closed, closed, closed], [0, 0, 0, 0];
      qdata := [Quiet, Quiet, Quiet, Quiet, Quiet];
    }

    // Lines 25 to 84: wait, precharge, eight refreshes, mode.
    method Climb(p: Pins) returns (next: nat, wait: nat, fine: bool)
      requires ChipFormed(State()) && pwrup < POWERED_UP
      ensures PowerUpStep(State(), p)
              == State().(power := next, wait := wait, ok := passed && fine, beat2 := NoBeat,
                          q := [qdata[2], qdata[3], qdata[4], Quiet])
    {
      hide A10;
      fine := p.dqm == Enable(true, true);
      wait := if clocksTillIdle > 0 then clocksTillIdle - 1 else 0;
      next := pwrup;
      if pwrup == 0 {
        fine := fine && p.rasN && p.casN && p.weN;
        if wait == 0 { next := 1; }
      } else if pwrup == 1 {
        if p.IsPrecharge() && A10(p.addr) { next, wait := 2, 8; }
      } else if pwrup == 2 {
        if wait == 0 { next := 3; } else { fine := fine && p.IsRefresh(); }
      } else if pwrup == 3 {
        if p.IsModeSet() {
          fine := fine && p.addr == MODE_WORD;
          next, wait := 4, 2;
        }
      } else {
        fine := fine && p.csN;
        next := if wait == 0 then POWERED_UP else 4;
      }
    }

    method PowerUp(p: Pins)
      requires ChipFormed(State()) && pwrup < POWERED_UP
      modifies this
      ensures State() == Consume(old(State()), p)
    {
      assert Consume(State(), p) == PowerUpStep(State(), p);
      hide Consume, PowerUpStep;
      ghost var c := State();
      var next, wait, fine := Climb(p);
      pwrup, clocksTillIdle, passed := next, wait, passed && fine;
      qdata, nextWr := [qdata[1], qdata[2], qdata[3], qdata[4], Quiet], NoBeat;
      assert State() == c.(power := next, wait := wait, ok := c.ok && fine, beat2 := NoBeat,
                           q := [c.q[1], c.q[2], c.q[3], Quiet]);
    }

    // Lines 90 to 100: every bank's status moves on, and an open bank must not stay open too long.
    method AgeBanks() returns (fine: bool)
      requires ChipFormed(State())
      modifies `bankStatus, `bankOpenTime
      ensures bankStatus == [Shift(old(bankStatus[0])), Shift(old(bankStatus[1])), Shift(old(bankStatus[2])),
                             Shift(old(bankStatus[3]))]
      ensures |bankOpenTime| == 4
      ensures forall k :: 0 <= k < 4 ==>
                bankOpenTime[k] == if bankStatus[k].b0 then old(bankOpenTime[k]) - 1 else old(bankOpenTime[k])
      ensures fine <==> forall k :: 0 <= k < 4 && bankStatus[k].b0 ==> old(bankOpenTime[k]) > 0
    {
      fine := true;
      ghost var banks, times := bankStatus, bankOpenTime;
      for i := 0 to 4
        invariant |bankStatus| == 4 && |bankOpenTime| == 4
        invariant forall k :: 0 <= k < 4 ==>
                    if k < i then bankStatus[k] == Shift(banks[k])
                                  && bankOpenTime[k] == (if bankStatus[k].b0 then times[k] - 1 else times[k])
                    else bankStatus[k] == banks[k] && bankOpenTime[k] == times[k]
        invariant fine <==> forall k :: 0 <= k < i && bankStatus[k].b0 ==> times[k] > 0
      {
        bankStatus := bankStatus[i := Shift(bankStatus[i])];
        if bankStatus[i].b0 {
          bankOpenTime := bankOpenTime[i := bankOpenTime[i] - 1];
          fine := fine && bankOpenTime[i] >= 0;
        }
      }
    }

    // Lines 146 to 173: precharge and activate.
    method ChangeBanks(p: Pins)
      requires ChipFormed(State())
      modifies `bankStatus, `bankOpenTime
      ensures bankStatus == [Obey(0, old(bankStatus[0]), p), Obey(1, old(bankStatus[1]), p),
                             Obey(2, old(bankStatus[2]), p), Obey(3, old(bankStatus[3]), p)]
      ensures |bankOpenTime| == 4
      ensures forall k :: 0 <= k < 4 ==>
                bankOpenTime[k] == if p.IsActivate() && p.bs == k then MAX_OPEN_TIME else old(bankOpenTime[k])
    {
      if p.IsPrecharge() {
        if A10(p.addr) {
          bankStatus := [bankStatus[0].(b2 := false), bankStatus[1].(b2 := false), bankStatus[2].(b2 := false),
                         bankStatus[3].(b2 := false)];
        } else if p.bs < 4 {
          bankStatus := bankStatus[p.bs := bankStatus[p.bs].(b2 := false)];
        }
      } else if p.IsActivate() && p.bs < 4 {
        bankStatus := bankStatus[p.bs := bankStatus[p.bs].(b2 := true, row := p.addr)];
        bankOpenTime := bankOpenTime[p.bs := MAX_OPEN_TIME];
      }
    }

    // Lines 113 to 131, and 174 to 224: the second beat of a write, the data to come, and a new transfer.
    method MoveData(p: Pins, row: nat)
      requires |qdata| == 5
      modifies `mem, `qdata, `nextWr
      ensures var m1 := if old(nextWr).Beat? then Put(old(mem), old(nextWr).at, p.data, p.dqm) else old(mem);
              var at := if p.bs < 4 then Linear(row, p.bs, p.addr) else 0;
              && mem == (if p.IsWrite() then Put(m1, at, p.data, p.dqm) else m1)
              && qdata == [old(qdata[1]), old(qdata[2]), old(qdata[3]),
                           if p.dqm.hi || p.dqm.lo then Quiet
                           else if p.IsRead() then Driven(At(m1, at)) else old(qdata[4]),
                           if p.IsRead() then Driven(At(m1, at + 1)) else Quiet]
              && nextWr == if p.IsWrite() then Beat(at + 1) else NoBeat
    {
      if nextWr.Beat? { mem := Put(mem, nextWr.at, p.data, p.dqm); }
      nextWr := NoBeat;
      var at := if p.bs < 4 then Linear(row, p.bs, p.addr) else 0;
      var third, fourth := qdata[4], Quiet;
      if p.IsWrite() {
        mem := Put(mem, at, p.data, p.dqm);
        nextWr := Beat(at + 1);
      } else if p.IsRead() {
        third, fourth := Driven(At(mem, at)), Driven(At(mem, at + 1));
      }
      if p.dqm.hi || p.dqm.lo { third := Quiet; }
      qdata := [qdata[1], qdata[2], qdata[3], third, fourth];
    }

    // The banks' status moves on, and the command is checked against it.
    method Check(p: Pins)
      requires ChipFormed(State())
      modifies `bankStatus, `bankOpenTime, `passed
      ensures bankStatus == [Shift(old(bankStatus[0])), Shift(old(bankStatus[1])), Shift(old(bankStatus[2])),
                             Shift(old(bankStatus[3]))]
      ensures |bankOpenTime| == 4
      ensures forall k :: 0 <= k < 4 ==>
                bankOpenTime[k] == if bankStatus[k].b0 then old(bankOpenTime[k]) - 1 else old(bankOpenTime[k])
      ensures passed == (old(passed) && Legal(bankStatus, old(bankOpenTime), qdata[2], p))
    {
      hide Legal, Allowed, Shift;
      ghost var times := bankOpenTime;
      var fine := AgeBanks();
      AllowedIsLegal(bankStatus, times, qdata[2], p, fine);
      passed := passed && fine && Allowed(bankStatus, p) && (p.dmod ==> qdata[2].Quiet?);
    }

    // Lines 86 to 236: one clock of a chip in operation.
    method Run(p: Pins) returns (result: Drive)
      requires ChipFormed(State()) && pwrup == POWERED_UP && clocksTillIdle == 0
      modifies this
      ensures State() == Consume(old(State()), p)
      ensures result == if p.dmod then Driven(p.data) else old(State()).q[0]
    {
      hide Consume, Put, Linear, Obey, At, Legal, OpenTime, Shift;
      hide Pins.IsRead, Pins.IsWrite, Pins.IsActivate;
      ghost var c := State();
      result := if p.dmod then Driven(p.data) else qdata[1];
      Check(p);
      ghost var b := bankStatus;
      var row := if p.bs < 4 then bankStatus[p.bs].row else 0;
      MoveData(p, row);
      ChangeBanks(p);
      Opened(b, c.openTime, bankOpenTime, p);
      RunningStep(c, b, row, p);
    }

    // One clock of the chip, and what the data pins carry on it.
    method Operator(p: Pins) returns (result: Drive)
      requires ChipFormed(State()) && pwrup <= POWERED_UP && (pwrup == POWERED_UP ==> clocksTillIdle == 0)
      modifies this
      ensures State() == Consume(old(State()), p)
      ensures result == if p.dmod then Driven(p.data) else if old(pwrup) < POWERED_UP then Quiet else old(State()).q[0]
    {
      if pwrup < POWERED_UP {
        result := if p.dmod then Driven(p.data) else Quiet;
        PowerUp(p);
      } else {
        result := Run(p);
      }
    }
  }

  lemma {:induction false} RunningStep(c: Chip, b: seq<Bank>, row: nat, p: Pins)
    requires ChipFormed(c) && c.power == POWERED_UP
    requires b == [Shift(c.banks[0]), Shift(c.banks[1]), Shift(c.banks[2]), Shift(c.banks[3])]
    requires row == if p.bs < 4 then b[p.bs].row else 0
    ensures var m1 := if c.beat2.Beat? then Put(c.mem, c.beat2.at, p.data, p.dqm) else c.mem;
            var at := if p.bs < 4 then Linear(row, p.bs, p.addr) else 0;
            var d := Consume(c, p);
            && d.power == POWERED_UP && d.wait == 0
            && d.banks == [Obey(0, b[0], p), Obey(1, b[1], p), Obey(2, b[2], p), Obey(3, b[3], p)]
            && d.openTime == [OpenTime(0, b[0], c.openTime[0], p), OpenTime(1, b[1], c.openTime[1], p),
                              OpenTime(2, b[2], c.openTime[2], p), OpenTime(3, b[3], c.openTime[3], p)]
            && d.mem == (if p.IsWrite() then Put(m1, at, p.data, p.dqm) else m1)
            && d.q == [c.q[1], c.q[2],
                       if p.dqm.hi || p.dqm.lo then Quiet else if p.IsRead() then Driven(At(m1, at)) else c.q[3],
                       if p.IsRead() then Driven(At(m1, at + 1)) else Quiet]
            && d.beat2 == (if p.IsWrite() then Beat(at + 1) else NoBeat)
            && d.ok == (c.ok && Legal(b, c.openTime, c.q[1], p))
  {
    hide Put, Linear, Obey, At, Legal, PowerUpStep, OpenTime;
  }

  lemma {:induction false} Opened(b: seq<Bank>, was: seq<int>, now: seq<int>, p: Pins)
    requires |b| == 4 && |was| == 4 && |now| == 4
    requires forall k :: 0 <= k < 4 ==>
               now[k] == if p.IsActivate() && p.bs == k then MAX_OPEN_TIME else if b[k].b0 then was[k] - 1 else was[k]
    ensures now == [OpenTime(0, b[0], was[0], p), OpenTime(1, b[1], was[1], p), OpenTime(2, b[2], was[2], p),
                    OpenTime(3, b[3], was[3], p)]
  {
  }

  // The assertions of lines 136 to 236 on a command, given the banks' status.
  predicate Allowed(b: seq<Bank>, p: Pins)
    requires |b| == 4
  {
    if p.IsRefresh() then !b[0].b2 && !b[0].b1 && !b[1].b2 && !b[1].b1 && !b[2].b2 && !b[2].b1 && !b[3].b2 && !b[3].b1
    else if p.IsPrecharge() then A10(p.addr) || p.bs < 4
    else if p.IsActivate() then p.bs < 4 && b[p.bs].Closed()
    else if p.IsTransfer() then p.bs < 4 && b[p.bs].b0 && p.dmod == p.IsWrite()
    else p.csN || (p.rasN && p.casN && p.weN)
  }

  // A legal command is one that the simulator allows, and that does not drive the data pins when the chip does: the
  // simulator has no assertion for that.
  lemma {:induction false} AllowedIsLegal(b: seq<Bank>, t: seq<int>, q: Drive, p: Pins, fine: bool)
    requires |b| == 4 && |t| == 4 && (fine <==> forall k :: 0 <= k < 4 && b[k].b0 ==> t[k] > 0)
    ensures fine && Allowed(b, p) && (p.dmod ==> q.Quiet?) <==> Legal(b, t, q, p)
  {
  }
}
