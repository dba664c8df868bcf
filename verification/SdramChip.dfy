// The memory chip as bench/cpp/sdramsim.cpp monitors it: a power-up protocol, four banks, a burst of two,
// and a CAS latency of two.  Unlike the simulator, the byte masks count on both beats of a write, and on
// reads as well.  The flag ok falls, and stays down, when one of the simulator's checks fails.
module SdramChip {
  import opened SdramController

  datatype Drive = Quiet | Driven(data: Half)
  datatype Beat = NoBeat | Beat(at: nat)
  datatype Chip = Chip(power: nat, wait: nat, banks: seq<Bank>, openTime: seq<int>,
                       mem: map<nat, Half>, q: seq<Drive>, beat2: Beat, ok: bool)

  const POWERED_UP := 6
  const POWER_UP_WAIT := 20000
  const MAX_OPEN_TIME := 10000
  const ZERO := Half(0, 0)

  predicate ChipFormed(c: Chip) { |c.banks| == 4 && |c.openTime| == 4 && |c.q| == 4 }

  function At(m: map<nat, Half>, k: nat): Half { if k in m then m[k] else ZERO }

  // A byte whose mask is high keeps its old value.
  function Masked(was: Half, next: Half, dqm: Enable): Half {
    Half(if dqm.hi then was.hi else next.hi, if dqm.lo then was.lo else next.lo)
  }

  function Put(m: map<nat, Half>, k: nat, data: Half, dqm: Enable): map<nat, Half> {
    m[k := Masked(At(m, k), data, dqm)]
  }

  // Rows, banks and columns form one address as the simulator forms it.
  function Linear(row: nat, bank: nat, col: nat): nat { (row * 4 + bank) * 512 + col % 512 }

  function Shift(b: Bank): Bank { Bank(b.b2, b.b2, b.b1, b.row) }

  function PowerUpStep(c: Chip, p: Pins): (d: Chip)
    requires ChipFormed(c)
    ensures ChipFormed(d)
  {
    var wait := if c.wait > 0 then c.wait - 1 else 0;
    var e := c.(wait := wait, beat2 := NoBeat, q := [c.q[1], c.q[2], c.q[3], Quiet], ok := c.ok && p.dqm == Enable(true, true));
    if c.power == 0 then
      e.(power := if wait == 0 then 1 else 0, ok := e.ok && p.rasN && p.casN && p.weN)
    else if c.power == 1 then
      if p.IsPrecharge() && A10(p.addr) then e.(power := 2, wait := 8) else e
    else if c.power == 2 then
      if wait == 0 then e.(power := 3) else e.(ok := e.ok && p.IsRefresh())
    else if c.power == 3 then
      if p.IsModeSet() then e.(power := 4, wait := 2, ok := e.ok && p.addr == MODE_WORD) else e
    else
      e.(power := if wait == 0 then POWERED_UP else 4, ok := e.ok && p.csN)
  }

  function Obey(k: nat, b: Bank, p: Pins): Bank {
    if p.IsPrecharge() && (A10(p.addr) || p.bs == k) then b.(b2 := false)
    else if p.IsActivate() && p.bs == k then b.(b2 := true, row := p.addr)
    else b
  }

  function OpenTime(k: nat, b: Bank, t: int, p: Pins): int {
    if p.IsActivate() && p.bs == k then MAX_OPEN_TIME else if b.b0 then t - 1 else t
  }

  // The checks of normal operation, on the bank states as they are when the command arrives.
  predicate Legal(b: seq<Bank>, t: seq<int>, q: Drive, p: Pins)
    requires |b| == 4 && |t| == 4
  {
    && (forall k :: 0 <= k < 4 && b[k].b0 ==> t[k] > 0)
    && (p.IsRefresh() ==> forall k :: 0 <= k < 4 ==> !b[k].b2 && !b[k].b1)
    && (p.IsActivate() ==> p.bs < 4 && b[p.bs].Closed())
    && (p.IsPrecharge() ==> p.bs < 4 || A10(p.addr))
    && (p.IsTransfer() ==> p.bs < 4 && b[p.bs].b0 && p.dmod == p.IsWrite())
    && !p.IsModeSet()
    && (p.IsIdle() || p.IsRefresh() || p.IsActivate() || p.IsPrecharge() || p.IsTransfer())
    && (p.dmod ==> q.Quiet?)
  }

  // One clock of the chip, with the pins as they stand on that clock.  q[k] is what the chip will be
  // driving k clocks from now.
  function Consume(c: Chip, p: Pins): (d: Chip)
    requires ChipFormed(c)
    ensures ChipFormed(d)
  {
    if c.power < POWERED_UP then PowerUpStep(c, p) else
    var b := [Shift(c.banks[0]), Shift(c.banks[1]), Shift(c.banks[2]), Shift(c.banks[3])];
    var m1 := if c.beat2.Beat? then Put(c.mem, c.beat2.at, p.data, p.dqm) else c.mem;
    var at := if p.bs < 4 then Linear(b[p.bs].row, p.bs, p.addr) else 0;
    var q2 := if p.IsRead() then Driven(At(m1, at)) else c.q[3];
    Chip(POWERED_UP, 0,
         [Obey(0, b[0], p), Obey(1, b[1], p), Obey(2, b[2], p), Obey(3, b[3], p)],
         [OpenTime(0, b[0], c.openTime[0], p), OpenTime(1, b[1], c.openTime[1], p),
          OpenTime(2, b[2], c.openTime[2], p), OpenTime(3, b[3], c.openTime[3], p)],
         if p.IsWrite() then Put(m1, at, p.data, p.dqm) else m1,
         [c.q[1], c.q[2],
          if p.dqm.hi || p.dqm.lo then Quiet else q2,
          if p.IsRead() then Driven(At(m1, at + 1)) else Quiet],
         if p.IsWrite() then Beat(at + 1) else NoBeat,
         c.ok && Legal(b, c.openTime, c.q[1], p))
  }

  predicate InitialChip(c: Chip) {
    && ChipFormed(c) && c.power == 0 && c.wait == POWER_UP_WAIT && c.ok && c.beat2.NoBeat?
    && c.q == [Quiet, Quiet, Quiet, Quiet]
    && (forall k :: 0 <= k < 4 ==> c.banks[k].Closed())
  }
}
