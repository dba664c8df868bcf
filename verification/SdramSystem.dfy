// Controller, input latches and chip together, with a scoreboard that watches the bus and the command pins.
module SdramSystem {
  import opened SdramController
  import opened SdramChip

  // A transfer whose command has been on the pins for age clocks and whose acknowledgment is still to come.
  // For a read, promise is what the memory held when the command was given.
  datatype Op = Op(req: Request, promise: Word, age: nat)

  datatype Scoreboard = Scoreboard(waiting: seq<Request>, issued: seq<Op>, mem: map<nat, Word>)

  datatype Sys = Sys(ctrl: Ctrl, chip: Chip, ext: Half, ram: Half, board: Scoreboard)

  // What the outside supplies on one clock: the bus, and the level of data pins that nobody drives.
  datatype Input = Input(bus: Bus, float: Half)

  predicate Formed(s: Sys) { WellFormed(s.ctrl) && ChipFormed(s.chip) }

  function ReadWord(m: map<nat, Word>, a: nat): Word { if a in m then m[a] else Word(ZERO, ZERO) }

  function MergeHalf(was: Half, next: Half, sel: Enable): Half {
    Half(if sel.hi then next.hi else was.hi, if sel.lo then next.lo else was.lo)
  }

  // The Wishbone meaning of a write: the selected bytes change and nothing else does.
  function Apply(m: map<nat, Word>, r: Request): map<nat, Word> {
    var was := ReadWord(m, r.addr);
    m[r.addr := Word(MergeHalf(was.hi, r.data.hi, r.selHi), MergeHalf(was.lo, r.data.lo, r.selLo))]
  }

  // Clocks from the command to the acknowledgment: five for a read, one for a write.
  function Delay(r: Request): int { if r.we then 1 else 5 }
  function Due(op: Op): int { Delay(op.req) - op.age }

  function Aged(ops: seq<Op>): (r: seq<Op>)
    ensures |r| == |ops|
    ensures forall i :: 0 <= i < |ops| ==> r[i] == ops[i].(age := ops[i].age + 1)
  {
    seq(|ops|, i requires 0 <= i < |ops| => ops[i].(age := ops[i].age + 1))
  }

  // From the bus signals of one clock, the acknowledgment on it, and the command pins on the next.
  function Observe(sb: Scoreboard, b: Bus, stall: bool, ack: bool, p: Pins): Scoreboard {
    var left := if !b.cyc then [] else if ack && |sb.issued| > 0 then sb.issued[1..] else sb.issued;
    var due := if !b.cyc then [] else if b.stb && !stall then sb.waiting + [b.req] else sb.waiting;
    if p.IsTransfer() && |due| > 0 then
      var op := Op(due[0], ReadWord(sb.mem, due[0].addr), 0);
      Scoreboard(due[1..], Aged(left) + [op], if due[0].we then Apply(sb.mem, due[0]) else sb.mem)
    else
      Scoreboard(due, Aged(left), sb.mem)
  }

  function DataPins(s: Sys, float: Half): Half
    requires Formed(s)
  {
    if s.ctrl.pins.dmod then s.ctrl.pins.data else if s.chip.q[0].Driven? then s.chip.q[0].data else float
  }

  function BusData(s: Sys): Word { Word(s.ctrl.last, s.ram) }
  predicate Acked(s: Sys) requires Formed(s) { s.ctrl.ack[0] }

  function SysStep(s: Sys, i: Input): (t: Sys)
    requires Formed(s)
    ensures Formed(t)
  {
    SysStepWith(s, Decide(s.ctrl, i.bus.cyc), i)
  }

  function SysStepWith(s: Sys, d: Command, i: Input): (t: Sys)
    requires Formed(s)
    ensures Formed(t)
  {
    var c := StepWith(s.ctrl, d, i.bus, s.ram);
    Sys(c, Consume(s.chip, c.pins), DataPins(s, i.float), s.ext,
        Observe(s.board, i.bus, s.ctrl.stall, s.ctrl.ack[0], c.pins))
  }

  function Run(s: Sys, ins: seq<Input>): (t: Sys)
    requires Formed(s)
    ensures Formed(t)
    decreases |ins|
  {
    if ins == [] then s else Run(SysStep(s, ins[0]), ins[1..])
  }

  function ChipWord(m: map<nat, Half>, a: nat): Word { Word(At(m, 2 * a), At(m, 2 * a + 1)) }

  ghost predicate InitialSys(s: Sys) {
    && Initial(s.ctrl) && InitialChip(s.chip)
    && s.board.waiting == [] && s.board.issued == []
    && forall a: Addr :: ReadWord(s.board.mem, a) == ChipWord(s.chip.mem, a)
  }
}
