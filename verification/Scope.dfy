// The run-length compressed logic scope of rtl/wbscopc.v, on its data clock.
module Scope {
  // Thirty-one bits, under a bit that says whether they are a run length or data.
  type Low = v: nat | v < 0x8000_0000
  datatype Entry = Entry(adr: bool, val: Low)

  // The parameters: the steps a counter of STEP_BITS bits can take, MAX_STEP, and the size of the memory.
  datatype Config = Config(wrap: nat, maxStep: nat, size: nat)
  predicate Good(g: Config) { 1 <= g.maxStep < g.wrap <= 0x8000_0000 && g.size > 0 }

  // dr_triggered, holdoff_counter, dr_stopped, dr_stop_pipe and dr_primed
  datatype Control = Control(triggered: bool, holdoff: nat, stopped: bool, stopPipe: seq<bool>, primed: bool)

  // ck_addr, qd_data, dr_force_write, dr_force_inhibit, dr_run_timeout and new_data
  datatype Runs = Runs(ck: nat, qd: Low, force: bool, inhibit: bool, timeout: bool, changed: bool)

  // imm_*, lst_*, record_ce and r_data
  datatype Words = Words(imm: Entry, lst: Entry, record: bool, data: Entry)

  datatype Memory = Memory(waddr: nat, mem: seq<Entry>)

  datatype Regs = Regs(c: Control, r: Runs, w: Words, m: Memory)

  datatype In = In(reset: bool, ce: bool, trigger: bool, manual: bool, disable: bool, holdoff: nat, data: Low)

  predicate Formed(g: Config, s: Regs) {
    Good(g) && |s.c.stopPipe| == 5 && |s.m.mem| == g.size && s.m.waddr < g.size && s.r.ck < g.wrap
  }

  predicate Triggers(c: Control, i: In) { c.primed && ((i.trigger && !i.disable) || i.manual) }

  const HOLDOFFS := 0x10_0000

  function ControlStep(g: Config, c: Control, w: Words, m: Memory, i: In): (d: Control)
    requires |c.stopPipe| == 5
    ensures |d.stopPipe| == 5
  {
    Control(
      if i.reset then false else c.triggered || (i.ce && Triggers(c, i)),
      if i.reset then 0 else if i.ce && c.triggered && !c.stopped then (c.holdoff + 1) % HOLDOFFS else c.holdoff,
      if !c.triggered || i.reset then false else if i.ce && !c.stopped then c.holdoff >= i.holdoff else c.stopped,
      if i.reset then [false, false, false, false, false]
      else if i.ce then [c.stopped] + c.stopPipe[..4]
      else c.stopPipe,
      if i.reset then false else c.primed || (w.record && m.waddr == g.size - 1))
  }

  // A data word is due: new data, a forced write, or the end.
  predicate Data(s: Regs) { s.r.changed || s.r.force || s.c.stopped }

  function Up(ck: nat, wrap: nat): (r: nat)
    requires wrap > 0
    ensures r < wrap && (ck + 1 < wrap ==> r == ck + 1)
  {
    (ck + 1) % wrap
  }

  function RunsStep(g: Config, s: Regs, i: In): (r: Runs)
    requires Good(g) && s.r.ck < g.wrap
    ensures r.ck < g.wrap
  {
    var r := s.r;
    if i.reset then Runs(0, if i.ce then i.data else r.qd, true, false, true, true)
    else if !i.ce then r
    else
      Runs(if Data(s) then 0 else Up(r.ck, g.wrap),
           i.data,
           (r.timeout && !r.force && !r.inhibit) || (Triggers(s.c, i) && !s.c.triggered) || !s.c.primed,
           r.force,
           r.ck >= g.maxStep - 1,
           i.data != r.qd)
  }

  const BLANK := Entry(true, 0)

  // Two run lengths in a row: the first is overtaken by the second.
  predicate Overtaken(w: Words) { w.lst.adr && w.imm.adr }

  function WordsStep(g: Config, s: Regs, i: In): Words
    requires Good(g) && s.r.ck < g.wrap && |s.c.stopPipe| == 5
  {
    var w := s.w;
    var record := i.ce && !Overtaken(w) && !s.c.stopPipe[2];
    var data := if Overtaken(w) then Entry(false, s.r.qd) else w.lst;
    if i.reset then Words(BLANK, BLANK, record, data)
    else if !i.ce then Words(w.imm, w.lst, record, data)
    else Words(if Data(s) then Entry(false, s.r.qd) else Entry(true, s.r.ck), w.imm, record, data)
  }

  function MemoryStep(g: Config, m: Memory, w: Words, i: In): (n: Memory)
    requires g.size > 0 && m.waddr < g.size && |m.mem| == g.size
    ensures n.waddr < g.size && |n.mem| == g.size
  {
    Memory(if i.reset then 0 else if w.record then (m.waddr + 1) % g.size else m.waddr,
           if w.record then m.mem[m.waddr := w.data] else m.mem)
  }

  function Step(g: Config, s: Regs, i: In): (t: Regs)
    requires Formed(g, s)
    ensures Formed(g, t)
  {
    Regs(ControlStep(g, s.c, s.w, s.m, i), RunsStep(g, s, i), WordsStep(g, s, i), MemoryStep(g, s.m, s.w, i))
  }

  // What the software counts and prints, sw/scopecls.cpp.

  // How many samples a word stands for.
  function Span(e: Entry): nat { if e.adr then e.val + 1 else 1 }

  function Spans(ws: seq<Entry>): nat { if ws == [] then 0 else Span(ws[0]) + Spans(ws[1..]) }
}
