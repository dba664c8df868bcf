// The clocked blocks of rtl/wbscopc.v on the data clock, statement by statement.
module ScopeRtl {
  import opened Scope

  class Wbscopc {
    const g: Config
    var c: Control
    var r: Runs
    var w: Words
    var waddr: nat
    const mem: array<Entry>

    ghost predicate Valid()
      reads this
    {
      Good(g) && mem.Length == g.size && |c.stopPipe| == 5 && waddr < g.size && r.ck < g.wrap
    }

    ghost function State(): Regs
      reads this, mem
    {
      Regs(c, r, w, Memory(waddr, mem[..]))
    }

    constructor (config: Config)
      requires Good(config)
      ensures g == config && Valid() && fresh(mem)
      ensures !c.triggered && c.holdoff == 0 && !c.stopped && !c.primed && r.ck == 0 && !r.force && waddr == 0
      ensures w.imm.adr && w.lst.adr && !w.record
    {
      g := config;
      c := Control(false, 0, false, [false, false, false, false, false], false);
      r := Runs(0, 0, false, false, false, false);
      w := Words(BLANK, BLANK, false, BLANK);
      waddr := 0;
      mem := new Entry[config.size](_ => BLANK);
    }

    // Lines 181 to 221, and 366 to 376.
    method ControlBlocks(i: In) returns (d: Control)
      requires Valid()
      ensures d == ControlStep(g, c, w, State().m, i)
    {
      d := c;
      if i.reset { d := d.(triggered := false); }
      else if i.ce && c.primed && ((i.trigger && !i.disable) || i.manual) { d := d.(triggered := true); }
      if i.reset { d := d.(holdoff := 0); }
      else if i.ce && c.triggered && !c.stopped { d := d.(holdoff := (c.holdoff + 1) % HOLDOFFS); }
      if !c.triggered || i.reset { d := d.(stopped := false); }
      else if i.ce && !c.stopped { d := d.(stopped := c.holdoff >= i.holdoff); }
      if i.reset { d := d.(stopPipe := [false, false, false, false, false]); }
      else if i.ce { d := d.(stopPipe := [c.stopped] + c.stopPipe[..4]); }
      if i.reset { d := d.(primed := false); }
      else if w.record { d := d.(primed := c.primed || waddr == g.size - 1); }
    }

    // Lines 252 to 296.
    method RunsBlocks(i: In) returns (n: Runs)
      requires Valid()
      ensures n == RunsStep(g, State(), i)
    {
      n := r;
      if i.reset {
        n := n.(force := true, inhibit := false, ck := 0, timeout := true, changed := true);
      } else if i.ce {
        var trigger := c.primed && ((i.trigger && !i.disable) || i.manual);
        n := n.(inhibit := r.force);
        if r.timeout && !r.force && !r.inhibit { n := n.(force := true); }
        else if (trigger && !c.triggered) || !c.primed { n := n.(force := true); }
        else { n := n.(force := false); }
        if r.force || r.changed || c.stopped { n := n.(ck := 0); } else { n := n.(ck := Up(r.ck, g.wrap)); }
        n := n.(timeout := r.ck >= g.maxStep - 1, changed := i.data != r.qd);
      }
      if i.ce { n := n.(qd := i.data); }
    }

    // Lines 316 to 351.
    method WordsBlocks(i: In) returns (n: Words)
      requires Valid()
      ensures n == WordsStep(g, State(), i)
    {
      n := w;
      if i.reset {
        n := n.(imm := BLANK, lst := BLANK);
      } else if i.ce {
        if r.changed || r.force || c.stopped {
          n := n.(imm := Entry(false, r.qd), lst := w.imm);
        } else {
          n := n.(imm := Entry(true, r.ck), lst := w.imm);
        }
      }
      n := n.(record := i.ce && (!w.lst.adr || !w.imm.adr) && !c.stopPipe[2],
              data := if !w.lst.adr || !w.imm.adr then w.lst else Entry(false, r.qd));
    }

    // Lines 366 to 379, at the clock edge together with everything else.
    method Clock(i: In)
      requires Valid()
      modifies this, mem
      ensures Valid() && State() == Step(g, old(State()), i)
    {
      hide ControlStep, RunsStep, WordsStep;
      var control := ControlBlocks(i);
      var runs := RunsBlocks(i);
      var words := WordsBlocks(i);
      if w.record { mem[waddr] := w.data; }
      if i.reset { waddr := 0; }
      else if w.record { waddr := (waddr + 1) % g.size; }
      c, r, w := control, runs, words;
    }
  }
}
