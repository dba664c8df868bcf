// The clocked blocks of rtl/wbpwmaudio.v, statement by statement.
module PwmRtl {
  import opened Pwm

  class Wbpwmaudio {
    const g: Config
    var pwmCounter: nat
    var sampleOut: nat
    var nextSample: nat
    var nextValid: bool
    var timer: nat
    var ztimer: bool
    var reloadValue: nat
    var oPwm: bool
    var oInt: bool

    ghost function State(): Regs
      reads this
    {
      Regs(pwmCounter, sampleOut, nextSample, nextValid, timer, ztimer, reloadValue, oPwm, oInt)
    }

    constructor (config: Config, reload: nat)
      requires config.w > 0 && reload < Pow2(config.timing)
      ensures g == config && Formed(g, State()) && !ztimer && timer == reload && pwmCounter == 0
      ensures nextSample == Pow2(g.w - 1) && nextValid && !oInt
    {
      g := config;
      timer, ztimer, reloadValue := reload, false, reload;
      nextValid, nextSample, sampleOut := true, Pow2(config.w - 1), 0;
      oInt, pwmCounter := false, 0;
    }

    // Lines 159 to 164: the bits of the counter, one after the other, become those of its reversal.
    method BitReversal() returns (br: nat)
      ensures br == Reversed(g.w, pwmCounter)
    {
      hide Pow2, Reversed;
      br := 0;
      var rest := pwmCounter;
      for k := 0 to g.w
        invariant Reversed(g.w, pwmCounter) == br * Pow2(g.w - k) + Reversed(g.w - k, rest)
      {
        NextBit(g.w - k, br, rest);
        br := br * 2 + rest % 2;
        rest := rest / 2;
      }
      AllBits(br, rest);
    }

    lemma {:induction false} AllBits(br: nat, rest: nat)
      ensures br * Pow2(0) + Reversed(0, rest) == br
    {
    }

    lemma {:induction false} NextBit(n: nat, br: nat, rest: nat)
      requires n > 0
      ensures br * Pow2(n) + Reversed(n, rest) == (br * 2 + rest % 2) * Pow2(n - 1) + Reversed(n - 1, rest / 2)
    {
      BitMore(br, rest % 2, Pow2(n - 1));
    }

    method Clock(i: In)
      requires Formed(g, State())
      modifies this
      ensures State() == Step(g, old(State()), i)
    {
      var br := BitReversal();
      var nextTimer := if ztimer then reloadValue % Pow2(g.timing) else (timer + Pow2(g.timing) - 1) % Pow2(g.timing);
      oPwm := sampleOut >= br;
      oInt := !nextValid;
      if ztimer { sampleOut := nextSample; }
      if i.Sample? {
        nextSample, nextValid := Offset(g.w, i.data), true;
      } else if ztimer {
        nextValid := false;
      }
      if i.Reload? { reloadValue := i.data % Pow2(g.timing); }
      ztimer, timer := timer == 1, nextTimer;
      pwmCounter := (pwmCounter + 1) % Pow2(g.w);
    }
  }
}
