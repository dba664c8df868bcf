// The audio output of rtl/wbpwmaudio.v: pulses placed by a counter read backwards.
module Pwm {
  import opened Arithmetic

  function Pow2(n: nat): (p: nat)
    ensures p > 0
  {
    if n == 0 then 1 else 2 * Pow2(n - 1)
  }

  // The w bits of n in reverse order: the lowest becomes the highest.
  function Reversed(w: nat, n: nat): (r: nat)
    ensures r < Pow2(w)
  {
    if w == 0 then 0 else n % 2 * Pow2(w - 1) + Reversed(w - 1, n / 2)
  }

  // The widths of the counter and samples, sixteen in the design, and of the timer.
  datatype Config = Config(w: nat, timing: nat)

  // pwm_counter, sample_out, next_sample, next_valid, timer, ztimer, the reload value, o_pwm and o_int
  datatype Regs = Regs(counter: nat, sample: nat, next: nat, valid: bool, timer: nat, zero: bool, reload: nat,
                       pwm: bool, irq: bool)

  // A bus write of a sample, or of a reload value.
  datatype In = Nothing | Sample(data: nat) | Reload(data: nat)

  predicate Formed(g: Config, s: Regs) {
    g.w > 0 && s.counter < Pow2(g.w) && s.sample < Pow2(g.w) && s.next < Pow2(g.w) && s.timer < Pow2(g.timing)
  }

  // Two's complement becomes an offset from the most negative value: the top bit turns over.
  function Offset(w: nat, data: nat): (r: nat)
    requires w > 0
    ensures r < Pow2(w)
  {
    var half := Pow2(w - 1);
    if data % Pow2(w) < half then data % Pow2(w) + half else data % Pow2(w) - half
  }

  function Step(g: Config, s: Regs, i: In): (t: Regs)
    requires Formed(g, s)
    ensures Formed(g, t)
  {
    Regs((s.counter + 1) % Pow2(g.w),
         if s.zero then s.next else s.sample,
         if i.Sample? then Offset(g.w, i.data) else s.next,
         i.Sample? || (s.valid && !s.zero),
         if s.zero then s.reload % Pow2(g.timing) else (s.timer + Pow2(g.timing) - 1) % Pow2(g.timing),
         s.timer == 1,
         if i.Reload? then i.data % Pow2(g.timing) else s.reload,
         s.sample >= Reversed(g.w, s.counter),
         !s.valid)
  }

  function Run(g: Config, s: Regs, ins: seq<In>): (t: Regs)
    requires Formed(g, s)
    ensures Formed(g, t)
    decreases |ins|
  {
    if ins == [] then s else Run(g, Step(g, s, ins[0]), ins[1..])
  }

  // The clocks of a run on which the output is high.
  function High(g: Config, s: Regs, ins: seq<In>): nat
    requires Formed(g, s)
    decreases |ins|
  {
    if ins == [] then 0 else
    var t := Step(g, s, ins[0]);
    (if t.pwm then 1 else 0) + High(g, t, ins[1..])
  }

  // ---- How many of a window's places lie within the sample ----

  // Places n from a on, len of them, whose reversal is at most s.
  function Within(w: nat, s: nat, a: nat, len: nat): nat
    decreases len
  {
    if len == 0 then 0 else (if s >= Reversed(w, a) then 1 else 0) + Within(w, s, a + 1, len - 1)
  }

  lemma {:induction false} WithinApart(w: nat, s: nat, a: nat, m: nat, n: nat)
    ensures Within(w, s, a, m + n) == Within(w, s, a, m) + Within(w, s, a + m, n)
    decreases m
  {
    if m > 0 { WithinApart(w, s, a + 1, m - 1, n); }
  }

  // How many of c, c + m, c + 2 m and so on are at most s.
  function Steps(s: nat, c: nat, m: nat): nat
    requires m > 0
  {
    if s < c then 0 else (s - c) / m + 1
  }

  lemma {:induction false} StepsSplit(s: nat, c: nat, m: nat)
    requires m > 0
    ensures Steps(s, c, m) == Steps(s, c, 2 * m) + Steps(s, c + m, 2 * m)
  {
    if s >= c { Halves(s - c, m); }
  }

  // A window of 2^k places on a boundary of its size: the reversals in it are spread evenly, one in every 2^(w-k).
  lemma {:induction false} WindowCount(w: nat, k: nat, s: nat, m: nat)
    requires k <= w && s < Pow2(w)
    ensures Within(w, s, m * Pow2(k), Pow2(k)) == Steps(s, Reversed(w - k, m), Pow2(w - k))
    decreases k
  {
    if k == 0 {
      assert m * 1 == m;
      assert Within(w, s, m + 1, 0) == 0;
      var c := Reversed(w, m);
      if s >= c { SmallMod(s - c, Pow2(w)); }
    } else {
      var half := Pow2(k - 1);
      Doubled(m, half);
      WithinApart(w, s, m * Pow2(k), half, half);
      WindowCount(w, k - 1, s, 2 * m);
      WindowCount(w, k - 1, s, 2 * m + 1);
      EvenOdd(w - k, m);
      StepsSplit(s, Reversed(w - k, m), Pow2(w - k));
    }
  }

  lemma {:induction false} EvenOdd(w: nat, m: nat)
    ensures Reversed(w + 1, 2 * m) == Reversed(w, m)
    ensures Reversed(w + 1, 2 * m + 1) == Reversed(w, m) + Pow2(w)
  {
    assert 2 * m / 2 == m && (2 * m + 1) / 2 == m;
  }

  // ---- The output ----

  // The sample is the same on every clock of a run, however often the timer runs out meanwhile.
  predicate Held(g: Config, s: Regs, ins: seq<In>)
    requires Formed(g, s)
    decreases |ins|
  {
    |ins| <= 1 || var t := Step(g, s, ins[0]); t.sample == s.sample && Held(g, t, ins[1..])
  }

  predicate NoSamples(ins: seq<In>) { forall k :: 0 <= k < |ins| ==> !ins[k].Sample? }

  // It is held when the next one is the same, and no other is written.
  lemma {:induction false} NothingNew(g: Config, s: Regs, ins: seq<In>)
    requires Formed(g, s) && s.next == s.sample && NoSamples(ins)
    ensures Held(g, s, ins)
    decreases |ins|
  {
    hide Formed, Reversed, Pow2, Offset;
    if |ins| > 1 { NothingNew(g, Step(g, s, ins[0]), ins[1..]); }
  }

  // It is held, whatever is written, until the timer runs out.
  lemma {:induction false} BeforeTimer(g: Config, s: Regs, ins: seq<In>)
    requires Formed(g, s) && !s.zero && s.timer >= |ins|
    ensures Held(g, s, ins)
    decreases |ins|
  {
    if |ins| > 1 {
      LessOne(s.timer, Pow2(g.timing));
      hide Reversed, Pow2, Offset;
      BeforeTimer(g, Step(g, s, ins[0]), ins[1..]);
    }
  }

  lemma {:induction false} OutputStep(g: Config, s: Regs, i: In)
    requires Formed(g, s)
    ensures var t := Step(g, s, i);
            && (t.pwm <==> s.sample >= Reversed(g.w, s.counter))
            && t.counter == if s.counter + 1 < Pow2(g.w) then s.counter + 1 else 0
  {
    if s.counter + 1 < Pow2(g.w) { SmallMod(s.counter + 1, Pow2(g.w)); } else { DivMod(Pow2(g.w), Pow2(g.w), 1, 0); }
    hide Reversed, Pow2, Offset;
  }

  lemma {:induction false} HeldCount(g: Config, s: Regs, ins: seq<In>)
    requires Formed(g, s) && Held(g, s, ins) && s.counter + |ins| <= Pow2(g.w)
    ensures High(g, s, ins) == Within(g.w, s.sample, s.counter, |ins|)
    decreases |ins|
  {
    hide Step, Reversed, Pow2, Formed;
    if ins != [] {
      OutputStep(g, s, ins[0]);
      if |ins| > 1 { HeldCount(g, Step(g, s, ins[0]), ins[1..]); }
    }
  }

  // A run in two parts.
  lemma {:induction false} HeldApart(g: Config, s: Regs, a: seq<In>, b: seq<In>)
    requires Formed(g, s) && Held(g, s, a + b) && b != []
    ensures var t := Run(g, s, a);
            && Held(g, s, a) && Held(g, t, b) && t.sample == s.sample
            && High(g, s, a + b) == High(g, s, a) + High(g, t, b)
    ensures s.counter + |a| <= Pow2(g.w) ==>
              Run(g, s, a).counter == if s.counter + |a| < Pow2(g.w) then s.counter + |a| else if a == [] then s.counter else 0
    decreases |a|
  {
    hide Step, Reversed, Pow2, Formed;
    if a == [] {
      assert a + b == b;
    } else {
      assert (a + b)[0] == a[0] && (a + b)[1..] == a[1..] + b;
      OutputStep(g, s, a[0]);
      HeldApart(g, Step(g, s, a[0]), a[1..], b);
    }
  }

  // n differs from a / m by less than one.
  predicate Near(n: nat, m: nat, a: nat) { n * m < a + m && a < n * m + m }

  // While the sample is held, every window of 2^k clocks on a boundary of its size has a number of high clocks that
  // is less than one away from its share, (sample + 1) / 2^(w - k).
  lemma {:induction false} WindowShare(g: Config, s: Regs, ins: seq<In>, k: nat, m: nat)
    requires Formed(g, s) && k <= g.w && |ins| == Pow2(k) && Held(g, s, ins) && s.counter == m * Pow2(k)
    ensures var count, unit := High(g, s, ins), Pow2(g.w - k);
            count == Steps(s.sample, Reversed(g.w - k, m), unit) && Near(count, unit, s.sample + 1)
  {
    hide Held, High, Within, Steps, Reversed, Pow2, Near;
    WindowEnds(g.w, k, m);
    HeldCount(g, s, ins);
    WindowCount(g.w, k, s.sample, m);
    ShareOf(s.sample, Reversed(g.w - k, m), Pow2(g.w - k));
  }

  lemma {:induction false} ShareOf(s: nat, c: nat, m: nat)
    requires c < m
    ensures Near(Steps(s, c, m), m, s + 1)
  {
    if s >= c {
      var q, r := (s - c) / m, (s - c) % m;
      assert s - c == q * m + r;
      assert (q + 1) * m == q * m + m;
    }
  }

  lemma {:induction false} PowSplit(w: nat, k: nat)
    requires k <= w
    ensures Pow2(w) == Pow2(w - k) * Pow2(k)
    decreases k
  {
    if k > 0 {
      PowSplit(w, k - 1);
      assert Pow2(w - k + 1) * Pow2(k - 1) == Pow2(w - k) * Pow2(k);
    }
  }

  lemma {:induction false} RowAbove(n: nat, m: nat, p: nat)
    requires m * p < n * p
    ensures m * p + p <= n * p
  {
    var d := n - m;
    assert d * p == n * p - m * p;
    Multiples(d, p);
  }

  // A window that begins below 2^w ends there at the latest.
  lemma {:induction false} WindowEnds(w: nat, k: nat, m: nat)
    requires k <= w && m * Pow2(k) < Pow2(w)
    ensures m * Pow2(k) + Pow2(k) <= Pow2(w)
  {
    PowSplit(w, k);
    hide Pow2;
    RowAbove(Pow2(w - k), m, Pow2(k));
  }

  // Over as many clocks as the counter has values, from wherever it stands, the output is high for exactly sample + 1.
  lemma {:induction false} FullPeriod(g: Config, s: Regs, ins: seq<In>)
    requires Formed(g, s) && |ins| == Pow2(g.w) && Held(g, s, ins)
    ensures High(g, s, ins) == s.sample + 1
  {
    hide Held, High, Within, Reversed, Pow2;
    var c, top := s.counter, Pow2(g.w);
    AllPlaces(g.w, s.sample);
    if c == 0 {
      HeldCount(g, s, ins);
    } else {
      var a, b := ins[..top - c], ins[top - c..];
      assert ins == a + b;
      HeldApart(g, s, a, b);
      HeldCount(g, s, a);
      HeldCount(g, Run(g, s, a), b);
      WithinApart(g.w, s.sample, 0, c, top - c);
    }
  }

  lemma {:induction false} AllPlaces(w: nat, s: nat)
    requires s < Pow2(w)
    ensures Within(w, s, 0, Pow2(w)) == s + 1
  {
    assert 0 * Pow2(w) == 0;
    WindowCount(w, w, s, 0);
    assert Pow2(0) == 1 && Reversed(0, 0) == 0;
    hide Within;
  }

  // ---- The timer ----

  // Clocks until the timer's mark stands.
  function ToExpiry(g: Config, s: Regs): (n: nat)
    ensures n > 0 <==> !s.zero
  {
    if s.zero then 0 else if s.timer == 0 then Pow2(g.timing) else s.timer
  }

  lemma {:induction false} TimerStep(g: Config, s: Regs, i: In)
    requires Formed(g, s) && g.timing > 0 && !s.zero
    ensures ToExpiry(g, Step(g, s, i)) == ToExpiry(g, s) - 1
  {
    var top := Pow2(g.timing);
    assert top == 2 * Pow2(g.timing - 1);
    if s.timer == 0 { SmallMod(top - 1, top); } else { LessOne(s.timer, top); }
    hide Pow2, Reversed, Offset;
  }

  // Whatever is written meanwhile, the mark comes when it is due and not before.
  lemma {:induction false} CountsDown(g: Config, s: Regs, ins: seq<In>)
    requires Formed(g, s) && g.timing > 0 && |ins| <= ToExpiry(g, s)
    ensures ToExpiry(g, Run(g, s, ins)) == ToExpiry(g, s) - |ins|
    decreases |ins|
  {
    hide Step, Formed;
    if ins != [] {
      TimerStep(g, s, ins[0]);
      CountsDown(g, Step(g, s, ins[0]), ins[1..]);
    }
  }

  lemma {:induction false} ReloadStays(g: Config, s: Regs, ins: seq<In>)
    requires Formed(g, s) && forall k :: 0 <= k < |ins| ==> !ins[k].Reload?
    ensures Run(g, s, ins).reload == s.reload
    decreases |ins|
  {
    hide Formed, Pow2, Reversed, Offset;
    if ins != [] {
      assert Step(g, s, ins[0]).reload == s.reload;
      ReloadStays(g, Step(g, s, ins[0]), ins[1..]);
    }
  }

  // Once n, not zero, has been written as the reload value, the time from one expiry to the next is one clock more than n,
  // whatever is written meanwhile.
  lemma {:induction false} TimerPeriod(g: Config, s: Regs, n: nat, wait: seq<In>, i: In, ins: seq<In>)
    requires Formed(g, s) && g.timing > 0 && 0 < n < Pow2(g.timing)
    requires forall k :: 0 <= k < |wait| ==> !wait[k].Reload?
    requires var t := Run(g, s, [Reload(n)] + wait); t.zero && t.timer != 1
    requires |ins| <= n
    ensures Run(g, Run(g, s, [Reload(n)] + wait), [i] + ins).zero <==> |[i] + ins| == n + 1
  {
    var u := Step(g, s, Reload(n));
    SmallMod(n, Pow2(g.timing));
    assert u.reload == n;
    assert ([Reload(n)] + wait)[0] == Reload(n) && ([Reload(n)] + wait)[1..] == wait;
    ReloadStays(g, u, wait);
    var t := Run(g, u, wait);
    assert ToExpiry(g, Step(g, t, i)) == n;
    CountsDown(g, Step(g, t, i), ins);
    assert ([i] + ins)[0] == i && ([i] + ins)[1..] == ins;
    hide Step, Formed, Pow2;
  }

  // ---- A sample, from the bus to the output ----

  lemma {:induction false} Residue(v: int, m: nat)
    requires m > 0 && 0 <= v + m && v < m
    ensures v % m == if v < 0 then v + m else v
  {
    var d := v / m + if v < 0 then 1 else 0;
    assert v == (v / m) * m + v % m;
    assert d * m == (v / m) * m + if v < 0 then m else 0;
    Multiples(d, m);
  }

  // The level of a signed value is its height above the most negative one.
  lemma {:induction false} OffsetMeans(w: nat, v: int, data: nat)
    requires w > 0 && 0 <= v + Pow2(w - 1) < Pow2(w) && data % Pow2(w) == v % Pow2(w)
    ensures Offset(w, data) == v + Pow2(w - 1)
  {
    Residue(v, Pow2(w));
  }

  lemma {:induction false} WaitStep(g: Config, s: Regs, i: In)
    requires Formed(g, s) && !i.Sample?
    ensures var t := Step(g, s, i);
            && t.next == s.next && t.sample == (if s.zero then s.next else s.sample) && t.valid == (s.valid && !s.zero)
            && t.irq == !s.valid
  {
    hide Pow2, Reversed, Offset, Formed;
  }

  // The value that waits is taken when the timer next expires, and stays until another is written.
  lemma {:induction false} TakenAtExpiry(g: Config, s: Regs, ins: seq<In>)
    requires Formed(g, s) && g.timing > 0 && NoSamples(ins)
    requires s.sample == s.next || |ins| > ToExpiry(g, s)
    ensures var t := Run(g, s, ins); t.sample == s.next && t.next == s.next
    decreases |ins|
  {
    hide Step, Formed, Pow2;
    if ins != [] {
      WaitStep(g, s, ins[0]);
      if !s.zero { TimerStep(g, s, ins[0]); }
      TakenAtExpiry(g, Step(g, s, ins[0]), ins[1..]);
    }
  }

  // While nothing more is written, the interrupt stands from the second clock after the expiry on.
  lemma {:induction false} InterruptAfterExpiry(g: Config, s: Regs, ins: seq<In>)
    requires Formed(g, s) && g.timing > 0 && NoSamples(ins) && ins != [] && s.valid
    ensures Run(g, s, ins).irq <==> |ins| > ToExpiry(g, s) + 1
    decreases |ins|
  {
    hide Step, Formed, Pow2;
    WaitStep(g, s, ins[0]);
    var t := Step(g, s, ins[0]);
    if s.zero {
      AsksOn(g, t, ins[1..]);
    } else {
      TimerStep(g, s, ins[0]);
      if |ins| > 1 { InterruptAfterExpiry(g, t, ins[1..]); }
    }
  }

  lemma {:induction false} AsksOn(g: Config, s: Regs, ins: seq<In>)
    requires Formed(g, s) && NoSamples(ins) && !s.valid
    ensures ins != [] ==> Run(g, s, ins).irq
    decreases |ins|
  {
    hide Step, Formed, Pow2;
    if ins != [] {
      WaitStep(g, s, ins[0]);
      AsksOn(g, Step(g, s, ins[0]), ins[1..]);
    }
  }

  lemma {:induction false} WriteStep(g: Config, s: Regs, data: nat)
    requires Formed(g, s)
    ensures var t := Step(g, s, Sample(data)); t.next == Offset(g.w, data) && t.valid
  {
  }

  // A signed value, written in two's complement, is heard once the timer has expired after the write: the output is
  // then high for as many clocks of a period as the value stands above the most negative one, and one more.
  lemma {:induction false} SampleHeard(g: Config, s: Regs, v: int, data: nat, wait: seq<In>, period: seq<In>)
    requires Formed(g, s) && g.timing > 0
    requires 0 <= v + Pow2(g.w - 1) < Pow2(g.w) && data % Pow2(g.w) == v % Pow2(g.w)
    requires NoSamples(wait) && |wait| > ToExpiry(g, Step(g, s, Sample(data)))
    requires NoSamples(period) && |period| == Pow2(g.w)
    ensures var t := Run(g, s, [Sample(data)] + wait);
            t.sample == v + Pow2(g.w - 1) && High(g, t, period) == v + Pow2(g.w - 1) + 1
  {
    var u := Step(g, s, Sample(data));
    WriteStep(g, s, data);
    OffsetMeans(g.w, v, data);
    TakenAtExpiry(g, u, wait);
    assert ([Sample(data)] + wait)[0] == Sample(data) && ([Sample(data)] + wait)[1..] == wait;
    var t := Run(g, u, wait);
    NothingNew(g, t, period);
    FullPeriod(g, t, period);
    hide Step, Offset, Pow2, Held, High, ToExpiry;
  }

  // ---- The reversal, bit by bit ----

  function Bit(n: nat, k: nat): nat { n / Pow2(k) % 2 }

  lemma {:induction false} DivTwice(n: nat, a: nat)
    requires a > 0
    ensures n / (2 * a) == n / 2 / a
  {
    var q, r := Divided(n, 2 * a);
    Rearranged(q, a);
    DivMod(n / 2, a, q, r / 2);
  }

  lemma {:induction false} Divided(n: nat, d: nat) returns (q: nat, r: nat)
    requires d > 0
    ensures q == n / d && n == q * d + r && r < d
  {
    q, r := n / d, n % d;
  }

  lemma {:induction false} Rearranged(q: nat, a: nat)
    ensures q * (2 * a) == 2 * (q * a)
  {
  }

  // One bit more of the reversal: what is to come moves down by a place.
  lemma {:induction false} BitMore(br: nat, bit: nat, p: nat)
    ensures br * (2 * p) + bit * p == (br * 2 + bit) * p
  {
  }

  lemma {:induction false} PowMore(w: nat, k: nat)
    requires k < w
    ensures Pow2(w) == 2 * Pow2(w - 1 - k) * Pow2(k)
  {
    PowSplit(w - 1, k);
  }

  // Bit k of the reversal is the bit as far from the other end.
  lemma {:induction false} ReversedBit(w: nat, n: nat, k: nat)
    requires k < w
    ensures Bit(Reversed(w, n), k) == Bit(n, w - 1 - k)
    decreases w
  {
    var low, top := Reversed(w - 1, n / 2), n % 2;
    if k == w - 1 {
      TopBit(top, low, Pow2(w - 1));
      assert Bit(n, 0) == n % 2;
    } else {
      ReversedBit(w - 1, n / 2, k);
      PowMore(w - 1, k);
      HighPart(top, Pow2(w - 2 - k), low, Pow2(k));
      DivTwice(n, Pow2(w - 2 - k));
    }
  }

  lemma {:induction false} TopBit(top: nat, low: nat, p: nat)
    requires top < 2 && low < p
    ensures (top * p + low) / p % 2 == top
  {
    DivMod(top * p + low, p, top, low);
  }

  // A multiple of 2 p above low does not change the bit at p.
  lemma {:induction false} HighPart(top: nat, a: nat, low: nat, p: nat)
    requires p > 0
    ensures (top * (2 * a * p) + low) / p % 2 == low / p % 2
  {
    var q, r := low / p, low % p;
    assert low == q * p + r;
    assert top * (2 * a * p) + low == (2 * (top * a) + q) * p + r;
    DivMod(top * (2 * a * p) + low, p, 2 * (top * a) + q, r);
  }
}
