// A word that is held up long enough is offered as a reference to the nearest equal word, where the search gets that far.
module WbuCompressSearch {
  import opened WbuCode
  import opened WbuCompress
  import opened WbuCompressProof

  // ---- What is known between words ----

  // Until the table has filled up it has all the words; and a new search does not begin at its end.
  ghost predicate SearchInv(s: Sys) {
    && Inv(s) && (!s.r.t.filled ==> |s.hist| < TABLE)
    && (!s.r.h.stb ==> s.hist == [] || Minus(s.r.s.next, s.r.t.addr) != 1)
  }

  lemma {:induction false} SearchInvStep(s: Sys, i: In)
    requires SearchInv(s)
    ensures SearchInv(SysStep(s, i))
  {
    InvStep(s, i);
    FillStep(s, i);
    RestStep(s, i);
    hide Inv, SysStep;
  }

  lemma {:induction false} FillStep(s: Sys, i: In)
    requires Inv(s) && (!s.r.t.filled ==> |s.hist| < TABLE)
    ensures var t := SysStep(s, i); !t.r.t.filled ==> |t.hist| < TABLE
  {
    var t, n := SysStep(s, i), NextTable(s.r, i);
    assert s.r.t.addr == |s.hist| % TABLE;
    assert t.r.t.filled == n.filled;
    hide NextHand, NextSearch, NextCompare, NextFound, TableHolds, CompareInv, FoundInv, Faithful, Output;
  }

  lemma {:induction false} RestStep(s: Sys, i: In)
    requires SearchInv(s)
    ensures var t := SysStep(s, i); !t.r.h.stb ==> t.hist == [] || Minus(t.r.s.next, t.r.t.addr) != 1
  {
    hide NextCompare, NextFound, TableHolds, CompareInv, FoundInv, Faithful, Output;
  }

  // Passing an address on establishes it.
  lemma {:induction false} SearchRestarts(r: Regs, i: In)
    requires Formed(r) && Accepted(r.h, i) && Output(r.h).op / 8 == 1
    ensures SearchInv(Sys(Step(r, i), []))
  {
    AddressRestarts(r, i);
  }

  // ---- A word held up ----

  // The output takes nothing.
  ghost predicate HeldUp(ins: seq<In>) { forall j :: 0 <= j < |ins| ==> ins[j].busy }

  ghost predicate Nearest(hist: seq<Word>, v: Word, k: nat) {
    Holds(hist, k, v) && forall j :: 1 <= j < k ==> Recent(hist, j) != v
  }

  // The registers that do not change while a word is held.
  ghost predicate Holding(s: Sys, w: Codeword, hist: seq<Word>) {
    && SearchInv(s) && s.r.h.stb && s.r.h.word == w && s.hist == hist
  }

  lemma {:induction false} HoldingStep(s: Sys, i: In)
    requires SearchInv(s) && s.r.h.stb && i.busy
    ensures var t := SysStep(s, i);
            && Holding(t, s.r.h.word, s.hist) && t.r.h.late
            && t.r.t.addr == s.r.t.addr 
            && t.r.h.better == (if s.r.h.late && s.r.f.yes && s.r.f.far then Reference(s.r.h.word, s.r.f) else s.r.h.word)
            && t.r.s == NextSearch(s.r, i) && t.r.c == NextCompare(s.r, i) && t.r.f == NextFound(s.r, i)
            && !Restart(s.r.h, i)
  {
    SearchInvStep(s, i);
    hide SearchInv, NextSearch, NextCompare, NextFound, Reference;
  }

  // After m clocks the entry m + 1 places back is looked up, the one m places back is compared, and the one m - 1 places
  // back has been.
  ghost predicate Looks(s: Sys, m: nat)
    requires m < 1022
  {
    s.r.s == Search(false, false, Minus(s.r.t.addr, m + 1), Minus(s.r.t.addr, m + 2))
  }

  ghost predicate Compares(s: Sys, m: nat) {
    1 <= m < TABLE && m <= |s.hist| && s.r.c.caddr == Minus(s.r.t.addr, m) && s.r.c.cword == Recent(s.hist, m)
  }

  ghost predicate Compared(s: Sys, m: nat) {
    && 1 <= m < TABLE && m <= |s.hist|
    && s.r.c.maddr == m && s.r.c.vaddr && s.r.c.dmatch == (Recent(s.hist, m) == Data(s.r.h.word))
  }

  // None so far was equal.
  ghost predicate Seeking(s: Sys, m: nat, k: nat) {
    var h := s.r.h;
    && m <= k + 1 && k < REACH
    && h.late == (m > 0) && (h.late ==> h.better == h.word) && !s.r.f.yes
    && s.r.c.p0 == (m >= 1) && s.r.c.p1 == (m >= 2)
    && (m < k ==> Looks(s, m)) && (1 <= m <= k ==> Compares(s, m)) && (m >= 2 ==> Compared(s, m - 1))
  }

  // Whether the search gets k places back when n words have been sent raw: until the table has filled up, it stands
  // still at places from 512 on.
  predicate GetsTo(n: nat, k: nat) { k == 1 || n <= 513 || n >= 1023 }

  ghost predicate Filled(s: Sys) { s.r.t.filled <==> |s.hist| >= 1023 }

  lemma {:induction false} Place(t: Table, hist: seq<Word>, m: nat)
    requires TableHolds(t, hist) && (!t.filled ==> |hist| < TABLE) && 1 <= m < TABLE && m <= |hist|
    ensures t.mem[Minus(t.addr, m)] == Recent(hist, m) && Minus(t.addr, m) != t.addr
    ensures t.filled || (Minus(t.addr, m) == |hist| - m < t.addr)
    ensures Minus(t.addr, Minus(t.addr, m)) == m
  {
  }

  lemma {:induction false} Further(a: Slot, m: nat)
    requires m + 2 < TABLE
    ensures Minus(Minus(a, m), 1) == Minus(a, m + 1) && (Minus(Minus(a, m), a) == 1 <==> m == 1023)
  {
  }

  // The search does not stand still before it gets there.
  lemma {:induction false} GoesOn(s: Sys, m: nat, k: nat)
    requires SearchInv(s) && Filled(s) && 2 <= m <= k < REACH && k <= |s.hist| && GetsTo(|s.hist|, k)
    ensures s.r.t.filled || Minus(s.r.t.addr, m) < 512
  {
    Place(s.r.t, s.hist, m);
    hide Minus, CompareInv, FoundInv, Faithful;
  }

  lemma {:induction false} NextLooks(r: Regs, i: In, m: nat)
    requires Formed(r) && !Restart(r.h, i) && !r.f.yes && m + 3 < 1022
    requires r.s == Search(false, false, Minus(r.t.addr, m + 1), Minus(r.t.addr, m + 2)) && (r.s.next < 512 || r.t.filled)
    ensures NextSearch(r, i) == Search(false, false, Minus(r.t.addr, m + 2), Minus(r.t.addr, m + 3))
  {
    Further(r.t.addr, m + 2);
    hide Minus, Restart;
  }

  lemma {:induction false} LooksOn(s: Sys, i: In, m: nat, k: nat)
    requires SearchInv(s) && Filled(s) && s.r.h.stb && i.busy && !s.r.f.yes
    requires m + 1 < k < REACH && k <= |s.hist| && Looks(s, m) && GetsTo(|s.hist|, k)
    ensures Looks(SysStep(s, i), m + 1)
  {
    assert REACH == 289;
    hide *;
    HoldingStep(s, i);
    GoesOn(s, m + 2, k);
    LookingAt(s, m);
    NextLooks(s.r, i, m);
    LooksThere(SysStep(s, i), s.r.t.addr, m + 1);
  }

  lemma {:induction false} LookingAt(s: Sys, m: nat)
    requires SearchInv(s) && m < 288 && Looks(s, m)
    ensures Formed(s.r) && s.r.s == Search(false, false, Minus(s.r.t.addr, m + 1), Minus(s.r.t.addr, m + 2))
  {
  }

  lemma {:induction false} LooksThere(t: Sys, a: Slot, m: nat)
    requires m < 289 && t.r.t.addr == a && t.r.s == Search(false, false, Minus(a, m + 1), Minus(a, m + 2))
    ensures Looks(t, m)
  {
  }

  lemma {:induction false} ComparesOn(s: Sys, i: In, m: nat)
    requires SearchInv(s) && Filled(s) && s.r.h.stb && i.busy
    requires m + 1 < REACH && m < |s.hist| && Looks(s, m)
    ensures Compares(SysStep(s, i), m + 1)
  {
    HoldingStep(s, i);
    Place(s.r.t, s.hist, m + 1);
    hide SysStep, Step, Minus, TableHolds, CompareInv, FoundInv, Faithful, NextHand, NextTable, NextSearch, NextFound;
  }

  lemma {:induction false} ComparedOn(s: Sys, i: In, m: nat)
    requires SearchInv(s) && Filled(s) && s.r.h.stb && i.busy
    requires 1 <= m < REACH && Compares(s, m)
    ensures Compared(SysStep(s, i), m)
  {
    HoldingStep(s, i);
    Place(s.r.t, s.hist, m);
    hide SysStep, Step, Minus, TableHolds, CompareInv, FoundInv, Faithful, NextHand, NextTable, NextSearch, NextFound, Data;
  }

  lemma {:induction false} StaysFilled(s: Sys, i: In)
    requires SearchInv(s) && Filled(s) && s.r.h.stb && i.busy
    ensures Filled(SysStep(s, i))
  {
    HoldingStep(s, i);
    hide NextHand, NextSearch, NextCompare, NextFound, CompareInv, FoundInv, Faithful;
  }

  lemma {:induction false} SeekingStep(s: Sys, i: In, m: nat, k: nat)
    requires SearchInv(s) && Filled(s) && s.r.h.stb && i.busy
    requires Seeking(s, m, k) && m <= k && Nearest(s.hist, Data(s.r.h.word), k) && GetsTo(|s.hist|, k)
    ensures Seeking(SysStep(s, i), m + 1, k)
  {
    HoldingStep(s, i);
    if m + 1 < k { LooksOn(s, i, m, k); }
    if m < k { ComparesOn(s, i, m); }
    if m >= 1 { ComparedOn(s, i, m); }
    hide SearchInv, Looks, Compares, SysStep, Step, NextSearch, Data, GetsTo;
  }

  lemma {:induction false} Finds(s: Sys, i: In, k: nat)
    requires SearchInv(s) && s.r.h.stb && s.r.h.word.op / 8 == 7 && i.busy
    requires Seeking(s, k + 1, k) && Nearest(s.hist, Data(s.r.h.word), k)
    ensures var t := SysStep(s, i); t.r.f == Found(true, k, true, k == 1, k < 10) && t.r.h.late
  {
    HoldingStep(s, i);
    hide SysStep, Step, SearchInv, Data, NextSearch, NextCompare;
  }

  // Found, and offered from the next clock on.
  lemma {:induction false} StaysFound(s: Sys, ins: seq<In>, k: nat)
    requires SearchInv(s) && s.r.h.stb && s.r.h.late && HeldUp(ins) && 1 <= k < REACH
    requires s.r.f == Found(true, k, true, k == 1, k < 10) && (ins == [] ==> s.r.h.better == RefersTo(s.r.h.word, k))
    ensures Formed(s.r) && Run(s, ins).r.h.stb && Output(Run(s, ins).r.h) == RefersTo(s.r.h.word, k)
    decreases |ins|
  {
    assert Formed(s.r);
    if ins != [] {
      HoldingStep(s, ins[0]);
      hide SearchInv, SysStep, Reference, NextSearch, NextCompare;
      StaysFound(SysStep(s, ins[0]), ins[1..], k);
    }
  }

  lemma {:induction false} Seeks(s: Sys, ins: seq<In>, m: nat, k: nat)
    requires SearchInv(s) && Filled(s) && s.r.h.stb && s.r.h.word.op / 8 == 7 && HeldUp(ins) && |ins| + m >= k + 3
    requires Seeking(s, m, k) && Nearest(s.hist, Data(s.r.h.word), k) && GetsTo(|s.hist|, k)
    ensures Formed(s.r) && Run(s, ins).r.h.stb && Output(Run(s, ins).r.h) == RefersTo(s.r.h.word, k)
    decreases |ins|
  {
    assert Formed(s.r) && 1 <= k < REACH && m <= k + 1;
    var i, t := ins[0], SysStep(s, ins[0]);
    assert HeldUp(ins[1..]);
    HoldingStep(s, i);
    StaysFilled(s, i);
    if m <= k {
      SeekingStep(s, i, m, k);
      hide SearchInv, SysStep, Seeking, Nearest, Data, Output, RefersTo;
      Seeks(t, ins[1..], m + 1, k);
    } else {
      Finds(s, i, k);
      hide SearchInv, SysStep, Seeking, Nearest, Data, Output, RefersTo;
      StaysFound(t, ins[1..], k);
    }
  }

  // ---- A search that stands still ----

  ghost predicate Stuck(s: Sys) {
    var a := s.r.t.addr;
    && Filled(s) && 514 <= |s.hist| < 1023
    && s.r.s.rd == Minus(a, 1) && s.r.s.next == Minus(a, 2) && Recent(s.hist, 1) != Data(s.r.h.word)
    && (s.r.h.late ==> s.r.h.better == s.r.h.word) && !s.r.f.yes
    && (s.r.c.p0 ==> s.r.c.cword == Recent(s.hist, 1)) && (s.r.c.p1 ==> s.r.c.p0 && !s.r.c.dmatch)
  }

  lemma {:induction false} StuckStep(s: Sys, i: In)
    requires SearchInv(s) && s.r.h.stb && i.busy && Stuck(s)
    ensures Stuck(SysStep(s, i))
  {
    HoldingStep(s, i);
    StaysFilled(s, i);
    Place(s.r.t, s.hist, 1);
    Place(s.r.t, s.hist, 2);
    hide SysStep, Step, TableHolds, CompareInv, FoundInv, Faithful, Data, NextHand, NextTable, Filled;
    assert !s.r.t.filled by { Unfilled(s); }
  }

  lemma {:induction false} Unfilled(s: Sys)
    requires Filled(s) && |s.hist| < 1023
    ensures !s.r.t.filled
  {
  }

  lemma {:induction false} StaysRaw(s: Sys, ins: seq<In>)
    requires SearchInv(s) && s.r.h.stb && HeldUp(ins) && Stuck(s)
    ensures Formed(s.r) && Run(s, ins).r.h.stb && Output(Run(s, ins).r.h) == s.r.h.word
    decreases |ins|
  {
    assert Formed(s.r);
    if ins != [] {
      HoldingStep(s, ins[0]);
      StuckStep(s, ins[0]);
      hide SearchInv, SysStep, Stuck;
      StaysRaw(SysStep(s, ins[0]), ins[1..]);
    }
  }

  // ---- The whole search ----

  lemma {:induction false} Begins(s: Sys, i: In)
    requires SearchInv(s) && !s.r.h.stb && i.stb && s.hist != []
    ensures var t := SysStep(s, i);
            && Holding(t, Shorten(i.word), s.hist) && Filled(t) && Looks(t, 0)
            && !t.r.h.late && !t.r.f.yes && !t.r.c.p0 && !t.r.c.p1
  {
    SearchInvStep(s, i);
    assert SysStep(s, i).r.t == NextTable(s.r, i) && SysStep(s, i).r.s == NextSearch(s.r, i);
    hide CompareInv, FoundInv, Faithful, Shorten, Inv;
  }

  lemma {:induction false} StaysHeld(s: Sys, ins: seq<In>)
    requires SearchInv(s) && s.r.h.stb && HeldUp(ins)
    ensures Formed(s.r) && Holding(Run(s, ins), s.r.h.word, s.hist)
    decreases |ins|
  {
    assert Formed(s.r);
    if ins != [] {
      HoldingStep(s, ins[0]);
      hide SearchInv, SysStep;
      StaysHeld(SysStep(s, ins[0]), ins[1..]);
    }
  }

  // References do not reach so far.
  lemma {:induction false} TooFar(s: Sys, k: nat)
    requires SearchInv(s) && s.r.h.stb && Nearest(s.hist, Data(s.r.h.word), k) && k > 288
    ensures Output(s.r.h) == s.r.h.word
  {
    assert Inv(s);
    hide *;
    OutputFaithful(s);
    NoneNearer(Output(s.r.h), s.r.h.word, s.hist, k);
  }

  lemma {:induction false} NoneNearer(out: Codeword, w: Codeword, hist: seq<Word>, k: nat)
    requires Faithful(out, w, hist) && Nearest(hist, Data(w), k) && k > 288
    ensures out == w
  {
    hide Data, RefersTo, Recent;
    assert forall j :: 1 <= j < REACH ==> !Holds(hist, j, Data(w));
  }

  // A raw word equal to one that was sent raw, the nearest k places back, and held up for k + 3 clocks or more, is offered
  // as a reference to that one exactly when k is at most 288 and the search gets there: while 514 to 1022 words have been
  // sent raw since the last address it never goes further back than one.
  lemma {:induction false} RepeatOffered(s: Sys, i: In, ins: seq<In>, k: nat)
    requires SearchInv(s) && !s.r.h.stb && i.stb && i.word.op / 8 == 7
    requires Nearest(s.hist, Data(i.word), k) && HeldUp(ins) && |ins| >= k + 3
    ensures Formed(s.r) && k < TABLE
    ensures var h := Run(s, [i] + ins).r.h;
            h.stb && Output(h) == if k <= 288 && GetsTo(|s.hist|, k) then RefersTo(i.word, k) else i.word
    ensures RefersTo(i.word, k) != i.word || k > 288
  {
    assert Formed(s.r) && s.hist != [] && 1 <= k < TABLE;
    Begins(s, i);
    var t := SysStep(s, i);
    assert ([i] + ins)[0] == i && ([i] + ins)[1..] == ins;
    assert Shorten(i.word) == i.word;
    if k > 288 {
      hide SysStep, Nearest, Data, Output, RefersTo;
      StaysHeld(t, ins);
      TooFar(Run(t, ins), k);
    } else if GetsTo(|s.hist|, k) {
      NotRaw(i.word, k);
      assert Seeking(t, 0, k);
      hide SysStep, Seeking, Nearest, Data, Output, RefersTo;
      Seeks(t, ins, 0, k);
    } else {
      NotRaw(i.word, k);
      assert Stuck(t);
      hide SysStep, Stuck, Nearest, Data, Output, RefersTo;
      StaysRaw(t, ins);
    }
  }

  lemma {:induction false} NotRaw(w: Codeword, k: nat)
    requires w.op / 8 == 7 && 1 <= k < REACH
    ensures RefersTo(w, k) != w
  {
  }
}
