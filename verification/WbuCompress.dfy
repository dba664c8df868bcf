// The reply compressor of rtl/wbucompress.v, clock by clock.
module WbuCompress {
  import opened WbuCode

  const TABLE := 1024
  type Slot = k: nat | k < 1024

  // The word in hand, a_stb and a_addrword, and what it may have become, r_stb and r_cword.
  datatype Hand = Hand(stb: bool, word: Codeword, late: bool, better: Codeword)

  // tbl_addr, tbl_filled and compression_tbl
  datatype Table = Table(addr: Slot, filled: bool, mem: seq<Word>)

  // tbl_match, nxt_match, rd_addr and nxt_rd_addr
  datatype Search = Search(over: bool, nextOver: bool, rd: Slot, next: Slot)

  // cword, caddr, dmatch, maddr, vaddr and pmatch
  datatype Compare = Compare(cword: Word, caddr: Slot, dmatch: bool, maddr: Slot, vaddr: bool, p0: bool, p1: bool)

  // match, matchaddr, fmatch, zmatch and hmatch
  datatype Found = Found(yes: bool, at: Slot, far: bool, one: bool, short: bool)

  datatype Regs = Regs(h: Hand, t: Table, s: Search, c: Compare, f: Found)

  datatype In = In(stb: bool, word: Codeword, busy: bool)

  predicate Formed(r: Regs) { |r.t.mem| == TABLE }

  function Minus(a: Slot, b: nat): Slot
    requires b <= TABLE
  {
    (a + TABLE - b) % TABLE
  }

  // An address word, made as short as its address allows.
  function Shorten(w: Codeword): Codeword {
    if w.op / 4 != 2 || w.op % 4 != 0 then w
    else if w.low < 64 then Codeword(0x0c, w.low * 0x100_0000)
    else if w.low < 0x1000 then Codeword(0x0d, w.low * 0x4_0000)
    else if w.low < 0x4_0000 then Codeword(0x0e, w.low * 0x1000)
    else if w.low < 0x100_0000 then Codeword(0x0f, w.low * 64)
    else w
  }

  function Output(h: Hand): Codeword { if h.late then h.better else h.word }

  predicate Accepted(h: Hand, i: In) { h.stb && !i.busy }

  // Nothing to search for, or no more.
  predicate Restart(h: Hand, i: In) { Accepted(h, i) || !h.stb }

  // 10'h521 keeps only ten bits, 0x121.
  const REACH := 0x521 % 0x400

  function LongReference(w: Codeword, at: Slot): Codeword {
    var d := Minus(at, 10);
    Codeword(16 + d / 64 % 8 * 2 + w.op % 2, d % 64 * 0x100_0000 + w.low % 0x100_0000)
  }

  // The word in hand as a reference to the entry found.
  function Reference(w: Codeword, f: Found): Codeword {
    if f.one then w.(op := 6 + w.op % 2)
    else if f.short then w.(op := 32 + (f.at % 8 + 6) % 8 * 2 + w.op % 2)
    else LongReference(w, f.at)
  }

  function NextHand(r: Regs, i: In): Hand {
    var h, load := r.h, i.stb && !r.h.stb;
    Hand(load || (h.stb && i.busy), if load then Shorten(i.word) else h.word, h.stb,
         if !h.stb || !h.late || Accepted(h, i) then h.word
         else if r.f.yes && r.f.far then Reference(h.word, r.f) else h.word)
  }

  function NextTable(r: Regs, i: In): (t: Table)
    requires Formed(r)
    ensures |t.mem| == TABLE
  {
    var kind, t := Output(r.h).op / 8, r.t;
    var restarts := Accepted(r.h, i) && kind == 1;
    Table(if restarts then 0 else if Accepted(r.h, i) && kind == 7 then (t.addr + 1) % TABLE else t.addr,
          if restarts then false else if t.addr == 0x3ff then true else t.filled,
          t.mem[t.addr := Data(r.h.word)])
  }

  function NextSearch(r: Regs, i: In): Search {
    var s, over := r.s, Minus(r.s.next, r.t.addr) == 1;
    if Restart(r.h, i) then Search(false, over, Minus(r.t.addr, 1), Minus(r.t.addr, 2))
    else if !s.over && !r.f.yes && (s.next < 512 || r.t.filled) then Search(s.nextOver, over, s.next, Minus(s.next, 1))
    else Search(s.over, over, s.rd, s.next)
  }

  function NextCompare(r: Regs, i: In): Compare
    requires Formed(r)
  {
    var c, go := r.c, !Restart(r.h, i);
    Compare(r.t.mem[r.s.rd], r.s.rd, c.cword == Data(r.h.word), Minus(r.t.addr, c.caddr),
            (r.t.filled || c.caddr < r.t.addr) && c.caddr != r.t.addr, go, go && c.p0)
  }

  function NextFound(r: Regs, i: In): Found {
    var f, c := r.f, r.c;
    Found(
      if Restart(r.h, i) || !r.h.late then false
      else f.yes || (c.vaddr && c.dmatch && r.h.word.op / 8 == 7 && c.p0 && c.p1),
      if f.yes then f.at else c.maddr,
      if f.yes then f.far else c.maddr < REACH,
      if f.yes then f.one else c.maddr == 1,
      if f.yes then f.short else c.maddr < 10)
  }

  function Step(r: Regs, i: In): (t: Regs)
    requires Formed(r)
    ensures Formed(t)
  {
    Regs(NextHand(r, i), NextTable(r, i), NextSearch(r, i), NextCompare(r, i), NextFound(r, i))
  }
}
