// The clocked blocks of rtl/wbucompress.v, statement by statement.
module WbuCompressRtl {
  import opened WbuCode
  import opened WbuCompress

  class Wbucompress {
    var h: Hand
    var tblAddr: Slot
    var tblFilled: bool
    const compressionTbl: array<Word>
    var s: Search
    var c: Compare
    var f: Found

    ghost predicate Valid() { compressionTbl.Length == TABLE }

    ghost function State(): Regs
      reads this, compressionTbl
    {
      Regs(h, Table(tblAddr, tblFilled, compressionTbl[..]), s, c, f)
    }

    // Lines 79 to 104, 126 to 131, and 261 to 279: the word in hand.
    method HandBlock(i: In) returns (n: Hand)
      requires Valid()
      ensures n == NextHand(State(), i)
    {
      var accepted := h.stb && !i.busy;
      n := h.(late := h.stb);
      if i.stb && !h.stb { n := n.(stb := true, word := Shorten(i.word)); }
      else if !i.busy { n := n.(stb := false); }

      if !h.stb || !h.late || accepted {
        n := n.(better := h.word);
      } else if f.yes && f.far {
        if f.one {
          n := n.(better := h.word.(op := 6 + h.word.op % 2));
        } else if f.short {
          n := n.(better := h.word.(op := 32 + (f.at % 8 + 6) % 8 * 2 + h.word.op % 2));
        } else {
          n := n.(better := LongReference(h.word, f.at));
        }
      } else {
        n := n.(better := h.word);
      }
    }

    // Lines 188 to 207: walk back through the table.
    method SearchBlock(i: In) returns (n: Search)
      requires Valid()
      ensures n == NextSearch(State(), i)
    {
      var accepted := h.stb && !i.busy;
      n := s.(nextOver := Minus(s.next, tblAddr) == 1);
      if accepted || !h.stb {
        n := n.(rd := Minus(tblAddr, 1), next := Minus(tblAddr, 2), over := false);
      } else if !s.over && !f.yes && (s.next < 512 || tblFilled) {
        n := n.(rd := s.next, next := Minus(s.next, 1), over := s.nextOver);
      }
    }

    // Lines 214 to 232: look at the entry, and check whether it may be used.
    method CompareBlock(i: In) returns (n: Compare)
      requires Valid()
      ensures n == NextCompare(State(), i)
    {
      var accepted := h.stb && !i.busy;
      n := Compare(compressionTbl[s.rd], s.rd, c.cword == Data(h.word), Minus(tblAddr, c.caddr),
                   (tblFilled || c.caddr < tblAddr) && c.caddr != tblAddr, true, c.p0);
      if accepted || !h.stb { n := n.(p0 := false, p1 := false); }
    }

    // Lines 236 to 254: keep the first match.
    method FoundBlock(i: In) returns (n: Found)
      requires Valid()
      ensures n == NextFound(State(), i)
    {
      var accepted := h.stb && !i.busy;
      n := f;
      if !f.yes {
        n := Found(c.vaddr && c.dmatch && h.word.op / 8 == 7 && c.p0 && c.p1, c.maddr, c.maddr < REACH, c.maddr == 1,
                   c.maddr < 10);
      }
      if accepted || !h.stb || !h.late { n := n.(yes := false); }
    }

    // Lines 140 to 176, at the clock edge together with everything else.
    method Clock(i: In)
      requires Valid()
      modifies this, compressionTbl
      ensures State() == Step(old(State()), i)
    {
      hide NextHand, NextSearch, NextCompare, NextFound, Data;
      var accepted, kind := h.stb && !i.busy, Output(h).op / 8;
      var hand := HandBlock(i);
      var search := SearchBlock(i);
      var compare := CompareBlock(i);
      var found := FoundBlock(i);
      compressionTbl[tblAddr] := Data(h.word);
      if accepted && kind == 1 { tblFilled := false; }
      else if tblAddr == 0x3ff { tblFilled := true; }
      if accepted && kind == 1 { tblAddr := 0; }
      else if accepted && kind == 7 { tblAddr := (tblAddr + 1) % TABLE; }
      h, s, c, f := hand, search, compare, found;
    }
  }
}
