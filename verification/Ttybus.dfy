// The host driver of sw/ttybus.cpp: its fields, and the calls that send commands to the device.
module Ttybus {
  import opened WbuCode
  import opened WbuHost
  import opened WbuReply
  import R = WbuRead

  const MAXWRLEN := 32

  class Tty {
    var buf: seq<Byte>                 // m_buf, up to the write pointer
    var device: seq<Byte>              // everything handed to the device
    var incoming: seq<Byte>            // what the device still has for us
    var interruptFlag: bool
    var busErr: bool
    var addrSet: bool
    var lastAddr: Word
    var wrLoaded: bool
    var wrAddr: nat
    var rdAddr: nat
    const writeTbl: array<Word>
    const readTbl: array<Word>
    ghost var hist: seq<Word>          // the raw words written

    ghost predicate Valid()
      reads this, writeTbl
    {
      && writeTbl.Length == 512 && readTbl.Length == 1024 && writeTbl != readTbl
      && wrAddr == |hist| % 256 && (wrLoaded <==> |hist| >= 256) && rdAddr < 1024
      && TableHolds(writeTbl[..], hist)
    }

    ghost function State(): Host
      reads this
    {
      Host(addrSet, lastAddr, hist)
    }

    ghost function Reading(): R.Reader
      reads this, readTbl
    {
      R.Reader(addrSet, lastAddr, readTbl[..], rdAddr, interruptFlag, busErr)
    }

    constructor ()
      ensures Valid() && State() == Host(false, lastAddr, []) && device == [] && fresh(writeTbl) && fresh(readTbl)
      ensures !interruptFlag && !busErr && rdAddr == 0
    {
      interruptFlag, busErr := false, false;
      buf, device, addrSet, wrLoaded, wrAddr, rdAddr, hist := [], [], false, false, 0, 0, [];
      writeTbl := new Word[512];
      readTbl := new Word[1024];
    }

    method Put(d: Digit)
      modifies this`buf
      ensures buf == old(buf) + [CharEnc(d)]
    {
      buf := buf + [CharEnc(d)];
    }

    method Put2(d: Digit, e: Digit)
      modifies this`buf
      ensures buf == old(buf) + Chars([d, e])
    {
      Put(d);
      Put(e);
    }

    // The shorter of a relative and an absolute code for an address; nothing when the device stands there
    // already.  A new address restarts the table of words read.
    method EncodeAddress(a: Word) returns (ok: bool)
      requires Valid()
      modifies this`buf, this`rdAddr
      ensures Valid() && ok == Aligned(a)
      ensures ok ==> buf == Chars(AddressCode(addrSet, lastAddr, a))
      ensures rdAddr == if ok && !(addrSet && a == lastAddr) then 0 else old(rdAddr)
    {
      var addr := a / 4;
      if a % 4 != 0 { return false; }
      buf := [];
      if addrSet && a == lastAddr { return true; }
      if addrSet {
        var d := Distance(lastAddr, a);
        if d < 32 {
          Put2(0x09, d % 64);
        } else if d < 2048 {
          Put(0x0b);
          Put2(d / 64 % 64, d % 64);
        } else if d < 0x2_0000 {
          Put2(0x0d, d / 0x1000 % 64);
          Put2(d / 64 % 64, d % 64);
        } else if d < 0x80_0000 {
          Put(0x0d);
          Put2(d / 0x4_0000 % 64, d / 0x1000 % 64);
          Put2(d / 64 % 64, d % 64);
        }
        assert buf == Chars(Relative(d));
      }
      ghost var rel := if addrSet then Relative(Distance(lastAddr, a)) else [];
      assert buf == Chars(rel);
      PutAbsolute(addr, rel);
      rdAddr := 0;
      return true;
    }

    method PutAbsolute(addr: nat, ghost rel: seq<Digit>)
      requires addr < 0x4000_0000 && buf == Chars(rel)
      modifies this`buf
      ensures buf == Chars(Absolute(addr, rel))
    {
      var n := |buf|;
      if addr <= 0x3f && (n == 0 || n >= 2) {
        buf := [];
        Put2(0x08, addr);
      } else if addr <= 0xfff && (n == 0 || n >= 3) {
        buf := [];
        Put(0x0a);
        Put2(addr / 64 % 64, addr % 64);
      } else if addr <= 0x3_ffff && (n == 0 || n >= 4) {
        buf := [];
        Put2(0x0c, addr / 0x1000 % 64);
        Put2(addr / 64 % 64, addr % 64);
      } else if addr <= 0xff_ffff && (n == 0 || n >= 5) {
        buf := [];
        Put(0x0e);
        Put2(addr / 0x4_0000 % 64, addr / 0x1000 % 64);
        Put2(addr / 64 % 64, addr % 64);
      } else if n == 0 {
        Put(addr / 0x4000_0000 % 4);
        Put5(addr);
      }
    }

    // The five digits of the low thirty bits.
    method Put5(v: nat)
      modifies this`buf
      ensures buf == old(buf) + Chars(Digits5(v))
    {
      Put(v / 0x100_0000 % 64);
      Put2(v / 0x4_0000 % 64, v / 0x1000 % 64);
      Put2(v / 64 % 64, v % 64);
    }

    // Look back through the words written, the nearest first.
    method FindMatch(val: Word) returns (caddr: nat)
      requires Valid()
      ensures caddr == Match(hist, val, 1)
    {
      ghost var tbl := writeTbl[..];
      var i := 1;
      while i < 256
        invariant 1 <= i <= 256
        invariant Match(hist, val, 1) == Match(hist, val, i)
      {
        var at := (wrAddr - i) % 256;
        Slot(|hist|, i);
        hide TableHolds;
        if !wrLoaded && at > wrAddr { return 0; }
        if writeTbl[at] == val { return (wrAddr - at) % 256; }
        i := i + 1;
      }
      return 0;
    }

    method PutRaw(val: Word, inc: bool)
      modifies this`buf
      ensures buf == old(buf) + Chars([0x18 + val / 0x4000_0000 * 2 + (if inc then 1 else 0)] + Digits5(val))
    {
      hide Digits5, CharEnc;
      var op: Digit := 0x18 + val / 0x4000_0000 % 4 * 2 + (if inc then 1 else 0);
      Put(op);
      Put5(val);
      CharsApart([op], Digits5(val));
    }

    method EncodeWord(val: Word, inc: bool)
      requires Valid()
      modifies this`buf, this`lastAddr, this`wrAddr, this`wrLoaded, this`hist, writeTbl
      ensures Valid() && hist == AfterWrite(old(hist), val)
      ensures buf == old(buf) + Chars(WriteCode(old(hist), inc, val))
      ensures addrSet == old(addrSet) && device == old(device) && rdAddr == old(rdAddr)
      ensures lastAddr == if inc then Advance(old(lastAddr), 1) else old(lastAddr)
    {
      hide TableHolds, Digits5, Match, CharEnc;
      var caddr := FindMatch(val);
      if caddr != 0 {
        Put2(0x10 + caddr / 64 % 4 * 2 + (if inc then 1 else 0), caddr % 64);
      } else {
        PutRaw(val, inc);
        Remember(val);
      }
      if inc { lastAddr := Advance(lastAddr, 1); }
    }

    method Remember(val: Word)
      requires Valid()
      modifies writeTbl, this`wrAddr, this`wrLoaded, this`hist
      ensures Valid() && hist == old(hist) + [val]
    {
      StoreHolds(writeTbl[..], hist, val);
      writeTbl[wrAddr] := val;
      wrAddr := (wrAddr + 1) % 256;
      if wrAddr == 0 { wrLoaded := true; }
      hist := hist + [val];
    }

    method WriteChunk(inc: bool, part: seq<Word>)
      requires Valid()
      modifies this`buf, this`lastAddr, this`wrAddr, this`wrLoaded, this`hist, writeTbl
      ensures Valid() && hist == AfterWrites(old(hist), part)
      ensures buf == old(buf) + WriteChars(old(hist), inc, part)
      ensures addrSet == old(addrSet) && device == old(device) && rdAddr == old(rdAddr)
      ensures lastAddr == if inc then Advance(old(lastAddr), |part|) else old(lastAddr)
    {
      hide WriteChars, AfterWrites, WriteCode, AfterWrite, TableHolds, Advance;
      ghost var was, start, a := hist, buf, lastAddr;
      NoWrites(hist, inc);
      AdvanceMore(lastAddr, 0);
      assert part[..0] == [];
      for i := 0 to |part|
        invariant Valid() && addrSet == old(addrSet) && device == old(device) && rdAddr == old(rdAddr)
        invariant hist == AfterWrites(was, part[..i])
        invariant buf == start + WriteChars(was, inc, part[..i])
        invariant lastAddr == if inc then Advance(a, i) else a
      {
        AdvanceMore(a, i);
        WriteOneMore(was, inc, part, i);
        EncodeWord(part[i], inc);
      }
      assert part[..|part|] == part;
    }

    // Encode up to MAXWRLEN words after whatever the buffer holds, and hand them over; the last go ends the line.
    method SendChunk(inc: bool, vals: seq<Word>, nw: nat) returns (next: nat)
      requires Valid() && nw < |vals|
      modifies this`buf, this`device, this`lastAddr, this`wrAddr, this`wrLoaded, this`hist, writeTbl
      ensures Valid() && nw < next <= |vals| && hist == AfterWrites(old(hist), vals[nw..next]) && buf == []
      ensures device == old(device) + (old(buf) + WriteChars(old(hist), inc, vals[nw..next]) + LineEnd(vals, next))
      ensures addrSet == old(addrSet) && rdAddr == old(rdAddr)
      ensures lastAddr == if inc then Advance(old(lastAddr), next - nw) else old(lastAddr)
    {
      hide WriteChars, AfterWrites, TableHolds, Advance;
      var ln := if |vals| - nw > MAXWRLEN then MAXWRLEN else |vals| - nw;
      WriteChunk(inc, vals[nw..nw + ln]);
      if ln == |vals| - nw { buf := buf + [NEWLINE]; }
      device := device + buf;
      buf := [];
      next := nw + ln;
    }

    method SendWords(inc: bool, vals: seq<Word>)
      requires Valid() && vals != []
      modifies this`buf, this`device, this`lastAddr, this`wrAddr, this`wrLoaded, this`hist, writeTbl
      ensures Valid() && hist == AfterWrites(old(hist), vals)
      ensures device == old(device) + (old(buf) + WriteChars(old(hist), inc, vals) + [NEWLINE])
      ensures addrSet == old(addrSet) && rdAddr == old(rdAddr)
      ensures lastAddr == if inc then Advance(old(lastAddr), |vals|) else old(lastAddr)
    {
      hide WriteChars, AfterWrites, TableHolds, Advance;
      ghost var was, address, dev, a := hist, buf, device, lastAddr;
      var nw := SendChunk(inc, vals, 0);
      assert vals[0..nw] == vals[..nw];
      while nw < |vals|
        invariant Valid() && 0 < nw <= |vals| && buf == [] && addrSet == old(addrSet) && rdAddr == old(rdAddr)
        invariant hist == AfterWrites(was, vals[..nw])
        invariant device == dev + (address + WriteChars(was, inc, vals[..nw]) + LineEnd(vals, nw))
        invariant lastAddr == if inc then Advance(a, nw) else a
      {
        ghost var n, d, h := nw, device, hist;
        nw := SendChunk(inc, vals, nw);
        assert vals[..nw] == vals[..n] + vals[n..nw];
        WritesApart(was, inc, vals[..n], vals[n..nw]);
        AdvanceSum(a, n, nw - n);
        Appended(dev, address, WriteChars(was, inc, vals[..n]), WriteChars(h, inc, vals[n..nw]), LineEnd(vals, nw));
      }
      assert vals[..nw] == vals;
    }

    // The words of a write in lines of codewords, after the address if that is news; the device hears nothing of
    // an empty write.
    method WriteVec(a: Word, inc: bool, vals: seq<Word>) returns (ok: bool)
      requires Valid()
      modifies this`buf, this`device, this`addrSet, this`lastAddr, this`rdAddr, this`wrAddr, this`wrLoaded, this`hist, writeTbl
      ensures Valid() && ok == Aligned(a)
      ensures var s := Send(old(State()), Write(a, inc, vals));
              State() == s.h && device == old(device) + s.chars
      ensures rdAddr == if ok && !(old(addrSet) && a == old(lastAddr)) then 0 else old(rdAddr)
    {
      hide WriteChars, TableHolds, Advance, AddressCode, Chars;
      ok := EncodeAddress(a);
      if !ok { return; }
      lastAddr, addrSet := a, true;
      if vals != [] { SendWords(inc, vals); } else { AdvanceMore(a, 0); }
    }

    // ---- Reading ----

    // One character of the code; the others are passed over.
    method NextDigit() returns (ok: bool, d: Digit)
      modifies this`incoming
      ensures ok ==> Stripped(old(incoming)) == [d] + Stripped(incoming) && |incoming| < |old(incoming)|
      ensures !ok ==> Stripped(old(incoming)) == [] && incoming == []
    {
      d := 0;
      while incoming != []
        invariant Stripped(incoming) == Stripped(old(incoming)) && |incoming| <= |old(incoming)|
        decreases |incoming|
      {
        var b := incoming[0];
        var v := CharDec(b);
        incoming := incoming[1..];
        if v < 64 { return true, v; }
      }
      return false, d;
    }

    method MoreDigits(n: nat) returns (ok: bool, ds: seq<Digit>)
      modifies this`incoming
      ensures ok ==> |ds| == n && Stripped(old(incoming)) == ds + Stripped(incoming) && |incoming| <= |old(incoming)|
      ensures !ok ==> |Stripped(old(incoming))| < n && incoming == []
    {
      ds := [];
      while |ds| < n
        invariant |ds| <= n && Stripped(old(incoming)) == ds + Stripped(incoming) && |incoming| <= |old(incoming)|
        decreases n - |ds|
      {
        var more, d := NextDigit();
        if !more { return false, ds; }
        ds := ds + [d];
      }
      return true, ds;
    }

    // One whole reply, given its first digit: an address.
    method TakeAddress(op: Digit, ds: seq<Digit>) returns (val: Word)
      requires Valid() && op / 8 == 1 && |ds| + 1 == R.HostLen(op)
      modifies this`addrSet, this`lastAddr
      ensures Valid() && Reading() == R.After(old(Reading()), [op] + ds) && R.Reading([op] + ds, old(Reading())) == Place(val)
    {
      assert ([op] + ds)[1..] == ds;
      if op / 4 == 2 {
        val := (op % 4 * 0x4000_0000 + Value(0, ds)) % 0x1_0000_0000;
      } else {
        val := Value(0, ds) % 0x1_0000_0000;
      }
      addrSet, lastAddr := true, val * 4 % 0x1_0000_0000;
    }

    // A word, spelled out or looked up.
    method TakeWord(op: Digit, ds: seq<Digit>) returns (val: Word)
      requires Valid() && op >= 6 && op / 8 != 1 && op / 8 != 6 && |ds| + 1 == R.HostLen(op)
      modifies this`lastAddr, this`rdAddr, readTbl
      ensures Valid() && Reading() == R.After(old(Reading()), [op] + ds)
      ensures R.Reading([op] + ds, old(Reading())) == Datum(val, op % 2 == 1)
      ensures hist == old(hist) && device == old(device)
    {
      assert ([op] + ds)[1..] == ds;
      hide TableHolds, Value, R.HostLen;
      if op / 2 == 3 {
        val := readTbl[(rdAddr - 1) % 1024];
      } else if op / 16 == 1 {
        var idx := op / 2 % 8 * 64 + Value(0, ds) + 10;
        val := readTbl[(rdAddr - idx) % 1024];
      } else if op / 16 == 2 {
        var idx := op / 2 % 8 + 2;
        val := readTbl[(rdAddr - idx) % 1024];
      } else {
        val := (op / 2 % 4 * 0x4000_0000 + Value(0, ds)) % 0x1_0000_0000;
        readTbl[rdAddr] := val;
        rdAddr := (rdAddr + 1) % 1024;
      }
      if op % 2 == 1 { lastAddr := (lastAddr + 4) % 0x1_0000_0000; }
    }

    // Act on one whole reply; done says that readword has what it came for.
    method TakeReply(op: Digit, ds: seq<Digit>, val: Word, ghost rest: seq<Digit>) returns (o: Read, next: Word)
      requires Valid() && |ds| + 1 == R.HostLen(op)
      modifies this`addrSet, this`lastAddr, this`rdAddr, this`interruptFlag, this`busErr, readTbl
      ensures Valid()
      ensures Ends(o, Reading(), rest, R.ReadWord(old(Reading()), val, [op] + ds + rest))
              || (o == More && R.ReadWord(old(Reading()), val, [op] + ds + rest) == R.ReadWord(Reading(), next, rest))
    {
      hide TableHolds, R.After, R.Reading, R.ReadWord, Value;
      OneReply(Reading(), val, [op] + ds + rest, [op] + ds, rest);
      next := val;
      if op < 6 {
        if op == 4 { interruptFlag := true; }
        if op == 3 || op == 5 { busErr := true; return Exception, val; }
        return More, val;
      } else if op / 8 == 1 {
        next := TakeAddress(op, ds);
        return More, next;
      } else if op / 8 == 6 {
        return Word(val), val;
      } else {
        var v := TakeWord(op, ds);
        return Word(v), val;
      }
    }

    method NextReply(val: Word) returns (o: Read, next: Word)
      requires Valid()
      modifies this`incoming, this`addrSet, this`lastAddr, this`rdAddr, this`interruptFlag, this`busErr, readTbl
      ensures Valid()
      ensures var was, now := R.ReadWord(old(Reading()), val, Stripped(old(incoming))), Stripped(incoming);
              if o == More then |incoming| < |old(incoming)| && was == R.ReadWord(Reading(), next, now)
              else Ends(o, Reading(), now, was)
      ensures |incoming| <= |old(incoming)|
    {
      assert Stripped([]) == [];
      hide TableHolds, Stripped;
      ghost var r, ds := Reading(), Stripped(incoming);
      var ok, op := NextDigit();
      if !ok { return Blocked, val; }
      var more, digits := MoreDigits(R.HostLen(op) - 1);
      if !more { return Blocked, val; }
      assert ds == [op] + digits + Stripped(incoming);
      hide R.ReadWord;
      o, next := TakeReply(op, digits, val, Stripped(incoming));
    }

    // Read replies until one brings a word, or an exception.
    method Readword() returns (o: Read)
      requires Valid()
      modifies this`incoming, this`addrSet, this`lastAddr, this`rdAddr, this`interruptFlag, this`busErr, readTbl
      ensures Valid() && o != More
      ensures Ends(o, Reading(), Stripped(incoming), R.ReadWord(old(Reading()), 0, Stripped(old(incoming))))
    {
      hide TableHolds, Stripped, R.ReadWord;
      var val: Word := 0;
      o := More;
      while o == More
        invariant Valid()
        invariant var was, now := R.ReadWord(old(Reading()), 0, Stripped(old(incoming))), Stripped(incoming);
                  if o == More then was == R.ReadWord(Reading(), val, now) else Ends(o, Reading(), now, was)
        decreases |incoming| + if o == More then 1 else 0
      {
        o, val := NextReply(val);
      }
    }

    // ---- readcmd and readv ----

    method PutReadCmd(inc: bool, len: nat)
      requires 1 <= len < 520
      modifies this`buf
      ensures buf == old(buf) + Chars(ReadCode(len, inc))
    {
      var up := if inc then 1 else 0;
      if len <= 8 {
        Put(0x20 + (len - 1) % 8 * 2 + up);
      } else {
        Put2(0x30 + (len - 9) / 64 % 8 * 2 + up, (len - 9) % 64);
      }
    }

    // Take the words of one block, in order.
    method ReadBlock(n: nat) returns (end: Read, words: seq<Word>)
      requires Valid()
      modifies this`incoming, this`addrSet, this`lastAddr, this`rdAddr, this`interruptFlag, this`busErr, readTbl
      ensures Valid()
      ensures Reads(end, Reading(), words, Stripped(incoming), R.ReadWords(old(Reading()), n, Stripped(old(incoming))))
    {
      hide TableHolds, Stripped, R.ReadWord, Ends;
      end, words := More, [];
      ghost var r0, d0 := Reading(), Stripped(incoming);
      while |words| < n && end == More
        invariant Valid() && |words| <= n
        invariant end == More ==> Prefixed(words, R.ReadWords(Reading(), n - |words|, Stripped(incoming)), R.ReadWords(r0, n, d0))
        invariant end != More ==> Reads(end, Reading(), words, Stripped(incoming), R.ReadWords(r0, n, d0))
        decreases n - |words|, if end == More then 1 else 0
      {
        ghost var r, ds := Reading(), Stripped(incoming);
        var o := Readword();
        WordThenWords(o, Reading(), Stripped(incoming), r, ds, n - |words|);
        if o.Word? { words := words + [o.v]; } else { end := o; }
      }
    }

    // Send the command for one block, with whatever the buffer holds before it, and take its words.
    method SendBlock(inc: bool, nrd: nat) returns (end: Read, words: seq<Word>)
      requires Valid() && 1 <= nrd <= READBLOCK
      modifies this, readTbl
      ensures Valid() && hist == old(hist) && buf == []
      ensures device == old(device) + (old(buf) + (Chars(ReadCode(nrd, inc)) + [NEWLINE]))
      ensures Reads(end, Reading(), words, Stripped(incoming), R.ReadWords(old(Reading()), nrd, Stripped(old(incoming))))
    {
      hide TableHolds, Stripped, R.ReadWords, Reads, Chars;
      PutReadCmd(inc, nrd);
      buf := buf + [NEWLINE];
      device := device + buf;
      buf := [];
      end, words := ReadBlock(nrd);
    }

    method ReadBlocks(inc: bool, len: nat) returns (end: Read, words: seq<Word>)
      requires Valid()
      modifies this, readTbl
      ensures Valid() && hist == old(hist)
      ensures Reads(end, Reading(), words, Stripped(incoming), R.ReadWords(old(Reading()), len, Stripped(old(incoming))))
      ensures end == More && len > 0 ==> device == old(device) + (old(buf) + ReadChars(len, inc))
    {
      hide TableHolds, Stripped, R.ReadWords, Chars, Reads, Prefixed, ReadChars;
      end, words := More, [];
      var cmdrd := 0;
      ghost var r0, d0, start, dev, sent: seq<Byte> := Reading(), Stripped(incoming), buf, device, [];
      PrefixedNone(R.ReadWords(r0, len, d0));
      while cmdrd < len && end == More
        invariant Valid() && hist == old(hist) && cmdrd <= len
        invariant end == More ==> sent + ReadChars(len - cmdrd, inc) == ReadChars(len, inc)
        invariant end == More ==> OutSoFar(dev, start, sent, device, buf, cmdrd)
        invariant end == More ==> Prefixed(words, R.ReadWords(Reading(), len - cmdrd, Stripped(incoming)), R.ReadWords(r0, len, d0))
        invariant end != More ==> Reads(end, Reading(), words, Stripped(incoming), R.ReadWords(r0, len, d0))
        decreases len - cmdrd, if end == More then 1 else 0
      {
        var nrd := if len - cmdrd > READBLOCK then READBLOCK else len - cmdrd;
        ghost var r, ds, was, line := Reading(), Stripped(incoming), words, Chars(ReadCode(nrd, inc)) + [NEWLINE];
        var ws;
        end, ws := SendBlock(inc, nrd);
        BlockThenRest(end, Reading(), ws, Stripped(incoming), r, ds, nrd, len - cmdrd - nrd, was, R.ReadWords(r0, len, d0));
        words := words + ws;
        OneBlock(len - cmdrd, inc);
        MoreOut(dev, start, sent, line, cmdrd, nrd);
        sent := sent + line;
        cmdrd := cmdrd + nrd;
      }
      NoMore(Reading(), Stripped(incoming), words, R.ReadWords(r0, len, d0));
      NothingToRead(inc);
    }

    // Every word of a read, and the address checked at its end; a mismatch ends the program.
    method ReadVec(a: Word, inc: bool, len: nat) returns (end: ReadEnd, words: seq<Word>)
      requires Valid()
      modifies this, readTbl
      ensures Valid() && hist == old(hist)
      ensures len == 0 || !Aligned(a) ==>
                && end == (if len == 0 then Done else Misaligned) && words == []
                && device == old(device) && incoming == old(incoming) && Reading() == old(Reading())
      ensures len > 0 && Aligned(a) ==>
                var r := old(Reading());
                var x := R.ReadWords(if r.addrSet && a == r.last then r else r.(rd := 0), len, Stripped(old(incoming)));
                && Reading() == x.r && words == x.words
                && end == (if !x.AllGot? then Failed
                           else if x.r.last == (if inc then Advance(a, len) else a) then Done else Lost)
                && (x.AllGot? ==> Stripped(incoming) == x.rest
                                  && device == old(device) + Send(old(State()), Read(a, inc, len)).chars)
    {
      words := [];
      if len == 0 { return Done, []; }
      hide TableHolds, Stripped, R.ReadWords, Chars, AddressCode;
      var ok := EncodeAddress(a);
      if !ok { return Misaligned, []; }
      var stop;
      stop, words := ReadBlocks(inc, len);
      if stop != More { return Failed, words; }
      if lastAddr != (if inc then Advance(a, len) else a) { return Lost, words; }
      return Done, words;
    }
  }

  datatype ReadEnd = Done | Misaligned | Failed | Lost

  // What has gone out while reading: the address stays in the buffer until the first block.
  ghost predicate OutSoFar(dev: seq<Byte>, start: seq<Byte>, sent: seq<Byte>, device: seq<Byte>, buf: seq<Byte>, cmdrd: nat) {
    if cmdrd == 0 then buf == start && device == dev && sent == [] else buf == [] && device == dev + (start + sent)
  }

  lemma {:induction false} MoreOut(dev: seq<Byte>, start: seq<Byte>, sent: seq<Byte>, line: seq<Byte>, cmdrd: nat, nrd: nat)
    requires nrd > 0
    ensures forall device, buf :: OutSoFar(dev, start, sent, device, buf, cmdrd) ==>
              OutSoFar(dev, start, sent + line, device + (buf + line), [], cmdrd + nrd)
  {
  }

  lemma {:induction false} PrefixedNone(x: R.Outcomes)
    ensures Prefixed([], x, x)
  {
  }

  lemma {:induction false} NothingToRead(inc: bool)
    ensures ReadChars(0, inc) == []
  {
  }

  lemma {:induction false} NoMore(r: R.Reader, ds: seq<Digit>, words: seq<Word>, y: R.Outcomes)
    requires R.Formed(r)
    ensures Prefixed(words, R.ReadWords(r, 0, ds), y) ==> Reads(More, r, words, ds, y)
  {
  }

  lemma {:induction false} OneBlock(len: nat, inc: bool)
    requires len > 0
    ensures var nrd := if len > READBLOCK then READBLOCK else len;
            ReadChars(len, inc) == Chars(ReadCode(nrd, inc)) + [NEWLINE] + ReadChars(len - nrd, inc)
  {
  }

  lemma {:induction false} ReadsApart(r: R.Reader, n: nat, m: nat, ds: seq<Digit>)
    requires R.Formed(r)
    ensures var x := R.ReadWords(r, n, ds);
            if x.AllGot? then Prefixed(x.words, R.ReadWords(x.r, m, x.rest), R.ReadWords(r, n + m, ds))
            else R.ReadWords(r, n + m, ds) == x
    decreases n
  {
    hide R.ReadWord, Prefixed;
    if n > 0 {
      var o := R.ReadWord(r, 0, ds);
      if o.Got? {
        ReadsApart(o.r, n - 1, m, o.rest);
        var x := R.ReadWords(o.r, n - 1, o.rest);
        Preceded(r, n - 1, ds, o.r, o.word, o.rest);
        Preceded(r, n - 1 + m, ds, o.r, o.word, o.rest);
        if x.AllGot? {
          PrefixChain([o.word], x.words, R.ReadWords(x.r, m, x.rest), R.ReadWords(o.r, n - 1 + m, o.rest), R.ReadWords(r, n + m, ds));
        }
        PrefixedMeans([o.word], x, R.ReadWords(r, n, ds));
        PrefixedMeans([o.word], x, R.ReadWords(r, n + m, ds));
      }
    } else {
      PrefixedNone(R.ReadWords(r, m, ds));
    }
  }

  lemma {:induction false} Preceded(r: R.Reader, n: nat, ds: seq<Digit>, s: R.Reader, v: Word, rest: seq<Digit>)
    requires R.Formed(r) && R.Formed(s) && R.ReadWord(r, 0, ds) == R.Got(s, v, rest)
    ensures Prefixed([v], R.ReadWords(s, n, rest), R.ReadWords(r, n + 1, ds))
  {
    hide R.ReadWord;
  }

  lemma {:induction false} PrefixedMeans(words: seq<Word>, x: R.Outcomes, y: R.Outcomes)
    ensures Prefixed(words, x, y) <==> y == match x
                                            case AllGot(r, vs, rest) => R.AllGot(r, words + vs, rest)
                                            case NotAll(r, vs) => R.NotAll(r, words + vs)
  {
  }

  lemma {:induction false} BlockThenRest(end: Read, now: R.Reader, ws: seq<Word>, left: seq<Digit>, r: R.Reader, ds: seq<Digit>, n: nat, m: nat,
                                         words: seq<Word>, y: R.Outcomes)
    requires R.Formed(r) && R.Formed(now) && Reads(end, now, ws, left, R.ReadWords(r, n, ds))
    requires Prefixed(words, R.ReadWords(r, n + m, ds), y)
    ensures if end == More then Prefixed(words + ws, R.ReadWords(now, m, left), y) else Reads(end, now, words + ws, left, y)
  {
    hide R.ReadWords;
    ReadsApart(r, n, m, ds);
    var x := R.ReadWords(r, n, ds);
    if end == More { PrefixChain(words, ws, R.ReadWords(now, m, left), R.ReadWords(r, n + m, ds), y); }
    hide Prefixed;
    if end != More { PrefixNot(words, now, ws, left, end, x, y); }
  }

  lemma {:induction false} PrefixChain(words: seq<Word>, ws: seq<Word>, a: R.Outcomes, b: R.Outcomes, y: R.Outcomes)
    requires Prefixed(ws, a, b) && Prefixed(words, b, y)
    ensures Prefixed(words + ws, a, y)
  {
    assert a.AllGot? ==> words + (ws + a.words) == (words + ws) + a.words;
    assert a.NotAll? ==> words + (ws + a.words) == (words + ws) + a.words;
  }

  lemma {:induction false} PrefixNot(words: seq<Word>, now: R.Reader, ws: seq<Word>, left: seq<Digit>, end: Read, x: R.Outcomes, y: R.Outcomes)
    requires Reads(end, now, ws, left, x) && end != More && Prefixed(words, x, y)
    ensures Reads(end, now, words + ws, left, y)
  {
  }

  // How a block ends: with all its words, or with some and the reason.
  ghost predicate Reads(end: Read, r: R.Reader, words: seq<Word>, left: seq<Digit>, x: R.Outcomes) {
    r == x.r && words == x.words && (x.AllGot? <==> end == More) && !end.Word? && (x.AllGot? ==> left == x.rest)
  }

  // x is y after the words that came first.
  ghost predicate Prefixed(words: seq<Word>, x: R.Outcomes, y: R.Outcomes) {
    y == match x
         case AllGot(r, vs, rest) => R.AllGot(r, words + vs, rest)
         case NotAll(r, vs) => R.NotAll(r, words + vs)
  }

  lemma {:induction false} WordThenWords(o: Read, now: R.Reader, left: seq<Digit>, r: R.Reader, ds: seq<Digit>, n: nat)
    requires R.Formed(r) && R.Formed(now) && n > 0 && Ends(o, now, left, R.ReadWord(r, 0, ds))
    ensures if o.Word? then Prefixed([o.v], R.ReadWords(now, n - 1, left), R.ReadWords(r, n, ds))
            else R.ReadWords(r, n, ds) == R.NotAll(now, []) && o != More
  {
    hide R.ReadWord;
  }

  datatype Read = Word(v: Word) | Exception | Blocked | More

  // How readword ends, with the reader and the digits that are left.
  ghost predicate Ends(o: Read, r: R.Reader, left: seq<Digit>, x: R.Outcome) {
    r == x.r && o != More &&
    match x
    case Got(_, v, rest) => o == Word(v) && left == rest
    case Thrown(_, rest) => o == Exception && left == rest
    case Starved(_) => o == Blocked && left == []
  }

  // What readword makes of a message, and of the rest of the stream.
  function Sequel(m: Message, s: R.Reader, val: Word, rest: seq<Digit>): R.Outcome
    requires R.Formed(s)
  {
    match m
    case Datum(v, _) => R.Got(s, v, rest)
    case Place(a) => R.ReadWord(s, a, rest)
    case Note(k) => if k == 3 || k == 5 then R.Thrown(s, rest) else R.ReadWord(s, val, rest)
    case Strange => R.Got(s, val, rest)
  }

  // What readword does with the first reply in a stream.
  lemma {:induction false} OneReply(r: R.Reader, val: Word, ds: seq<Digit>, code: seq<Digit>, rest: seq<Digit>)
    requires R.Formed(r) && R.IsReply(code) && ds == code + rest
    ensures R.ReadWord(r, val, ds) == Sequel(R.Reading(code, r), R.After(r, code), val, rest)
    ensures var op := code[0];
            && (op < 6 ==> R.Reading(code, r) == Note(op)
                           && R.After(r, code) == if op == 4 then r.(interrupt := true)
                                                  else if op == 3 || op == 5 then r.(busErr := true) else r)
            && (op / 8 == 6 ==> R.Reading(code, r) == Strange && R.After(r, code) == r)
  {
    assert ds[..|code|] == code && ds[|code|..] == rest;
    hide R.HostLen, Value;
  }

  function LineEnd(vals: seq<Word>, nw: nat): seq<Byte> { if nw == |vals| then [NEWLINE] else [] }

  lemma {:induction false} Appended(dev: seq<Byte>, address: seq<Byte>, w: seq<Byte>, part: seq<Byte>, nl: seq<Byte>)
    ensures dev + (address + w + []) + ([] + part + nl) == dev + (address + (w + part) + nl)
  {
  }

  lemma {:induction false} AdvanceSum(a: Word, n: nat, m: nat)
    ensures Advance(Advance(a, n), m) == Advance(a, n + m) && Advance(a, 0) == a
  {
  }

  lemma {:induction false} AdvanceMore(a: Word, n: nat)
    ensures Advance(Advance(a, n), 1) == Advance(a, n + 1) && Advance(a, 0) == a
  {
    AdvanceSum(a, n, 1);
  }

  lemma {:induction false} NoWrites(hist: seq<Word>, inc: bool)
    ensures WriteChars(hist, inc, []) == [] && AfterWrites(hist, []) == hist
  {
  }

  lemma {:induction false} WritesApart(hist: seq<Word>, inc: bool, a: seq<Word>, b: seq<Word>)
    ensures WriteChars(hist, inc, a + b) == WriteChars(hist, inc, a) + WriteChars(AfterWrites(hist, a), inc, b)
    ensures AfterWrites(hist, a + b) == AfterWrites(AfterWrites(hist, a), b)
    decreases |a|
  {
    hide WriteCode, AfterWrite, Chars;
    if a == [] {
      assert a + b == b;
    } else {
      assert (a + b)[1..] == a[1..] + b && (a + b)[0] == a[0];
      WritesApart(AfterWrite(hist, a[0]), inc, a[1..], b);
    }
  }

  lemma {:induction false} WriteOneMore(hist: seq<Word>, inc: bool, vals: seq<Word>, i: nat)
    requires i < |vals|
    ensures var h := AfterWrites(hist, vals[..i]);
            && WriteChars(hist, inc, vals[..i + 1]) == WriteChars(hist, inc, vals[..i]) + Chars(WriteCode(h, inc, vals[i]))
            && AfterWrites(hist, vals[..i + 1]) == AfterWrite(h, vals[i])
  {
    hide WriteCode, AfterWrite, Chars;
    var v, h := vals[i], AfterWrites(hist, vals[..i]);
    assert vals[..i + 1] == vals[..i] + [v];
    WritesApart(hist, inc, vals[..i], [v]);
    assert [v][1..] == [];
    NoWrites(AfterWrite(h, v), inc);
  }

  // Entry k places behind the next one to be written is the raw word k words ago.
  ghost predicate TableHolds(tbl: seq<Word>, hist: seq<Word>)
  {
    |tbl| >= 256 && forall k :: 1 <= k <= 256 && k <= |hist| ==> tbl[(|hist| - k) % 256] == Recent(hist, k)
  }

  // The table address i places back, when n words have been written.
  lemma {:induction false} Slot(n: nat, i: nat)
    requires 1 <= i < 256
    ensures var at := (n % 256 - i) % 256;
            && at == (n - i) % 256 && (n % 256 - at) % 256 == i
            && (n < 256 ==> (at > n % 256 <==> i > n))
  {
  }

  lemma {:induction false} StoreHolds(tbl: seq<Word>, hist: seq<Word>, v: Word)
    requires TableHolds(tbl, hist)
    ensures TableHolds(tbl[|hist| % 256 := v], hist + [v])
  {
    var now := hist + [v];
    forall k | 1 <= k <= 256 && k <= |now|
      ensures tbl[|hist| % 256 := v][(|now| - k) % 256] == Recent(now, k)
    {
      if k > 1 {
        assert tbl[(|hist| - (k - 1)) % 256] == Recent(hist, k - 1);
        assert (|now| - k) % 256 != |hist| % 256;
      }
    }
  }
}
