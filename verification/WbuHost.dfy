// What the host side of the debug link, sw/ttybus.cpp, hands to its device for each call.
module WbuHost {
  import opened WbuCode

  // m_addr_set, m_lastaddr, and every raw word that went out in a write.
  datatype Host = Host(addrSet: bool, last: Word, hist: seq<Word>)

  // writei and writez, readi and readz: a call names a byte address, and whether it goes up.
  datatype Call =
    | Write(a: Word, inc: bool, vals: seq<Word>)
    | Read(a: Word, inc: bool, len: nat)

  predicate Aligned(a: Word) { a % 4 == 0 }

  function Advance(a: Word, n: nat): Word { (a + 4 * n) % 0x1_0000_0000 }

  // ---- encode_address ----

  // The distance in words from m_lastaddr, as unsigned arithmetic forms it: never negative.
  function Distance(last: Word, a: Word): (d: nat)
    ensures d < 0x4000_0000
  {
    (a + 0x1_0000_0000 - last) % 0x1_0000_0000 / 4
  }

  function Relative(d: nat): seq<Digit> {
    if d < 32 then [0x09, d % 64]
    else if d < 2048 then [0x0b] + Digits2(d)
    else if d < 0x2_0000 then [0x0d] + Digits3(d)
    else if d < 0x80_0000 then [0x0d] + Digits4(d)
    else []
  }

  // An absolute address displaces a relative one that is not shorter.
  function Absolute(addr: nat, rel: seq<Digit>): seq<Digit> {
    var n := |rel|;
    if addr <= 0x3f && (n == 0 || n >= 2) then [0x08, addr]
    else if addr <= 0xfff && (n == 0 || n >= 3) then [0x0a] + Digits2(addr)
    else if addr <= 0x3_ffff && (n == 0 || n >= 4) then [0x0c] + Digits3(addr)
    else if addr <= 0xff_ffff && (n == 0 || n >= 5) then [0x0e] + Digits4(addr)
    else if n == 0 then [addr / 0x4000_0000 % 4] + Digits5(addr)
    else rel
  }

  function AddressCode(addrSet: bool, last: Word, a: Word): seq<Digit> {
    if addrSet && a == last then []
    else Absolute(a / 4, if addrSet then Relative(Distance(last, a)) else [])
  }

  // ---- writev ----

  // The nearest of the last 255 raw words that equals v, looking from k words back; 0 if there is none.
  function Match(hist: seq<Word>, v: Word, k: nat): (r: nat)
    requires k >= 1
    ensures r != 0 ==> k <= r && Recalls(hist, r) && Recent(hist, r) == v
    ensures forall j :: k <= j && Recalls(hist, j) && Recent(hist, j) == v ==> 0 < r <= j
    decreases 256 - k
  {
    if !Recalls(hist, k) then 0 else if Recent(hist, k) == v then k else Match(hist, v, k + 1)
  }

  function WriteCode(hist: seq<Word>, inc: bool, v: Word): seq<Digit> {
    var k, up := Match(hist, v, 1), if inc then 1 else 0;
    if k != 0 then [0x10 + k / 64 * 2 + up, k % 64]
    else [0x18 + v / 0x4000_0000 * 2 + up] + Digits5(v)
  }

  function AfterWrite(hist: seq<Word>, v: Word): seq<Word> {
    if Match(hist, v, 1) != 0 then hist else hist + [v]
  }

  function WriteChars(hist: seq<Word>, inc: bool, vals: seq<Word>): seq<Byte>
    decreases |vals|
  {
    if vals == [] then [] else
    Chars(WriteCode(hist, inc, vals[0])) + WriteChars(AfterWrite(hist, vals[0]), inc, vals[1..])
  }

  function AfterWrites(hist: seq<Word>, vals: seq<Word>): seq<Word>
    decreases |vals|
  {
    if vals == [] then hist else AfterWrites(AfterWrite(hist, vals[0]), vals[1..])
  }

  // ---- readcmd and readv ----

  const READBLOCK := 512

  function ReadCode(len: nat, inc: bool): seq<Digit>
    requires 1 <= len < 520
  {
    var up := if inc then 1 else 0;
    if len <= 8 then [0x20 + (len - 1) % 8 * 2 + up]
    else [0x30 + (len - 9) / 64 % 8 * 2 + up, (len - 9) % 64]
  }

  // One read command a line; the answers to a block are read before the next is sent.
  function ReadChars(len: nat, inc: bool): seq<Byte> {
    if len == 0 then []
    else if len <= READBLOCK then Chars(ReadCode(len, inc)) + [NEWLINE]
    else Chars(ReadCode(READBLOCK, inc)) + [NEWLINE] + ReadChars(len - READBLOCK, inc)
  }

  // ---- Calls ----

  datatype Sent = Sent(h: Host, chars: seq<Byte>)

  // A misaligned address is refused by an exception before anything is sent.  An empty write sends nothing,
  // but moves m_lastaddr.  After a read, m_lastaddr is what readv insists on.
  function Send(h: Host, call: Call): Sent {
    if !Aligned(call.a) then Sent(h, []) else
    var address := Chars(AddressCode(h.addrSet, h.last, call.a));
    match call
    case Write(a, inc, vals) =>
      Sent(Host(true, if inc then Advance(a, |vals|) else a, AfterWrites(h.hist, vals)),
           if vals == [] then [] else address + WriteChars(h.hist, inc, vals) + [NEWLINE])
    case Read(a, inc, len) =>
      if len == 0 then Sent(h, []) else
      Sent(Host(true, if inc then Advance(a, len) else a, h.hist), address + ReadChars(len, inc))
  }

  function SendAll(h: Host, calls: seq<Call>): Sent
    decreases |calls|
  {
    if calls == [] then Sent(h, []) else
    var first := Send(h, calls[0]);
    var rest := SendAll(first.h, calls[1..]);
    Sent(rest.h, first.chars + rest.chars)
  }
}
