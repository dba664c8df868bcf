// How the host takes replies apart, sw/ttybus.cpp lines 503 to 635.
module WbuRead {
  import opened WbuCode
  import opened WbuReply

  const READ_TABLE := 1024

  // m_addr_set, m_lastaddr, m_readtbl, m_rdaddr, m_interrupt_flag and m_bus_err
  datatype Reader = Reader(addrSet: bool, last: Word, tbl: seq<Word>, rd: nat, interrupt: bool, busErr: bool)

  predicate Formed(r: Reader) { |r.tbl| == READ_TABLE && r.rd < READ_TABLE }

  // How many digits the host takes for a reply.
  function HostLen(op: Digit): (n: nat)
    ensures 1 <= n <= 6
  {
    if op < 8 then 1
    else if op / 4 == 2 then 6
    else if op / 4 == 3 then op % 4 + 2
    else if op / 16 == 1 then 2
    else if op / 16 == 2 then 1
    else if op / 8 == 7 then 6
    else 1
  }

  predicate IsReply(ds: seq<Digit>) { |ds| > 0 && |ds| == HostLen(ds[0]) }

  // The word in the table, back from where the next one goes.
  function TableWord(r: Reader, back: nat): Word
    requires Formed(r)
  {
    r.tbl[(r.rd - back) % READ_TABLE]
  }

  function Reading(ds: seq<Digit>, r: Reader): Message
    requires IsReply(ds) && Formed(r)
  {
    var op, v := ds[0], Value(0, ds[1..]);
    if op < 6 then Note(op)
    else if op / 4 == 2 then Place((op % 4 * 0x4000_0000 + v) % 0x1_0000_0000)
    else if op / 4 == 3 then Place(v % 0x1_0000_0000)
    else if op / 2 == 3 then Datum(TableWord(r, 1), op % 2 == 1)
    else if op / 16 == 1 then Datum(TableWord(r, op / 2 % 8 * 64 + v + 10), op % 2 == 1)
    else if op / 16 == 2 then Datum(TableWord(r, op / 2 % 8 + 2), op % 2 == 1)
    else if op / 8 == 7 then Datum((op / 2 % 4 * 0x4000_0000 + v) % 0x1_0000_0000, op % 2 == 1)
    else Strange
  }

  // The reader after a reply: raw words go into the table, and addresses are words on the bus but bytes here.
  function After(r: Reader, ds: seq<Digit>): (s: Reader)
    requires IsReply(ds) && Formed(r)
    ensures Formed(s)
  {
    match Reading(ds, r)
    case Place(a) => r.(addrSet := true, last := a * 4 % 0x1_0000_0000)
    case Datum(v, inc) =>
      var s := if ds[0] / 8 == 7 then r.(tbl := r.tbl[r.rd := v], rd := (r.rd + 1) % READ_TABLE) else r;
      if inc then s.(last := (r.last + 4) % 0x1_0000_0000) else s
    case Note(k) => if k == 4 then r.(interrupt := true) else if k == 3 || k == 5 then r.(busErr := true) else r
    case Strange => r
  }

  // What readword ends with: a word, or an exception, or no more characters to go on.
  datatype Outcome = Got(r: Reader, word: Word, rest: seq<Digit>) | Thrown(r: Reader, rest: seq<Digit>) | Starved(r: Reader)

  // val is what an unknown code would return: the address just read, if any.
  function ReadWord(r: Reader, val: Word, ds: seq<Digit>): (o: Outcome)
    requires Formed(r)
    ensures Formed(o.r)
    decreases |ds|
  {
    if ds == [] || |ds| < HostLen(ds[0]) then Starved(r) else
    var n := HostLen(ds[0]);
    var code, rest := ds[..n], ds[n..];
    var s := After(r, code);
    match Reading(code, r)
    case Datum(v, _) => Got(s, v, rest)
    case Place(a) => ReadWord(s, a, rest)
    case Note(k) => if k == 3 || k == 5 then Thrown(s, rest) else ReadWord(s, val, rest)
    case Strange => Got(s, val, rest)
  }

  datatype Outcomes = AllGot(r: Reader, words: seq<Word>, rest: seq<Digit>) | NotAll(r: Reader, words: seq<Word>)

  function ReadWords(r: Reader, n: nat, ds: seq<Digit>): (o: Outcomes)
    requires Formed(r)
    ensures Formed(o.r)
    decreases n
  {
    if n == 0 then AllGot(r, [], ds) else
    match ReadWord(r, 0, ds)
    case Got(s, v, rest) =>
      (match ReadWords(s, n - 1, rest)
       case AllGot(t, vs, more) => AllGot(t, [v] + vs, more)
       case NotAll(t, vs) => NotAll(t, [v] + vs))
    case Thrown(s, _) => NotAll(s, [])
    case Starved(s) => NotAll(s, [])
  }
}
