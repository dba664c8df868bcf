// A session of calls as a program makes it on the driver: what each read gives back is what the reader on digits gives.
module WbuCalls {
  import opened WbuCode
  import opened WbuHost
  import opened Ttybus
  import R = WbuRead
  import W = WbuSession

  // What the host makes of the replies depends on the calls, not on what it has sent.
  lemma {:induction false} AnyHost(h: Host, h': Host, r: R.Reader, calls: seq<Call>, ds: seq<Digit>)
    requires R.Formed(r)
    ensures W.HostReads(h, r, calls, ds) == W.HostReads(h', r, calls, ds)
    decreases |calls|
  {
    if calls != [] {
      var c, more := calls[0], calls[1..];
      var next, next' := Send(h, c).h, Send(h', c).h;
      var start := W.AfterAddress(r, c.a);
      assert !W.Idle(c) ==> next.last == next'.last;
      hide Send, R.ReadWords;
      if W.Idle(c) {
        AnyHost(next, next', r, more, ds);
      } else if c.Write? {
        AnyHost(next, next', start.(addrSet := true, last := next.last), more, ds);
      } else {
        var x := R.ReadWords(start, c.len, ds);
        if x.AllGot? { AnyHost(next, next', x.r, more, x.rest); }
      }
    }
  }

  // An address once known stays known.
  lemma {:induction false} WordKeepsAddress(r: R.Reader, val: Word, ds: seq<Digit>)
    requires R.Formed(r) && r.addrSet
    ensures R.ReadWord(r, val, ds).r.addrSet
    decreases |ds|
  {
    if ds != [] && |ds| >= R.HostLen(ds[0]) {
      var n := R.HostLen(ds[0]);
      var code := ds[..n];
      var s, m := R.After(r, code), R.Reading(code, r);
      assert s.addrSet;
      hide R.After, R.Reading, R.HostLen;
      if m.Place? { WordKeepsAddress(s, m.addr, ds[n..]); }
      else if m.Note? && m.kind != 3 && m.kind != 5 { WordKeepsAddress(s, val, ds[n..]); }
    }
  }

  lemma {:induction false} WordsKeepAddress(r: R.Reader, n: nat, ds: seq<Digit>)
    requires R.Formed(r) && r.addrSet
    ensures R.ReadWords(r, n, ds).r.addrSet
    decreases n
  {
    hide R.ReadWord;
    if n > 0 {
      WordKeepsAddress(r, 0, ds);
      var x := R.ReadWord(r, 0, ds);
      if x.Got? { WordsKeepAddress(x.r, n - 1, x.rest); }
    }
  }

  // What one call leaves: the reader, the digits that are left, and the words of a read.
  ghost predicate Left(h: Host, r: R.Reader, c: Call, ds: seq<Digit>, ok: bool, s: R.Reader, rest: seq<Digit>, words: seq<Word>)
    requires R.Formed(r)
  {
    var start := W.AfterAddress(r, c.a);
    if W.Idle(c) then ok && s == r && rest == ds
    else if c.Write? then ok && s == start.(addrSet := true, last := Send(h, c).h.last) && rest == ds
    else
      var x := R.ReadWords(start, c.len, ds);
      && (ok <==> x.AllGot? && x.r.last == Send(h, c).h.last)
      && (ok ==> s == x.r && words == x.words && rest == x.rest)
  }

  lemma {:induction false} AfterOne(h: Host, r: R.Reader, calls: seq<Call>, ds: seq<Digit>, ok: bool, s: R.Reader, rest: seq<Digit>,
                                    words: seq<Word>)
    requires calls != [] && R.Formed(r) && R.Formed(s) && Left(h, r, calls[0], ds, ok, s, rest, words)
    ensures W.HostReads(h, r, calls, ds) ==
            if !ok then W.Stopped
            else
              var b := W.HostReads(Send(h, calls[0]).h, s, calls[1..], rest);
              if W.Idle(calls[0]) || calls[0].Write? || b.Stopped? then b else W.Back(b.r, [words] + b.answers)
  {
    hide W.Idle, Send, W.AfterAddress, R.ReadWords;
  }

  method OneCall(tty: Tty, c: Call) returns (ok: bool, words: seq<Word>)
    requires tty.Valid()
    modifies tty, tty.readTbl, tty.writeTbl
    ensures tty.Valid()
    ensures Left(old(tty.State()), old(tty.Reading()), c, Stripped(old(tty.incoming)), ok, tty.Reading(), Stripped(tty.incoming), words)
    ensures ok && old(tty.addrSet) ==>
              var s := Send(old(tty.State()), c);
              tty.State() == s.h && tty.device == old(tty.device) + s.chars
  {
    hide R.ReadWords, Stripped, AddressCode, Chars, WriteChars, ReadChars, AfterWrites, Advance, TableHolds;
    words := [];
    if c.Write? {
      var done := tty.WriteVec(c.a, c.inc, c.vals);
      ok := true;
    } else {
      ghost var r, ds := tty.Reading(), Stripped(tty.incoming);
      var end;
      end, words := tty.ReadVec(c.a, c.inc, c.len);
      ok := end == Done || end == Misaligned;
      if r.addrSet { WordsKeepAddress(W.AfterAddress(r, c.a), c.len, ds); }
    }
  }

  lemma {:induction false} SentMore(h: Host, calls: seq<Call>, dev: seq<Byte>)
    requires calls != []
    ensures var first := Send(h, calls[0]);
            var rest, all := SendAll(first.h, calls[1..]), SendAll(h, calls);
            && all.h == rest.h && dev + all.chars == (dev + first.chars) + rest.chars && (h.addrSet ==> first.h.addrSet)
  {
    hide AddressCode, Chars, WriteChars, ReadChars, AfterWrites, Advance;
  }

  // One call after another, until one is not answered.  The answers, and the state of the driver after them, are those of
  // the reader on digits; and, where the driver knew its address to begin with, the device has been handed exactly the
  // characters of the calls.
  method Session(tty: Tty, calls: seq<Call>) returns (ok: bool, answers: seq<seq<Word>>)
    requires tty.Valid()
    modifies tty, tty.readTbl, tty.writeTbl
    ensures tty.Valid()
    ensures var b := W.HostReads(old(tty.State()), old(tty.Reading()), calls, Stripped(old(tty.incoming)));
            if ok then b == W.Back(tty.Reading(), answers) else b == W.Stopped
    ensures ok && old(tty.addrSet) ==>
              var s := SendAll(old(tty.State()), calls);
              tty.State() == s.h && tty.device == old(tty.device) + s.chars
    decreases |calls|
  {
    if calls == [] { return true, []; }
    hide *;
    ghost var h, r, ds := tty.State(), tty.Reading(), Stripped(tty.incoming);
    var c := calls[0];
    SentMore(h, calls, tty.device);
    var words;
    ok, words := OneCall(tty, c);
    ghost var s, rest := tty.Reading(), Stripped(tty.incoming);
    AfterOne(h, r, calls, ds, ok, s, rest, words);
    if !ok { return false, []; }
    AnyHost(Send(h, c).h, tty.State(), s, calls[1..], rest);
    var more;
    ok, more := Session(tty, calls[1..]);
    answers := if W.Idle(c) || c.Write? then more else [words] + more;
  }
}
