// The checksums of SD cards, section 4.5 of the SD Physical Layer Simplified Specification, over bits written most
// significant first.  One theory serves both: a register of any width, and the taps that are fed back into it.
module Crc {
  type Bits = seq<bool>

  function Zeros(n: nat): (r: Bits)
    ensures |r| == n
  {
    seq(n, _ => false)
  }

  function Xor(a: Bits, b: Bits): (r: Bits)
    requires |a| == |b|
    ensures |r| == |a|
  {
    seq(|a|, k requires 0 <= k < |a| => a[k] != b[k])
  }

  // ---- The register ----

  function Shift(taps: Bits, x: Bits): (y: Bits)
    requires |x| == |taps| > 0
    ensures |y| == |taps|
  {
    var up := x[1..] + [false];
    if x[0] then Xor(up, taps) else up
  }

  function Shifts(taps: Bits, x: Bits, n: nat): (y: Bits)
    requires |x| == |taps| > 0
    ensures |y| == |taps|
    decreases n
  {
    if n == 0 then x else Shifts(taps, Shift(taps, x), n - 1)
  }

  function Padded(bs: Bits, w: nat): (r: Bits)
    requires |bs| <= w
    ensures |r| == w
  {
    bs + Zeros(w - |bs|)
  }

  // Several bits at once: they are added at the top, and shifted through.
  function Feed(taps: Bits, x: Bits, bs: Bits): (y: Bits)
    requires |x| == |taps| > 0 && |bs| <= |taps|
    ensures |y| == |taps|
  {
    Shifts(taps, Xor(x, Padded(bs, |taps|)), |bs|)
  }

  function Stream(taps: Bits, x: Bits, bs: Bits): (y: Bits)
    requires |x| == |taps| > 0
    ensures |y| == |taps|
    decreases |bs|
  {
    if bs == [] then x else Stream(taps, Feed(taps, x, [bs[0]]), bs[1..])
  }

  // ---- Linear, with zero start ----

  lemma {:induction false} Linear(taps: Bits, x: Bits, y: Bits)
    requires |x| == |y| == |taps| > 0
    ensures Shift(taps, Xor(x, y)) == Xor(Shift(taps, x), Shift(taps, y))
  {
  }

  lemma {:induction false} LinearShifts(taps: Bits, x: Bits, y: Bits, n: nat)
    requires |x| == |y| == |taps| > 0
    ensures Shifts(taps, Xor(x, y), n) == Xor(Shifts(taps, x, n), Shifts(taps, y, n))
    decreases n
  {
    hide Shift, Xor;
    if n > 0 {
      Linear(taps, x, y);
      LinearShifts(taps, Shift(taps, x), Shift(taps, y), n - 1);
    }
  }

  lemma {:induction false} Interleave(x: Bits, y: Bits, a: Bits, b: Bits, w: nat)
    requires |x| == |y| == w && |a| == |b| <= w
    ensures Xor(Xor(x, y), Padded(Xor(a, b), w)) == Xor(Xor(x, Padded(a, w)), Xor(y, Padded(b, w)))
  {
  }

  // The checksum of a sum of messages is the sum of their checksums.
  lemma {:induction false} LinearStream(taps: Bits, x: Bits, y: Bits, a: Bits, b: Bits)
    requires |x| == |y| == |taps| > 0 && |a| == |b|
    ensures Stream(taps, Xor(x, y), Xor(a, b)) == Xor(Stream(taps, x, a), Stream(taps, y, b))
    decreases |a|
  {
    if a != [] {
      var w := |taps|;
      assert Xor(a, b)[1..] == Xor(a[1..], b[1..]) && [Xor(a, b)[0]] == Xor([a[0]], [b[0]]);
      hide Xor, Padded, Shifts;
      Interleave(x, y, [a[0]], [b[0]], w);
      LinearShifts(taps, Xor(x, Padded([a[0]], w)), Xor(y, Padded([b[0]], w)), 1);
      LinearStream(taps, Feed(taps, x, [a[0]]), Feed(taps, y, [b[0]]), a[1..], b[1..]);
    }
  }

  // ---- Several bits at once are the same bits one by one ----

  lemma {:induction false} TakeTop(taps: Bits, x: Bits, bs: Bits)
    requires |x| == |taps| > 0 && 0 < |bs| <= |taps|
    ensures Shift(taps, Xor(x, Padded(bs, |taps|))) == Xor(Feed(taps, x, [bs[0]]), Padded(bs[1..], |taps|))
  {
    var w := |taps|;
    assert Shifts(taps, Xor(x, Padded([bs[0]], w)), 1) == Shift(taps, Xor(x, Padded([bs[0]], w)));
  }

  lemma {:induction false} FeedIsStream(taps: Bits, x: Bits, bs: Bits)
    requires |x| == |taps| > 0 && |bs| <= |taps|
    ensures Feed(taps, x, bs) == Stream(taps, x, bs)
    decreases |bs|
  {
    if bs == [] {
      assert Xor(x, Padded([], |taps|)) == x;
    } else {
      TakeTop(taps, x, bs);
      FeedIsStream(taps, Feed(taps, x, [bs[0]]), bs[1..]);
    }
  }

  lemma {:induction false} StreamApart(taps: Bits, x: Bits, a: Bits, b: Bits)
    requires |x| == |taps| > 0
    ensures Stream(taps, x, a + b) == Stream(taps, Stream(taps, x, a), b)
    decreases |a|
  {
    hide Feed;
    if a == [] {
      assert a + b == b;
    } else {
      assert (a + b)[1..] == a[1..] + b;
      StreamApart(taps, Feed(taps, x, [a[0]]), a[1..], b);
    }
  }

  // ---- A message followed by its checksum ----

  lemma {:induction false} ZeroStays(taps: Bits, n: nat)
    requires |taps| > 0
    ensures Shifts(taps, Zeros(|taps|), n) == Zeros(|taps|)
    decreases n
  {
    if n > 0 {
      assert Shift(taps, Zeros(|taps|)) == Zeros(|taps|);
      ZeroStays(taps, n - 1);
    }
  }

  // When the lowest tap is set, no shift loses anything.
  lemma {:induction false} Injective(taps: Bits, x: Bits, y: Bits)
    requires |x| == |y| == |taps| > 0 && taps[|taps| - 1] && Shift(taps, x) == Shift(taps, y)
    ensures x == y
  {
    var w := |taps|;
    assert Shift(taps, x)[w - 1] == x[0] && Shift(taps, y)[w - 1] == y[0];
    forall k | 0 < k < w ensures x[k] == y[k] {
      assert Shift(taps, x)[k - 1] == Shift(taps, y)[k - 1];
    }
  }

  lemma {:induction false} NonzeroStays(taps: Bits, x: Bits, n: nat)
    requires |x| == |taps| > 0 && taps[|taps| - 1] && x != Zeros(|taps|)
    ensures Shifts(taps, x, n) != Zeros(|taps|)
    decreases n
  {
    hide Shift;
    if n > 0 {
      if Shift(taps, x) == Zeros(|taps|) {
        assert Shift(taps, Zeros(|taps|)) == Zeros(|taps|) by { ZeroStays(taps, 1); OneShift(taps); }
        Injective(taps, x, Zeros(|taps|));
      }
      NonzeroStays(taps, Shift(taps, x), n - 1);
    }
  }

  lemma {:induction false} OneShift(taps: Bits)
    requires |taps| > 0
    ensures Shifts(taps, Zeros(|taps|), 1) == Shift(taps, Zeros(|taps|))
  {
  }

  lemma {:induction false} XorZero(a: Bits, b: Bits)
    requires |a| == |b|
    ensures Xor(a, b) == Zeros(|a|) <==> a == b
  {
    if Xor(a, b) == Zeros(|a|) {
      forall k | 0 <= k < |a| ensures a[k] == b[k] { assert !Xor(a, b)[k]; }
    }
  }

  // What follows a message leaves nothing in the register exactly when it is the message's checksum.
  lemma {:induction false} ResidueZero(taps: Bits, m: Bits, c: Bits)
    requires |c| == |taps| > 0 && taps[|taps| - 1]
    ensures var z := Zeros(|taps|); Stream(taps, z, m + c) == z <==> c == Stream(taps, z, m)
  {
    var w, z := |taps|, Zeros(|taps|);
    var x := Stream(taps, z, m);
    StreamApart(taps, z, m, c);
    FeedIsStream(taps, x, c);
    assert Padded(c, w) == c;
    XorZero(x, c);
    if x == c { ZeroStays(taps, w); } else { NonzeroStays(taps, Xor(x, c), w); }
    hide Xor;
  }

  // ---- Polynomials over the field of two elements, highest coefficient first ----

  function Polynomial(degree: nat, exponents: set<nat>): (g: Bits)
    ensures |g| == degree + 1
  {
    seq(degree + 1, k requires 0 <= k <= degree => (degree - k) in exponents)
  }

  // The sum of a multiple of g for each term of q.
  function Product(q: Bits, g: Bits): (p: Bits)
    requires g != []
    ensures |p| == |q| + |g| - 1
    decreases |q|
  {
    if q == [] then Zeros(|g| - 1) else
    Xor((if q[0] then g else Zeros(|g|)) + Zeros(|q| - 1), [false] + Product(q[1..], g))
  }

  ghost predicate Multiple(p: Bits, g: Bits)
    requires g != []
  {
    exists q :: |p| == |q| + |g| - 1 && p == Product(q, g)
  }

  // One step of long division: the tail of what is to be divided, with the divisor taken away if the top bits differ.
  lemma {:induction false} DivisionStep(taps: Bits, x: Bits, m: Bits)
    requires |x| == |taps| > 0 && m != []
    ensures var top := x[0] != m[0];
            Xor(x + Zeros(|m|), m + Zeros(|x|))
            == Xor((if top then [true] + taps else Zeros(|x| + 1)) + Zeros(|m| - 1),
                   [false] + Xor(Feed(taps, x, [m[0]]) + Zeros(|m| - 1), m[1..] + Zeros(|x|)))
  {
    var w, y := |taps|, Feed(taps, x, [m[0]]);
    var u := Xor(x, Padded([m[0]], w));
    assert Shifts(taps, u, 1) == Shift(taps, u);
    assert u[0] == (x[0] != m[0]) && u[1..] == x[1..];
    assert forall k :: 0 <= k < w ==> y[k] == ((k + 1 < w && x[k + 1]) != (u[0] && taps[k]));
    hide Feed, Shift, Shifts, Padded;
  }

  lemma {:induction false} Regroup(a: Bits, p: Bits, n: nat, r: Bits)
    requires |a| == |p| + 1 && |p| == n + |r|
    ensures Xor(a, [false] + Xor(p, Zeros(n) + r)) == Xor(Xor(a, [false] + p), Zeros(n + 1) + r)
  {
  }

  // The register divides: what it started with and what came in are a multiple of the polynomial, but for what is left.
  lemma {:induction false} Divides(taps: Bits, x: Bits, m: Bits) returns (q: Bits)
    requires |x| == |taps| > 0
    ensures |q| == |m|
    ensures Xor(x + Zeros(|m|), m + Zeros(|x|)) == Xor(Product(q, [true] + taps), Zeros(|m|) + Stream(taps, x, m))
    decreases |m|
  {
    if m == [] {
      q := [];
      assert x + Zeros(0) == x && [] + Zeros(|x|) == Zeros(|x|) && Zeros(0) + x == x;
      assert Xor(x, Zeros(|x|)) == Xor(Zeros(|x|), x);
    } else {
      var y := Feed(taps, x, [m[0]]);
      var q' := Divides(taps, y, m[1..]);
      q := [x[0] != m[0]] + q';
      assert q[1..] == q';
      DivisionStep(taps, x, m);
      Regroup((if q[0] then [true] + taps else Zeros(|x| + 1)) + Zeros(|m| - 1), Product(q', [true] + taps), |m| - 1,
              Stream(taps, y, m[1..]));
      hide Xor, Feed;
    }
  }

  // The leading coefficients of a product decide what was multiplied.
  lemma {:induction false} ProductUnique(p: Bits, q: Bits, g: Bits)
    requires g != [] && g[0] && |p| == |q| && Product(p, g)[..|p|] == Product(q, g)[..|q|]
    ensures p == q
    decreases |p|
  {
    if p != [] {
      var n := |p| - 1;
      var p', q' := Product(p[1..], g), Product(q[1..], g);
      assert Product(p, g)[0] == p[0] && Product(q, g)[0] == q[0] by {
        assert Product(p, g)[..|p|][0] == Product(p, g)[0] && Product(q, g)[..|q|][0] == Product(q, g)[0];
      }
      assert p[0] == q[0] by {
        assert Product(p, g)[..|p|][0] == Product(p, g)[0] && Product(q, g)[..|q|][0] == Product(q, g)[0];
      }
      forall k | 0 <= k < n ensures p'[k] == q'[k] {
        assert Product(p, g)[..|p|][k + 1] == Product(p, g)[k + 1];
        assert Product(q, g)[..|q|][k + 1] == Product(q, g)[k + 1];
      }
      ProductUnique(p[1..], q[1..], g);
      assert p == [p[0]] + p[1..] && q == [q[0]] + q[1..];
    }
  }

  // A checksum is what makes message and checksum together a multiple of the polynomial.
  lemma {:induction false} ChecksumIsRemainder(taps: Bits, m: Bits, c: Bits)
    requires |c| == |taps| > 0
    ensures Stream(taps, Zeros(|taps|), m) == c <==> Multiple(m + c, [true] + taps)
  {
    var n, w, g, r := |m|, |taps|, [true] + taps, Stream(taps, Zeros(|taps|), m);
    var q := Divides(taps, Zeros(w), m);
    var p := Product(q, g);
    assert p == m + r by {
      forall k | 0 <= k < n + w ensures p[k] == (m + r)[k] {
        assert Xor(Zeros(w) + Zeros(n), m + Zeros(w))[k] == Xor(p, Zeros(n) + r)[k];
      }
    }
    if Multiple(m + c, g) {
      var q' :| |m + c| == |q'| + |g| - 1 && m + c == Product(q', g);
      assert (m + c)[..n] == m == (m + r)[..n];
      ProductUnique(q', q, g);
      assert c == (m + c)[n..] == (m + r)[n..] == r;
    }
    hide Stream, Product, Xor;
  }

  // ---- Errors ----

  lemma {:induction false} QuietStream(taps: Bits, x: Bits, n: nat)
    requires |x| == |taps| > 0
    ensures Stream(taps, x, Zeros(n)) == Shifts(taps, x, n)
    decreases n
  {
    if n > 0 {
      assert Zeros(n)[1..] == Zeros(n - 1);
      assert Xor(x, Padded([false], |taps|)) == x;
      assert Shifts(taps, Shift(taps, x), 0) == Shift(taps, x);
      QuietStream(taps, Shift(taps, x), n - 1);
    }
  }

  // An error that is not zero, and lies within as many consecutive bits as the register has.
  ghost predicate IsBurst(e: Bits, at: nat, len: nat) {
    && at + len <= |e| && (exists k :: at <= k < at + len && e[k])
    && forall k :: 0 <= k < |e| && e[k] ==> at <= k < at + len
  }

  lemma {:induction false} MarkStays(taps: Bits, a: nat, mid: Bits, b: nat)
    requires |taps| > 0 && taps[|taps| - 1] && |mid| <= |taps|
    requires Xor(Zeros(|taps|), Padded(mid, |taps|)) != Zeros(|taps|)
    ensures Stream(taps, Zeros(|taps|), Zeros(a) + (mid + Zeros(b))) != Zeros(|taps|)
  {
    hide *;
    var z := Zeros(|taps|);
    StreamApart(taps, z, Zeros(a), mid + Zeros(b));
    QuietStream(taps, z, a);
    ZeroStays(taps, a);
    StreamApart(taps, z, mid, Zeros(b));
    FeedIsStream(taps, z, mid);
    FeedIs(taps, z, mid);
    NonzeroStays(taps, Xor(z, Padded(mid, |taps|)), |mid|);
    QuietStream(taps, Feed(taps, z, mid), b);
    NonzeroStays(taps, Feed(taps, z, mid), b);
  }

  lemma {:induction false} BurstLeavesMark(taps: Bits, e: Bits, at: nat, len: nat)
    requires |taps| > 0 && taps[|taps| - 1] && len <= |taps| && IsBurst(e, at, len)
    ensures Stream(taps, Zeros(|taps|), e) != Zeros(|taps|)
  {
    BurstParts(e, at, len);
    BurstEnters(e, at, len, |taps|);
    MarkStays(taps, at, e[at..at + len], |e| - at - len);
    hide Stream, Xor;
  }

  lemma {:induction false} FeedIs(taps: Bits, x: Bits, bs: Bits)
    requires |x| == |taps| > 0 && |bs| <= |taps|
    ensures Feed(taps, x, bs) == Shifts(taps, Xor(x, Padded(bs, |taps|)), |bs|)
  {
  }

  lemma {:induction false} BurstParts(e: Bits, at: nat, len: nat)
    requires IsBurst(e, at, len)
    ensures e == Zeros(at) + (e[at..at + len] + Zeros(|e| - at - len))
  {
  }

  lemma {:induction false} BurstEnters(e: Bits, at: nat, len: nat, w: nat)
    requires IsBurst(e, at, len) && len <= w
    ensures Xor(Zeros(w), Padded(e[at..at + len], w)) != Zeros(w)
  {
    var k :| at <= k < at + len && e[k];
    assert Xor(Zeros(w), Padded(e[at..at + len], w))[k - at];
  }

  // Every such error in a message and its checksum is noticed.
  lemma {:induction false} BurstDetected(taps: Bits, m: Bits, e: Bits, at: nat, len: nat)
    requires |taps| > 0 && taps[|taps| - 1] && len <= |taps| && |e| == |m| + |taps| && IsBurst(e, at, len)
    ensures var z := Zeros(|taps|);
            Stream(taps, z, Xor(m + Stream(taps, z, m), e)) != z
  {
    hide *;
    var z := Zeros(|taps|);
    var sent := m + Stream(taps, z, m);
    ResidueZero(taps, m, Stream(taps, z, m));
    XorWithZero(z);
    LinearStream(taps, z, z, sent, e);
    BurstLeavesMark(taps, e, at, len);
    XorWithZero(Stream(taps, z, e));
  }

  lemma {:induction false} XorWithZero(x: Bits)
    ensures Xor(Zeros(|x|), x) == x
  {
  }
}
