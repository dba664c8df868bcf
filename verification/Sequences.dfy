// How what one clock adds to a stream joins what the clocks after it add.
module Sequences {
  // What has come out, and what is still inside, are together what was inside and what has gone in.
  lemma {:induction false} Chain<T>(now: seq<T>, later: seq<T>, start: seq<T>, mid: seq<T>, end: seq<T>, a: seq<T>, b: seq<T>)
    requires now + mid == start + a && later + end == mid + b
    ensures (now + later) + end == start + (a + b)
  {
    assert (now + later) + end == now + (later + end) == (now + mid) + b;
  }

  function Times<T>(x: T, n: nat): (r: seq<T>)
    ensures |r| == n
  {
    seq(n, _ => x)
  }

  // The elements of a and of b, each in their order.
  predicate Woven<T(==)>(all: seq<T>, a: seq<T>, b: seq<T>)
    decreases |all|
  {
    if all == [] then a == [] && b == [] else
    || (a != [] && all[0] == a[0] && Woven(all[1..], a[1..], b))
    || (b != [] && all[0] == b[0] && Woven(all[1..], a, b[1..]))
  }

  lemma {:induction false} WovenFirst<T>(x: T, all: seq<T>, a: seq<T>, b: seq<T>)
    requires Woven(all, a, b)
    ensures Woven([x] + all, [x] + a, b)
  {
    assert ([x] + all)[1..] == all && ([x] + a)[1..] == a;
  }

  lemma {:induction false} WovenSecond<T>(x: T, all: seq<T>, a: seq<T>, b: seq<T>)
    requires Woven(all, a, b)
    ensures Woven([x] + all, a, [x] + b)
  {
    assert ([x] + all)[1..] == all && ([x] + b)[1..] == b;
  }
}
