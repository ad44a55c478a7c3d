/** Facts about division, lists and finite sets that the other modules share. */
module Arithmetic {

  lemma MulMono(a: int, b: int, c: nat)
    requires a <= b
    ensures a * c <= b * c && c * a <= c * b
  {
  }

  /** A quotient and a remainder in range are the quotient and the remainder. */
  lemma DivModUnique(a: nat, d: nat, q: nat, m: nat)
    requires d > 0 && a == q * d + m && m < d
    ensures a / d == q && a % d == m
  {
    var q1, m1 := a / d, a % d;
    assert a == q1 * d + m1;
    if q1 < q {
      MulMono(q1 + 1, q, d);
    } else if q < q1 {
      MulMono(q + 1, q1, d);
    }
  }

  lemma DivBelow(a: nat, d: nat, n: nat)
    requires d > 0
    ensures a / d < n <==> a < n * d
  {
    var q := a / d;
    if q < n {
      MulMono(q + 1, n, d);
    } else {
      MulMono(n, q, d);
    }
  }

  lemma DivMonotone(a: nat, b: nat, d: nat)
    requires a <= b && d > 0
    ensures a / d <= b / d
  {
    DivBelow(b, d, a / d);
  }

  lemma DivExact(a: nat, b: nat, c: nat)
    requires c > 0 && b % c == 0
    ensures a * b / c == a * (b / c) && b == (b / c) * c
  {
    var q := b / c;
    assert a * b == (a * q) * c;
    DivModUnique(a * b, c, a * q, 0);
  }

  lemma ModAdd(a: nat, b: nat, d: nat)
    requires d > 0
    ensures (a % d + b) % d == (a + b) % d
  {
    var q := (a % d + b) / d;
    assert a + b == (a / d + q) * d + (a % d + b) % d;
    DivModUnique(a + b, d, a / d + q, (a % d + b) % d);
  }

  /** Row-major packing stays in range. */
  lemma PackBelow(l: nat, n: nat, w: nat, c: nat)
    requires l < n && c < w
    ensures l * w + c < n * w
  {
    MulMono(l + 1, n, w);
  }

  function Constant<T>(n: nat, v: T): (s: seq<T>)
    ensures |s| == n && forall i :: 0 <= i < n ==> s[i] == v
  {
    seq(n, i => v)
  }

  lemma {:induction false} SubsetSize(a: set<nat>, b: set<nat>)
    requires a <= b
    ensures |a| <= |b|
    ensures |a| == |b| ==> a == b
  {
    if a == {} {
    } else {
      var e :| e in a;
      SubsetSize(a - {e}, b - {e});
    }
  }
}
