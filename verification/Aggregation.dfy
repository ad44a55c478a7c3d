/** Sums over lists of block numbers, and why it does not matter how a sum is spread over racks or
    proxies that each add up their own share. */
module Aggregation {
  import opened Field
  import opened LinearAlgebra

  ghost predicate InRange(ids: seq<nat>, n: nat) {
    forall i :: 0 <= i < |ids| ==> ids[i] < n
  }

  /** The sum of v[i] over the numbers i in the list. */
  function SumOver(ids: seq<nat>, v: Vec): byte
    requires InRange(ids, |v|)
  {
    if ids == [] then 0 else Add(SumOver(ids[..|ids| - 1], v), v[ids[|ids| - 1]])
  }

  lemma {:induction false} SumOverConcat(a: seq<nat>, b: seq<nat>, v: Vec)
    requires InRange(a, |v|) && InRange(b, |v|)
    ensures SumOver(a + b, v) == Add(SumOver(a, v), SumOver(b, v))
  {
    hide Add;
    if b == [] {
      assert a + b == a;
      AddZero(SumOver(a, v));
    } else {
      var n := |b| - 1;
      SumOverConcat(a, b[..n], v);
      assert (a + b)[..|a + b| - 1] == a + b[..n];
      AddAssoc(SumOver(a, v), SumOver(b[..n], v), v[b[n]]);
    }
  }

  lemma SumOverNothing(v: Vec)
    ensures SumOver([], v) == 0
  {
  }

  function Without(ids: seq<nat>, i: nat): seq<nat>
    requires i < |ids|
  {
    ids[..i] + ids[i + 1..]
  }

  lemma SumOverOne(e: nat, v: Vec)
    requires e < |v|
    ensures SumOver([e], v) == v[e]
  {
    hide Add;
    assert [e][..0] == [];
    AddZero(v[e]);
  }

  lemma SumWithout(ids: seq<nat>, i: nat, v: Vec)
    requires i < |ids| && InRange(ids, |v|)
    ensures InRange(Without(ids, i), |v|)
    ensures SumOver(ids, v) == Add(SumOver(Without(ids, i), v), v[ids[i]])
  {
    hide Add, SumOver;
    var e := ids[i];
    assert ids == ids[..i] + [e] + ids[i + 1..];
    SumOverConcat(ids[..i] + [e], ids[i + 1..], v);
    SumOverConcat(ids[..i], [e], v);
    SumOverConcat(ids[..i], ids[i + 1..], v);
    SumOverOne(e, v);
    MoveLast(SumOver(ids[..i], v), v[e], SumOver(ids[i + 1..], v));
  }

  lemma WithoutMultiset(ids: seq<nat>, i: nat)
    requires i < |ids|
    ensures multiset(Without(ids, i)) == multiset(ids) - multiset{ids[i]} && |Without(ids, i)| == |ids| - 1
  {
    assert ids == ids[..i] + [ids[i]] + ids[i + 1..];
  }

  /** Only what is in the list counts, not the order. */
  lemma {:induction false} SumOverPermuted(a: seq<nat>, b: seq<nat>, v: Vec)
    requires InRange(a, |v|) && InRange(b, |v|)
    requires multiset(a) == multiset(b)
    ensures SumOver(a, v) == SumOver(b, v)
    decreases |a|
  {
    hide Add, SumOver, Without;
    if a == [] {
      assert |multiset(b)| == |b|;
    } else {
      var e := a[0];
      assert e in multiset(a);
      assert e in multiset(b);
      var j :| 0 <= j < |b| && b[j] == e;
      WithoutMultiset(a, 0);
      WithoutMultiset(b, j);
      SumWithout(a, 0, v);
      SumWithout(b, j, v);
      SumOverPermuted(Without(a, 0), Without(b, j), v);
    }
  }

  lemma MoveLast(x: byte, e: byte, y: byte)
    ensures Add(Add(x, e), y) == Add(Add(x, y), e)
  {
    hide *;
    AddAssoc(x, e, y);
    AddComm(e, y);
    AddAssoc(x, y, e);
  }

  function Flatten(parts: seq<seq<nat>>): seq<nat> {
    if parts == [] then [] else Flatten(parts[..|parts| - 1]) + parts[|parts| - 1]
  }

  /** The lists of parts, taken together, hold exactly the numbers of ids. */
  ghost predicate Partition(parts: seq<seq<nat>>, ids: seq<nat>) {
    multiset(Flatten(parts)) == multiset(ids)
  }

  function XorAll(s: Vec): byte {
    if s == [] then 0 else Add(XorAll(s[..|s| - 1]), s[|s| - 1])
  }

  /** The partial sums of all the parts. */
  function PartSums(parts: seq<seq<nat>>, v: Vec): (s: Vec)
    requires forall p :: 0 <= p < |parts| ==> InRange(parts[p], |v|)
    ensures |s| == |parts|
    ensures forall p :: 0 <= p < |parts| ==> s[p] == SumOver(parts[p], v)
  {
    seq(|parts|, p requires 0 <= p < |parts| => SumOver(parts[p], v))
  }

  lemma {:induction false} FlattenSum(parts: seq<seq<nat>>, v: Vec)
    requires forall p :: 0 <= p < |parts| ==> InRange(parts[p], |v|)
    ensures InRange(Flatten(parts), |v|)
    ensures XorAll(PartSums(parts, v)) == SumOver(Flatten(parts), v)
  {
    hide Add, SumOver, PartSums;
    if parts == [] {
      SumOverNothing(v);
    } else {
      var n := |parts| - 1;
      FlattenSum(parts[..n], v);
      assert PartSums(parts, v)[..n] == PartSums(parts[..n], v);
      SumOverConcat(Flatten(parts[..n]), parts[n], v);
    }
  }

  /** Adding up the partial sums of a partition gives the sum over the whole. */
  lemma PartitionSum(parts: seq<seq<nat>>, ids: seq<nat>, v: Vec)
    requires Partition(parts, ids) && InRange(ids, |v|)
    ensures forall p :: 0 <= p < |parts| ==> InRange(parts[p], |v|)
    ensures XorAll(PartSums(parts, v)) == SumOver(ids, v)
  {
    hide SumOver, PartSums, XorAll;
    PartsInRange(parts, ids, |v|);
    FlattenSum(parts, v);
    SumOverPermuted(Flatten(parts), ids, v);
  }

  lemma PartsInRange(parts: seq<seq<nat>>, ids: seq<nat>, n: nat)
    requires Partition(parts, ids) && InRange(ids, n)
    ensures InRange(Flatten(parts), n)
    ensures forall p :: 0 <= p < |parts| ==> InRange(parts[p], n)
  {
    var flat := Flatten(parts);
    forall i | 0 <= i < |flat| ensures flat[i] < n {
      assert flat[i] in multiset(flat);
      assert flat[i] in multiset(ids);
    }
    forall p, i | 0 <= p < |parts| && 0 <= i < |parts[p]| ensures parts[p][i] < n {
      InFlatten(parts, p, i);
    }
  }

  lemma {:induction false} InFlatten(parts: seq<seq<nat>>, p: nat, i: nat)
    requires p < |parts| && i < |parts[p]|
    ensures parts[p][i] in Flatten(parts)
  {
    var n := |parts| - 1;
    if p == n {
    } else {
      InFlatten(parts[..n], p, i);
    }
  }

  // ----- weighted sums

  function Products(u: Vec, x: Vec): (v: Vec)
    requires |u| == |x|
    ensures |v| == |u|
    ensures forall j :: 0 <= j < |u| ==> v[j] == Mul(u[j], x[j])
  {
    seq(|u|, j requires 0 <= j < |u| => Mul(u[j], x[j]))
  }

  function PickAt(x: Vec, ids: seq<nat>): (y: Vec)
    requires InRange(ids, |x|)
    ensures |y| == |ids|
    ensures forall j :: 0 <= j < |ids| ==> y[j] == x[ids[j]]
  {
    seq(|ids|, j requires 0 <= j < |ids| => x[ids[j]])
  }

  function Upto(n: nat): (ids: seq<nat>)
    ensures |ids| == n && forall j :: 0 <= j < n ==> ids[j] == j
  {
    seq(n, j => j)
  }

  function Interval(lo: nat, n: nat): (s: seq<nat>)
    ensures |s| == n && forall i :: 0 <= i < n ==> s[i] == lo + i
  {
    seq(n, i => lo + i)
  }

  /** A dot product over the entries picked by a list. */
  lemma {:induction false} DotPicked(u: Vec, x: Vec, ids: seq<nat>, n: nat)
    requires |u| == |x| && InRange(ids, |u|) && n <= |ids|
    ensures Dot(PickAt(u, ids), PickAt(x, ids), n) == SumOver(ids[..n], Products(u, x))
    decreases n
  {
    hide Add, Mul, PickAt, Products;
    if n == 0 {
    } else {
      DotPicked(u, x, ids, n - 1);
      assert ids[..n][..n - 1] == ids[..n - 1];
    }
  }

  lemma DotAsSum(u: Vec, x: Vec)
    requires |u| == |x|
    ensures Dot(u, x, |u|) == SumOver(Upto(|u|), Products(u, x))
  {
    hide Dot, SumOver, Products, PickAt, Upto;
    var ids := Upto(|u|);
    DotPicked(u, x, ids, |u|);
    assert ids[..|u|] == ids;
    assert PickAt(u, ids) == u && PickAt(x, ids) == x;
  }

  /** What a proxy that holds the entries of one part computes. */
  function PartValue(u: Vec, x: Vec, part: seq<nat>): byte
    requires |u| == |x| && InRange(part, |u|)
  {
    Dot(PickAt(u, part), PickAt(x, part), |part|)
  }

  lemma PartValueIsSum(u: Vec, x: Vec, part: seq<nat>)
    requires |u| == |x| && InRange(part, |u|)
    ensures PartValue(u, x, part) == SumOver(part, Products(u, x))
  {
    hide Dot, PickAt, Products, SumOver;
    DotPicked(u, x, part, |part|);
    assert part[..|part|] == part;
  }

  /** Each proxy combines its own columns; XORing what the proxies send gives the full combination. */
  lemma PartialDots(u: Vec, x: Vec, parts: seq<seq<nat>>, sent: Vec)
    requires |u| == |x| && Partition(parts, Upto(|u|)) && |sent| == |parts|
    requires forall p :: 0 <= p < |parts| ==> InRange(parts[p], |u|)
    requires forall p :: 0 <= p < |parts| ==> sent[p] == PartValue(u, x, parts[p])
    ensures XorAll(sent) == Dot(u, x, |u|)
  {
    hide Dot, Products, SumOver, XorAll, Partition, PartValue, PartSums, Upto;
    var v := Products(u, x);
    DotAsSum(u, x);
    PartitionSum(parts, Upto(|u|), v);
    hide InRange;
    forall p | 0 <= p < |parts| ensures sent[p] == PartSums(parts, v)[p] {
      PartValueIsSum(u, x, parts[p]);
    }
    assert sent == PartSums(parts, v);
  }

  // ----- a zero sum gives back a missing member

  lemma MissingMember(ids: seq<nat>, i: nat, v: Vec)
    requires i < |ids| && InRange(ids, |v|) && SumOver(ids, v) == 0
    ensures InRange(Without(ids, i), |v|)
    ensures SumOver(Without(ids, i), v) == v[ids[i]]
  {
    hide Add, SumOver, Without;
    SumWithout(ids, i, v);
    AddCancel(SumOver(Without(ids, i), v), v[ids[i]]);
  }
}
