/** How a stripe lays a stream of appended bytes over its k data blocks: units of u bytes, dealt round robin. */
module Striping {
  import opened Arithmetic
  import opened Field

  /** The block that byte o of the stream goes to. */
  function BlockOf(k: nat, u: nat, o: nat): nat
    requires k > 0 && u > 0
  {
    o / u % k
  }

  /** The physical offset of byte o in its block. */
  function PhysicalOffset(k: nat, u: nat, o: nat): nat
    requires k > 0 && u > 0
  {
    o % u + u * (o / (k * u))
  }

  /** How much of block b the first o bytes of the stream fill. */
  function Fill(k: nat, u: nat, b: nat, o: nat): nat
    requires k > 0 && u > 0
  {
    o / u / k * u + if b < o / u % k then u else if b == o / u % k then o % u else 0
  }

  /** The contents of block b: every byte of the stream that goes there, in order. */
  function Dealt(stream: seq<byte>, k: nat, u: nat, b: nat): seq<byte>
    requires k > 0 && u > 0
  {
    if stream == [] then []
    else
      var n := |stream| - 1;
      Dealt(stream[..n], k, u, b) + if BlockOf(k, u, n) == b then [stream[n]] else []
  }

  // ----- moving forward within a unit

  lemma NextUnit(k: nat, v: nat)
    requires k > 0
    ensures v % k + 1 < k ==> (v + 1) / k == v / k && (v + 1) % k == v % k + 1
    ensures v % k + 1 == k ==> (v + 1) / k == v / k + 1 && (v + 1) % k == 0
  {
    var q, m := v / k, v % k;
    assert v == q * k + m;
    if m + 1 < k {
      DivModUnique(v + 1, k, q, m + 1);
    } else {
      assert v + 1 == (q + 1) * k;
      DivModUnique(v + 1, k, q + 1, 0);
    }
  }

  lemma Forward(u: nat, o: nat, s: nat)
    requires u > 0 && o % u + s <= u
    ensures o % u + s < u ==> (o + s) / u == o / u && (o + s) % u == o % u + s
    ensures o % u + s == u ==> (o + s) / u == o / u + 1 && (o + s) % u == 0
  {
    var q, m := o / u, o % u;
    assert o == q * u + m;
    if m + s < u {
      DivModUnique(o + s, u, q, m + s);
    } else {
      assert o + s == (q + 1) * u;
      DivModUnique(o + s, u, q + 1, 0);
    }
  }

  /** A stretch that stays within one unit goes to one block and fills no other. */
  lemma FillForward(k: nat, u: nat, b: nat, o: nat, s: nat)
    requires k > 0 && u > 0 && b < k && o % u + s <= u
    ensures Fill(k, u, b, o + s) == Fill(k, u, b, o) + if b == BlockOf(k, u, o) then s else 0
  {
    Forward(u, o, s);
    NextUnit(k, o / u);
    var q := o / u / k;
    assert (q + 1) * u == q * u + u;
  }

  lemma FillZero(k: nat, u: nat, b: nat)
    requires k > 0 && u > 0
    ensures Fill(k, u, b, 0) == 0
  {
    DivModUnique(0, u, 0, 0);
    DivModUnique(0, k, 0, 0);
  }

  lemma {:induction false} FillMonotone(k: nat, u: nat, b: nat, o: nat, o2: nat)
    requires k > 0 && u > 0 && b < k && o <= o2
    ensures Fill(k, u, b, o) <= Fill(k, u, b, o2)
    decreases o2
  {
    hide Fill;
    if o < o2 {
      FillMonotone(k, u, b, o, o2 - 1);
      FillForward(k, u, b, o2 - 1, 1);
    }
  }

  lemma RowOfByte(k: nat, u: nat, o: nat)
    requires k > 0 && u > 0
    ensures k * u > 0 && o / (k * u) == o / u / k && o % (k * u) == o / u % k * u + o % u
  {
    var v := o / u;
    var q, c, m := v / k, v % k, o % u;
    assert v == q * k + c && o == v * u + m;
    assert o == q * (k * u) + (c * u + m);
    PackBelow(c, k, u, m);
    DivModUnique(o, k * u, q, c * u + m);
  }

  /** A byte's place in its block is the number of bytes that the block got before. */
  lemma OffsetIsFill(k: nat, u: nat, o: nat)
    requires k > 0 && u > 0
    ensures k * u > 0 && BlockOf(k, u, o) < k
    ensures PhysicalOffset(k, u, o) == Fill(k, u, BlockOf(k, u, o), o)
  {
    RowOfByte(k, u, o);
  }

  /** The bytes of the stream from lo up to hi that go to block b. */
  ghost function BytesOf(k: nat, u: nat, b: nat, lo: nat, hi: nat): set<nat>
    requires k > 0 && u > 0
  {
    set p: nat | lo <= p < hi && p / u % k == b
  }

  /** A block is filled further by as many bytes as go to it. */
  lemma {:induction false} FillCounts(k: nat, u: nat, b: nat, lo: nat, hi: nat)
    requires k > 0 && u > 0 && b < k && lo <= hi
    ensures Fill(k, u, b, lo) + |BytesOf(k, u, b, lo, hi)| == Fill(k, u, b, hi)
    decreases hi
  {
    hide Fill;
    if lo == hi {
      assert BytesOf(k, u, b, lo, hi) == {};
    } else {
      FillCounts(k, u, b, lo, hi - 1);
      FillForward(k, u, b, hi - 1, 1);
      assert BytesOf(k, u, b, lo, hi)
        == BytesOf(k, u, b, lo, hi - 1) + if (hi - 1) / u % k == b then {hi - 1} else {};
    }
  }

  lemma NoBytes(k: nat, u: nat, b: nat, lo: nat, hi: nat)
    requires k > 0 && u > 0 && k <= b
    ensures BytesOf(k, u, b, lo, hi) == {}
  {
  }

  // ----- the contents of a block

  lemma {:induction false} DealtLength(stream: seq<byte>, k: nat, u: nat, b: nat)
    requires k > 0 && u > 0 && b < k
    ensures |Dealt(stream, k, u, b)| == Fill(k, u, b, |stream|)
  {
    hide Fill, BlockOf;
    if stream == [] {
      FillZero(k, u, b);
    } else {
      var n := |stream| - 1;
      DealtLength(stream[..n], k, u, b);
      FillForward(k, u, b, n, 1);
    }
  }

  lemma {:induction false} DealtPrefix(stream: seq<byte>, n: nat, k: nat, u: nat, b: nat)
    requires k > 0 && u > 0 && n <= |stream|
    ensures Dealt(stream[..n], k, u, b) <= Dealt(stream, k, u, b)
  {
    if n == |stream| {
      assert stream[..n] == stream;
    } else {
      var m := |stream| - 1;
      DealtPrefix(stream[..m], n, k, u, b);
      assert stream[..m][..n] == stream[..n];
    }
  }

  lemma PlaceIs(k: nat, u: nat, o: nat, b: nat, x: nat)
    requires k > 0 && u > 0 && b == o / u % k && x == o / (k * u) * u + o % u
    ensures b < k && BlockOf(k, u, o) == b && PhysicalOffset(k, u, o) == x == Fill(k, u, b, o)
  {
    hide Fill;
    OffsetIsFill(k, u, o);
  }

  /** The striped layout: byte o of the stream is in block b at offset x. */
  lemma DealtAt(stream: seq<byte>, o: nat, k: nat, u: nat, b: nat, x: nat)
    requires k > 0 && u > 0 && o < |stream| && b == o / u % k && x == o / (k * u) * u + o % u
    ensures x < |Dealt(stream, k, u, b)| && Dealt(stream, k, u, b)[x] == stream[o]
  {
    hide Fill, PhysicalOffset, BlockOf;
    PlaceIs(k, u, o, b, x);
    DealtLength(stream[..o], k, u, b);
    assert stream[..o + 1][..o] == stream[..o];
    DealtPrefix(stream, o + 1, k, u, b);
  }

  /** The stream byte behind byte i of block b. */
  function StreamOffset(k: nat, u: nat, b: nat, i: nat): nat
    requires u > 0
  {
    (i / u * k + b) * u + i % u
  }

  lemma StreamOffsetPlace(k: nat, u: nat, b: nat, i: nat)
    requires k > 0 && u > 0 && b < k
    ensures k * u > 0 && BlockOf(k, u, StreamOffset(k, u, b, i)) == b
    ensures PhysicalOffset(k, u, StreamOffset(k, u, b, i)) == i
  {
    var o, v := StreamOffset(k, u, b, i), i / u * k + b;
    DivModUnique(o, u, v, i % u);
    DivModUnique(v, k, i / u, b);
    RowOfByte(k, u, o);
  }

  lemma PlaceOf(k: nat, u: nat, o: nat)
    requires k > 0 && u > 0
    ensures BlockOf(k, u, o) == o / u % k && PhysicalOffset(k, u, o) == o / (k * u) * u + o % u
  {
  }

  /** Nothing else is in the block: each of its bytes is a byte of the stream. */
  lemma DealtFrom(stream: seq<byte>, k: nat, u: nat, b: nat, i: nat)
    requires k > 0 && u > 0 && b < k && i < |Dealt(stream, k, u, b)|
    ensures StreamOffset(k, u, b, i) < |stream|
    ensures Dealt(stream, k, u, b)[i] == stream[StreamOffset(k, u, b, i)]
  {
    hide Fill, PhysicalOffset, BlockOf, StreamOffset, Dealt;
    var o := StreamOffset(k, u, b, i);
    StreamOffsetPlace(k, u, b, i);
    OffsetIsFill(k, u, o);
    DealtLength(stream, k, u, b);
    if o >= |stream| {
      FillMonotone(k, u, b, |stream|, o);
    }
    PlaceOf(k, u, o);
    DealtAt(stream, o, k, u, b, i);
  }

  // ----- conservation

  /** The sum of Fill over the blocks lo <= b < hi. */
  function FillSum(k: nat, u: nat, lo: nat, hi: nat, o: nat): nat
    requires k > 0 && u > 0 && lo <= hi
    decreases hi
  {
    if lo == hi then 0 else FillSum(k, u, lo, hi - 1, o) + Fill(k, u, hi - 1, o)
  }

  lemma {:induction false} FillSumForward(k: nat, u: nat, lo: nat, hi: nat, o: nat)
    requires k > 0 && u > 0 && lo <= hi <= k
    ensures FillSum(k, u, lo, hi, o + 1) == FillSum(k, u, lo, hi, o) + if lo <= BlockOf(k, u, o) < hi then 1 else 0
    decreases hi
  {
    hide Fill, BlockOf;
    if lo < hi {
      FillSumForward(k, u, lo, hi - 1, o);
      Forward(u, o, 1);
      FillForward(k, u, hi - 1, o, 1);
    }
  }

  lemma {:induction false} FillSumZero(k: nat, u: nat, lo: nat, hi: nat)
    requires k > 0 && u > 0 && lo <= hi
    ensures FillSum(k, u, lo, hi, 0) == 0
    decreases hi
  {
    hide Fill;
    if lo < hi {
      FillSumZero(k, u, lo, hi - 1);
      FillZero(k, u, hi - 1);
    }
  }

  /** The blocks together hold exactly the bytes of the stream. */
  lemma {:induction false} FillTotal(k: nat, u: nat, o: nat)
    requires k > 0 && u > 0
    ensures FillSum(k, u, 0, k, o) == o
    decreases o
  {
    hide FillSum;
    if o == 0 {
      FillSumZero(k, u, 0, k);
    } else {
      FillTotal(k, u, o - 1);
      FillSumForward(k, u, 0, k, o - 1);
    }
  }

  /** A full stripe fills every block to the brim. */
  lemma FillFull(k: nat, u: nat, b: nat, blockSize: nat)
    requires k > 0 && u > 0 && b < k && blockSize % u == 0
    ensures Fill(k, u, b, k * blockSize) == blockSize
  {
    var rows := blockSize / u;
    assert blockSize == rows * u;
    assert k * blockSize == (rows * k) * u + 0;
    DivModUnique(k * blockSize, u, rows * k, 0);
    DivModUnique(rows * k, k, rows, 0);
  }
}
