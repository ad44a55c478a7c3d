/** The parity slice of an append: how many bytes it adds to every parity block, and where in the block they start. */
module ParitySlices {
  import opened Arithmetic
  import opened Striping

  datatype Mode = UnilrcMode | CachedMode

  /** What an append adds to a block: how many bytes, and where in the block they start. */
  datatype Slice = Slice(size: nat, offset: nat)

  /** The row of units that a byte of the stream belongs to. */
  function RowOf(k: nat, u: nat, o: nat): nat
    requires k > 0 && u > 0
  {
    o / (u * k)
  }

  function InRow(k: nat, u: nat, o: nat): nat
    requires k > 0 && u > 0
  {
    o % (u * k)
  }

  /** Size and offset of the parity slice of an append from row q0 to byte `tail` of row q1. */
  function ParityBounds(mode: Mode, u: nat, a: nat, q0: nat, q1: nat, tail: nat, oneUnit: bool, at: nat): Slice
    requires q0 <= q1 && u > 0
  {
    MulMono(0, q1 - q0, u);
    MulMono(0, q0, u);
    var numUnitStripes := q1 - q0 + 1;
    Slice(if mode.UnilrcMode? && numUnitStripes > 1 && tail < u - 1 then (numUnitStripes - 1) * u + tail + 1
          else if mode.UnilrcMode? && oneUnit then a else (numUnitStripes - 1) * u + u,
      q0 * u + if mode.UnilrcMode? && oneUnit then at else 0)
  }

  function ParitySlice(mode: Mode, k: nat, u: nat, o: nat, a: nat): Slice
    requires k > 0 && u > 0 && a > 0
  {
    var last := o + a - 1;
    DivMonotone(o, last, u * k);
    ParityBounds(mode, u, a, RowOf(k, u, o), RowOf(k, u, last), InRow(k, u, last), last / u == o / u, o % u)
  }

  lemma SomeParity(mode: Mode, k: nat, u: nat, o: nat, a: nat)
    requires k > 0 && u > 0 && a > 0
    ensures ParitySlice(mode, k, u, o, a).size > 0
  {
    hide InRow;
    var last := o + a - 1;
    DivMonotone(o, last, u * k);
    SomeBounds(mode, u, a, RowOf(k, u, o), RowOf(k, u, last), InRow(k, u, last), last / u == o / u, o % u);
  }

  lemma SomeBounds(mode: Mode, u: nat, a: nat, q0: nat, q1: nat, tail: nat, oneUnit: bool, at: nat)
    requires q0 <= q1 && u > 0 && a > 0
    ensures ParityBounds(mode, u, a, q0, q1, tail, oneUnit, at).size > 0
  {
    MulMono(0, q1 - q0, u);
  }

  lemma OneUnitOffset(k: nat, u: nat, o: nat, p: nat)
    requires k > 0 && u > 0 && o <= p && o / u == p / u
    ensures k * u > 0 && PhysicalOffset(k, u, p) == RowOf(k, u, o) * u + o % u + (p - o)
    ensures o % u + (p - o) < u
  {
    RowOfByte(k, u, o);
    RowOfByte(k, u, p);
    assert o == o / u * u + o % u && p == p / u * u + p % u;
    assert k * u == u * k;
  }

  /** The rows before the last one end where the last one starts. */
  lemma RowOffset(k: nat, u: nat, p: nat, q1: nat)
    requires k > 0 && u > 0
    ensures k * u > 0 && RowOf(k, u, p) * u <= PhysicalOffset(k, u, p) < RowOf(k, u, p) * u + u
    ensures RowOf(k, u, p) < q1 ==> PhysicalOffset(k, u, p) < q1 * u
    ensures InRow(k, u, p) < u ==> PhysicalOffset(k, u, p) == RowOf(k, u, p) * u + InRow(k, u, p)
  {
    RowOfByte(k, u, p);
    assert k * u == u * k;
    var q := p / (k * u);
    if q < q1 {
      MulMono(q + 1, q1, u);
    }
    if p % (k * u) < u {
      var c := p / u % k;
      if c >= 1 {
        MulMono(1, c, u);
      }
    }
  }

  lemma SameRow(k: nat, u: nat, p: nat, last: nat)
    requires k > 0 && u > 0 && p <= last && RowOf(k, u, p) == RowOf(k, u, last)
    ensures InRow(k, u, last) == InRow(k, u, p) + (last - p)
  {
    var w := u * k;
    assert p == p / w * w + p % w && last == last / w * w + last % w;
  }

  /** Bytes of one unit are in one row. */
  lemma SameUnit(k: nat, u: nat, o: nat, last: nat)
    requires k > 0 && u > 0 && o <= last && o / u == last / u
    ensures RowOf(k, u, o) == RowOf(k, u, last)
  {
    RowOfByte(k, u, o);
    RowOfByte(k, u, last);
    assert k * u == u * k;
  }

  lemma RowBetween(k: nat, u: nat, o: nat, p: nat, last: nat)
    requires k > 0 && u > 0 && o <= p <= last
    ensures RowOf(k, u, o) <= RowOf(k, u, p) <= RowOf(k, u, last)
    ensures o / u <= p / u <= last / u
  {
    DivMonotone(o, p, u * k);
    DivMonotone(p, last, u * k);
    DivMonotone(o, p, u);
    DivMonotone(p, last, u);
  }

  /** The parity slice covers the physical offset of every byte of the append and stays within the block. */
  lemma ParityCovers(mode: Mode, k: nat, u: nat, o: nat, a: nat, blockSize: nat, p: nat)
    requires k > 0 && u > 0 && a > 0 && blockSize % u == 0 && o + a <= k * blockSize && o <= p < o + a
    ensures k * u > 0
    ensures var s := ParitySlice(mode, k, u, o, a); s.offset <= PhysicalOffset(k, u, p) < s.offset + s.size <= blockSize
  {
    hide PhysicalOffset, InRow, RowOf;
    var last := o + a - 1;
    RowBetween(k, u, o, p, last);
    var q0, q, q1 := RowOf(k, u, o), RowOf(k, u, p), RowOf(k, u, last);
    LastRow(k, u, last, blockSize);
    RowOffset(k, u, p, q1);
    if q == q1 {
      SameRow(k, u, p, last);
    }
    MulMono(q0, q, u);
    assert (q1 - q0) * u == q1 * u - q0 * u;
    if o / u == last / u {
      OneUnitOffset(k, u, o, p);
      OneUnitOffset(k, u, o, last);
      SameUnit(k, u, o, last);
    }
  }

  lemma LastRow(k: nat, u: nat, last: nat, blockSize: nat)
    requires k > 0 && u > 0 && blockSize % u == 0 && last < k * blockSize
    ensures RowOf(k, u, last) * u + u <= blockSize
  {
    var rows := blockSize / u;
    assert blockSize == rows * u;
    assert k * blockSize == rows * (u * k);
    RowOfByte(k, u, last);
    DivBelow(last, u * k, rows);
    MulMono(last / (u * k) + 1, rows, u);
  }

  // ----- its extent

  /** Within one unit, the slice is at the append's own offsets. Over several rows and ending in the first unit of a row, it goes
      up to the last byte. Otherwise, and always in CACHED_MODE, it takes whole rows. */
  ghost predicate ParityExtent(mode: Mode, k: nat, u: nat, o: nat, a: nat, s: Slice)
    requires k > 0 && u > 0 && a > 0
  {
    var last := o + a - 1;
    if mode.UnilrcMode? && o / u == last / u then
      s.size == a && s.offset == o / (u * k) * u + o % u
    else
      && s.offset == o / (u * k) * u
      && s.offset + s.size ==
           if mode.UnilrcMode? && o / (u * k) < last / (u * k) && last % (u * k) < u
           then last / (u * k) * u + last % (u * k) + 1
           else last / (u * k) * u + u
  }

  lemma ParityExtentOf(mode: Mode, k: nat, u: nat, o: nat, a: nat, s: Slice)
    requires k > 0 && u > 0 && a > 0
    ensures ParityExtent(mode, k, u, o, a, s) <==> s == ParitySlice(mode, k, u, o, a)
  {
    var last := o + a - 1;
    var q0, q1 := o / (u * k), last / (u * k);
    DivMonotone(o, last, u * k);
    assert (q1 - q0) * u == q1 * u - q0 * u;
    if o / u == last / u {
      SameUnit(k, u, o, last);
    }
  }

  /** The coordinator's computation. */
  method CoordinatorParitySlice(mode: Mode, k: nat, u: nat, o: nat, a: nat) returns (s: Slice)
    requires k > 0 && u > 0 && a > 0
    ensures ParityExtent(mode, k, u, o, a, s)
  {
    hide ParityExtent;
    var last := o + a - 1;
    RowsOfAppend(k, u, o, last);
    var numUnits := last / u - o / u + 1;
    var numUnitStripes := last / (u * k) - o / (u * k) + 1;
    MulMono(0, numUnitStripes, u);
    MulMono(0, o / (u * k), u);
    MulMono(0, numUnitStripes - 1, u);
    var size, offset;
    match mode {
      case UnilrcMode =>
        size := numUnitStripes * u;
        offset := o / (u * k) * u;
        if numUnits == 1 {
          size := a;
          offset := offset + o % u;
        }
        if numUnitStripes > 1 && last % (u * k) < u - 1 {
          size := (numUnitStripes - 1) * u + last % (u * k) + 1;
        }
      case CachedMode =>
        size := numUnitStripes * u;
        offset := o / (u * k) * u;
    }
    s := Slice(size, offset);
    ParityExtentOf(mode, k, u, o, a, s);
  }

  lemma RowsOfAppend(k: nat, u: nat, o: nat, last: nat)
    requires k > 0 && u > 0 && o <= last
    ensures u * k > 0 && o / (u * k) <= last / (u * k) && o / u <= last / u
    ensures o / u == last / u ==> o / (u * k) == last / (u * k)
  {
    RowBetween(k, u, o, last, last);
    if o / u == last / u {
      SameUnit(k, u, o, last);
    }
  }
}
