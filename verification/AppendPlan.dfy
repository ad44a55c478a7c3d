/** Slicing an append. The coordinator and the client each compute, from the stripe's logical offset and the append
    size alone, which bytes go to which block; they have to agree, because the client cuts its buffer by its own
    numbers and the proxies by the coordinator's. */
module AppendPlan {
  import opened Arithmetic
  import opened Aggregation
  import opened DecodePlanner
  import opened Striping
  import opened ParitySlices

  datatype ClusterPlan = ClusterPlan(blockIds: seq<nat>, sizes: seq<nat>, offsets: seq<nat>, appendSize: nat,
    isMergeParity: bool, isSerialized: bool)

  // ----- the data slices

  /** m holds exactly the blocks that the stream bytes o to t - 1 fill further, with the amount and the old fill. */
  ghost predicate DataSlices(m: map<nat, Slice>, k: nat, u: nat, o: nat, t: nat)
    requires k > 0 && u > 0
  {
    && (forall b: nat :: b in m <==> b < k && Fill(k, u, b, o) < Fill(k, u, b, t))
    && forall b: nat :: b in m ==> m[b] == Slice(Fill(k, u, b, t) - Fill(k, u, b, o), Fill(k, u, b, o))
  }

  /** One pass of the slicing loop. */
  lemma SliceStep(m: map<nat, Slice>, k: nat, u: nat, o: nat, t: nat, s: nat)
    requires k > 0 && u > 0 && o <= t && s > 0 && t % u + s <= u && DataSlices(m, k, u, o, t)
    ensures BlockOf(k, u, t) < k && k * u > 0
    ensures var b := BlockOf(k, u, t);
      DataSlices(m[b := if b in m then Slice(m[b].size + s, m[b].offset) else Slice(s, PhysicalOffset(k, u, t))],
        k, u, o, t + s)
  {
    hide Fill, BlockOf, PhysicalOffset;
    OffsetIsFill(k, u, t);
    forall b: nat | b < k
      ensures Fill(k, u, b, t + s) == Fill(k, u, b, t) + if b == BlockOf(k, u, t) then s else 0
      ensures Fill(k, u, b, o) <= Fill(k, u, b, t)
    {
      FillForward(k, u, b, t, s);
      FillMonotone(k, u, b, o, t);
    }
  }

  /** The size of the sub-slice at t: up to the end of the unit, or of the append. */
  function SubSlice(u: nat, o: nat, a: nat, t: nat): nat
    requires u > 0 && o <= t < o + a
  {
    var tmpSize := o + a - t;
    var rest := if tmpSize == a && o % u != 0 then u - o % u else u;
    if rest < tmpSize then rest else tmpSize
  }

  function NextBlock(k: nat, block: nat): nat
    requires k > 0
  {
    (block + 1) % k
  }

  /** Where the slicing loop stands: t is at the start of the append or of a unit, and block is its block. */
  predicate Cursor(k: nat, u: nat, o: nat, a: nat, t: nat, block: nat)
    requires k > 0 && u > 0
  {
    o <= t <= o + a && (t < o + a ==> (t == o || t % u == 0) && block == BlockOf(k, u, t))
  }

  lemma CursorStep(k: nat, u: nat, o: nat, a: nat, t: nat, block: nat)
    requires k > 0 && u > 0 && Cursor(k, u, o, a, t, block) && t < o + a
    ensures var s := SubSlice(u, o, a, t);
      s > 0 && t % u + s <= u && Cursor(k, u, o, a, t + s, NextBlock(k, block))
  {
    var s := SubSlice(u, o, a, t);
    if t + s < o + a {
      Forward(u, t, s);
      NextUnit(k, t / u);
      if block + 1 == k {
        DivModUnique(k, k, 1, 0);
      } else {
        DivModUnique(block + 1, k, 0, block + 1);
      }
    }
  }

  /** One pass of the slicing loop. */
  lemma LoopStep(m: map<nat, Slice>, k: nat, u: nat, o: nat, a: nat, t: nat, block: nat)
    requires k > 0 && u > 0 && Cursor(k, u, o, a, t, block) && t < o + a && DataSlices(m, k, u, o, t)
    ensures var s := SubSlice(u, o, a, t);
      && s > 0 && Cursor(k, u, o, a, t + s, NextBlock(k, block))
      && DataSlices(m[block := if block in m then Slice(m[block].size + s, m[block].offset)
           else Slice(s, PhysicalOffset(k, u, t))], k, u, o, t + s)
  {
    hide SubSlice, DataSlices, BlockOf, NextBlock, PhysicalOffset;
    CursorStep(k, u, o, a, t, block);
    SliceStep(m, k, u, o, t, SubSlice(u, o, a, t));
  }

  lemma LoopStarts(k: nat, u: nat, o: nat, a: nat)
    requires k > 0 && u > 0
    ensures DataSlices(map[], k, u, o, o) && Cursor(k, u, o, a, o, BlockOf(k, u, o))
  {
  }

  lemma CursorInside(k: nat, u: nat, o: nat, a: nat, t: nat, block: nat)
    requires k > 0 && u > 0 && Cursor(k, u, o, a, t, block)
    ensures t <= o + a
  {
  }

  /** Counted in bytes: a block is in m if some of the bytes go to it, with their number, from the number of those before. */
  ghost predicate CountedSlices(m: map<nat, Slice>, k: nat, u: nat, o: nat, t: nat)
    requires k > 0 && u > 0
  {
    && (forall b: nat :: b in m <==> BytesOf(k, u, b, o, t) != {})
    && forall b: nat :: b in m ==> m[b] == Slice(|BytesOf(k, u, b, o, t)|, |BytesOf(k, u, b, 0, o)|)
  }

  lemma BytesAreFill(k: nat, u: nat, b: nat, o: nat, t: nat)
    requires k > 0 && u > 0 && o <= t
    ensures b >= k ==> BytesOf(k, u, b, o, t) == {}
    ensures b < k ==> Fill(k, u, b, o) == |BytesOf(k, u, b, 0, o)|
    ensures b < k ==> Fill(k, u, b, t) == |BytesOf(k, u, b, 0, o)| + |BytesOf(k, u, b, o, t)|
  {
    hide Fill, BytesOf;
    if b < k {
      FillZero(k, u, b);
      FillCounts(k, u, b, 0, o);
      FillCounts(k, u, b, o, t);
    } else {
      NoBytes(k, u, b, o, t);
    }
  }

  lemma SlicesCounted(m: map<nat, Slice>, k: nat, u: nat, o: nat, t: nat)
    requires k > 0 && u > 0 && o <= t
    ensures DataSlices(m, k, u, o, t) <==> CountedSlices(m, k, u, o, t)
  {
    hide Fill, BytesOf;
    forall b: nat
      ensures BytesOf(k, u, b, o, t) != {} <==> b < k && Fill(k, u, b, o) < Fill(k, u, b, t)
      ensures b < k ==> Fill(k, u, b, o) == |BytesOf(k, u, b, 0, o)|
      ensures b < k ==> Fill(k, u, b, t) - Fill(k, u, b, o) == |BytesOf(k, u, b, o, t)|
    {
      BytesAreFill(k, u, b, o, t);
    }
  }

  method PlaceDataSlices(k: nat, u: nat, o: nat, a: nat) returns (m: map<nat, Slice>)
    requires k > 0 && u > 0
    ensures DataSlices(m, k, u, o, o + a) && CountedSlices(m, k, u, o, o + a)
  {
    hide *;
    m := map[];
    LoopStarts(k, u, o, a);
    var tmpSize, tmpOffset, block := a, o, BlockOf(k, u, o);
    while tmpSize > 0
      invariant tmpOffset + tmpSize == o + a && tmpSize >= 0 && tmpOffset >= o
      invariant Cursor(k, u, o, a, tmpOffset, block)
      invariant DataSlices(m, k, u, o, tmpOffset)
    {
      var sub := SubSlice(u, o, a, tmpOffset);
      LoopStep(m, k, u, o, a, tmpOffset, block);
      CursorInside(k, u, o, a, tmpOffset + sub, NextBlock(k, block));
      if block !in m {
        m := m[block := Slice(sub, PhysicalOffset(k, u, tmpOffset))];
      } else {
        m := m[block := Slice(m[block].size + sub, m[block].offset)];
      }
      block := NextBlock(k, block);
      tmpSize := tmpSize - sub;
      tmpOffset := tmpOffset + sub;
    }
    SlicesCounted(m, k, u, o, o + a);
  }

  // ----- what each cluster gets

  /** The blocks in [lo, hi) that the append touches, ascending. */
  function Touched(k: nat, u: nat, o: nat, t: nat, lo: nat, hi: nat): seq<nat>
    requires k > 0 && u > 0 && lo <= hi
    decreases hi
  {
    if lo == hi then []
    else Touched(k, u, o, t, lo, hi - 1) + if Fill(k, u, hi - 1, o) < Fill(k, u, hi - 1, t) then [hi - 1] else []
  }

  /** z groups, each with its data blocks, its global parities and its local parity. */
  datatype Group = Group(k: nat, r: nat, z: nat) {
    predicate Valid() {
      k > 0 && z > 0 && k % z == 0 && r % z == 0
    }

    /** Group i's data blocks, global parities and local parity start here. */
    function DataLo(i: nat): nat
      requires z > 0
    {
      i * k / z
    }

    function GlobalLo(i: nat): nat
      requires z > 0
    {
      k + i * r / z
    }

    function LocalLo(i: nat): nat
      requires z > 0
    {
      k + r + i * z / z
    }
  }

  /** With z | k and z | r the ranges are of equal size and follow on one another. */
  lemma GroupRanges(g: Group, i: nat)
    requires g.Valid() && i < g.z
    ensures g.DataLo(i) <= g.DataLo(i + 1) == g.DataLo(i) + g.k / g.z <= g.k
    ensures g.k <= g.GlobalLo(i) <= g.GlobalLo(i + 1) == g.GlobalLo(i) + g.r / g.z <= g.k + g.r
    ensures g.LocalLo(i) == g.k + g.r + i && g.LocalLo(i + 1) == g.k + g.r + i + 1
  {
    DivExact(i, g.k, g.z);
    DivExact(i + 1, g.k, g.z);
    DivExact(i, g.r, g.z);
    DivExact(i + 1, g.r, g.z);
    DivModUnique(i * g.z, g.z, i, 0);
    DivModUnique((i + 1) * g.z, g.z, i + 1, 0);
    MulMono(i + 1, g.z, g.k / g.z);
    MulMono(i + 1, g.z, g.r / g.z);
    assert (i + 1) * (g.r / g.z) == i * (g.r / g.z) + g.r / g.z;
    assert (i + 1) * (g.k / g.z) == i * (g.k / g.z) + g.k / g.z;
  }

  lemma GroupEnds(g: Group)
    requires g.Valid()
    ensures g.DataLo(0) == 0 && g.DataLo(g.z) == g.k
  {
    DivExact(g.z, g.k, g.z);
    DivModUnique(0, g.z, 0, 0);
  }

  /** The slice that an append adds to a block. */
  function SliceOf(mode: Mode, k: nat, u: nat, o: nat, a: nat, b: nat): Slice
    requires k > 0 && u > 0 && a > 0
  {
    if b >= k then ParitySlice(mode, k, u, o, a)
    else if Fill(k, u, b, o + a) < Fill(k, u, b, o) then Slice(0, Fill(k, u, b, o))
    else Slice(Fill(k, u, b, o + a) - Fill(k, u, b, o), Fill(k, u, b, o))
  }

  function Sum(s: seq<nat>): nat {
    if s == [] then 0 else Sum(s[..|s| - 1]) + s[|s| - 1]
  }

  lemma {:induction false} SumConcat(a: seq<nat>, b: seq<nat>)
    ensures Sum(a + b) == Sum(a) + Sum(b)
  {
    if b == [] {
      assert a + b == a;
    } else {
      SumConcat(a, b[..|b| - 1]);
      assert (a + b)[..|a + b| - 1] == a + b[..|b| - 1];
    }
  }

  lemma {:induction false} SumConstant(s: seq<nat>, c: nat)
    requires forall i :: 0 <= i < |s| ==> s[i] == c
    ensures Sum(s) == |s| * c
  {
    if s != [] {
      SumConstant(s[..|s| - 1], c);
      assert (|s| - 1) * c + c == |s| * c;
    }
  }

  function Sizes(mode: Mode, k: nat, u: nat, o: nat, a: nat, ids: seq<nat>): (s: seq<nat>)
    requires k > 0 && u > 0 && a > 0
    ensures |s| == |ids| && forall i :: 0 <= i < |ids| ==> s[i] == SliceOf(mode, k, u, o, a, ids[i]).size
  {
    seq(|ids|, i requires 0 <= i < |ids| => SliceOf(mode, k, u, o, a, ids[i]).size)
  }

  function Offsets(mode: Mode, k: nat, u: nat, o: nat, a: nat, ids: seq<nat>): (s: seq<nat>)
    requires k > 0 && u > 0 && a > 0
    ensures |s| == |ids| && forall i :: 0 <= i < |ids| ==> s[i] == SliceOf(mode, k, u, o, a, ids[i]).offset
  {
    seq(|ids|, i requires 0 <= i < |ids| => SliceOf(mode, k, u, o, a, ids[i]).offset)
  }

  lemma TouchedStep(mode: Mode, k: nat, u: nat, o: nat, a: nat, lo: nat, j: nat)
    requires k > 0 && u > 0 && a > 0 && lo <= j
    ensures Sum(Sizes(mode, k, u, o, a, Touched(k, u, o, o + a, lo, j + 1)))
         == Sum(Sizes(mode, k, u, o, a, Touched(k, u, o, o + a, lo, j)))
            + if Fill(k, u, j, o) < Fill(k, u, j, o + a) then SliceOf(mode, k, u, o, a, j).size else 0
  {
    hide Fill, Sum, SliceOf;
    var ids := Touched(k, u, o, o + a, lo, j);
    if Fill(k, u, j, o) < Fill(k, u, j, o + a) {
      var size := SliceOf(mode, k, u, o, a, j).size;
      SumConcat(Sizes(mode, k, u, o, a, ids), [size]);
      SumOne(size);
      assert Sizes(mode, k, u, o, a, ids + [j]) == Sizes(mode, k, u, o, a, ids) + [size];
    } else {
      assert ids + [] == ids;
    }
  }

  lemma NothingTouched(mode: Mode, k: nat, u: nat, o: nat, a: nat, lo: nat)
    requires k > 0 && u > 0 && a > 0
    ensures Sum(Sizes(mode, k, u, o, a, Touched(k, u, o, o + a, lo, lo))) == 0
  {
  }

  /** The sizes of the data slices of a range of blocks add up to what the range fills further. */
  lemma {:induction false} TouchedSum(mode: Mode, k: nat, u: nat, o: nat, a: nat, lo: nat, hi: nat)
    requires k > 0 && u > 0 && a > 0 && lo <= hi <= k
    ensures Sum(Sizes(mode, k, u, o, a, Touched(k, u, o, o + a, lo, hi)))
         == FillSum(k, u, lo, hi, o + a) - FillSum(k, u, lo, hi, o)
    decreases hi
  {
    hide Fill, Sum, Sizes, Touched;
    if lo == hi {
      NothingTouched(mode, k, u, o, a, lo);
    } else {
      TouchedSum(mode, k, u, o, a, lo, hi - 1);
      TouchedStep(mode, k, u, o, a, lo, hi - 1);
      FillMonotone(k, u, hi - 1, o, o + a);
    }
  }

  lemma SumOne(n: nat)
    ensures Sum([n]) == n
  {
    assert [n][..0] == [];
  }

  /** Conservation: the data slices of an append hold exactly its bytes. */
  lemma DataSlicesTotal(mode: Mode, k: nat, u: nat, o: nat, a: nat)
    requires k > 0 && u > 0 && a > 0
    ensures Sum(Sizes(mode, k, u, o, a, Touched(k, u, o, o + a, 0, k))) == a
  {
    hide *;
    TouchedSum(mode, k, u, o, a, 0, k);
    FillTotal(k, u, o);
    FillTotal(k, u, o + a);
  }

  /** The blocks of group i that an append writes to: touched data blocks, then its parities. */
  function PlanBlocks(g: Group, u: nat, o: nat, t: nat, i: nat): seq<nat>
    requires g.Valid() && u > 0 && i < g.z
  {
    GroupRanges(g, i);
    Touched(g.k, u, o, t, g.DataLo(i), g.DataLo(i + 1))
      + Interval(g.GlobalLo(i), g.GlobalLo(i + 1) - g.GlobalLo(i)) + [g.LocalLo(i)]
  }

  // ----- the coordinator's plans

  /** Block b gets a slice: a data block that the append fills further, or a parity block. */
  predicate Gets(g: Group, u: nat, o: nat, a: nat, b: nat)
    requires g.k > 0 && u > 0
  {
    if b < g.k then Fill(g.k, u, b, o) < Fill(g.k, u, b, o + a) else b < g.k + g.r + g.z
  }

  lemma {:induction false} TouchedSound(k: nat, u: nat, o: nat, t: nat, lo: nat, hi: nat)
    requires k > 0 && u > 0 && lo <= hi
    ensures forall b :: b in Touched(k, u, o, t, lo, hi) <==> lo <= b < hi && Fill(k, u, b, o) < Fill(k, u, b, t)
    ensures Ascending(Touched(k, u, o, t, lo, hi))
    decreases hi
  {
    hide Fill;
    if lo < hi {
      TouchedSound(k, u, o, t, lo, hi - 1);
      var s := Touched(k, u, o, t, lo, hi - 1);
      assert forall i :: 0 <= i < |s| ==> s[i] in s;
    }
  }

  predicate InGroup(g: Group, b: nat, i: nat)
    requires g.z > 0
  {
    g.DataLo(i) <= b < g.DataLo(i + 1) || g.GlobalLo(i) <= b < g.GlobalLo(i + 1) || b == g.LocalLo(i)
  }

  lemma PlanMembers(g: Group, u: nat, o: nat, a: nat, i: nat)
    requires g.Valid() && u > 0 && i < g.z
    ensures forall b :: b in PlanBlocks(g, u, o, o + a, i) <==> InGroup(g, b, i) && Gets(g, u, o, a, b)
    ensures Ascending(PlanBlocks(g, u, o, o + a, i))
  {
    hide Fill, Touched, Group.DataLo, Group.GlobalLo, Group.LocalLo;
    GroupRanges(g, i);
    TouchedSound(g.k, u, o, o + a, g.DataLo(i), g.DataLo(i + 1));
    var t := Touched(g.k, u, o, o + a, g.DataLo(i), g.DataLo(i + 1));
    var p := Interval(g.GlobalLo(i), g.GlobalLo(i + 1) - g.GlobalLo(i));
    forall b: nat ensures b in p <==> g.GlobalLo(i) <= b < g.GlobalLo(i + 1) {
      if g.GlobalLo(i) <= b < g.GlobalLo(i + 1) {
        assert p[b - g.GlobalLo(i)] == b;
      }
    }
    var ids := PlanBlocks(g, u, o, o + a, i);
    assert ids == t + p + [g.LocalLo(i)];
    assert forall j :: 0 <= j < |t| ==> t[j] in t;
    assert forall b :: b in ids <==> b in t || b in p || b == g.LocalLo(i);
  }

  ghost predicate AllSlices(m: map<nat, Slice>, mode: Mode, g: Group, u: nat, o: nat, a: nat)
    requires g.k > 0 && u > 0 && a > 0
  {
    && (forall b: nat :: b in m <==> Gets(g, u, o, a, b))
    && forall b: nat :: b in m ==> m[b] == SliceOf(mode, g.k, u, o, a, b)
  }

  /** block_to_slice_sizes, with the data slices first and then the parity slices. */
  method BlockSlices(mode: Mode, g: Group, u: nat, o: nat, a: nat) returns (m: map<nat, Slice>, parity: Slice)
    requires g.Valid() && u > 0 && a > 0
    ensures AllSlices(m, mode, g, u, o, a) && parity == ParitySlice(mode, g.k, u, o, a)
  {
    hide Fill, CountedSlices, ParitySlice, ParityExtent;
    parity := CoordinatorParitySlice(mode, g.k, u, o, a);
    ParityExtentOf(mode, g.k, u, o, a, parity);
    m := PlaceDataSlices(g.k, u, o, a);
    ghost var data := m;
    for i := g.k to g.k + g.r + g.z
      invariant forall b: nat :: b in m <==> b in data || g.k <= b < i
      invariant forall b: nat :: b in m ==> m[b] == if b < g.k then data[b] else parity
    {
      m := m[i := parity];
    }
    forall b: nat | b in m ensures m[b] == SliceOf(mode, g.k, u, o, a, b) {
    }
  }

  /** ids lists the blocks of a plan so far; sizes and offsets are theirs. */
  ghost predicate PlanLists(mode: Mode, g: Group, u: nat, o: nat, a: nat, ids: seq<nat>, sizes: seq<nat>, offsets: seq<nat>)
    requires g.k > 0 && u > 0 && a > 0
  {
    sizes == Sizes(mode, g.k, u, o, a, ids) && offsets == Offsets(mode, g.k, u, o, a, ids)
  }

  lemma PushLists(mode: Mode, g: Group, u: nat, o: nat, a: nat, ids: seq<nat>, sizes: seq<nat>, offsets: seq<nat>, b: nat)
    requires g.k > 0 && u > 0 && a > 0 && PlanLists(mode, g, u, o, a, ids, sizes, offsets)
    ensures var s := SliceOf(mode, g.k, u, o, a, b);
      PlanLists(mode, g, u, o, a, ids + [b], sizes + [s.size], offsets + [s.offset])
  {
    hide SliceOf;
  }

  lemma NoLists(mode: Mode, g: Group, u: nat, o: nat, a: nat)
    requires g.k > 0 && u > 0 && a > 0
    ensures PlanLists(mode, g, u, o, a, [], [], [])
  {
  }

  lemma ListedSizes(mode: Mode, g: Group, u: nat, o: nat, a: nat, ids: seq<nat>, sizes: seq<nat>, offsets: seq<nat>)
    requires g.k > 0 && u > 0 && a > 0 && PlanLists(mode, g, u, o, a, ids, sizes, offsets)
    ensures sizes == Sizes(mode, g.k, u, o, a, ids)
  {
  }

  /** The lists of plan i: data slices, then global parities, then the local parity. */
  method PlanOf(mode: Mode, g: Group, u: nat, ghost o: nat, ghost a: nat, m: map<nat, Slice>, i: nat)
    returns (ids: seq<nat>, sizes: seq<nat>, offsets: seq<nat>)
    requires g.Valid() && u > 0 && a > 0 && i < g.z && AllSlices(m, mode, g, u, o, a)
    ensures ids == PlanBlocks(g, u, o, o + a, i)
    ensures PlanLists(mode, g, u, o, a, ids, sizes, offsets)
  {
    hide Fill, SliceOf, PlanLists, Group.DataLo, Group.GlobalLo, Group.LocalLo;
    ids, sizes, offsets := [], [], [];
    NoLists(mode, g, u, o, a);
    GroupRanges(g, i);
    var lo, hi := g.DataLo(i), g.DataLo(i + 1);
    for j := lo to hi
      invariant ids == Touched(g.k, u, o, o + a, lo, j) && PlanLists(mode, g, u, o, a, ids, sizes, offsets)
    {
      if j in m {
        PushLists(mode, g, u, o, a, ids, sizes, offsets, j);
        ids, sizes, offsets := ids + [j], sizes + [m[j].size], offsets + [m[j].offset];
      }
    }
    ids, sizes, offsets := AddParities(mode, g, u, o, a, m, g.GlobalLo(i), g.GlobalLo(i + 1), ids, sizes, offsets);
    ids, sizes, offsets := AddParities(mode, g, u, o, a, m, g.LocalLo(i), g.LocalLo(i + 1), ids, sizes, offsets);
    assert Interval(g.LocalLo(i), 1) == [g.LocalLo(i)];
  }

  method AddParities(mode: Mode, g: Group, u: nat, ghost o: nat, ghost a: nat, m: map<nat, Slice>, lo: nat, hi: nat,
      ids0: seq<nat>, sizes0: seq<nat>, offsets0: seq<nat>)
    returns (ids: seq<nat>, sizes: seq<nat>, offsets: seq<nat>)
    requires g.Valid() && u > 0 && a > 0 && AllSlices(m, mode, g, u, o, a)
    requires g.k <= lo <= hi <= g.k + g.r + g.z && PlanLists(mode, g, u, o, a, ids0, sizes0, offsets0)
    ensures ids == ids0 + Interval(lo, hi - lo) && PlanLists(mode, g, u, o, a, ids, sizes, offsets)
  {
    hide Fill, SliceOf, PlanLists;
    ids, sizes, offsets := ids0, sizes0, offsets0;
    for j := lo to hi
      invariant ids == ids0 + Interval(lo, j - lo) && PlanLists(mode, g, u, o, a, ids, sizes, offsets)
    {
      PushLists(mode, g, u, o, a, ids, sizes, offsets, j);
      assert Interval(lo, j + 1 - lo) == Interval(lo, j - lo) + [j];
      ids, sizes, offsets := ids + [j], sizes + [m[j].size], offsets + [m[j].offset];
    }
  }

  /** The parity bytes of one cluster, by the coordinator's formula. */
  function ParityBytes(g: Group, size: nat): nat
    requires g.z > 0
  {
    size * (g.r + g.z) / g.z
  }

  lemma ParityShare(g: Group, size: nat)
    requires g.Valid()
    ensures ParityBytes(g, size) == (g.r / g.z) * size + size
  {
    var p := g.r / g.z;
    assert size * (g.r + g.z) == (p * size + size) * g.z;
    DivModUnique(size * (g.r + g.z), g.z, p * size + size, 0);
  }

  /** The announced size of a plan is the sum of its slices. */
  lemma PlanTotal(mode: Mode, g: Group, u: nat, o: nat, a: nat, i: nat)
    requires g.Valid() && u > 0 && a > 0 && i < g.z
    ensures g.DataLo(i) <= g.DataLo(i + 1)
    ensures Sum(Sizes(mode, g.k, u, o, a, PlanBlocks(g, u, o, o + a, i)))
         == Sum(Sizes(mode, g.k, u, o, a, Touched(g.k, u, o, o + a, g.DataLo(i), g.DataLo(i + 1))))
            + ParityBytes(g, ParitySlice(mode, g.k, u, o, a).size)
  {
    hide Sum, ParitySlice, ParityBytes, Fill, Group.DataLo, Group.GlobalLo, Group.LocalLo;
    GroupRanges(g, i);
    var size := ParitySlice(mode, g.k, u, o, a).size;
    var data := Touched(g.k, u, o, o + a, g.DataLo(i), g.DataLo(i + 1));
    var globals := Interval(g.GlobalLo(i), g.GlobalLo(i + 1) - g.GlobalLo(i));
    var sd, sg := Sizes(mode, g.k, u, o, a, data), Sizes(mode, g.k, u, o, a, globals);
    assert Sizes(mode, g.k, u, o, a, PlanBlocks(g, u, o, o + a, i)) == sd + sg + [size];
    SumConcat(sd + sg, [size]);
    SumConcat(sd, sg);
    SumConstant(sg, size);
    SumOne(size);
    ParityShare(g, size);
  }

  method GetClusterAppendSize(mode: Mode, g: Group, u: nat, ghost o: nat, ghost a: nat, m: map<nat, Slice>, i: nat,
      paritySize: nat)
    returns (n: nat)
    requires g.Valid() && u > 0 && a > 0 && i < g.z && AllSlices(m, mode, g, u, o, a)
    requires paritySize == ParitySlice(mode, g.k, u, o, a).size
    ensures n == Sum(Sizes(mode, g.k, u, o, a, PlanBlocks(g, u, o, o + a, i)))
  {
    hide Fill, Sum, SliceOf, ParitySlice, PlanBlocks, Touched, ParityBytes, Group.DataLo;
    n := 0;
    GroupRanges(g, i);
    PlanTotal(mode, g, u, o, a, i);
    var lo, hi := g.DataLo(i), g.DataLo(i + 1);
    NothingTouched(mode, g.k, u, o, a, lo);
    for j := lo to hi
      invariant n == Sum(Sizes(mode, g.k, u, o, a, Touched(g.k, u, o, o + a, lo, j)))
    {
      TouchedStep(mode, g.k, u, o, a, lo, j);
      if j in m {
        n := n + m[j].size;
      }
    }
    n := n + ParityBytes(g, paritySize);
  }

  /** The append fills the whole stripe at once. */
  predicate WholeStripe(g: Group, blockSize: nat, o: nat, a: nat) {
    o == 0 && a == blockSize * g.k
  }

  ghost predicate IsPlan(plan: ClusterPlan, mode: Mode, g: Group, u: nat, blockSize: nat, o: nat, a: nat, i: nat)
    requires g.Valid() && u > 0 && a > 0 && i < g.z
  {
    && plan.blockIds == PlanBlocks(g, u, o, o + a, i)
    && PlanLists(mode, g, u, o, a, plan.blockIds, plan.sizes, plan.offsets)
    && plan.appendSize == Sum(plan.sizes)
    && plan.isMergeParity == (o + a == blockSize * g.k && !WholeStripe(g, blockSize, o, a))
    && plan.isSerialized == !WholeStripe(g, blockSize, o, a)
  }

  // ----- the plans in terms of the bytes

  /** Block b has a slice in plan i: a data block of group i that some byte of the append goes to, or one of the group's global
      parities, or its local parity. */
  ghost predicate InPlan(g: Group, u: nat, o: nat, a: nat, i: nat, b: nat)
    requires g.Valid() && u > 0
  {
    || (i * (g.k / g.z) <= b < (i + 1) * (g.k / g.z) && BytesOf(g.k, u, b, o, o + a) != {})
    || g.k + i * (g.r / g.z) <= b < g.k + (i + 1) * (g.r / g.z)
    || b == g.k + g.r + i
  }

  /** What an append adds to block b: the bytes that go there, behind those before; or the parity slice. */
  ghost predicate IsSlice(mode: Mode, k: nat, u: nat, o: nat, a: nat, b: nat, s: Slice)
    requires k > 0 && u > 0 && a > 0
  {
    if b < k then s == Slice(|BytesOf(k, u, b, o, o + a)|, |BytesOf(k, u, b, 0, o)|) else ParityExtent(mode, k, u, o, a, s)
  }

  /** Plan i lists its blocks in ascending order, each with its slice. */
  ghost predicate HoldsSlices(plan: ClusterPlan, mode: Mode, g: Group, u: nat, o: nat, a: nat, i: nat)
    requires g.Valid() && u > 0 && a > 0
  {
    && Ascending(plan.blockIds) && (forall b: nat :: b in plan.blockIds <==> InPlan(g, u, o, a, i, b))
    && |plan.sizes| == |plan.offsets| == |plan.blockIds|
    && forall j :: 0 <= j < |plan.blockIds| ==>
         IsSlice(mode, g.k, u, o, a, plan.blockIds[j], Slice(plan.sizes[j], plan.offsets[j]))
  }

  lemma SliceOfIs(mode: Mode, k: nat, u: nat, o: nat, a: nat, b: nat)
    requires k > 0 && u > 0 && a > 0
    ensures IsSlice(mode, k, u, o, a, b, SliceOf(mode, k, u, o, a, b))
  {
    hide Fill, BytesOf, ParityExtent, ParitySlice;
    BytesAreFill(k, u, b, o, o + a);
    ParityExtentOf(mode, k, u, o, a, ParitySlice(mode, k, u, o, a));
  }

  lemma PlanHoldsSlices(plan: ClusterPlan, mode: Mode, g: Group, u: nat, blockSize: nat, o: nat, a: nat, i: nat)
    requires g.Valid() && u > 0 && a > 0 && i < g.z && IsPlan(plan, mode, g, u, blockSize, o, a, i)
    ensures HoldsSlices(plan, mode, g, u, o, a, i)
  {
    hide PlanBlocks, InPlan, IsSlice, SliceOf, Sum, Ascending;
    PlanAscends(g, u, o, a, i);
    forall j | 0 <= j < |plan.blockIds|
      ensures IsSlice(mode, g.k, u, o, a, plan.blockIds[j], Slice(plan.sizes[j], plan.offsets[j]))
    {
      SliceOfIs(mode, g.k, u, o, a, plan.blockIds[j]);
    }
  }

  lemma PlanAscends(g: Group, u: nat, o: nat, a: nat, i: nat)
    requires g.Valid() && u > 0 && i < g.z
    ensures var ids := PlanBlocks(g, u, o, o + a, i);
      Ascending(ids) && forall b: nat :: b in ids <==> InPlan(g, u, o, a, i, b)
  {
    hide PlanBlocks, InGroup, Gets, InPlan, Ascending;
    PlanMembers(g, u, o, a, i);
    forall b: nat ensures InPlan(g, u, o, a, i, b) <==> InGroup(g, b, i) && Gets(g, u, o, a, b) {
      InPlanIs(g, u, o, a, i, b);
    }
  }

  lemma InPlanIs(g: Group, u: nat, o: nat, a: nat, i: nat, b: nat)
    requires g.Valid() && u > 0 && i < g.z
    ensures InPlan(g, u, o, a, i, b) <==> InGroup(g, b, i) && Gets(g, u, o, a, b)
  {
    hide Fill, BytesOf;
    GroupRanges(g, i);
    DivExact(i, g.k, g.z);
    DivExact(i + 1, g.k, g.z);
    DivExact(i, g.r, g.z);
    DivExact(i + 1, g.r, g.z);
    BytesAreFill(g.k, u, b, o, o + a);
  }

  /** One plan per group. */
  method GenerateAppendPlan(mode: Mode, g: Group, u: nat, blockSize: nat, o: nat, a: nat) returns (plans: seq<ClusterPlan>)
    requires g.Valid() && u > 0 && a > 0
    requires a <= g.k * blockSize - o
    ensures |plans| == g.z && forall i :: 0 <= i < g.z ==> IsPlan(plans[i], mode, g, u, blockSize, o, a, i)
    ensures forall i :: 0 <= i < g.z ==> HoldsSlices(plans[i], mode, g, u, o, a, i)
  {
    hide AllSlices, PlanLists, PlanBlocks, Sum, ParitySlice;
    var m, parity := BlockSlices(mode, g, u, o, a);
    var isMergeParity := o + a == blockSize * g.k;
    var whole := o == 0 && a == blockSize * g.k;
    plans := [];
    for i := 0 to g.z
      invariant |plans| == i && forall l :: 0 <= l < i ==> IsPlan(plans[l], mode, g, u, blockSize, o, a, l)
    {
      var n := GetClusterAppendSize(mode, g, u, o, a, m, i, parity.size);
      var ids, sizes, offsets := PlanOf(mode, g, u, o, a, m, i);
      ListedSizes(mode, g, u, o, a, ids, sizes, offsets);
      plans := plans + [ClusterPlan(ids, sizes, offsets, n, isMergeParity && !whole, !whole)];
    }
    forall i | 0 <= i < g.z ensures HoldsSlices(plans[i], mode, g, u, o, a, i) {
      PlanHoldsSlices(plans[i], mode, g, u, blockSize, o, a, i);
    }
  }
}
