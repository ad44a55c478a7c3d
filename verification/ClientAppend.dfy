/** The client's side of an append: it slices by its own computation, cuts its buffer by the sizes that the coordinator
    announces, and no cut ever fails. */
module ClientAppend {
  import opened Arithmetic
  import opened Field
  import opened DecodePlanner
  import opened Aggregation
  import opened Striping
  import opened ParitySlices
  import opened AppendPlan
  import opened ProxyRecovery

  // ----- the client's slicing loop

  ghost predicate DataSizes(m: map<nat, nat>, k: nat, u: nat, o: nat, t: nat)
    requires k > 0 && u > 0
  {
    && (forall b: nat :: b in m <==> b < k && Fill(k, u, b, o) < Fill(k, u, b, t))
    && forall b: nat :: b in m ==> m[b] + Fill(k, u, b, o) == Fill(k, u, b, t)
  }

  lemma SizeStep(m: map<nat, nat>, k: nat, u: nat, o: nat, t: nat, s: nat)
    requires k > 0 && u > 0 && o <= t && s > 0 && t % u + s <= u && DataSizes(m, k, u, o, t)
    ensures BlockOf(k, u, t) < k
    ensures var b := BlockOf(k, u, t); DataSizes(m[b := if b in m then m[b] + s else s], k, u, o, t + s)
  {
    hide Fill, BlockOf;
    OffsetIsFill(k, u, t);
    forall b: nat | b < k
      ensures Fill(k, u, b, t + s) == Fill(k, u, b, t) + if b == BlockOf(k, u, t) then s else 0
      ensures Fill(k, u, b, o) <= Fill(k, u, b, t)
    {
      FillForward(k, u, b, t, s);
      FillMonotone(k, u, b, o, t);
    }
  }

  lemma SizeLoopStep(m: map<nat, nat>, k: nat, u: nat, o: nat, a: nat, t: nat, block: nat)
    requires k > 0 && u > 0 && Cursor(k, u, o, a, t, block) && t < o + a && DataSizes(m, k, u, o, t)
    ensures var s := SubSlice(u, o, a, t);
      && s > 0 && Cursor(k, u, o, a, t + s, NextBlock(k, block))
      && DataSizes(m[block := if block in m then m[block] + s else s], k, u, o, t + s)
  {
    hide SubSlice, DataSizes, BlockOf, NextBlock;
    CursorStep(k, u, o, a, t, block);
    SizeStep(m, k, u, o, t, SubSlice(u, o, a, t));
  }

  lemma NoSizes(k: nat, u: nat, o: nat)
    requires k > 0 && u > 0
    ensures DataSizes(map[], k, u, o, o)
  {
  }

  /** Counted in bytes: a block is in m if some of the bytes go to it, with their number. */
  ghost predicate CountedSizes(m: map<nat, nat>, k: nat, u: nat, o: nat, t: nat)
    requires k > 0 && u > 0
  {
    && (forall b: nat :: b in m <==> BytesOf(k, u, b, o, t) != {})
    && forall b: nat :: b in m ==> m[b] == |BytesOf(k, u, b, o, t)|
  }

  lemma SizesCounted(m: map<nat, nat>, k: nat, u: nat, o: nat, t: nat)
    requires k > 0 && u > 0 && o <= t
    ensures DataSizes(m, k, u, o, t) <==> CountedSizes(m, k, u, o, t)
  {
    hide Fill, BytesOf;
    forall b: nat
      ensures BytesOf(k, u, b, o, t) != {} <==> b < k && Fill(k, u, b, o) < Fill(k, u, b, t)
      ensures b < k ==> Fill(k, u, b, t) - Fill(k, u, b, o) == |BytesOf(k, u, b, o, t)|
    {
      BytesAreFill(k, u, b, o, t);
    }
  }

  method PlaceDataSizes(k: nat, u: nat, o: nat, a: nat) returns (m: map<nat, nat>)
    requires k > 0 && u > 0
    ensures DataSizes(m, k, u, o, o + a) && CountedSizes(m, k, u, o, o + a)
  {
    hide *;
    m := map[];
    NoSizes(k, u, o);
    LoopStarts(k, u, o, a);
    var tmpSize, tmpOffset, block := a, o, BlockOf(k, u, o);
    while tmpSize > 0
      invariant tmpOffset + tmpSize == o + a && tmpSize >= 0 && tmpOffset >= o
      invariant Cursor(k, u, o, a, tmpOffset, block)
      invariant DataSizes(m, k, u, o, tmpOffset)
    {
      var sub := SubSlice(u, o, a, tmpOffset);
      SizeLoopStep(m, k, u, o, a, tmpOffset, block);
      CursorInside(k, u, o, a, tmpOffset + sub, NextBlock(k, block));
      if block !in m {
        m := m[block := sub];
      } else {
        m := m[block := m[block] + sub];
      }
      block := NextBlock(k, block);
      tmpSize := tmpSize - sub;
      tmpOffset := tmpOffset + sub;
    }
    SizesCounted(m, k, u, o, o + a);
  }

  /** The client's computation of the parity slice: whole rows, unless UNILRC_MODE says otherwise. */
  method ClientParitySlice(mode: Mode, k: nat, u: nat, o: nat, a: nat) returns (s: Slice)
    requires k > 0 && u > 0 && a > 0
    ensures ParityExtent(mode, k, u, o, a, s)
  {
    hide ParityExtent;
    var last := o + a - 1;
    RowsOfAppend(k, u, o, last);
    var numUnitStripes := last / (u * k) - o / (u * k) + 1;
    var numUnits := last / u - o / u + 1;
    MulMono(0, numUnitStripes, u);
    MulMono(0, o / (u * k), u);
    MulMono(0, numUnitStripes - 1, u);
    var size, offset := numUnitStripes * u, o / (u * k) * u;
    if mode.UnilrcMode? {
      if numUnits == 1 {
        size := a;
        offset := offset + o % u;
      }
      if numUnitStripes > 1 && last % (u * k) < u - 1 {
        size := (numUnitStripes - 1) * u + last % (u * k) + 1;
      }
    }
    s := Slice(size, offset);
    ParityExtentOf(mode, k, u, o, a, s);
  }

  /** What the client knows of the slices: their sizes. */
  ghost predicate AllSizes(m: map<nat, nat>, mode: Mode, g: Group, u: nat, o: nat, a: nat)
    requires g.k > 0 && u > 0 && a > 0
  {
    && (forall b: nat :: b in m <==> Gets(g, u, o, a, b))
    && forall b: nat :: b in m ==> m[b] == SliceOf(mode, g.k, u, o, a, b).size
  }

  method BlockSizes(mode: Mode, g: Group, u: nat, o: nat, a: nat, paritySize: nat) returns (m: map<nat, nat>)
    requires g.Valid() && u > 0 && a > 0 && paritySize == ParitySlice(mode, g.k, u, o, a).size
    ensures AllSizes(m, mode, g, u, o, a)
  {
    hide Fill, CountedSizes, ParitySlice;
    m := PlaceDataSizes(g.k, u, o, a);
    ghost var data := m;
    for i := g.k to g.k + g.r + g.z
      invariant forall b: nat :: b in m <==> b in data || g.k <= b < i
      invariant forall b: nat :: b in m ==> m[b] == if b < g.k then data[b] else paritySize
    {
      m := m[i := paritySize];
    }
    forall b: nat | b in m ensures m[b] == SliceOf(mode, g.k, u, o, a, b).size {
    }
  }

  /** The sizes of the parity slices of a range of blocks. */
  method ParitySizes(mode: Mode, g: Group, u: nat, ghost o: nat, ghost a: nat, m: map<nat, nat>, lo: nat, hi: nat)
    returns (sizes: seq<nat>)
    requires g.Valid() && u > 0 && a > 0 && AllSizes(m, mode, g, u, o, a)
    requires g.k <= lo <= hi <= g.k + g.r + g.z
    ensures sizes == Sizes(mode, g.k, u, o, a, Interval(lo, hi - lo))
  {
    hide Fill, SliceOf;
    sizes := [];
    for j := lo to hi
      invariant sizes == Sizes(mode, g.k, u, o, a, Interval(lo, j - lo))
    {
      sizes := sizes + [m[j]];
    }
  }

  method DataSizesOf(mode: Mode, g: Group, u: nat, ghost o: nat, ghost a: nat, m: map<nat, nat>, lo: nat, hi: nat)
    returns (sizes: seq<nat>)
    requires g.Valid() && u > 0 && a > 0 && AllSizes(m, mode, g, u, o, a) && lo <= hi <= g.k
    ensures sizes == Sizes(mode, g.k, u, o, a, Touched(g.k, u, o, o + a, lo, hi))
  {
    hide Fill, SliceOf;
    sizes := [];
    for j := lo to hi
      invariant sizes == Sizes(mode, g.k, u, o, a, Touched(g.k, u, o, o + a, lo, j))
    {
      if j in m {
        sizes := sizes + [m[j]];
      }
    }
  }

  lemma {:induction false} TouchedConcat(k: nat, u: nat, o: nat, t: nat, lo: nat, mid: nat, hi: nat)
    requires k > 0 && u > 0 && lo <= mid <= hi
    ensures Touched(k, u, o, t, lo, hi) == Touched(k, u, o, t, lo, mid) + Touched(k, u, o, t, mid, hi)
    decreases hi
  {
    hide Fill;
    if mid < hi {
      TouchedConcat(k, u, o, t, lo, mid, hi - 1);
    }
  }

  method ClusterNodeSizes(mode: Mode, g: Group, u: nat, ghost o: nat, ghost a: nat, m: map<nat, nat>, i: nat)
    returns (data: seq<nat>, nodes: seq<nat>)
    requires g.Valid() && u > 0 && a > 0 && i < g.z && AllSizes(m, mode, g, u, o, a)
    ensures data == Sizes(mode, g.k, u, o, a, GroupTouched(g, u, o, a, i))
    ensures nodes == Sizes(mode, g.k, u, o, a, PlanBlocks(g, u, o, o + a, i))
  {
    hide AllSizes, SliceOf, Touched, ParitySlice, Group.DataLo, Group.GlobalLo, Group.LocalLo;
    GroupRanges(g, i);
    data := DataSizesOf(mode, g, u, o, a, m, g.DataLo(i), g.DataLo(i + 1));
    var globals := ParitySizes(mode, g, u, o, a, m, g.GlobalLo(i), g.GlobalLo(i + 1));
    var locals := ParitySizes(mode, g, u, o, a, m, g.LocalLo(i), g.LocalLo(i + 1));
    assert Interval(g.LocalLo(i), 1) == [g.LocalLo(i)];
    nodes := data + globals + locals;
  }

  /** The data blocks of group i that the append touches. */
  function GroupTouched(g: Group, u: nat, o: nat, a: nat, i: nat): seq<nat>
    requires g.Valid() && u > 0 && i < g.z
  {
    GroupRanges(g, i);
    Touched(g.k, u, o, o + a, g.DataLo(i), g.DataLo(i + 1))
  }

  /** The data blocks of the groups before i that the append touches. */
  function TouchedBefore(g: Group, u: nat, o: nat, a: nat, i: nat): seq<nat>
    requires g.Valid() && u > 0
  {
    Touched(g.k, u, o, o + a, 0, g.DataLo(i))
  }

  lemma TouchedNext(g: Group, u: nat, o: nat, a: nat, i: nat)
    requires g.Valid() && u > 0 && i < g.z
    ensures TouchedBefore(g, u, o, a, i + 1) == TouchedBefore(g, u, o, a, i) + GroupTouched(g, u, o, a, i)
  {
    hide Touched, Group.DataLo;
    GroupRanges(g, i);
    TouchedConcat(g.k, u, o, o + a, 0, g.DataLo(i), g.DataLo(i + 1));
  }

  lemma TouchedEnds(g: Group, u: nat, o: nat, a: nat)
    requires g.Valid() && u > 0
    ensures TouchedBefore(g, u, o, a, 0) == [] && TouchedBefore(g, u, o, a, g.z) == Touched(g.k, u, o, o + a, 0, g.k)
  {
    hide Group.DataLo;
    GroupEnds(g);
  }

  /** The client's slice sizes per cluster, the number of data slices per cluster, and all data slice sizes. */
  method GetAppendSlicePlans(mode: Mode, g: Group, u: nat, o: nat, a: nat)
    returns (nodeSizes: seq<seq<nat>>, modified: seq<nat>, dataSizes: seq<nat>, parity: Slice)
    requires g.Valid() && u > 0 && a > 0
    ensures |nodeSizes| == g.z && |modified| == g.z
    ensures forall i :: 0 <= i < g.z ==> nodeSizes[i] == Sizes(mode, g.k, u, o, a, PlanBlocks(g, u, o, o + a, i))
    ensures forall i :: 0 <= i < g.z ==> modified[i] == |GroupTouched(g, u, o, a, i)|
    ensures dataSizes == Sizes(mode, g.k, u, o, a, Touched(g.k, u, o, o + a, 0, g.k)) && Sum(dataSizes) == a
    ensures ParityExtent(mode, g.k, u, o, a, parity)
    ensures forall i :: 0 <= i < g.z ==> HoldsSizes(nodeSizes[i], g, u, o, a, PlanBlocks(g, u, o, o + a, i), i, parity.size)
  {
    hide AllSizes, SliceOf, Touched, Sum, ParitySlice, ParityExtent, PlanBlocks, GroupTouched, TouchedBefore, HoldsSizes;
    parity := ClientParitySlice(mode, g.k, u, o, a);
    ParityExtentOf(mode, g.k, u, o, a, parity);
    var m := BlockSizes(mode, g, u, o, a, parity.size);
    nodeSizes, modified, dataSizes := [], [], [];
    TouchedEnds(g, u, o, a);
    for i := 0 to g.z
      invariant |nodeSizes| == |modified| == i
      invariant forall l :: 0 <= l < i ==> nodeSizes[l] == Sizes(mode, g.k, u, o, a, PlanBlocks(g, u, o, o + a, l))
      invariant forall l :: 0 <= l < i ==> modified[l] == |GroupTouched(g, u, o, a, l)|
      invariant dataSizes == Sizes(mode, g.k, u, o, a, TouchedBefore(g, u, o, a, i))
    {
      TouchedNext(g, u, o, a, i);
      var data, nodes := ClusterNodeSizes(mode, g, u, o, a, m, i);
      nodeSizes := nodeSizes + [nodes];
      modified := modified + [|data|];
      dataSizes := dataSizes + data;
    }
    DataSlicesTotal(mode, g.k, u, o, a);
    forall i | 0 <= i < g.z
      ensures HoldsSizes(nodeSizes[i], g, u, o, a, PlanBlocks(g, u, o, o + a, i), i, parity.size)
    {
      NodeSizesHold(mode, g, u, o, a, i, parity.size);
    }
  }

  /** The sizes of group i's slices, for its blocks in ascending order: how many bytes go to a data block, or the parity size. */
  ghost predicate HoldsSizes(sizes: seq<nat>, g: Group, u: nat, o: nat, a: nat, ids: seq<nat>, i: nat, paritySize: nat)
    requires g.Valid() && u > 0
  {
    && Ascending(ids) && (forall b: nat :: b in ids <==> InPlan(g, u, o, a, i, b)) && |sizes| == |ids|
    && forall j :: 0 <= j < |ids| ==> sizes[j] == if ids[j] < g.k then |BytesOf(g.k, u, ids[j], o, o + a)| else paritySize
  }

  lemma NodeSizesHold(mode: Mode, g: Group, u: nat, o: nat, a: nat, i: nat, paritySize: nat)
    requires g.Valid() && u > 0 && a > 0 && i < g.z && paritySize == ParitySlice(mode, g.k, u, o, a).size
    ensures var ids := PlanBlocks(g, u, o, o + a, i); HoldsSizes(Sizes(mode, g.k, u, o, a, ids), g, u, o, a, ids, i, paritySize)
  {
    hide PlanBlocks, ParitySlice, ParityExtent, InPlan, BytesOf, Fill, Ascending;
    var ids := PlanBlocks(g, u, o, o + a, i);
    PlanAscends(g, u, o, a, i);
    forall j | 0 <= j < |ids|
      ensures SliceOf(mode, g.k, u, o, a, ids[j]).size
        == if ids[j] < g.k then |BytesOf(g.k, u, ids[j], o, o + a)| else paritySize
    {
      SliceOfIs(mode, g.k, u, o, a, ids[j]);
    }
  }

  // ----- cutting a buffer

  /** The cut points of a buffer: piece i is the sizes[i] bytes after the pieces before it. */
  ghost predicate Pieces(pieces: seq<seq<byte>>, str: seq<byte>, sizes: seq<nat>) {
    && |pieces| == |sizes|
    && forall i :: 0 <= i < |sizes| ==>
         Sum(sizes[..i]) + sizes[i] <= |str| && pieces[i] == str[Sum(sizes[..i])..Sum(sizes[..i]) + sizes[i]]
  }

  lemma {:induction false} SumPrefix(sizes: seq<nat>, i: nat)
    requires i <= |sizes|
    ensures Sum(sizes[..i]) <= Sum(sizes)
    decreases |sizes|
  {
    if i == |sizes| {
      assert sizes[..i] == sizes;
    } else {
      SumPrefix(sizes[..|sizes| - 1], i);
      assert sizes[..|sizes| - 1][..i] == sizes[..i];
    }
  }

  lemma SumNext(sizes: seq<nat>)
    ensures Sum(sizes[..0]) == 0
    ensures forall i :: 0 <= i < |sizes| ==> Sum(sizes[..i + 1]) == Sum(sizes[..i]) + sizes[i]
  {
    forall i | 0 <= i < |sizes| ensures Sum(sizes[..i + 1]) == Sum(sizes[..i]) + sizes[i] {
      assert sizes[..i + 1][..i] == sizes[..i];
    }
  }

  /** Cuts a buffer into pieces; a failed assertion of the source is None. It fails exactly if the sizes do not add up
      to the length of the buffer. */
  method SplitCharPointer(str: seq<byte>, sizes: seq<nat>) returns (result: Option<seq<seq<byte>>>)
    ensures result.Some? <==> Sum(sizes) == |str|
    ensures result.Some? ==> Pieces(result.value, str, sizes)
  {
    hide Sum;
    var pieces, offset := [], 0;
    SumNext(sizes);
    for i := 0 to |sizes|
      invariant offset == Sum(sizes[..i]) <= |str| && |pieces| == i
      invariant Pieces(pieces, str, sizes[..i])
    {
      SumPrefix(sizes, i + 1);
      if offset + sizes[i] > |str| {
        return None;
      }
      PiecesStep(pieces, str, sizes, i);
      pieces := pieces + [str[offset..offset + sizes[i]]];
      offset := offset + sizes[i];
    }
    assert sizes[..|sizes|] == sizes;
    result := if offset == |str| then Some(pieces) else None;
  }

  lemma PiecesStep(pieces: seq<seq<byte>>, str: seq<byte>, sizes: seq<nat>, i: nat)
    requires i < |sizes| && Pieces(pieces, str, sizes[..i]) && Sum(sizes[..i]) + sizes[i] <= |str|
    ensures Pieces(pieces + [str[Sum(sizes[..i])..Sum(sizes[..i]) + sizes[i]]], str, sizes[..i + 1])
  {
    hide Sum;
    assert forall l :: 0 <= l <= i ==> sizes[..i + 1][..l] == sizes[..l];
    assert forall l :: 0 <= l < i ==> sizes[..i][..l] == sizes[..l];
  }

  lemma SumLast(sizes: seq<nat>)
    requires sizes != []
    ensures Sum(sizes) == Sum(sizes[..|sizes| - 1]) + sizes[|sizes| - 1]
  {
  }

  lemma PiecesPrefix(pieces: seq<seq<byte>>, str: seq<byte>, sizes: seq<nat>)
    requires Pieces(pieces, str, sizes) && sizes != []
    ensures var n := |sizes| - 1;
      && |pieces| == n + 1 && Pieces(pieces[..n], str, sizes[..n])
      && Sum(sizes[..n]) + sizes[n] <= |str| && pieces[n] == str[Sum(sizes[..n])..Sum(sizes[..n]) + sizes[n]]
  {
    hide Sum;
    var n := |sizes| - 1;
    assert forall l :: 0 <= l < n ==> sizes[..n][..l] == sizes[..l];
  }

  lemma NoPieces(pieces: seq<seq<byte>>, str: seq<byte>)
    requires Pieces(pieces, str, [])
    ensures Join(pieces) == [] && Sum([]) == 0
  {
  }

  lemma JoinLast(pieces: seq<seq<byte>>)
    requires pieces != []
    ensures Join(pieces) == Join(pieces[..|pieces| - 1]) + pieces[|pieces| - 1]
  {
  }

  /** Nothing is lost or moved: the pieces put together are the buffer. */
  lemma {:induction false} PiecesJoin(pieces: seq<seq<byte>>, str: seq<byte>, sizes: seq<nat>)
    requires Pieces(pieces, str, sizes)
    ensures Sum(sizes) <= |str| && Join(pieces) == str[..Sum(sizes)]
    decreases |sizes|
  {
    hide Pieces, Sum, Join;
    if sizes == [] {
      NoPieces(pieces, str);
    } else {
      PiecesPrefix(pieces, str, sizes);
      PiecesJoin(pieces[..|sizes| - 1], str, sizes[..|sizes| - 1]);
      SumLast(sizes);
      JoinLast(pieces);
    }
  }

  lemma PiecesUnique(a: seq<seq<byte>>, b: seq<seq<byte>>, str: seq<byte>, sizes: seq<nat>)
    requires Pieces(a, str, sizes) && Pieces(b, str, sizes)
    ensures a == b && |a| == |sizes| && forall i :: 0 <= i < |sizes| ==> |a[i]| == sizes[i]
  {
    hide Sum;
  }

  // ----- one append, cut by both sides

  /** The size announced for each cluster. */
  function ClusterSizes(mode: Mode, g: Group, u: nat, o: nat, a: nat): (s: seq<nat>)
    requires g.Valid() && u > 0 && a > 0
    ensures |s| == g.z
    ensures forall i :: 0 <= i < g.z ==> s[i] == Sum(Sizes(mode, g.k, u, o, a, PlanBlocks(g, u, o, o + a, i)))
  {
    seq(g.z, i requires 0 <= i < g.z => Sum(Sizes(mode, g.k, u, o, a, PlanBlocks(g, u, o, o + a, i))))
  }

  /** No group is left out: each gets at least its parity slices. */
  lemma EachGetsSome(mode: Mode, g: Group, u: nat, o: nat, a: nat, i: nat)
    requires g.Valid() && u > 0 && a > 0 && i < g.z
    ensures ClusterSizes(mode, g, u, o, a)[i] >= ParitySlice(mode, g.k, u, o, a).size > 0
  {
    hide Sum, Sizes, Touched, PlanBlocks, ParitySlice, ParityBytes, Group.DataLo;
    PlanTotal(mode, g, u, o, a, i);
    var size := ParitySlice(mode, g.k, u, o, a).size;
    ParityShare(g, size);
    MulMono(0, g.r / g.z, size);
    SomeParity(mode, g.k, u, o, a);
  }

  lemma PlanSizes(plan: ClusterPlan, mode: Mode, g: Group, u: nat, blockSize: nat, o: nat, a: nat, i: nat)
    requires g.Valid() && u > 0 && a > 0 && i < g.z && IsPlan(plan, mode, g, u, blockSize, o, a, i)
    ensures plan.sizes == Sizes(mode, g.k, u, o, a, PlanBlocks(g, u, o, o + a, i)) && plan.appendSize == Sum(plan.sizes)
  {
    hide PlanBlocks, Sum, SliceOf;
  }

  /** The client cuts the buffer into what each cluster gets, and each part into slices by its own sizes; the proxy of
      the cluster cuts the same part by the sizes of its plan. Every cut succeeds, and both see the same slices. */
  method CutAppend(mode: Mode, g: Group, u: nat, blockSize: nat, o: nat, a: nat, buffer: seq<byte>)
    returns (parts: seq<seq<byte>>, slices: seq<seq<seq<byte>>>, plans: seq<ClusterPlan>)
    requires g.Valid() && u > 0 && a > 0 && a <= g.k * blockSize - o
    requires |buffer| == Sum(ClusterSizes(mode, g, u, o, a))
    ensures |plans| == g.z && forall i :: 0 <= i < g.z ==> IsPlan(plans[i], mode, g, u, blockSize, o, a, i)
    ensures Pieces(parts, buffer, ClusterSizes(mode, g, u, o, a)) && |parts| == g.z
    ensures |slices| == g.z && forall i :: 0 <= i < g.z ==> Pieces(slices[i], parts[i], plans[i].sizes)
  {
    hide Sum, Pieces, PlanBlocks, SliceOf, Touched, IsPlan, PlanLists;
    plans := GenerateAppendPlan(mode, g, u, blockSize, o, a);
    var nodeSizes, modified, dataSizes, parity := GetAppendSlicePlans(mode, g, u, o, a);
    var announced := seq(g.z, i requires 0 <= i < g.z => plans[i].appendSize);
    forall i | 0 <= i < g.z
      ensures plans[i].appendSize == Sum(nodeSizes[i]) && plans[i].sizes == nodeSizes[i]
    {
      PlanSizes(plans[i], mode, g, u, blockSize, o, a, i);
    }
    assert announced == ClusterSizes(mode, g, u, o, a);
    var cut := SplitCharPointer(buffer, announced);
    parts := cut.value;
    PiecesUnique(parts, parts, buffer, announced);
    slices := [];
    for i := 0 to g.z
      invariant |slices| == i && forall l :: 0 <= l < i ==> Pieces(slices[l], parts[l], plans[l].sizes)
    {
      var clientCut := SplitCharPointer(parts[i], nodeSizes[i]);
      var proxyCut := SplitCharPointer(parts[i], plans[i].sizes);
      PiecesUnique(clientCut.value, proxyCut.value, parts[i], nodeSizes[i]);
      assert clientCut == proxyCut;
      slices := slices + [proxyCut.value];
    }
  }
}
