/** The OPT placement is a sound start for the first merging stage. */
module OptReady {
  import opened Arithmetic
  import opened SimBlocks
  import opened StageInvariant
  import opened StageSteps
  import opened Relocation
  import opened ClusterSums
  import opened MergeFill
  import opened MergeOne
  import opened StripeInfo
  import opened OptLayout

  /** The stage at the start: every stripe is an original one. */
  function First(cfg: Config): Stage { Stage(1, cfg.x0, 2, Tail(cfg), Tail(cfg)) }

  lemma DataBlockTag(cfg: Config, i: nat, j: nat, t: nat)
    requires cfg.Valid() && i < cfg.l && j < cfg.x0 && t < cfg.r
    ensures DataTag(cfg, First(cfg), 0, DataBlock(cfg, i, j, t))
  {
    var num := FirstOf(cfg, i, j) + t;
    NumAt(cfg, num, i, j, t);
    DivBelow(num, cfg.l * cfg.r, cfg.x0);
    DivModUnique(j, 1, j, 0);
  }

  lemma NoneCounted()
    ensures forall q :: Count([], q) == 0
  {
  }

  // ----- full clusters

  ghost predicate SoundChunk(cfg: Config, s: ClusterState)
    requires cfg.Valid()
  {
    DataCluster(cfg, s) && DataTags(cfg, First(cfg), 0, s.blocks)
  }

  lemma ChunkSound(cfg: Config, i: nat, j: nat, c: nat)
    requires cfg.Valid() && i < cfg.l && j < cfg.x0 && c < Chunks(cfg)
    ensures SoundChunk(cfg, ChunkCluster(cfg, i, j, c)) && ChunkCluster(cfg, i, j, c).blocks[0].stripe == j
  {
    hide DataTag, FirstOf;
    var s := ChunkCluster(cfg, i, j, c);
    PartsOfGroup(cfg);
    MulMono(c, c + 1, cfg.g + 1);
    MulMono(c + 1, Chunks(cfg), cfg.g + 1);
    assert (c + 1) * (cfg.g + 1) == c * (cfg.g + 1) + cfg.g + 1;
    forall t | 0 <= t < |s.blocks| ensures DataTag(cfg, First(cfg), 0, s.blocks[t]) {
      DataBlockTag(cfg, i, j, c * (cfg.g + 1) + t);
    }
  }

  lemma {:induction false} GroupChunksSound(cfg: Config, i: nat, x: nat)
    requires cfg.Valid() && i < cfg.l && x <= cfg.x0
    ensures forall c :: 0 <= c < |GroupChunks(cfg, i, x)| ==> SoundChunk(cfg, GroupChunks(cfg, i, x)[c])
    decreases x
  {
    hide SoundChunk, ChunkCluster, Chunks;
    if x > 0 {
      GroupChunksSound(cfg, i, x - 1);
      var v := StripeChunks(cfg, i, x - 1, Chunks(cfg));
      forall c | 0 <= c < |v| ensures SoundChunk(cfg, v[c]) {
        ChunkSound(cfg, i, x - 1, c);
      }
    }
  }

  lemma {:induction false} AllChunksSound(cfg: Config, l: nat)
    requires cfg.Valid() && l <= cfg.l
    ensures forall c :: 0 <= c < |AllChunks(cfg, l)| ==> SoundChunk(cfg, AllChunks(cfg, l)[c])
    decreases l
  {
    hide SoundChunk;
    if l > 0 {
      AllChunksSound(cfg, l - 1);
      GroupChunksSound(cfg, l - 1, cfg.x0);
    }
  }

  // ----- tails and local parities

  /** The contents of a tail cluster for the first x stripes. */
  ghost predicate TailsOf(cfg: Config, i: nat, x: nat, s: seq<Block>)
    requires cfg.Valid()
  {
    && (forall b :: b in s ==> b.kind != G && b.group == i && b.stripe < x)
    && (forall b :: b in s && b.kind == L ==> LocalTag(cfg, b))
    && (forall b :: b in s && b.kind == D ==> DataTag(cfg, First(cfg), 0, b))
    && (forall t: nat :: Count(s, DataOf(t)) == if t < x then Tail(cfg) else 0)
    && Count(s, AnyData) == x * Tail(cfg)
    && forall e: nat, t: nat :: Count(s, LocalOf(e, t)) == if e == i && t < x then 1 else 0
  }

  lemma DataBlocksGrow(cfg: Config, i: nat, j: nat, lo: nat, hi: nat)
    requires lo <= hi
    ensures lo == hi ==> DataBlocks(cfg, i, j, lo, hi) == []
    ensures lo < hi ==> DataBlocks(cfg, i, j, lo, hi) == DataBlocks(cfg, i, j, lo, hi - 1) + [DataBlock(cfg, i, j, hi - 1)]
  {
    hide DataBlock;
  }

  lemma {:induction false} SameDataCount(cfg: Config, i: nat, j: nat, lo: nat, hi: nat, q: Query)
    requires lo <= hi
    ensures q == AnyData || q == DataOf(j) ==> Count(DataBlocks(cfg, i, j, lo, hi), q) == hi - lo
    ensures KindOf(q) != D || (q.DataOf? && q.stripe != j) ==> Count(DataBlocks(cfg, i, j, lo, hi), q) == 0
    decreases hi
  {
    hide FirstOf, Count, DataBlocks;
    if lo < hi {
      SameDataCount(cfg, i, j, lo, hi - 1, q);
      DataBlocksGrow(cfg, i, j, lo, hi);
      CountPush(DataBlocks(cfg, i, j, lo, hi - 1), DataBlock(cfg, i, j, hi - 1), q);
    } else {
      DataBlocksGrow(cfg, i, j, lo, hi);
      NoneCounted();
    }
  }

  /** The blocks that one stripe adds to a tail cluster. */
  lemma TailBlocksCount(cfg: Config, i: nat, j: nat, q: Query)
    ensures q == AnyData || q == DataOf(j) ==> Count(TailBlocks(cfg, i, j), q) == Tail(cfg)
    ensures q.DataOf? && q.stripe != j ==> Count(TailBlocks(cfg, i, j), q) == 0
    ensures q.LocalOf? ==> Count(TailBlocks(cfg, i, j), q) == if q.group == i && q.stripe == j then 1 else 0
  {
    hide Count;
    PartsOfGroup(cfg);
    var s := DataBlocks(cfg, i, j, ChunkedPart(cfg), cfg.r);
    SameDataCount(cfg, i, j, ChunkedPart(cfg), cfg.r, q);
    CountPush(s, Block(L, i + j * cfg.l, i, j), q);
  }

  lemma TailBlocksSound(cfg: Config, i: nat, j: nat, b: Block)
    requires cfg.Valid() && i < cfg.l && j < cfg.x0 && b in TailBlocks(cfg, i, j)
    ensures b.kind != G && b.group == i && b.stripe == j && (b.kind == L ==> LocalTag(cfg, b))
    ensures b.kind == D ==> DataTag(cfg, First(cfg), 0, b)
  {
    hide DataTag, FirstOf, ChunkedPart;
    PartsOfGroup(cfg);
    var s := DataBlocks(cfg, i, j, ChunkedPart(cfg), cfg.r);
    if b in s {
      var t :| 0 <= t < |s| && s[t] == b;
      DataBlockTag(cfg, i, j, ChunkedPart(cfg) + t);
    }
  }

  lemma {:induction false} GroupTailsSound(cfg: Config, i: nat, x: nat)
    requires cfg.Valid() && i < cfg.l && x <= cfg.x0
    ensures TailsOf(cfg, i, x, GroupTails(cfg, i, x))
    decreases x
  {
    hide DataTag, LocalTag, Tail, TailBlocks, Count;
    var s := GroupTails(cfg, i, x);
    if x == 0 {
      NoneCounted();
    } else {
      GroupTailsSound(cfg, i, x - 1);
      var a, b := GroupTails(cfg, i, x - 1), TailBlocks(cfg, i, x - 1);
      forall q ensures Count(s, q) == Count(a, q) + Count(b, q) {
        CountConcat(a, b, q);
      }
      forall t: nat ensures Count(s, DataOf(t)) == if t < x then Tail(cfg) else 0 {
        TailBlocksCount(cfg, i, x - 1, DataOf(t));
      }
      TailBlocksCount(cfg, i, x - 1, AnyData);
      assert (x - 1) * Tail(cfg) + Tail(cfg) == x * Tail(cfg);
      forall e: nat, t: nat ensures Count(s, LocalOf(e, t)) == if e == i && t < x then 1 else 0 {
        TailBlocksCount(cfg, i, x - 1, LocalOf(e, t));
      }
      forall c | c in b
        ensures c.kind != G && c.group == i && c.stripe < x
        ensures (c.kind == L ==> LocalTag(cfg, c)) && (c.kind == D ==> DataTag(cfg, First(cfg), 0, c))
      {
        TailBlocksSound(cfg, i, x - 1, c);
      }
    }
  }

  /** Without tails, the local parities of the first l groups. */
  ghost predicate LocalsOf(cfg: Config, l: nat, s: seq<Block>)
    requires cfg.Valid()
  {
    && (forall b :: b in s ==> b.kind == L && b.group < l && b.stripe < cfg.x0 && LocalTag(cfg, b))
    && forall e: nat, t: nat :: Count(s, LocalOf(e, t)) == if e < l && t < cfg.x0 then 1 else 0
  }

  lemma {:induction false} AllTailsSound(cfg: Config, l: nat)
    requires cfg.Valid() && l <= cfg.l && Tail(cfg) == 0
    ensures LocalsOf(cfg, l, AllTails(cfg, l))
    decreases l
  {
    hide DataTag, LocalTag, Tail, Count, GroupTails;
    var s := AllTails(cfg, l);
    if l == 0 {
      NoneCounted();
    } else {
      AllTailsSound(cfg, l - 1);
      GroupTailsSound(cfg, l - 1, cfg.x0);
      var a, b := AllTails(cfg, l - 1), GroupTails(cfg, l - 1, cfg.x0);
      forall e: nat, t: nat ensures Count(s, LocalOf(e, t)) == if e < l && t < cfg.x0 then 1 else 0 {
        CountConcat(a, b, LocalOf(e, t));
      }
      forall c | c in b ensures c.kind == L {
        if c.kind == D {
          CountAtLeast(b, c, AnyData);
        }
      }
    }
  }

  // ----- global parities

  ghost predicate GlobalsOf(cfg: Config, x: nat, s: seq<Block>)
    requires cfg.Valid()
  {
    && (forall b :: b in s ==> b.kind == G && b.stripe < x && GlobalTag(cfg, b))
    && forall num: nat :: Count(s, GlobalNum(num)) == if num < x * cfg.g then 1 else 0
  }

  lemma NewGlobalsSound(cfg: Config, n: nat)
    requires cfg.Valid()
    ensures forall b :: b in NewGlobals(cfg, n, cfg.g) ==> b.kind == G && b.stripe == n && GlobalTag(cfg, b)
    ensures cfg.GlobalId(n, 0) == n * cfg.g && (n + 1) * cfg.g == n * cfg.g + cfg.g
  {
  }

  lemma {:induction false} AllGlobalsSound(cfg: Config, x: nat)
    requires cfg.Valid()
    ensures GlobalsOf(cfg, x, AllGlobals(cfg, x))
    decreases x
  {
    hide GlobalTag, Count, Config.GlobalId, NewGlobals;
    var s := AllGlobals(cfg, x);
    if x == 0 {
      NoneCounted();
    } else {
      AllGlobalsSound(cfg, x - 1);
      NewGlobalsSound(cfg, x - 1);
      var a, b := AllGlobals(cfg, x - 1), NewGlobals(cfg, x - 1, cfg.g);
      forall num: nat ensures Count(s, GlobalNum(num)) == if num < x * cfg.g then 1 else 0 {
        CountConcat(a, b, GlobalNum(num));
        NewGlobalsCount(cfg, x - 1, cfg.g, num);
      }
    }
  }

  // ----- the whole layout

  lemma TailReady(cfg: Config, i: nat)
    requires OptConfig(cfg) && cfg.tails && i < cfg.l
    ensures ClusterReady(cfg, First(cfg), 0, cfg.gId - cfg.l + i, ClusterState(GroupTails(cfg, i, cfg.x0), L))
  {
    hide Count, DataTag, LocalTag, GroupTails, Tail, AllChunks;
    GroupTailsSound(cfg, i, cfg.x0);
  }

  /** The cluster of the global parities, with the local parities in front if there are no tails. */
  function GlobalCluster(cfg: Config): ClusterState {
    if cfg.tails then ClusterState(AllGlobals(cfg, cfg.x0), G)
    else ClusterState(AllTails(cfg, cfg.l) + AllGlobals(cfg, cfg.x0), L)
  }

  lemma GlobalReady(cfg: Config)
    requires OptConfig(cfg)
    ensures ClusterReady(cfg, First(cfg), 0, cfg.gId, GlobalCluster(cfg))
  {
    hide Count, DataTag, LocalTag, GlobalTag, AllTails, AllGlobals, Tail, AllChunks;
    AllGlobalsSound(cfg, cfg.x0);
    var s := AllGlobals(cfg, cfg.x0);
    forall t: nat, e: nat | t < cfg.x0 && e < cfg.g ensures Count(s, GlobalNum(cfg.GlobalId(t, e))) == 1 {
      PackBelow(t, cfg.x0, cfg.g, e);
    }
    if !cfg.tails {
      AllTailsSound(cfg, cfg.l);
      var a := AllTails(cfg, cfg.l);
      forall e: nat, t: nat ensures Count(a + s, LocalOf(e, t)) == Count(a, LocalOf(e, t)) {
        CountConcat(a, s, LocalOf(e, t));
        CountZero(s, LocalOf(e, t));
      }
      forall num: nat ensures Count(a + s, GlobalNum(num)) == Count(s, GlobalNum(num)) {
        CountConcat(a, s, GlobalNum(num));
        CountZero(a, GlobalNum(num));
      }
    } else {
      forall e: nat, t: nat ensures Count(s, LocalOf(e, t)) == 0 {
        CountZero(s, LocalOf(e, t));
      }
    }
  }

  lemma ChunkReady(cfg: Config, c: nat)
    requires OptConfig(cfg) && c < |AllChunks(cfg, cfg.l)|
    ensures ClusterReady(cfg, First(cfg), 0, c, AllChunks(cfg, cfg.l)[c]) && !cfg.Special(c)
  {
    hide AllChunks, DataCluster, DataTag;
    AllChunksSound(cfg, cfg.l);
  }

  lemma OptTotal(cfg: Config, num: nat)
    requires OptConfig(cfg) && num < cfg.DataCount()
    ensures Total(OptView(cfg), DataNum(num)) == 1
  {
    hide Count, Config.DataGroup, Config.Origin, Position, AllChunks, GroupTails, AllTails, AllGlobals, ChunkedPart;
    assert cfg.l * cfg.r > 0 by { MulMono(1, cfg.l, cfg.r); }
    PositionBound(cfg, num);
    AllChunksTotal(cfg, cfg.l, num);
    AllGlobalsSound(cfg, cfg.x0);
    CountZero(AllGlobals(cfg, cfg.x0), DataNum(num));
    if cfg.tails {
      TailClustersTotal(cfg, cfg.l, num);
      TotalConcat(AllChunks(cfg, cfg.l), TailClusters(cfg, cfg.l), DataNum(num));
      TotalPush(AllChunks(cfg, cfg.l) + TailClusters(cfg, cfg.l), GlobalCluster(cfg), DataNum(num));
    } else {
      PartsOfGroup(cfg);
      AllTailsSound(cfg, cfg.l);
      CountZero(AllTails(cfg, cfg.l), DataNum(num));
      CountConcat(AllTails(cfg, cfg.l), AllGlobals(cfg, cfg.x0), DataNum(num));
      TotalPush(AllChunks(cfg, cfg.l), GlobalCluster(cfg), DataNum(num));
    }
  }

  lemma {:induction false} TailClustersTotal(cfg: Config, l: nat, num: nat)
    requires cfg.Valid() && l <= cfg.l
    ensures cfg.l * cfg.r > 0
    ensures Total(TailClusters(cfg, l), DataNum(num))
         == if cfg.DataGroup(num) < l && cfg.Origin(num) < cfg.x0 && Position(cfg, num) >= ChunkedPart(cfg) then 1 else 0
    decreases l
  {
    hide Config.DataGroup, Config.Origin, Position, Count, ChunkedPart, GroupTails;
    assert cfg.l * cfg.r > 0 by { MulMono(1, cfg.l, cfg.r); }
    if l > 0 {
      TailClustersTotal(cfg, l - 1, num);
      GroupTailsCount(cfg, l - 1, cfg.x0, num);
      assert TailClusters(cfg, l)[..l - 1] == TailClusters(cfg, l - 1);
    }
  }

  /** The placement meets the invariant of the first stage. */
  lemma OptViewReady(cfg: Config)
    requires OptConfig(cfg)
    ensures ViewReady(cfg, First(cfg), 0, OptView(cfg))
  {
    hide ClusterReady, Total, AllChunks, GroupTails, AllTails, AllGlobals;
    var v := OptView(cfg);
    var f := |AllChunks(cfg, cfg.l)|;
    forall c: nat | c < |v| ensures ClusterReady(cfg, First(cfg), 0, c, v[c]) {
      if c < f {
        ChunkReady(cfg, c);
      } else if c == cfg.gId {
        GlobalReady(cfg);
      } else {
        TailReady(cfg, c - f);
      }
    }
    forall num: nat | num < cfg.DataCount() ensures Total(v, DataNum(num)) == 1 {
      OptTotal(cfg, num);
    }
  }

  // ----- how the groups' data is spread

  /** Every group of every stripe fills r / (g + 1) clusters. */
  function FirstFill(cfg: Config): Fill { Fill(Chunks(cfg), ChunkedPart(cfg)) }

  /** Clusters of one size that are all in the area, or none of them. */
  lemma {:induction false} SumRun(cfg: Config, a: Area, v: View, w: View, q: Measure, inside: bool, size: nat)
    requires forall c: nat :: c < |w| ==> InArea(cfg, a, |v| + c, w[c]) == inside && |w[c].blocks| == size
    ensures SumOf(cfg, a, v + w, q) == SumOf(cfg, a, v, q) + if inside then |w| * (if q.Clusters? then 1 else size) else 0
    decreases |w|
  {
    hide InArea, SumOf;
    if w == [] {
      assert v + w == v;
    } else {
      var m := |w| - 1;
      SumRun(cfg, a, v, w[..m], q, inside, size);
      assert v + w == v + w[..m] + [w[m]];
      SumPush(cfg, a, v + w[..m], w[m], q);
    }
  }

  lemma ChunkPlace(cfg: Config, i: nat, j: nat, c: nat, at: nat, e: nat, t: nat)
    requires cfg.g > 0 && !cfg.Special(at)
    ensures |ChunkCluster(cfg, i, j, c).blocks| == cfg.g + 1
    ensures InArea(cfg, Cell(e, t), at, ChunkCluster(cfg, i, j, c)) <==> e == i && t == j
  {
    hide FirstOf, Config.Special;
    MulMono(c, c + 1, cfg.g + 1);
    assert (c + 1) * (cfg.g + 1) == c * (cfg.g + 1) + (cfg.g + 1);
  }

  lemma {:induction false} GroupChunksSum(cfg: Config, v: View, i: nat, x: nat, e: nat, t: nat, q: Measure)
    requires cfg.g > 0 && |v| + |GroupChunks(cfg, i, x)| <= cfg.Base()
    ensures SumOf(cfg, Cell(e, t), v + GroupChunks(cfg, i, x), q)
      == SumOf(cfg, Cell(e, t), v, q) + if e == i && t < x then FillOf(FirstFill(cfg), q) else 0
    decreases x
  {
    hide SumOf, InArea, ChunkCluster, Chunks, Config.Base, StripeChunks;
    if x == 0 {
      assert v + [] == v;
    } else {
      var before, w := v + GroupChunks(cfg, i, x - 1), StripeChunks(cfg, i, x - 1, Chunks(cfg));
      GroupChunksSum(cfg, v, i, x - 1, e, t, q);
      assert v + GroupChunks(cfg, i, x) == before + w;
      forall c: nat | c < |w|
        ensures InArea(cfg, Cell(e, t), |before| + c, w[c]) == (e == i && t == x - 1) && |w[c].blocks| == cfg.g + 1
      {
        ChunkPlace(cfg, i, x - 1, c, |before| + c, e, t);
      }
      SumRun(cfg, Cell(e, t), before, w, q, e == i && t == x - 1, cfg.g + 1);
    }
  }

  lemma {:induction false} AllChunksSum(cfg: Config, l: nat, e: nat, t: nat, q: Measure)
    requires cfg.g > 0 && |AllChunks(cfg, l)| <= cfg.Base()
    ensures SumOf(cfg, Cell(e, t), AllChunks(cfg, l), q) == if e < l && t < cfg.x0 then FillOf(FirstFill(cfg), q) else 0
    decreases l
  {
    hide SumOf, Config.Base, FillOf;
    if l == 0 {
      SumNothing(cfg, Cell(e, t), [], q);
    } else {
      AllChunksSum(cfg, l - 1, e, t, q);
      GroupChunksSum(cfg, AllChunks(cfg, l - 1), l - 1, cfg.x0, e, t, q);
    }
  }

  lemma {:induction false} SumSpecial(cfg: Config, a: Area, v: View, w: View, q: Measure)
    requires cfg.Base() <= |v| && |v| + |w| <= cfg.gId + 1
    ensures SumOf(cfg, a, v + w, q) == SumOf(cfg, a, v, q)
    decreases |w|
  {
    hide SumOf, Config.Base;
    if w == [] {
      assert v + w == v;
    } else {
      var m := |w| - 1;
      SumSpecial(cfg, a, v, w[..m], q);
      assert v + w == v + w[..m] + [w[m]];
      SumPush(cfg, a, v + w[..m], w[m], q);
    }
  }

  lemma OptEven(cfg: Config)
    requires OptConfig(cfg)
    ensures Evenly(cfg, cfg.x0, OptView(cfg), FirstFill(cfg))
  {
    hide SumOf, FillOf, AllChunks, TailClusters, AllGlobals, AllTails;
    var v := AllChunks(cfg, cfg.l);
    var w := if cfg.tails then TailClusters(cfg, cfg.l) + [ClusterState(AllGlobals(cfg, cfg.x0), G)]
      else [ClusterState(AllTails(cfg, cfg.l) + AllGlobals(cfg, cfg.x0), L)];
    assert OptView(cfg) == v + w;
    forall e: nat, t: nat, q | e < cfg.l && t < cfg.x0
      ensures SumOf(cfg, Cell(e, t), OptView(cfg), q) == FillOf(FirstFill(cfg), q)
    {
      AllChunksSum(cfg, cfg.l, e, t, q);
      SumSpecial(cfg, Cell(e, t), v, w, q);
    }
  }
}
