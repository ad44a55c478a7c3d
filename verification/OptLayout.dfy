/** The clusters that the OPT placement produces before any merging. */
module OptLayout {
  import opened Arithmetic
  import opened SimBlocks
  import opened StageInvariant
  import opened StageSteps
  import opened Relocation
  import opened StripeInfo

  /** Data block t of group i of stripe j. */
  function DataBlock(cfg: Config, i: nat, j: nat, t: nat): Block {
    Block(D, FirstOf(cfg, i, j) + t, i, j)
  }

  function DataBlocks(cfg: Config, i: nat, j: nat, lo: nat, hi: nat): (s: seq<Block>)
    requires lo <= hi
    ensures |s| == hi - lo && forall t :: 0 <= t < hi - lo ==> s[t] == DataBlock(cfg, i, j, lo + t)
  {
    seq(hi - lo, t requires 0 <= t < hi - lo => DataBlock(cfg, i, j, lo + t))
  }

  /** How many clusters of g + 1 blocks a group fills, and how many of its blocks these take. */
  function Chunks(cfg: Config): nat { cfg.r / (cfg.g + 1) }

  function ChunkedPart(cfg: Config): nat { Chunks(cfg) * (cfg.g + 1) }

  function Tail(cfg: Config): nat { cfg.r % (cfg.g + 1) }

  lemma PartsOfGroup(cfg: Config)
    ensures ChunkedPart(cfg) + Tail(cfg) == cfg.r && Tail(cfg) <= cfg.g
  {
  }

  /** Cluster c of the full clusters of group i of stripe j. */
  function ChunkCluster(cfg: Config, i: nat, j: nat, c: nat): ClusterState {
    MulMono(c, c + 1, cfg.g + 1);
    ClusterState(DataBlocks(cfg, i, j, c * (cfg.g + 1), (c + 1) * (cfg.g + 1)), D)
  }

  /** The first n full clusters of group i of stripe j. */
  function StripeChunks(cfg: Config, i: nat, j: nat, n: nat): (v: View)
    ensures |v| == n && forall c :: 0 <= c < n ==> v[c] == ChunkCluster(cfg, i, j, c)
  {
    seq(n, c requires 0 <= c < n => ChunkCluster(cfg, i, j, c))
  }

  /** The full clusters of group i of the first x stripes. */
  function GroupChunks(cfg: Config, i: nat, x: nat): View {
    if x == 0 then [] else GroupChunks(cfg, i, x - 1) + StripeChunks(cfg, i, x - 1, Chunks(cfg))
  }

  function AllChunks(cfg: Config, l: nat): View {
    if l == 0 then [] else AllChunks(cfg, l - 1) + GroupChunks(cfg, l - 1, cfg.x0)
  }

  /** What is left of group i of stripe j, with its local parity. */
  function TailBlocks(cfg: Config, i: nat, j: nat): seq<Block> {
    PartsOfGroup(cfg);
    DataBlocks(cfg, i, j, ChunkedPart(cfg), cfg.r) + [Block(L, i + j * cfg.l, i, j)]
  }

  /** The tails of group i of the first x stripes. */
  function GroupTails(cfg: Config, i: nat, x: nat): seq<Block> {
    if x == 0 then [] else GroupTails(cfg, i, x - 1) + TailBlocks(cfg, i, x - 1)
  }

  function AllTails(cfg: Config, l: nat): seq<Block> {
    if l == 0 then [] else AllTails(cfg, l - 1) + GroupTails(cfg, l - 1, cfg.x0)
  }

  function AllGlobals(cfg: Config, x: nat): seq<Block> {
    if x == 0 then [] else AllGlobals(cfg, x - 1) + NewGlobals(cfg, x - 1, cfg.g)
  }

  function TailClusters(cfg: Config, l: nat): (v: View)
    ensures |v| == l && forall i :: 0 <= i < l ==> v[i] == ClusterState(GroupTails(cfg, i, cfg.x0), L)
  {
    seq(l, i requires 0 <= i < l => ClusterState(GroupTails(cfg, i, cfg.x0), L))
  }

  /** With tails, one cluster per group for them and one for the global parities; without, the local parities are put
      with the global ones. */
  function OptView(cfg: Config): View {
    if cfg.tails then AllChunks(cfg, cfg.l) + TailClusters(cfg, cfg.l) + [ClusterState(AllGlobals(cfg, cfg.x0), G)]
    else AllChunks(cfg, cfg.l) + [ClusterState(AllTails(cfg, cfg.l) + AllGlobals(cfg, cfg.x0), L)]
  }

  ghost predicate OptConfig(cfg: Config) {
    && cfg.Valid() && cfg.x0 > 0 && (cfg.tails <==> Tail(cfg) > 0)
    && cfg.gId == |AllChunks(cfg, cfg.l)| + if cfg.tails then cfg.l else 0
  }

  // ----- every data block is in one place

  /** Position of a data block in its group. */
  function Position(cfg: Config, num: nat): nat
    requires cfg.l * cfg.r > 0 && cfg.r > 0
  {
    num % (cfg.l * cfg.r) % cfg.r
  }

  predicate IsAt(cfg: Config, num: nat, i: nat, j: nat)
    requires cfg.l * cfg.r > 0 && cfg.r > 0
  {
    cfg.DataGroup(num) == i && cfg.Origin(num) == j
  }

  lemma NumAt(cfg: Config, num: nat, i: nat, j: nat, t: nat)
    requires cfg.Valid() && i < cfg.l && t < cfg.r
    ensures cfg.l * cfg.r > 0
    ensures num == FirstOf(cfg, i, j) + t <==> IsAt(cfg, num, i, j) && Position(cfg, num) == t
  {
    MulMono(1, cfg.l, cfg.r);
    var w := cfg.l * cfg.r;
    if num == FirstOf(cfg, i, j) + t {
      PackBelow(i, cfg.l, cfg.r, t);
      DivModUnique(num, w, j, i * cfg.r + t);
      DivModUnique(i * cfg.r + t, cfg.r, i, t);
    }
    if IsAt(cfg, num, i, j) && Position(cfg, num) == t {
      var m := num % w;
      assert num == j * w + m && m == i * cfg.r + m % cfg.r;
    }
  }

  lemma {:induction false} DataBlocksCount(cfg: Config, i: nat, j: nat, lo: nat, hi: nat, num: nat)
    requires cfg.Valid() && i < cfg.l && lo <= hi <= cfg.r
    ensures cfg.l * cfg.r > 0
    ensures Count(DataBlocks(cfg, i, j, lo, hi), DataNum(num))
         == if IsAt(cfg, num, i, j) && lo <= Position(cfg, num) < hi then 1 else 0
    decreases hi
  {
    hide IsAt, Position, FirstOf;
    assert cfg.l * cfg.r > 0 by { MulMono(1, cfg.l, cfg.r); }
    if lo < hi {
      DataBlocksCount(cfg, i, j, lo, hi - 1, num);
      NumAt(cfg, num, i, j, hi - 1);
      var s := DataBlocks(cfg, i, j, lo, hi - 1);
      assert DataBlocks(cfg, i, j, lo, hi) == s + [DataBlock(cfg, i, j, hi - 1)];
      CountPush(s, DataBlock(cfg, i, j, hi - 1), DataNum(num));
    }
  }

  lemma {:induction false} TotalConcat(a: View, b: View, q: Query)
    ensures Total(a + b, q) == Total(a, q) + Total(b, q)
  {
    hide Count;
    if b == [] {
      assert a + b == a;
    } else {
      assert (a + b)[..|a + b| - 1] == a + b[..|b| - 1];
      TotalConcat(a, b[..|b| - 1], q);
    }
  }

  lemma {:induction false} StripeChunksTotal(cfg: Config, i: nat, j: nat, n: nat, num: nat)
    requires cfg.Valid() && i < cfg.l && n <= Chunks(cfg)
    ensures cfg.l * cfg.r > 0
    ensures Total(StripeChunks(cfg, i, j, n), DataNum(num))
         == if IsAt(cfg, num, i, j) && Position(cfg, num) < n * (cfg.g + 1) then 1 else 0
    decreases n
  {
    hide IsAt, Position, Count, DataBlocks;
    assert cfg.l * cfg.r > 0 by { MulMono(1, cfg.l, cfg.r); }
    var v := StripeChunks(cfg, i, j, n);
    if n > 0 {
      StripeChunksTotal(cfg, i, j, n - 1, num);
      assert v[..n - 1] == StripeChunks(cfg, i, j, n - 1);
      MulMono(n - 1, n, cfg.g + 1);
      MulMono(n, Chunks(cfg), cfg.g + 1);
      PartsOfGroup(cfg);
      DataBlocksCount(cfg, i, j, (n - 1) * (cfg.g + 1), n * (cfg.g + 1), num);
    }
  }

  lemma {:induction false} GroupChunksTotal(cfg: Config, i: nat, x: nat, num: nat)
    requires cfg.Valid() && i < cfg.l
    ensures cfg.l * cfg.r > 0
    ensures Total(GroupChunks(cfg, i, x), DataNum(num))
         == if cfg.DataGroup(num) == i && cfg.Origin(num) < x && Position(cfg, num) < ChunkedPart(cfg) then 1 else 0
    decreases x
  {
    hide Config.DataGroup, Config.Origin, Position, Count, Chunks;
    assert cfg.l * cfg.r > 0 by { MulMono(1, cfg.l, cfg.r); }
    if x > 0 {
      GroupChunksTotal(cfg, i, x - 1, num);
      StripeChunksTotal(cfg, i, x - 1, Chunks(cfg), num);
      TotalConcat(GroupChunks(cfg, i, x - 1), StripeChunks(cfg, i, x - 1, Chunks(cfg)), DataNum(num));
    }
  }

  lemma {:induction false} AllChunksTotal(cfg: Config, l: nat, num: nat)
    requires cfg.Valid() && l <= cfg.l
    ensures cfg.l * cfg.r > 0
    ensures Total(AllChunks(cfg, l), DataNum(num))
         == if cfg.DataGroup(num) < l && cfg.Origin(num) < cfg.x0 && Position(cfg, num) < ChunkedPart(cfg) then 1 else 0
    decreases l
  {
    hide Config.DataGroup, Config.Origin, Position, Count, ChunkedPart;
    assert cfg.l * cfg.r > 0 by { MulMono(1, cfg.l, cfg.r); }
    if l > 0 {
      AllChunksTotal(cfg, l - 1, num);
      GroupChunksTotal(cfg, l - 1, cfg.x0, num);
      TotalConcat(AllChunks(cfg, l - 1), GroupChunks(cfg, l - 1, cfg.x0), DataNum(num));
    }
  }

  lemma {:induction false} GroupTailsCount(cfg: Config, i: nat, x: nat, num: nat)
    requires cfg.Valid() && i < cfg.l
    ensures cfg.l * cfg.r > 0
    ensures Count(GroupTails(cfg, i, x), DataNum(num))
         == if cfg.DataGroup(num) == i && cfg.Origin(num) < x && Position(cfg, num) >= ChunkedPart(cfg) then 1 else 0
    decreases x
  {
    hide Config.DataGroup, Config.Origin, Position, ChunkedPart;
    assert cfg.l * cfg.r > 0 by { MulMono(1, cfg.l, cfg.r); }
    if x > 0 {
      GroupTailsCount(cfg, i, x - 1, num);
      PartsOfGroup(cfg);
      hide Count;
      var s := DataBlocks(cfg, i, x - 1, ChunkedPart(cfg), cfg.r);
      DataBlocksCount(cfg, i, x - 1, ChunkedPart(cfg), cfg.r, num);
      PositionBound(cfg, num);
      CountPush(s, Block(L, i + (x - 1) * cfg.l, i, x - 1), DataNum(num));
      CountConcat(GroupTails(cfg, i, x - 1), TailBlocks(cfg, i, x - 1), DataNum(num));
    }
  }

  lemma PositionBound(cfg: Config, num: nat)
    requires cfg.Valid() && cfg.l * cfg.r > 0
    ensures Position(cfg, num) < cfg.r && cfg.DataGroup(num) < cfg.l
    ensures num < cfg.DataCount() ==> cfg.Origin(num) < cfg.x0
  {
    DivBelow(num % (cfg.l * cfg.r), cfg.r, cfg.l);
    DivBelow(num, cfg.l * cfg.r, cfg.x0);
  }
}
