/** The OPT placement itself: generate the stripes, disperse full clusters, gather the tails and the parities. */
module OptPlacement {
  import opened Arithmetic
  import opened SimBlocks
  import opened StageInvariant
  import opened StageSteps
  import opened Relocation
  import opened SimPlacement
  import opened MergeOne
  import opened StripeInfo
  import opened OptLayout
  import opened OptReady
  import opened MergeFill
  import opened MergeRun

  // ----- the stripes

  /** The data lists of one stripe's groups, cut from one run of numbers. */
  method GenerateData(cfg: Config, j: nat) returns (info: seq<seq<BlockId>>)
    requires cfg.Valid()
    ensures |info| == cfg.l && forall i :: 0 <= i < cfg.l ==> info[i] == DataRun(FirstOf(cfg, i, j), cfg.r)
  {
    hide DataRun;
    info := [[]];
    var groupId, k := 0, cfg.l * cfg.r;
    MulMono(1, cfg.l, cfg.r);
    for i := 0 to k
      invariant |info| == groupId + 1 <= cfg.l && groupId * cfg.r <= i <= (groupId + 1) * cfg.r
      invariant forall e :: 0 <= e < groupId ==> info[e] == DataRun(FirstOf(cfg, e, j), cfg.r)
      invariant info[groupId] == DataRun(FirstOf(cfg, groupId, j), i - groupId * cfg.r)
    {
      if i == cfg.r * (groupId + 1) {
        NextGroup(cfg, groupId, i);
        groupId := groupId + 1;
        info := info + [[]];
        assert DataRun(FirstOf(cfg, groupId, j), 0) == [];
      }
      RunGrows(cfg, groupId, j, i);
      info := info[groupId := info[groupId] + [BlockId(D, i + j * k)]];
    }
    LastGroup(cfg, groupId);
  }

  lemma NextGroup(cfg: Config, groupId: nat, i: nat)
    requires i == cfg.r * (groupId + 1) < cfg.l * cfg.r
    ensures groupId + 1 < cfg.l && (groupId + 1) * cfg.r == i == groupId * cfg.r + cfg.r && (groupId + 2) * cfg.r == i + cfg.r
  {
    if groupId + 1 >= cfg.l {
      MulMono(cfg.l, groupId + 1, cfg.r);
    }
  }

  lemma LastGroup(cfg: Config, groupId: nat)
    requires cfg.Valid() && groupId < cfg.l && cfg.l * cfg.r <= (groupId + 1) * cfg.r
    ensures groupId + 1 == cfg.l && cfg.l * cfg.r - groupId * cfg.r == cfg.r
  {
    if groupId + 1 < cfg.l {
      MulMono(groupId + 2, cfg.l, cfg.r);
    }
  }

  lemma RunGrows(cfg: Config, groupId: nat, j: nat, i: nat)
    requires groupId * cfg.r <= i
    ensures DataRun(FirstOf(cfg, groupId, j), i + 1 - groupId * cfg.r)
         == DataRun(FirstOf(cfg, groupId, j), i - groupId * cfg.r) + [BlockId(D, i + j * (cfg.l * cfg.r))]
  {
  }

  /** generate_stripe_information for stripe j. */
  method GenerateStripe(cfg: Config, j: nat) returns (stripe: Stripe)
    requires cfg.Valid()
    ensures stripe.id == j && stripe.place2cluster == {} && InfoOk(cfg, 1, j, stripe.info)
  {
    hide DataRun, FirstOf, DataIds;
    var info := GenerateData(cfg, j);
    for i := 0 to cfg.l
      invariant |info| == cfg.l
      invariant forall e :: 0 <= e < cfg.l ==>
        info[e] == DataRun(FirstOf(cfg, e, j), cfg.r) + if e < i then [LocalId(cfg, e, j)] else []
    {
      info := info[i := info[i] + [LocalId(cfg, i, j)]];
    }
    forall i: nat | i < cfg.l ensures info[i] == GroupInfo(cfg, 1, j, i) {
      OneStripeData(cfg, i, j);
    }
    stripe := Stripe(j, info + [GlobalInfo(cfg, j)], {});
  }

  lemma OneStripeData(cfg: Config, i: nat, j: nat)
    ensures GroupInfo(cfg, 1, j, i) == DataRun(FirstOf(cfg, i, j), cfg.r) + [LocalId(cfg, i, j)]
  {
    assert DataIds(cfg, i, j, j) == [];
  }

  // ----- adding runs of blocks

  function Tagged(ids: seq<BlockId>, group: nat, stripe: nat): (s: seq<Block>)
    ensures |s| == |ids| && forall t :: 0 <= t < |ids| ==> s[t] == Block(ids[t].kind, ids[t].num, group, stripe)
  {
    seq(|ids|, t requires 0 <= t < |ids| => Block(ids[t].kind, ids[t].num, group, stripe))
  }

  function AddedAll(c: ClusterState, s: seq<Block>): ClusterState {
    if s == [] then c else Added(AddedAll(c, s[..|s| - 1]), s[|s| - 1])
  }

  lemma {:induction false} AddedBlocks(c: ClusterState, s: seq<Block>)
    ensures AddedAll(c, s).blocks == c.blocks + s
  {
    if s != [] {
      AddedBlocks(c, s[..|s| - 1]);
      assert s == s[..|s| - 1] + [s[|s| - 1]];
    }
  }

  /** Adding data leaves the kind alone; a cluster with a local parity stays of kind L; global parities make a D a G. */
  lemma {:induction false} AddedKind(c: ClusterState, s: seq<Block>, k: Kind)
    requires forall b :: b in s ==> b.kind == k
    ensures AddedAll(c, s).kind == if s == [] || k == D then c.kind else if k == L then L else if c.kind == D then G else c.kind
  {
    if s != [] {
      assert s[|s| - 1] in s;
      AddedKind(c, s[..|s| - 1], k);
    }
  }

  lemma {:induction false} AddedConcat(c: ClusterState, a: seq<Block>, b: seq<Block>)
    ensures AddedAll(c, a + b) == AddedAll(AddedAll(c, a), b)
  {
    if b == [] {
      assert a + b == a;
    } else {
      assert (a + b)[..|a + b| - 1] == a + b[..|b| - 1];
      AddedConcat(c, a, b[..|b| - 1]);
    }
  }

  /** Adds the listed blocks, tagged with their group and stripe, to a cluster. */
  method AddRun(p: DataPlacement, c: nat, ids: seq<BlockId>, group: nat, stripe: nat)
    requires p.Valid() && c < |p.clusters|
    modifies p.clusters
    ensures p.Valid() && p.View() == old(p.View())[c := AddedAll(old(p.View())[c], Tagged(ids, group, stripe))]
  {
    hide DataPlacement.View, DataPlacement.Valid, Added;
    for t := 0 to |ids|
      invariant p.Valid()
      invariant p.View() == old(p.View())[c := AddedAll(old(p.View())[c], Tagged(ids[..t], group, stripe))]
    {
      p.AddTo(c, Block(ids[t].kind, ids[t].num, group, stripe));
      assert Tagged(ids[..t + 1], group, stripe)[..t] == Tagged(ids[..t], group, stripe);
    }
    assert ids[..|ids|] == ids;
  }

  // ----- the full clusters of one group of one stripe

  lemma {:induction false} ChunkNumber(cfg: Config, l: nat)
    ensures |AllChunks(cfg, l)| == l * (cfg.x0 * Chunks(cfg))
    decreases l
  {
    hide Chunks;
    if l > 0 {
      ChunkNumber(cfg, l - 1);
      GroupChunkNumber(cfg, l - 1, cfg.x0);
      assert (l - 1) * (cfg.x0 * Chunks(cfg)) + cfg.x0 * Chunks(cfg) == l * (cfg.x0 * Chunks(cfg));
    }
  }

  lemma {:induction false} GroupChunkNumber(cfg: Config, i: nat, x: nat)
    ensures |GroupChunks(cfg, i, x)| == x * Chunks(cfg)
    decreases x
  {
    hide Chunks;
    if x > 0 {
      GroupChunkNumber(cfg, i, x - 1);
      assert (x - 1) * Chunks(cfg) + Chunks(cfg) == x * Chunks(cfg);
    }
  }

  /** The identifiers of a tail. */
  function TailIds(cfg: Config, i: nat, j: nat): seq<BlockId> {
    DataRun(FirstOf(cfg, i, j) + ChunkedPart(cfg), Tail(cfg)) + [LocalId(cfg, i, j)]
  }

  lemma ChunkIds(cfg: Config, i: nat, j: nat, c: nat)
    requires cfg.Valid() && c < Chunks(cfg)
    ensures var ids := GroupInfo(cfg, 1, j, i); var lo := c * (cfg.g + 1);
      && 0 <= lo && lo + cfg.g + 1 <= cfg.r == |ids| - 1
      && AddedAll(EMPTY_CLUSTER, Tagged(ids[lo..lo + cfg.g + 1], i, j)) == ChunkCluster(cfg, i, j, c)
  {
    hide FirstOf, Tagged, ChunkCluster, AddedAll, GroupInfo;
    PartsOfGroup(cfg);
    OneStripeData(cfg, i, j);
    MulMono(c + 1, Chunks(cfg), cfg.g + 1);
    assert (c + 1) * (cfg.g + 1) == c * (cfg.g + 1) + cfg.g + 1;
    var ids, lo := GroupInfo(cfg, 1, j, i), c * (cfg.g + 1);
    TaggedRun(cfg, i, j, lo, lo + cfg.g + 1);
    ChunkIs(cfg, i, j, c, Tagged(ids[lo..lo + cfg.g + 1], i, j));
  }

  lemma TaggedRun(cfg: Config, i: nat, j: nat, lo: nat, hi: nat)
    requires lo <= hi <= cfg.r
    ensures var ids := DataRun(FirstOf(cfg, i, j), cfg.r) + [LocalId(cfg, i, j)];
      Tagged(ids[lo..hi], i, j) == DataBlocks(cfg, i, j, lo, hi)
  {
    hide FirstOf;
  }

  lemma ChunkIs(cfg: Config, i: nat, j: nat, c: nat, s: seq<Block>)
    requires 0 <= c * (cfg.g + 1) && s == DataBlocks(cfg, i, j, c * (cfg.g + 1), c * (cfg.g + 1) + cfg.g + 1)
    ensures AddedAll(EMPTY_CLUSTER, s) == ChunkCluster(cfg, i, j, c)
  {
    assert (c + 1) * (cfg.g + 1) == c * (cfg.g + 1) + cfg.g + 1;
    AddedBlocks(EMPTY_CLUSTER, s);
    AddedKind(EMPTY_CLUSTER, s, D);
  }

  lemma TailOfGroup(cfg: Config, i: nat, j: nat)
    requires cfg.Valid()
    ensures var ids := GroupInfo(cfg, 1, j, i);
      && |ids| == cfg.r + 1 && ChunkedPart(cfg) <= cfg.r < ChunkedPart(cfg) + cfg.g + 1
      && ids[ChunkedPart(cfg)..] == TailIds(cfg, i, j)
  {
    hide FirstOf;
    PartsOfGroup(cfg);
    OneStripeData(cfg, i, j);
  }

  /** A new cluster for the listed blocks. */
  method NewRun(p: DataPlacement, ids: seq<BlockId>, i: nat, j: nat) returns (id: nat)
    requires p.Valid()
    modifies p, p.clusters
    ensures p.Valid() && p.Grown() && id == |old(p.View())|
    ensures p.View() == old(p.View()) + [AddedAll(EMPTY_CLUSTER, Tagged(ids, i, j))]
  {
    hide DataPlacement.View, DataPlacement.Valid, Tagged, AddedAll;
    id := |p.clusters|;
    p.NewCluster();
    AddRun(p, id, ids, i, j);
  }

  lemma NextChunk(cfg: Config, view0: View, i: nat, j: nat, c: nat)
    ensures view0 + StripeChunks(cfg, i, j, c + 1) == view0 + StripeChunks(cfg, i, j, c) + [ChunkCluster(cfg, i, j, c)]
    ensures view0 + StripeChunks(cfg, i, j, 0) == view0
  {
    hide ChunkCluster;
  }

  /** Disperses the full runs of g + 1 blocks of a group over new clusters; what is left over is returned. */
  method DisperseGroup(p: DataPlacement, cfg: Config, group: seq<BlockId>, i: nat, j: nat, places0: set<nat>)
    returns (tail: seq<BlockId>, places: set<nat>)
    requires p.Valid() && cfg.Valid() && group == GroupInfo(cfg, 1, j, i)
    modifies p, p.clusters
    ensures p.Valid() && p.Grown() && tail == TailIds(cfg, i, j)
    ensures p.View() == old(p.View()) + StripeChunks(cfg, i, j, Chunks(cfg))
    ensures forall c: nat :: c in places <==> c in places0 || |old(p.View())| <= c < |p.View()|
  {
    hide AddedAll, ChunkCluster, Chunks, GroupInfo, Cluster.State, StripeChunks, Tagged, TailIds,
      DataPlacement.Valid, Config.Valid, Stage.Valid, Cluster.Valid, DataPlacement.View;
    places, tail := places0, [];
    ghost var view0, n := p.View(), Chunks(cfg);
    ghost var c := 0;
    var blockNum := 0;
    ChunkOrTail(cfg, i, j, 0);
    NextChunk(cfg, view0, i, j, 0);
    while blockNum < |group|
      invariant p.Valid() && p.Grown() && c <= n + 1 && blockNum == c * (cfg.g + 1)
      invariant p.View() == view0 + StripeChunks(cfg, i, j, if c <= n then c else n)
      invariant c == n + 1 ==> tail == TailIds(cfg, i, j)
      invariant c <= n <==> blockNum < |group|
      invariant forall e: nat :: e in places <==> e in places0 || |view0| <= e < |p.View()|
      decreases |group| - blockNum
    {
      ChunkOrTail(cfg, i, j, c);
      if blockNum + cfg.g + 1 > |group| - 1 {
        tail := group[blockNum..];
      } else {
        NextChunk(cfg, view0, i, j, c);
        var id := NewRun(p, group[blockNum..blockNum + cfg.g + 1], i, j);
        places := places + {id};
      }
      c, blockNum := c + 1, blockNum + cfg.g + 1;
      ChunkOrTail(cfg, i, j, c);
    }
  }

  /** Exactly the first Chunks(cfg) runs are full. */
  lemma ChunkOrTail(cfg: Config, i: nat, j: nat, c: nat)
    requires cfg.Valid()
    ensures var ids := GroupInfo(cfg, 1, j, i); var lo := c * (cfg.g + 1);
      && |ids| == cfg.r + 1 && 0 <= lo && (c + 1) * (cfg.g + 1) == lo + cfg.g + 1
      && (c <= Chunks(cfg) <==> lo < |ids|)
      && (c < Chunks(cfg) <==> lo + cfg.g + 1 <= |ids| - 1)
      && (c < Chunks(cfg) ==> AddedAll(EMPTY_CLUSTER, Tagged(ids[lo..lo + cfg.g + 1], i, j)) == ChunkCluster(cfg, i, j, c))
      && (c == Chunks(cfg) ==> lo <= |ids| && ids[lo..] == TailIds(cfg, i, j))
  {
    hide GroupInfo, TailIds, ChunkCluster, AddedAll, Tagged;
    TailOfGroup(cfg, i, j);
    assert (c + 1) * (cfg.g + 1) == c * (cfg.g + 1) + cfg.g + 1;
    if c < Chunks(cfg) {
      ChunkIds(cfg, i, j, c);
    } else {
      MulMono(Chunks(cfg), c, cfg.g + 1);
      if c > Chunks(cfg) {
        MulMono(Chunks(cfg) + 1, c, cfg.g + 1);
        assert (Chunks(cfg) + 1) * (cfg.g + 1) == ChunkedPart(cfg) + cfg.g + 1;
      }
    }
  }

  // ----- all full clusters

  /** P records exactly the clusters whose first block belongs to stripe j. */
  ghost predicate HeadPlaces(view: View, j: nat, places: set<nat>) {
    forall c: nat :: c in places <==> c < |view| && view[c].blocks != [] && view[c].blocks[0].stripe == j
  }

  ghost predicate StripesAt(cfg: Config, view: View, stripes: seq<Stripe>) {
    && |stripes| == cfg.x0
    && forall j :: 0 <= j < cfg.x0 ==>
         stripes[j].id == j && InfoOk(cfg, 1, j, stripes[j].info) && HeadPlaces(view, j, stripes[j].place2cluster)
  }

  lemma HeadsGrow(cfg: Config, view0: View, i: nat, j: nat, stripes: seq<Stripe>, places: set<nat>)
    requires cfg.Valid() && i < cfg.l && j < cfg.x0 && StripesAt(cfg, view0, stripes)
    requires var view := view0 + StripeChunks(cfg, i, j, Chunks(cfg));
      forall c: nat :: c in places <==> c in stripes[j].place2cluster || |view0| <= c < |view|
    ensures StripesAt(cfg, view0 + StripeChunks(cfg, i, j, Chunks(cfg)), stripes[j := stripes[j].(place2cluster := places)])
  {
    hide InfoOk, ChunkCluster, Chunks;
    var v := StripeChunks(cfg, i, j, Chunks(cfg));
    forall c | 0 <= c < |v| ensures v[c].blocks != [] && v[c].blocks[0].stripe == j {
      ChunkSound(cfg, i, j, c);
    }
  }

  function GroupTailIds(cfg: Config, i: nat, x: nat): seq<seq<BlockId>> {
    if x == 0 then [] else GroupTailIds(cfg, i, x - 1) + [TailIds(cfg, i, x - 1)]
  }

  function AllTailIds(cfg: Config, l: nat): seq<seq<BlockId>> {
    if l == 0 then [] else AllTailIds(cfg, l - 1) + GroupTailIds(cfg, l - 1, cfg.x0)
  }

  lemma {:induction false} GroupTailIdsAt(cfg: Config, i: nat, x: nat, j: nat)
    requires j < x
    ensures |GroupTailIds(cfg, i, x)| == x && GroupTailIds(cfg, i, x)[j] == TailIds(cfg, i, j)
    decreases x
  {
    hide TailIds;
    GroupTailIdsLength(cfg, i, x - 1);
    if j < x - 1 {
      GroupTailIdsAt(cfg, i, x - 1, j);
    }
  }

  lemma {:induction false} GroupTailIdsLength(cfg: Config, i: nat, x: nat)
    ensures |GroupTailIds(cfg, i, x)| == x
  {
    hide TailIds;
    if x > 0 {
      GroupTailIdsLength(cfg, i, x - 1);
    }
  }

  /** The tail of group i of stripe j is number i * x0 + j. */
  lemma {:induction false} AllTailIdsAt(cfg: Config, l: nat, i: nat, j: nat)
    requires i < l && j < cfg.x0
    ensures 0 <= i * cfg.x0 && i * cfg.x0 + j < |AllTailIds(cfg, l)| && AllTailIds(cfg, l)[i * cfg.x0 + j] == TailIds(cfg, i, j)
    decreases l
  {
    hide TailIds, GroupTailIds;
    AllTailIdsLength(cfg, l - 1);
    if i < l - 1 {
      AllTailIdsAt(cfg, l - 1, i, j);
    } else {
      GroupTailIdsAt(cfg, i, cfg.x0, j);
    }
  }

  lemma {:induction false} AllTailIdsLength(cfg: Config, l: nat)
    ensures |AllTailIds(cfg, l)| == l * cfg.x0
  {
    hide GroupTailIds;
    if l > 0 {
      AllTailIdsLength(cfg, l - 1);
      GroupTailIdsLength(cfg, l - 1, cfg.x0);
      assert (l - 1) * cfg.x0 + cfg.x0 == l * cfg.x0;
    }
  }

  /** The full clusters of group i of the stripes. */
  method DisperseGroups(p: DataPlacement, cfg: Config, i: nat, stripes0: seq<Stripe>) returns (stripes: seq<Stripe>, tails: seq<seq<BlockId>>)
    requires p.Valid() && cfg.Valid() && i < cfg.l && StripesAt(cfg, p.View(), stripes0)
    modifies p, p.clusters
    ensures p.Valid() && p.Grown() && p.View() == old(p.View()) + GroupChunks(cfg, i, cfg.x0)
    ensures StripesAt(cfg, p.View(), stripes) && tails == GroupTailIds(cfg, i, cfg.x0)
  {
    hide Chunks, GlobalInfo, GroupInfo, InfoOk, Cluster.State, StripeChunks, StripesAt, TailIds, DataPlacement.Valid,
      Config.Valid, Stage.Valid, Cluster.Valid, DataPlacement.View;
    ghost var view0 := p.View();
    stripes, tails := stripes0, [];
    StripesFacts(cfg, view0, stripes);
    for j := 0 to cfg.x0
      invariant p.Valid() && p.Grown() && p.View() == view0 + GroupChunks(cfg, i, j)
      invariant |stripes| == cfg.x0 && StripesAt(cfg, p.View(), stripes) && tails == GroupTailIds(cfg, i, j)
    {
      ghost var view1 := p.View();
      StripesFacts(cfg, view1, stripes);
      GroupFact(cfg, stripes[j].info, j, i);
      var tail, places;
      tail, places := DisperseGroup(p, cfg, stripes[j].info[i], i, j, stripes[j].place2cluster);
      HeadsGrow(cfg, view1, i, j, stripes, places);
      stripes := stripes[j := stripes[j].(place2cluster := places)];
      tails := tails + [tail];
    }
  }

  lemma StripesFacts(cfg: Config, view: View, stripes: seq<Stripe>)
    requires StripesAt(cfg, view, stripes)
    ensures |stripes| == cfg.x0 && forall j :: 0 <= j < cfg.x0 ==> InfoOk(cfg, 1, j, stripes[j].info)
  {
    hide InfoOk, HeadPlaces;
  }

  lemma GroupFact(cfg: Config, info: seq<seq<BlockId>>, j: nat, i: nat)
    requires InfoOk(cfg, 1, j, info) && i < cfg.l
    ensures |info| == cfg.l + 1 && info[i] == GroupInfo(cfg, 1, j, i) && info[cfg.l] == GlobalInfo(cfg, j)
  {
    hide GroupInfo;
  }

  method Disperse(p: DataPlacement, cfg: Config, stripes0: seq<Stripe>) returns (stripes: seq<Stripe>, tails: seq<seq<BlockId>>)
    requires p.Valid() && cfg.Valid() && p.View() == [] && StripesAt(cfg, p.View(), stripes0)
    modifies p, p.clusters
    ensures p.Valid() && p.Grown() && p.View() == AllChunks(cfg, cfg.l)
    ensures StripesAt(cfg, p.View(), stripes) && tails == AllTailIds(cfg, cfg.l)
  {
    hide GroupChunks, GroupTailIds, Cluster.State, StripesAt, DataPlacement.Valid, Config.Valid, Stage.Valid,
      Cluster.Valid, DataPlacement.View;
    stripes, tails := stripes0, [];
    for i := 0 to cfg.l
      invariant p.Valid() && p.Grown() && p.View() == AllChunks(cfg, i)
      invariant StripesAt(cfg, p.View(), stripes) && tails == AllTailIds(cfg, i)
    {
      var more;
      stripes, more := DisperseGroups(p, cfg, i, stripes);
      tails := tails + more;
    }
  }

  // ----- tails and parities

  lemma TailTagged(cfg: Config, i: nat, j: nat)
    ensures Tagged(TailIds(cfg, i, j), i, j) == TailBlocks(cfg, i, j)
  {
    hide FirstOf, ChunkedPart, Tail;
    PartsOfGroup(cfg);
  }

  lemma TailBlocksKind(cfg: Config, i: nat, j: nat, c: ClusterState)
    ensures AddedAll(c, TailBlocks(cfg, i, j)).kind == L
  {
    hide FirstOf, ChunkedPart;
    PartsOfGroup(cfg);
    var s := TailBlocks(cfg, i, j);
    assert s[|s| - 1] == Block(L, i + j * cfg.l, i, j);
  }

  /** Adding one more tail. */
  lemma TailAdded(cfg: Config, c: ClusterState, sofar: seq<Block>, i: nat, j: nat)
    ensures AddedAll(AddedAll(c, sofar), Tagged(TailIds(cfg, i, j), i, j)) == AddedAll(c, sofar + TailBlocks(cfg, i, j))
    ensures AddedAll(c, sofar + TailBlocks(cfg, i, j)) == ClusterState(c.blocks + (sofar + TailBlocks(cfg, i, j)), L)
  {
    hide TailIds, TailBlocks, AddedAll;
    TailTagged(cfg, i, j);
    AddedConcat(c, sofar, TailBlocks(cfg, i, j));
    AddedBlocks(c, sofar + TailBlocks(cfg, i, j));
    TailBlocksKind(cfg, i, j, AddedAll(c, sofar));
  }

  /** The stripes with the clusters lo to hi - 1 recorded, for those before `count`. */
  ghost predicate Recorded(stripes0: seq<Stripe>, stripes: seq<Stripe>, lo: nat, hi: nat, count: nat) {
    && |stripes| == |stripes0|
    && forall j :: 0 <= j < |stripes| ==>
         && stripes[j].id == stripes0[j].id && stripes[j].info == stripes0[j].info
         && forall c: nat :: c in stripes[j].place2cluster <==> c in stripes0[j].place2cluster || (j < count && lo <= c < hi)
  }

  lemma RecordedTrans(a: seq<Stripe>, b: seq<Stripe>, c: seq<Stripe>, lo: nat, mid: nat, hi: nat)
    requires lo <= mid <= hi && Recorded(a, b, lo, mid, |a|) && Recorded(b, c, mid, hi, |b|)
    ensures Recorded(a, c, lo, hi, |a|)
  {
  }

  lemma TailAppended(cfg: Config, sofar: seq<Block>, i: nat, j: nat)
    ensures sofar + GroupTails(cfg, i, 0) == sofar
    ensures sofar + GroupTails(cfg, i, j + 1) == sofar + GroupTails(cfg, i, j) + TailBlocks(cfg, i, j)
  {
    hide TailBlocks;
  }

  /** Adds the tails of group i to cluster c, which already holds `sofar`. */
  method AddTails(p: DataPlacement, cfg: Config, c: nat, i: nat, tails: seq<seq<BlockId>>, stripes0: seq<Stripe>, ghost sofar: seq<Block>)
    returns (stripes: seq<Stripe>)
    requires p.Valid() && c < |p.clusters| && i < cfg.l && tails == AllTailIds(cfg, cfg.l) && |stripes0| == cfg.x0 > 0
    requires p.View()[c] == AddedAll(EMPTY_CLUSTER, sofar)
    modifies p.clusters
    ensures p.Valid() && p.View() == old(p.View())[c := ClusterState(sofar + GroupTails(cfg, i, cfg.x0), L)]
    ensures AddedAll(EMPTY_CLUSTER, sofar + GroupTails(cfg, i, cfg.x0)) == ClusterState(sofar + GroupTails(cfg, i, cfg.x0), L)
    ensures Recorded(stripes0, stripes, c, c + 1, cfg.x0)
  {
    hide DataPlacement.View, DataPlacement.Valid, TailIds, TailBlocks, AddedAll, AllTailIds, Tagged, GroupTails;
    stripes := stripes0;
    TailAppended(cfg, sofar, i, 0);
    for j := 0 to cfg.x0
      invariant p.Valid() && p.View() == old(p.View())[c := AddedAll(EMPTY_CLUSTER, sofar + GroupTails(cfg, i, j))]
      invariant j > 0 ==> AddedAll(EMPTY_CLUSTER, sofar + GroupTails(cfg, i, j)) == ClusterState(sofar + GroupTails(cfg, i, j), L)
      invariant Recorded(stripes0, stripes, c, c + 1, j)
    {
      AllTailIdsAt(cfg, cfg.l, i, j);
      AddRun(p, c, tails[i * cfg.x0 + j], i, j);
      TailAdded(cfg, EMPTY_CLUSTER, sofar + GroupTails(cfg, i, j), i, j);
      TailAppended(cfg, sofar, i, j);
      stripes := stripes[j := stripes[j].(place2cluster := stripes[j].place2cluster + {c})];
    }
  }

  /** One cluster per group for the tails. */
  method PlaceTails(p: DataPlacement, cfg: Config, tails: seq<seq<BlockId>>, stripes0: seq<Stripe>) returns (stripes: seq<Stripe>)
    requires p.Valid() && tails == AllTailIds(cfg, cfg.l) && |stripes0| == cfg.x0 > 0
    modifies p, p.clusters
    ensures p.Valid() && p.Grown() && p.View() == old(p.View()) + TailClusters(cfg, cfg.l)
    ensures Recorded(stripes0, stripes, |old(p.View())|, |p.View()|, cfg.x0)
  {
    hide AddedAll, AllTailIds, GroupTails, Recorded, Cluster.State, TailClusters, DataPlacement.Valid, Config.Valid,
      Stage.Valid, Cluster.Valid, DataPlacement.View;
    stripes := stripes0;
    ghost var view0 := p.View();
    NoTailsYet(cfg, view0, stripes0);
    for i := 0 to cfg.l
      invariant p.Valid() && p.Grown() && p.View() == view0 + TailClusters(cfg, i) && |stripes| == cfg.x0
      invariant Recorded(stripes0, stripes, |view0|, |view0| + i, cfg.x0)
    {
      var c := |p.clusters|;
      p.NewCluster();
      ghost var before := stripes;
      NothingAdded();
      stripes := AddTails(p, cfg, c, i, tails, stripes, []);
      NextTailCluster(cfg, view0, i);
      RecordedTrans(stripes0, before, stripes, |view0|, |view0| + i, |view0| + i + 1);
      RecordedLength(before, stripes, c, c + 1);
    }
  }

  lemma NothingAdded()
    ensures AddedAll(EMPTY_CLUSTER, []) == EMPTY_CLUSTER
  {
  }

  lemma RecordedLength(a: seq<Stripe>, b: seq<Stripe>, lo: nat, hi: nat)
    requires Recorded(a, b, lo, hi, |a|)
    ensures |a| == |b|
  {
  }

  lemma NoTailsYet(cfg: Config, view0: View, stripes: seq<Stripe>)
    ensures view0 + TailClusters(cfg, 0) == view0
    ensures Recorded(stripes, stripes, |view0|, |view0|, |stripes|)
  {
  }

  lemma NextTailCluster(cfg: Config, view0: View, i: nat)
    ensures view0 + TailClusters(cfg, i + 1) == view0 + TailClusters(cfg, i) + [ClusterState([] + GroupTails(cfg, i, cfg.x0), L)]
  {
    hide GroupTails;
    assert [] + GroupTails(cfg, i, cfg.x0) == GroupTails(cfg, i, cfg.x0);
  }

  lemma RecordedAgain(a: seq<Stripe>, b: seq<Stripe>, c: seq<Stripe>, lo: nat, hi: nat, n: nat)
    requires Recorded(a, b, lo, hi, n) && Recorded(b, c, lo, hi, |b|) && (n == 0 || n == |a|)
    ensures Recorded(a, c, lo, hi, |a|)
  {
  }

  /** Adds every group's local parities to cluster c. */
  method AddLocals(p: DataPlacement, cfg: Config, c: nat, tails: seq<seq<BlockId>>, stripes0: seq<Stripe>) returns (stripes: seq<Stripe>)
    requires p.Valid() && cfg.l > 0 && tails == AllTailIds(cfg, cfg.l) && |stripes0| == cfg.x0 > 0
    requires c < |p.clusters| && p.View()[c] == EMPTY_CLUSTER
    modifies p.clusters
    ensures p.Valid() && p.View() == old(p.View())[c := ClusterState(AllTails(cfg, cfg.l), L)]
    ensures Recorded(stripes0, stripes, c, c + 1, cfg.x0)
  {
    hide *;
    stripes := stripes0;
    NothingAdded();
    NothingRecorded(stripes0, c);
    NextLocals(cfg, 0);
    for i := 0 to cfg.l
      invariant p.Valid() && |stripes| == cfg.x0 && c < |p.clusters|
      invariant p.View() == old(p.View())[c := AddedAll(EMPTY_CLUSTER, AllTails(cfg, i))]
      invariant i > 0 ==> AddedAll(EMPTY_CLUSTER, AllTails(cfg, i)) == ClusterState(AllTails(cfg, i), L)
      invariant Recorded(stripes0, stripes, c, c + 1, if i == 0 then 0 else cfg.x0)
    {
      ghost var before := stripes;
      NextLocals(cfg, i);
      stripes := AddTails(p, cfg, c, i, tails, stripes, AllTails(cfg, i));
      RecordedAgain(stripes0, before, stripes, c, c + 1, if i == 0 then 0 else cfg.x0);
      RecordedLength(before, stripes, c, c + 1);
    }
  }

  /** Without tails: one cluster for all local parities. */
  method GatherLocals(p: DataPlacement, cfg: Config, tails: seq<seq<BlockId>>, stripes0: seq<Stripe>) returns (stripes: seq<Stripe>)
    requires p.Valid() && cfg.l > 0 && tails == AllTailIds(cfg, cfg.l) && |stripes0| == cfg.x0 > 0
    modifies p, p.clusters
    ensures p.Valid() && p.Grown() && p.View() == old(p.View()) + [ClusterState(AllTails(cfg, cfg.l), L)]
    ensures Recorded(stripes0, stripes, |old(p.View())|, |p.View()|, cfg.x0)
  {
    hide AllTailIds, AllTails, Recorded, Cluster.State, DataPlacement.Valid, Config.Valid, Stage.Valid,
      Cluster.Valid, DataPlacement.View;
    ghost var view0 := p.View();
    var c := |p.clusters|;
    p.NewCluster();
    LastReplaced(view0, EMPTY_CLUSTER, ClusterState(AllTails(cfg, cfg.l), L));
    stripes := AddLocals(p, cfg, c, tails, stripes0);
  }

  lemma NextLocals(cfg: Config, i: nat)
    ensures AllTails(cfg, 0) == [] && AllTails(cfg, i) + GroupTails(cfg, i, cfg.x0) == AllTails(cfg, i + 1)
  {
    hide GroupTails;
  }

  lemma LastReplaced(view: View, a: ClusterState, b: ClusterState)
    ensures (view + [a])[|view|] == a && (view + [a])[|view| := b] == view + [b]
  {
  }

  lemma NothingRecorded(stripes: seq<Stripe>, c: nat)
    ensures Recorded(stripes, stripes, c, c + 1, 0)
  {
  }

  function GlobalKind(k: Kind): Kind { if k == D then G else k }

  lemma GlobalsAdded(cfg: Config, c: ClusterState, j: nat)
    requires cfg.g > 0
    ensures AddedAll(c, Tagged(GlobalInfo(cfg, j), cfg.l, j)) == ClusterState(c.blocks + NewGlobals(cfg, j, cfg.g), GlobalKind(c.kind))
  {
    hide Config.GlobalId;
    var s := Tagged(GlobalInfo(cfg, j), cfg.l, j);
    assert s == NewGlobals(cfg, j, cfg.g);
    AddedBlocks(c, s);
    AddedKind(c, s, G);
  }

  lemma NextGlobals(cfg: Config, s: seq<Block>, j: nat)
    ensures s + AllGlobals(cfg, 0) == s
    ensures s + AllGlobals(cfg, j) + NewGlobals(cfg, j, cfg.g) == s + AllGlobals(cfg, j + 1)
  {
    hide NewGlobals;
  }

  /** All global parities go to one cluster. */
  method AddGlobals(p: DataPlacement, cfg: Config, c: nat, stripes0: seq<Stripe>, ghost base: ClusterState) returns (stripes: seq<Stripe>)
    requires p.Valid() && cfg.g > 0 && c < |p.clusters| && |stripes0| == cfg.x0 > 0 && p.View()[c] == base
    requires forall j :: 0 <= j < cfg.x0 ==> InfoOk(cfg, 1, j, stripes0[j].info)
    modifies p.clusters
    ensures p.Valid() && p.View() == old(p.View())[c := ClusterState(base.blocks + AllGlobals(cfg, cfg.x0), GlobalKind(base.kind))]
    ensures Recorded(stripes0, stripes, c, c + 1, cfg.x0)
  {
    hide DataPlacement.View, DataPlacement.Valid, AddedAll, Tagged, GlobalInfo, NewGlobals, GroupInfo, AllGlobals;
    stripes := stripes0;
    NextGlobals(cfg, base.blocks, 0);
    for j := 0 to cfg.x0
      invariant p.Valid() && c < |p.clusters|
      invariant p.View() == old(p.View())[c :=
        ClusterState(base.blocks + AllGlobals(cfg, j), if j == 0 then base.kind else GlobalKind(base.kind))]
      invariant Recorded(stripes0, stripes, c, c + 1, j)
    {
      assert stripes[j].info == stripes0[j].info && InfoOk(cfg, 1, j, stripes0[j].info);
      GlobalsAdded(cfg, p.View()[c], j);
      AddRun(p, c, stripes[j].info[cfg.l], cfg.l, j);
      NextGlobals(cfg, base.blocks, j);
      stripes := stripes[j := stripes[j].(place2cluster := stripes[j].place2cluster + {c})];
    }
  }

  // ----- the placement

  method GenerateStripes(cfg: Config) returns (stripes: seq<Stripe>)
    requires cfg.Valid()
    ensures StripesAt(cfg, [], stripes)
  {
    hide InfoOk;
    stripes := [];
    for j := 0 to cfg.x0
      invariant |stripes| == j
      invariant forall t :: 0 <= t < j ==>
        stripes[t].id == t && InfoOk(cfg, 1, t, stripes[t].info) && stripes[t].place2cluster == {}
    {
      var stripe := GenerateStripe(cfg, j);
      stripes := stripes + [stripe];
    }
  }

  lemma ChunkNotEmpty(cfg: Config, s: ClusterState)
    requires cfg.Valid() && SoundChunk(cfg, s)
    ensures s.blocks != []
  {
  }

  /** At the end, the special clusters are recorded for every stripe. */
  lemma PlacedOk(cfg: Config, view0: View, view: View, stripes0: seq<Stripe>, stripes: seq<Stripe>, j: nat)
    requires OptConfig(cfg) && view0 == AllChunks(cfg, cfg.l) && StripesAt(cfg, view0, stripes0) && j < cfg.x0
    requires view == OptView(cfg) && Recorded(stripes0, stripes, |view0|, |view|, |stripes0|)
    ensures |stripes| == cfg.x0 && StripeOk(cfg, 1, view, stripes, j)
  {
    hide InfoOk, SoundChunk, AllChunks, AllGlobals, AllTails, GroupTails;
    AllChunksSound(cfg, cfg.l);
    forall c: nat | c < |view0| ensures view0[c].blocks != [] && view[c] == view0[c] {
      ChunkNotEmpty(cfg, view0[c]);
    }
  }

  /** The parameters of the placement; the clusters' numbers follow from them. */
  function OptConfigFor(l: nat, g: nat, r: nat, x: nat): Config {
    var hasTails := r % (g + 1) > 0;
    Config(l, g, r, x, hasTails, l * (x * (r / (g + 1))) + if hasTails then l else 0)
  }

  lemma ConfigOk(l: nat, g: nat, r: nat, x: nat)
    requires l > 0 && g > 0 && r > 0 && x > 0
    ensures var cfg := OptConfigFor(l, g, r, x);
      && OptConfig(cfg) && cfg.Valid() && cfg.l == l && cfg.g == g && cfg.r == r && cfg.x0 == x
      && (cfg.tails <==> r % (g + 1) > 0) && Tail(cfg) == r % (g + 1)
  {
    ChunkNumber(OptConfigFor(l, g, r, x), l);
  }

  /** The clusters for tails and parities. */
  method PlaceParities(p: DataPlacement, cfg: Config, remaining: seq<seq<BlockId>>, stripes0: seq<Stripe>) returns (stripes: seq<Stripe>)
    requires p.Valid() && OptConfig(cfg) && cfg.Valid() && p.View() == AllChunks(cfg, cfg.l) && StripesAt(cfg, p.View(), stripes0)
    requires remaining == AllTailIds(cfg, cfg.l)
    modifies p, p.clusters
    ensures p.Valid() && p.Grown() && p.View() == OptView(cfg)
    ensures Recorded(stripes0, stripes, |old(p.View())|, |p.View()|, |stripes0|)
  {
    hide AllChunks, AllGlobals, AllTailIds, AllTails, GlobalKind, InfoOk, OptConfig, OptView, Recorded,
      Cluster.State, StripesAt, TailClusters, DataPlacement.Valid, Config.Valid, Stage.Valid, Cluster.Valid,
      DataPlacement.View;
    ghost var view0 := p.View();
    StripesFacts(cfg, view0, stripes0);
    FirstTail(cfg);
    if |remaining[0]| != 1 {
      stripes := PlaceTails(p, cfg, remaining, stripes0);
      p.NewCluster();
    } else {
      stripes := GatherLocals(p, cfg, remaining, stripes0);
    }
    ghost var view1, stripes1 := p.View(), stripes;
    var gClusterId := |p.clusters| - 1;
    RecordedInfo(cfg, stripes0, stripes1, |view0|, gClusterId, |view1|);
    stripes := AddGlobals(p, cfg, gClusterId, stripes, view1[gClusterId]);
    ParitiesPlaced(cfg, view0, view1, p.View());
    if cfg.tails {
      RecordedTrans(stripes0, stripes1, stripes, |view0|, gClusterId, |view1|);
    } else {
      RecordedAgain(stripes0, stripes1, stripes, |view0|, |view1|, |stripes0|);
    }
  }

  lemma FirstTail(cfg: Config)
    requires OptConfig(cfg)
    ensures |AllTailIds(cfg, cfg.l)| > 0 && (|AllTailIds(cfg, cfg.l)[0]| != 1 <==> cfg.tails) && cfg.l > 0 && cfg.x0 > 0 && cfg.g > 0
  {
    AllTailIdsAt(cfg, cfg.l, 0, 0);
  }

  lemma RecordedInfo(cfg: Config, a: seq<Stripe>, b: seq<Stripe>, lo: nat, hi: nat, top: nat)
    requires |a| == cfg.x0 && (Recorded(a, b, lo, hi, |a|) || Recorded(a, b, lo, top, |a|))
    requires forall j :: 0 <= j < cfg.x0 ==> InfoOk(cfg, 1, j, a[j].info)
    ensures |b| == cfg.x0 && forall j :: 0 <= j < cfg.x0 ==> InfoOk(cfg, 1, j, b[j].info)
  {
    hide InfoOk;
  }

  lemma ParitiesPlaced(cfg: Config, view0: View, view1: View, view: View)
    requires OptConfig(cfg) && view0 == AllChunks(cfg, cfg.l) && |view1| > 0
    requires view1 == if cfg.tails then view0 + TailClusters(cfg, cfg.l) + [EMPTY_CLUSTER]
      else view0 + [ClusterState(AllTails(cfg, cfg.l), L)]
    requires var c := |view1| - 1;
      view == view1[c := ClusterState(view1[c].blocks + AllGlobals(cfg, cfg.x0), GlobalKind(view1[c].kind))]
    ensures view == OptView(cfg)
  {
    hide AllGlobals, AllTails, AllChunks, GroupTails;
    assert [] + AllGlobals(cfg, cfg.x0) == AllGlobals(cfg, cfg.x0);
  }

  lemma PlacementOk(cfg: Config, view0: View, view: View, stripes0: seq<Stripe>, stripes: seq<Stripe>)
    requires OptConfig(cfg) && cfg.Valid() && view0 == AllChunks(cfg, cfg.l) && StripesAt(cfg, view0, stripes0)
    requires view == OptView(cfg) && Recorded(stripes0, stripes, |view0|, |view|, |stripes0|)
    requires ViewReady(cfg, First(cfg), 0, view)
    ensures SimOk(cfg, 1, cfg.x0, Tail(cfg), view, stripes)
  {
    hide ViewReady, StripeOk, AllChunks, OptView, StripesAt;
    PlacedOk(cfg, view0, view, stripes0, stripes, 0);
    forall j | 0 <= j < cfg.x0 ensures StripeOk(cfg, 1, view, stripes, j) {
      PlacedOk(cfg, view0, view, stripes0, stripes, j);
    }
  }

  /** OptimalPlacement.placement: the resulting clusters and stripes are a sound start for merging. */
  method Placement(l: nat, g: nat, r: nat, x: nat) returns (p: DataPlacement, cfg: Config, stripes: seq<Stripe>)
    requires l > 0 && g > 0 && r > 0 && x > 0
    ensures fresh(p) && p.Valid() && (forall c :: c in p.clusters ==> fresh(c))
    ensures cfg.l == l && cfg.g == g && cfg.r == r && cfg.x0 == x && (cfg.tails <==> r % (g + 1) > 0)
    ensures SimOk(cfg, 1, x, r % (g + 1), p.View(), stripes)
    ensures Evenly(cfg, x, p.View(), Fill(r / (g + 1), r - r % (g + 1)))
  {
    hide Evenly, AllChunks, AllTailIds, First, OptConfig, OptConfigFor, OptView, Recorded, SimOk, Cluster.State, StripesAt,
      Tail, DataPlacement.Valid, Config.Valid, Stage.Valid, Cluster.Valid, DataPlacement.View, ViewReady;
    cfg := OptConfigFor(l, g, r, x);
    ConfigOk(l, g, r, x);
    var stripes0 := GenerateStripes(cfg);
    p := new DataPlacement();
    var remaining;
    stripes0, remaining := Disperse(p, cfg, stripes0);
    ghost var view0 := p.View();
    stripes := PlaceParities(p, cfg, remaining, stripes0);
    OptViewReady(cfg);
    PlacementOk(cfg, view0, p.View(), stripes0, stripes);
    OptEven(cfg);
  }
}
