/** One merge: xi stripes become the larger stripe n. */
module MergeStep {
  import opened Arithmetic
  import opened Placement
  import opened SimBlocks
  import opened StageInvariant
  import opened StageSteps
  import opened Relocation
  import opened ClusterSums
  import opened ClusterPacking
  import opened SimPlacement

  ghost predicate NoDataKind(cfg: Config, view: View) {
    forall c: nat :: c < |view| && cfg.Special(c) ==> view[c].kind != D
  }

  /** What the relocation loop can rely on at each turn. */
  lemma AtTurn(cfg: Config, st: Stage, n: nat, view0: View, view: View, cid: nat, moved: nat, index: nat, touched: set<nat>)
    requires cfg.Valid() && st.Valid() && Relocating(cfg, st, n, view0, view, cid, moved, index, touched)
    requires NoDataKind(cfg, view0) && DataTags(cfg, st, n + 1, view0[cid].blocks)
    ensures cid < |view| && index <= |view[cid].blocks| && (forall c :: c in touched ==> c < |view|)
    ensures forall c :: c in touched && view[c].kind == D ==> !cfg.Special(c) && view[c].blocks != []
    ensures index < |view[cid].blocks| && view[cid].blocks[index].kind == D ==> DataTag(cfg, st, n + 1, view[cid].blocks[index])
  {
    hide Total, DataTag, Count;
    forall c | c in touched && cfg.Special(c) ensures view[c].kind != D {
      assert c == cid || view[c] == view0[c];
    }
    if index < |view[cid].blocks| {
      assert view[cid].blocks[index] in view0[cid].blocks;
    }
  }

  lemma InLoop(cfg: Config, st: Stage, n: nat, view0: View, view: View, cid: nat, moved: nat, index: nat, touched: set<nat>)
    requires cfg.Valid() && st.Valid() && Relocating(cfg, st, n, view0, view, cid, moved, index, touched)
    ensures cid < |view| && index <= |view[cid].blocks|
  {
  }

  lemma SkipKeeps(cfg: Config, st: Stage, n: nat, view0: View, view: View, cid: nat, moved: nat, index: nat, touched: set<nat>)
    requires cfg.Valid() && st.Valid() && Relocating(cfg, st, n, view0, view, cid, moved, index, touched)
    requires cid < |view| && index < |view[cid].blocks| && !Matches(DataOf(n), view[cid].blocks[index])
    ensures Relocating(cfg, st, n, view0, view, cid, moved, index + 1, touched)
  {
    hide Spread, Frame, MovedOut, Matches;
  }

  /** If no touched cluster can take a block of group i, all of that group are full. */
  lemma NoRoomLeft(cfg: Config, st: Stage, n: nat, view0: View, view: View, cid: nat, moved: nat, index: nat,
      touched: set<nat>, b: Block)
    requires cfg.Valid() && st.Valid() && Relocating(cfg, st, n, view0, view, cid, moved, index, touched)
    requires forall c :: c in touched ==> !CanTake(view, cfg.g, cid, b, c)
    ensures AllFull(cfg, n, b.group, view, |view|)
  {
    hide Total, DataTags, Count, Frame, Surplus;
  }

  /** A touched cluster that can take it has blocks of its group and of the larger stripe. */
  lemma RoomThere(cfg: Config, st: Stage, n: nat, view0: View, view: View, cid: nat, moved: nat, index: nat,
      touched: set<nat>, b: Block, t: nat)
    requires cfg.Valid() && st.Valid() && Relocating(cfg, st, n, view0, view, cid, moved, index, touched)
    requires t in touched && CanTake(view, cfg.g, cid, b, t) && !cfg.Special(t)
    ensures InArea(cfg, Cell(b.group, n), t, view[t]) && |view[t].blocks| <= cfg.g
  {
    hide Total, DataTags, Count, Frame, Surplus, DataCluster;
  }

  lemma AtNewCluster(cfg: Config, st: Stage, n: nat, view0: View, view: View, cid: nat, moved: nat, index: nat,
      touched: set<nat>)
    requires cfg.Valid() && st.Valid() && Relocating(cfg, st, n, view0, view, cid, moved, index, touched)
    ensures cid < |view| && cfg.Special(cid) && cfg.gId < |view| && !cfg.Special(|view|)
    ensures forall c: nat :: c < |view| && !cfg.Special(c) ==> 0 < |view[c].blocks| <= cfg.g + 1
  {
    hide Total, DataTags, Count;
  }

  /** One turn of the relocation loop on a block that is to go. A new cluster is opened only if no other one of the merged
      stripes' clusters and of those opened before has room for it. */
  method MoveSurplus(p: DataPlacement, cfg: Config, ghost st: Stage, n: nat, cid: nat, index: nat, clusterSet: set<nat>,
      newSet0: set<nat>, ghost view0: View, ghost moved: nat, ghost i: nat)
    returns (newSet: set<nat>)
    requires p.Valid() && cfg.Valid() && st.Valid()
    requires Relocating(cfg, st, n, view0, p.View(), cid, moved, index, clusterSet + newSet0)
    requires NoDataKind(cfg, view0) && DataTags(cfg, st, n + 1, view0[cid].blocks)
    requires cid < |p.clusters| && index < |p.clusters[cid].blocks| && Matches(DataOf(n), p.clusters[cid].blocks[index])
    requires p.clusters[cid].blocks[index].group == i && Packed(cfg, n, i, view0, p.View(), moved)
    modifies p, p.clusters
    ensures p.Valid() && p.Grown() && newSet0 <= newSet
    ensures Relocating(cfg, st, n, view0, p.View(), cid, moved + 1, index, clusterSet + newSet)
    ensures |p.clusters| > old(|p.clusters|) ==>
      forall c :: c in clusterSet + newSet0 ==> !CanTake(old(p.View()), cfg.g, cid, old(p.clusters[cid].blocks[index]), c)
    ensures Packed(cfg, n, i, view0, p.View(), moved + 1)
  {
    hide Relocating, AfterMove, DataTags, Config.Special, DataTag, NoDataKind, CanTake, DataPlacement.View,
      DataPlacement.Valid, Cluster.Valid, Packed, AllFull, InArea;
    ghost var view, touched := p.View(), clusterSet + newSet0;
    AtTurn(cfg, st, n, view0, view, cid, moved, index, touched);
    assert p.clusters[cid].State() == view[cid];
    assert p.Candidates(touched) by {
      assert forall c :: c in touched ==> c < |view| && p.clusters[c].State() == view[c];
    }
    var block := p.clusters[cid].blocks[index];
    var found := p.ChooseTarget(cfg.g, cid, block, clusterSet, newSet0);
    MoveKeeps(cfg, st, n, view0, view, cid, moved, index, if found.None? then |view| else found.value, touched);
    AtNewCluster(cfg, st, n, view0, view, cid, moved, index, touched);
    if found.None? {
      NoRoomLeft(cfg, st, n, view0, view, cid, moved, index, touched, block);
    } else {
      RoomThere(cfg, st, n, view0, view, cid, moved, index, touched, block, found.value);
    }
    MovePacked(cfg, n, i, view0, view, cid, index, if found.None? then |view| else found.value, moved);
    var t := p.MoveTo(cid, index, found);
    newSet := if found.None? then newSet0 + {t} else newSet0;
    assert touched + {t} == clusterSet + newSet;
  }

  lemma AllMoved(cfg: Config, st: Stage, n: nat, view0: View, view: View, cid: nat, moved: nat, index: nat,
      touched: set<nat>, dataToMove: nat)
    requires cfg.Valid() && st.Valid() && Relocating(cfg, st, n, view0, view, cid, moved, index, touched)
    requires cid < |view0| && cid < |view| && moved <= dataToMove <= Count(view0[cid].blocks, DataOf(n))
    requires index == |view[cid].blocks| || moved == dataToMove
    ensures moved == dataToMove
  {
    hide Count;
    EnoughMoved(view0, view, cid, n, moved, index, dataToMove);
  }

  /** The data is of one group. */
  ghost predicate OneGroup(blocks: seq<Block>, group: nat) {
    forall b :: b in blocks && b.kind == D ==> b.group == group
  }

  /** The block at hand has the group of the tail cluster's data. */
  lemma GroupAtTurn(cfg: Config, st: Stage, n: nat, view0: View, view: View, cid: nat, moved: nat, index: nat,
      touched: set<nat>, group: nat, at: nat)
    requires cfg.Valid() && st.Valid() && Relocating(cfg, st, n, view0, view, cid, moved, index, touched)
    requires OneGroup(view0[cid].blocks, group)
    requires cid < |view| && at < |view[cid].blocks| && view[cid].blocks[at].kind == D
    ensures view[cid].blocks[at].group == group
  {
    hide Count, Spread, Frame;
    assert view[cid].blocks[at] in view[cid].blocks;
  }

  /** The number of clusters that the tail cluster's turn has opened. */
  lemma OpenedInTurn(cfg: Config, st: Stage, n: nat, view0: View, view: View, cid: nat, moved: nat, index: nat,
      touched: set<nat>, group: nat)
    requires cfg.Valid() && st.Valid() && Relocating(cfg, st, n, view0, view, cid, moved, index, touched)
    requires Packed(cfg, n, group, view0, view, moved)
    ensures var a := Cell(group, n);
      |view| - |view0| == Opened(cfg.g, SumOf(cfg, a, view0, Clusters), SumOf(cfg, a, view0, Blocks), moved)
  {
    hide Packed, Relocating, SumOf, Opened, InArea;
    AtNewCluster(cfg, st, n, view0, view, cid, moved, index, touched);
    forall c: nat | c < |view| && InArea(cfg, Cell(group, n), c, view[c]) ensures 0 < |view[c].blocks| <= cfg.g + 1 {
      NotSpecial(cfg, Cell(group, n), c, view[c]);
    }
    OpenedCount(cfg, n, group, view0, view, moved);
  }

  lemma NotSpecial(cfg: Config, a: Area, c: nat, s: ClusterState)
    requires InArea(cfg, a, c, s)
    ensures !cfg.Special(c)
  {
  }

  /** One pass of the relocation loop: a data block of the larger stripe goes elsewhere, others are passed over. */
  method RelocateOne(p: DataPlacement, cfg: Config, ghost st: Stage, n: nat, cid: nat, index: nat, moved: nat,
      clusterSet: set<nat>, newSet0: set<nat>, ghost view0: View, ghost group: nat)
    returns (newSet: set<nat>, taken: bool)
    requires p.Valid() && cfg.Valid() && st.Valid()
    requires Relocating(cfg, st, n, view0, p.View(), cid, moved, index, clusterSet + newSet0)
    requires cid < |view0| && NoDataKind(cfg, view0) && DataTags(cfg, st, n + 1, view0[cid].blocks)
    requires OneGroup(view0[cid].blocks, group) && Packed(cfg, n, group, view0, p.View(), moved)
    requires cid < |p.clusters| && index < |p.clusters[cid].blocks|
    modifies p, p.clusters
    ensures p.Valid() && p.Grown() && newSet0 <= newSet
    ensures var m: nat := if taken then moved + 1 else moved;
      && Relocating(cfg, st, n, view0, p.View(), cid, m, if taken then index else index + 1, clusterSet + newSet)
      && Packed(cfg, n, group, view0, p.View(), m)
    ensures cid < |p.clusters| && p.clusters[cid].numOfBlocks == |p.clusters[cid].blocks|
    ensures if taken then index <= |p.clusters[cid].blocks| else p.clusters[cid].blocks == old(p.clusters[cid].blocks)
  {
    hide OneGroup, Packed, Relocating, DataTags, Config.Special, Config.Valid, NoDataKind, DataPlacement.View,
      DataPlacement.Valid, Cluster.Valid;
    newSet := newSet0;
    AtTurn(cfg, st, n, view0, p.View(), cid, moved, index, clusterSet + newSet);
    assert p.clusters[cid].State() == p.View()[cid];
    var block := p.clusters[cid].blocks[index];
    taken := block.kind == D && block.stripe == n;
    if taken {
      GroupAtTurn(cfg, st, n, view0, p.View(), cid, moved, index, clusterSet + newSet, group, index);
      newSet := MoveSurplus(p, cfg, st, n, cid, index, clusterSet, newSet, view0, moved, group);
    } else {
      SkipKeeps(cfg, st, n, view0, p.View(), cid, moved, index, clusterSet + newSet);
    }
    ghost var m, x := if taken then moved + 1 else moved, if taken then index else index + 1;
    InLoop(cfg, st, n, view0, p.View(), cid, m, x, clusterSet + newSet);
    p.Counted(cid);
  }

  /** The relocation loop: it ends when enough is moved, or at the end of the cluster. */
  method RelocateLoop(p: DataPlacement, cfg: Config, ghost st: Stage, n: nat, cid: nat, dataToMove: nat, clusterSet: set<nat>,
      newSet0: set<nat>, ghost group: nat)
    returns (newSet: set<nat>, ghost moved: nat, ghost index: nat)
    requires p.Valid() && cfg.Valid() && st.Valid()
    requires Relocating(cfg, st, n, p.View(), p.View(), cid, 0, 0, clusterSet + newSet0) && cid < |p.View()|
    requires NoDataKind(cfg, p.View()) && DataTags(cfg, st, n + 1, p.View()[cid].blocks)
    requires OneGroup(p.View()[cid].blocks, group)
    modifies p, p.clusters
    ensures p.Valid() && p.Grown() && newSet0 <= newSet
    ensures Relocating(cfg, st, n, old(p.View()), p.View(), cid, moved, index, clusterSet + newSet)
    ensures Packed(cfg, n, group, old(p.View()), p.View(), moved)
    ensures moved <= dataToMove && cid < |p.View()| && (moved == dataToMove || index == |p.View()[cid].blocks|)
  {
    hide OneGroup, Packed, Relocating, DataTags, NoDataKind, Stage.Valid, Config.Valid, DataPlacement.View, DataPlacement.Valid,
      Cluster.Valid, Cluster.State;
    ghost var view0 := p.View();
    newSet := newSet0;
    var done, i := 0, 0;
    p.Counted(cid);
    NothingPacked(cfg, n, group, view0);
    while i < p.clusters[cid].numOfBlocks && done != dataToMove
      invariant p.Valid() && newSet0 <= newSet && done <= dataToMove
      invariant forall c :: 0 <= c < |p.clusters| ==> p.clusters[c] in old(p.clusters) || fresh(p.clusters[c])
      invariant cid < |p.clusters| && i <= |p.clusters[cid].blocks| == p.clusters[cid].numOfBlocks
      invariant Relocating(cfg, st, n, view0, p.View(), cid, done, i, clusterSet + newSet)
      invariant Packed(cfg, n, group, view0, p.View(), done)
      decreases dataToMove - done, |p.clusters[cid].blocks| - i
    {
      var taken;
      newSet, taken := RelocateOne(p, cfg, st, n, cid, i, done, clusterSet, newSet, view0, group);
      if taken {
        done := done + 1;
      } else {
        i := i + 1;
      }
    }
    p.Counted(cid);
    moved, index := done, i;
  }

  /** The relocation of a tail cluster's surplus, all of one group. Room in the clusters that the merged stripes have already
      is used up before a new cluster is opened, each new one is filled before the next, and so no more are opened than the
      blocks need that found no room. */
  method Relocate(p: DataPlacement, cfg: Config, ghost st: Stage, n: nat, cid: nat, dataToMove: nat, clusterSet: set<nat>,
      newSet0: set<nat>, ghost group: nat)
    returns (newSet: set<nat>, ghost index: nat)
    requires p.Valid() && cfg.Valid() && st.Valid()
    requires Relocating(cfg, st, n, p.View(), p.View(), cid, 0, 0, clusterSet + newSet0) && cid < |p.View()|
    requires NoDataKind(cfg, p.View()) && DataTags(cfg, st, n + 1, p.View()[cid].blocks)
    requires dataToMove <= Count(p.View()[cid].blocks, DataOf(n))
    requires OneGroup(p.View()[cid].blocks, group)
    modifies p, p.clusters
    ensures p.Valid() && p.Grown() && newSet0 <= newSet
    ensures Relocating(cfg, st, n, old(p.View()), p.View(), cid, dataToMove, index, clusterSet + newSet)
    ensures Packed(cfg, n, group, old(p.View()), p.View(), dataToMove)
    ensures var a, before := Cell(group, n), old(p.View());
      |p.View()| - |before| == Opened(cfg.g, SumOf(cfg, a, before, Clusters), SumOf(cfg, a, before, Blocks), dataToMove)
  {
    hide OneGroup, Packed, SumOf, Opened, Relocating, Count, DataTags, Config.Valid, Stage.Valid, NoDataKind,
      DataPlacement.View, DataPlacement.Valid, Cluster.Valid, Cluster.State;
    ghost var view0, moved := p.View(), 0;
    newSet, moved, index := RelocateLoop(p, cfg, st, n, cid, dataToMove, clusterSet, newSet0, group);
    AllMoved(cfg, st, n, view0, p.View(), cid, moved, index, clusterSet + newSet, dataToMove);
    OpenedInTurn(cfg, st, n, view0, p.View(), cid, moved, index, clusterSet + newSet, group);
  }

  // ----- one cluster of the larger stripe

  /** Data is either left in the tail clusters, because what comes together is at most g blocks, or moved out until g
      blocks are left again. */
  ghost predicate StageOk(cfg: Config, st: Stage) {
    && st.Valid() && st.x % st.xi == 0
    && ((st.xi * st.d <= cfg.g && st.d2 == st.xi * st.d) || (st.d == cfg.g == st.d2))
  }

  function DataToMove(cfg: Config, st: Stage): nat
    requires st.xi > 0
  {
    if st.xi * st.d > cfg.g then (st.xi - 1) * cfg.g else 0
  }

  /** n clusters' worth of d2 and y - n of e exceed g * y exactly if e exceeds g. */
  lemma SurplusArithmetic(y: nat, n: nat, e: nat, d2: nat, g: nat)
    requires n < y && g > 0 && ((e <= g && d2 == e) || (d2 == g && e >= 2 * g))
    ensures n * d2 + (y - n) * e > g * y <==> e > g
  {
    if e <= g {
      assert n * e + (y - n) * e == y * e;
      MulMono(e, g, y);
    } else {
      MulMono(2 * g, e, y - n);
      MulMono(1, y - n, g);
      assert (y - n) * (2 * g) == (y - n) * g + (y - n) * g && n * g + (y - n) * g == g * y;
    }
  }

  lemma StageArithmetic(st: Stage, n: nat, y: nat)
    requires st.Valid() && st.x == y * st.xi && st.From(n + 1) <= st.x
    ensures n < y && st.x * st.d == y * (st.xi * st.d) && st.From(n) * st.d == n * (st.xi * st.d)
    ensures (y - n) * (st.xi * st.d) == y * (st.xi * st.d) - n * (st.xi * st.d)
  {
    if n >= y {
      MulMono(y, n, st.xi);
      FromNext(st, n);
    }
  }

  /** The simulator's comparison of a cluster's data per larger stripe with g comes out the same for every merge. */
  lemma SurplusTest(cfg: Config, st: Stage, n: nat, numData: nat)
    requires cfg.Valid() && StageOk(cfg, st) && st.From(n + 1) <= st.x
    requires numData + st.From(n) * st.d == n * st.d2 + st.x * st.d
    ensures st.x / st.xi > 0
    ensures CeilDiv(numData, st.x / st.xi) > cfg.g <==> st.xi * st.d > cfg.g
    ensures st.xi * st.d == st.d2 + DataToMove(cfg, st)
  {
    hide CeilDiv;
    var y, e := st.x / st.xi, st.xi * st.d;
    assert st.x == y * st.xi by { DivExact(1, st.x, st.xi); }
    if st.d == cfg.g {
      MulMono(2, st.xi, cfg.g);
      assert (st.xi - 1) * cfg.g == e - cfg.g;
    }
    hide Stage.From;
    StageArithmetic(st, n, y);
    SurplusArithmetic(y, n, e, st.d2, cfg.g);
    CeilDivBelow(numData, y, cfg.g);
  }

  /** Before a cluster's turn: tags merged, its global parities already new, its local ones still the old ones. */
  ghost predicate Pending(cfg: Config, st: Stage, n: nat, c: nat, s: ClusterState)
    requires cfg.Valid() && st.Valid()
  {
    && DataTags(cfg, st, n + 1, s.blocks) && HomeKind(cfg, c, s.kind)
    && RenamedData(cfg, st, n, c, s.blocks) && RenamedLocals(cfg, st, n, c, s.blocks) && HomeGlobals(cfg, st, n + 1, c, s.blocks)
  }

  /** After its local parities are replaced. */
  ghost predicate Refreshed(cfg: Config, st: Stage, n: nat, c: nat, s: ClusterState)
    requires cfg.Valid() && st.Valid()
  {
    && DataTags(cfg, st, n + 1, s.blocks) && HomeKind(cfg, c, s.kind)
    && RenamedData(cfg, st, n, c, s.blocks) && HomeLocals(cfg, st, n + 1, c, s.blocks) && HomeGlobals(cfg, st, n + 1, c, s.blocks)
  }

  function WithNewLocals(cfg: Config, n: nat, s: ClusterState, groups: seq<nat>): ClusterState {
    ClusterState(Without(s.blocks, n, L) + NewLocals(cfg, n, groups), L)
  }

  lemma RefreshLocals(cfg: Config, st: Stage, n: nat, c: nat, s: ClusterState, groups: seq<nat>)
    requires cfg.Valid() && st.Valid() && Pending(cfg, st, n, c, s) && s.kind == L
    requires DistinctGroups(groups) && forall i :: i in groups <==> i in RemovedGroups(s.blocks, n, L)
    ensures Refreshed(cfg, st, n, c, WithNewLocals(cfg, n, s, groups))
    ensures forall num: nat :: Count(WithNewLocals(cfg, n, s, groups).blocks, DataNum(num)) == Count(s.blocks, DataNum(num))
  {
    hide DataTags, RenamedData, RenamedLocals, HomeLocals, HomeGlobals, DistinctGroups, Count;
    ReplaceSame(s.blocks, n, L, NewLocals(cfg, n, groups));
    ReplacedKeeps(cfg, st, n, c, s.blocks, WithNewLocals(cfg, n, s, groups).blocks, L);
    ReplaceLocals(cfg, st, n, c, s.blocks, groups);
  }

  /** A cluster without local parities has nothing to refresh. */
  lemma NoLocals(cfg: Config, st: Stage, n: nat, c: nat, s: ClusterState)
    requires cfg.Valid() && st.Valid() && Pending(cfg, st, n, c, s) && s.kind != L && cfg.Special(c)
    ensures Refreshed(cfg, st, n, c, s) && c == cfg.gId
  {
    hide DataTags, RenamedData, HomeGlobals, LocalTag, Stage.ValidTag, Count;
  }

  lemma Finished(cfg: Config, st: Stage, n: nat, c: nat, s: ClusterState, r: ClusterState, moved: nat)
    requires cfg.Valid() && st.Valid() && cfg.Special(c) && Refreshed(cfg, st, n, c, s) && r.kind == s.kind
    requires MovedOut(s.blocks, r.blocks, n, moved) && (c < cfg.gId ==> st.xi * st.d == st.d2 + moved)
    ensures ClusterReady(cfg, st, n + 1, c, r)
  {
    hide RenamedData, HomeData, HomeLocals, HomeGlobals, DataTag;
    SurplusOut(cfg, st, n, c, s.blocks, r.blocks, moved);
    MovedKeepsParities(cfg, st, n + 1, c, s.blocks, r.blocks, n, moved);
    assert DataTags(cfg, st, n + 1, r.blocks) by { hide Count; }
  }

  lemma NothingMoved(s: seq<Block>, n: nat)
    ensures MovedOut(s, s, n, 0)
  {
    hide Count;
  }

  lemma PushLocal(cfg: Config, n: nat, kept: seq<Block>, groups: seq<nat>, i: nat)
    requires DistinctGroups(groups) && i !in groups
    ensures kept + NewLocals(cfg, n, groups + [i]) == kept + NewLocals(cfg, n, groups) + [Block(L, i + n * cfg.l, i, n)]
    ensures DistinctGroups(groups + [i])
  {
  }

  lemma NoNewLocals(cfg: Config, n: nat, kept: seq<Block>)
    ensures DistinctGroups([]) && kept + NewLocals(cfg, n, []) == kept
  {
  }

  /** The recalculated local parities of one cluster, group by group in any order. */
  method NewLocalParities(p: DataPlacement, cfg: Config, n: nat, cid: nat) returns (ghost groups: seq<nat>)
    requires p.Valid() && cid < |p.clusters| && p.View()[cid].kind == L
    modifies p.clusters
    ensures p.Valid() && DistinctGroups(groups)
    ensures forall i :: i in groups <==> i in RemovedGroups(old(p.View())[cid].blocks, n, L)
    ensures p.View() == old(p.View())[cid := WithNewLocals(cfg, n, old(p.View())[cid], groups)]
  {
    hide Count, Without, RemovedGroups, DataPlacement.View, DataPlacement.Valid, NewLocals, DistinctGroups;
    ghost var view0 := p.View();
    var rest := p.RemoveFrom(cid, n, L);
    ghost var all := rest;
    groups := [];
    ghost var kept := Without(view0[cid].blocks, n, L);
    NoNewLocals(cfg, n, kept);
    while rest != {}
      invariant p.Valid() && rest <= all && DistinctGroups(groups)
      invariant forall i :: i in groups <==> i in all && i !in rest
      invariant p.View() == view0[cid := ClusterState(kept + NewLocals(cfg, n, groups), L)]
      decreases |rest|
    {
      var i :| i in rest;
      p.AddTo(cid, Block(L, i + n * cfg.l, i, n));
      PushLocal(cfg, n, kept, groups, i);
      groups := groups + [i];
      rest := rest - {i};
    }
  }
}
