/** All clusters of one merge, and all merges of one stage. */
module MergeStage {
  import opened Arithmetic
  import opened Placement
  import opened SimBlocks
  import opened StageInvariant
  import opened StageSteps
  import opened Relocation
  import opened ClusterSums
  import opened ClusterPacking
  import opened SimPlacement
  import opened MergeStep

  // ----- all clusters while merge n is under way

  /** Data clusters are sound; special clusters, except one, are finished if visited and pending otherwise. */
  ghost predicate PhaseBut(cfg: Config, st: Stage, n: nat, view: View, visited: set<nat>, touched: set<nat>, except: set<nat>)
    requires cfg.Valid() && st.Valid()
  {
    && cfg.gId < |view| && Spread(cfg, st, n, view, touched) && (forall c :: c in touched ==> c < |view|)
    && forall c: nat :: c < |view| && cfg.Special(c) && c !in except ==>
         if c in visited then ClusterReady(cfg, st, n + 1, c, view[c]) else Pending(cfg, st, n, c, view[c])
  }

  /** Nothing but what a merge may change has changed: every data block is still there once, and the data clusters still
      belong to the same group and stripe. */
  ghost predicate Kept(cfg: Config, view0: View, view: View) {
    && |view0| <= |view|
    && (forall c: nat :: c < |view0| && !cfg.Special(c) ==>
          view0[c].blocks != [] && view[c].blocks != [] && view[c].blocks[0] == view0[c].blocks[0])
    && forall num: nat :: Total(view, DataNum(num)) == Total(view0, DataNum(num))
  }

  lemma KeptTrans(cfg: Config, a: View, b: View, c: View)
    requires Kept(cfg, a, b) && Kept(cfg, b, c)
    ensures Kept(cfg, a, c)
  {
    hide Total;
  }

  lemma KeptSelf(cfg: Config, st: Stage, n: nat, view: View, visited: set<nat>, touched: set<nat>, except: set<nat>)
    requires cfg.Valid() && st.Valid() && PhaseBut(cfg, st, n, view, visited, touched, except)
    ensures Kept(cfg, view, view)
  {
    hide Total, DataTags, ClusterReady, Pending;
  }

  /** A special cluster gets new contents with the same data. */
  lemma ReplaceSpecial(cfg: Config, st: Stage, n: nat, view: View, visited: set<nat>, touched: set<nat>, cid: nat, r: ClusterState)
    requires cfg.Valid() && st.Valid() && PhaseBut(cfg, st, n, view, visited, touched, {}) && cid < |view| && cfg.Special(cid)
    requires forall num: nat :: Count(r.blocks, DataNum(num)) == Count(view[cid].blocks, DataNum(num))
    ensures PhaseBut(cfg, st, n, view[cid := r], visited, touched, {cid}) && Kept(cfg, view, view[cid := r])
  {
    hide Total, DataTags, ClusterReady, Pending, Count;
    forall num: nat ensures Total(view[cid := r], DataNum(num)) == Total(view, DataNum(num)) {
      TotalUpdate(view, cid, r, DataNum(num));
    }
  }

  lemma StartRelocation(cfg: Config, st: Stage, n: nat, view: View, visited: set<nat>, touched: set<nat>, cid: nat)
    requires cfg.Valid() && st.Valid() && PhaseBut(cfg, st, n, view, visited, touched, {cid})
    requires cid < |view| && cfg.Special(cid) && HomeKind(cfg, cid, view[cid].kind)
    ensures Relocating(cfg, st, n, view, view, cid, 0, 0, touched) && NoDataKind(cfg, view)
  {
    hide Total, DataTags, Count, RenamedData, RenamedLocals, HomeData, HomeLocals, HomeGlobals;
    NothingMoved(view[cid].blocks, n);
  }

  /** A cluster's turn ends with its surplus moved out. */
  lemma EndTurn(cfg: Config, st: Stage, n: nat, view1: View, view2: View, cid: nat, moved: nat, index: nat,
      visited: set<nat>, touched: set<nat>, touched2: set<nat>)
    requires cfg.Valid() && st.Valid() && PhaseBut(cfg, st, n, view1, visited, touched, {cid}) && cid < |view1|
    requires Refreshed(cfg, st, n, cid, view1[cid]) && Relocating(cfg, st, n, view1, view2, cid, moved, index, touched2)
    requires cid < cfg.gId ==> st.xi * st.d == st.d2 + moved
    ensures PhaseBut(cfg, st, n, view2, visited + {cid}, touched2, {}) && Kept(cfg, view1, view2)
    ensures forall c: nat :: |view1| <= c < |view2| ==> c in touched2
  {
    hide Total, DataTags, ClusterReady, Pending, Refreshed, MovedOut, DataCluster;
    assert view1[cid].kind == view2[cid].kind;
    Finished(cfg, st, n, cid, view1[cid], view2[cid], moved);
    forall c: nat | c < |view2| && cfg.Special(c)
      ensures if c in visited + {cid} then ClusterReady(cfg, st, n + 1, c, view2[c]) else Pending(cfg, st, n, c, view2[c])
    {
      assert c < |view1|;
    }
  }

  /** What the simulator compares with g: the cluster's data blocks per larger stripe of the stage. */
  function PerLargerStripe(kind: Kind, numData: nat, larger: nat): nat
    requires larger > 0
  {
    if kind == L then CeilDiv(numData, larger) else numData
  }

  lemma TurnTest(cfg: Config, st: Stage, n: nat, c: nat, s: ClusterState)
    requires cfg.Valid() && StageOk(cfg, st) && st.From(n + 1) <= st.x && cfg.Special(c) && Pending(cfg, st, n, c, s)
    ensures st.x / st.xi > 0
    ensures PerLargerStripe(s.kind, Count(s.blocks, AnyData), st.x / st.xi) > cfg.g <==> c < cfg.gId && st.xi * st.d > cfg.g
    ensures c < cfg.gId ==> s.kind == L && st.xi * st.d == st.d2 + DataToMove(cfg, st)
    ensures c < cfg.gId ==> Count(s.blocks, DataOf(n)) == st.xi * st.d
  {
    hide CeilDiv, DataTags, RenamedLocals, HomeGlobals, DataToMove, Count;
    if c < cfg.gId {
      SurplusTest(cfg, st, n, Count(s.blocks, AnyData));
    } else {
      CountZero(s.blocks, AnyData);
      FromNext(st, n);
      DivBelow(st.x, st.xi, 1);
      CeilDivBelow(0, st.x / st.xi, 0);
    }
  }

  lemma AtSpecial(cfg: Config, st: Stage, n: nat, view: View, visited: set<nat>, touched: set<nat>, cid: nat)
    requires cfg.Valid() && st.Valid() && PhaseBut(cfg, st, n, view, visited, touched, {}) && cid < |view| && cid !in visited
    ensures view[cid].kind != D <==> cfg.Special(cid)
    ensures cfg.Special(cid) ==> Pending(cfg, st, n, cid, view[cid])
  {
    hide Total, DataTags, ClusterReady, RenamedData, RenamedLocals, HomeGlobals;
  }

  /** The first half of a cluster's turn: local parities. */
  method RefreshCluster(p: DataPlacement, cfg: Config, ghost st: Stage, n: nat, cid: nat, ghost visited: set<nat>, ghost touched: set<nat>)
    requires p.Valid() && cfg.Valid() && st.Valid() && cid < |p.View()| && cfg.Special(cid)
    requires PhaseBut(cfg, st, n, p.View(), visited, touched, {}) && Pending(cfg, st, n, cid, p.View()[cid])
    modifies p.clusters
    ensures p.Valid() && |p.View()| == |old(p.View())| && PhaseBut(cfg, st, n, p.View(), visited, touched, {cid})
    ensures Refreshed(cfg, st, n, cid, p.View()[cid]) && Kept(cfg, old(p.View()), p.View())
    ensures p.View()[cid].kind == old(p.View())[cid].kind && p.View() == old(p.View())[cid := p.View()[cid]]
    ensures Count(p.View()[cid].blocks, DataOf(n)) == Count(old(p.View())[cid].blocks, DataOf(n))
  {
    hide PhaseBut, Kept, Count, DataPlacement.View, Config.Special, Refreshed, Pending, Config.Valid, HomeKind;
    ghost var view0 := p.View();
    assert p.clusters[cid].State() == view0[cid];
    if p.clusters[cid].kind == L {
      ghost var groups := NewLocalParities(p, cfg, n, cid);
      RefreshLocals(cfg, st, n, cid, view0[cid], groups);
      ReplaceSame(view0[cid].blocks, n, L, NewLocals(cfg, n, groups));
      ReplaceSpecial(cfg, st, n, view0, visited, touched, cid, p.View()[cid]);
    } else {
      NoLocals(cfg, st, n, cid, view0[cid]);
      ReplaceSpecial(cfg, st, n, view0, visited, touched, cid, view0[cid]);
      assert view0[cid := view0[cid]] == view0;
    }
  }

  /** The group whose tails a cluster holds. */
  function TailGroup(cfg: Config, c: nat): nat {
    if cfg.Lo(c) < 0 then 0 else cfg.Lo(c)
  }

  lemma TailData(cfg: Config, st: Stage, n: nat, c: nat, s: ClusterState)
    requires cfg.Valid() && st.Valid() && Refreshed(cfg, st, n, c, s) && cfg.Special(c)
    ensures forall b :: b in s.blocks && b.kind == D ==> b.group == TailGroup(cfg, c)
  {
    hide DataTags, HomeLocals, HomeGlobals, Count;
  }

  /** The second half: the surplus. */
  method MoveOut(p: DataPlacement, cfg: Config, ghost st: Stage, n: nat, cid: nat, moved: nat, clusterSet: set<nat>,
      newSet0: set<nat>, ghost visited: set<nat>)
    returns (newSet: set<nat>)
    requires p.Valid() && cfg.Valid() && st.Valid() && cid < |p.View()| && cfg.Special(cid)
    requires PhaseBut(cfg, st, n, p.View(), visited, clusterSet + newSet0, {cid}) && Refreshed(cfg, st, n, cid, p.View()[cid])
    requires 0 < moved <= Count(p.View()[cid].blocks, DataOf(n)) && (cid < cfg.gId ==> st.xi * st.d == st.d2 + moved)
    modifies p, p.clusters
    ensures p.Valid() && p.Grown() && newSet0 <= newSet && Kept(cfg, old(p.View()), p.View())
    ensures PhaseBut(cfg, st, n, p.View(), visited + {cid}, clusterSet + newSet, {})
    ensures forall c: nat :: |old(p.View())| <= c < |p.View()| ==> c in clusterSet + newSet
    ensures Grew(cfg, n, TailGroup(cfg, cid), old(p.View()), p.View(), moved)
  {
    hide Grew, Packed, SumOf, Opened, TailGroup, PhaseBut, Kept, Relocating, Count, DataTags, DataPlacement.View, Config.Special,
      NoDataKind, Refreshed, Config.Valid, Stage.From;
    ghost var view1, group := p.View(), TailGroup(cfg, cid);
    StartTurn(cfg, st, n, view1, visited, clusterSet + newSet0, cid);
    TailData(cfg, st, n, cid, view1[cid]);
    ghost var index;
    newSet, index := Relocate(p, cfg, st, n, cid, moved, clusterSet, newSet0, group);
    PackedGrew(cfg, n, group, view1, p.View(), moved);
    EndTurn(cfg, st, n, view1, p.View(), cid, moved, index, visited, clusterSet + newSet0, clusterSet + newSet);
  }

  /** One cluster's turn: new local parities, then relocation of the surplus. Returns how many blocks moved. */
  method HandleCluster(p: DataPlacement, cfg: Config, xi: nat, larger: nat, n: nat, cid: nat, clusterSet: set<nat>,
      newSet0: set<nat>, ghost st: Stage, ghost visited: set<nat>)
    returns (newSet: set<nat>, moved: nat)
    requires p.Valid() && cfg.Valid() && st.Valid() && StageOk(cfg, st) && st.From(n + 1) <= st.x && xi == st.xi && larger == st.x / st.xi > 0
    requires PhaseBut(cfg, st, n, p.View(), visited, clusterSet + newSet0, {}) && cid < |p.View()| && cid !in visited
    modifies p, p.clusters
    ensures p.Valid() && p.Grown() && newSet0 <= newSet && Kept(cfg, old(p.View()), p.View())
    ensures PhaseBut(cfg, st, n, p.View(), visited + {cid}, clusterSet + newSet, {})
    ensures moved == if cfg.Special(cid) && cid < cfg.gId then DataToMove(cfg, st) else 0
    ensures forall c: nat :: |old(p.View())| <= c < |p.View()| ==> c in clusterSet + newSet
    ensures Grew(cfg, n, TailGroup(cfg, cid), old(p.View()), p.View(), moved)
  {
    hide Grew, TailGroup, PhaseBut, Kept, Count, DataPlacement.View, Config.Special, Refreshed, Pending,
      PerLargerStripe, StageOk, Config.Valid, Stage.From, HomeKind;
    ghost var view0, touched := p.View(), clusterSet + newSet0;
    newSet, moved := newSet0, 0;
    assert p.clusters[cid].State() == view0[cid] && p.clusters[cid].numOfDataBlocks == Count(view0[cid].blocks, AnyData);
    AtSpecial(cfg, st, n, view0, visited, touched, cid);
    var m := PerLargerStripe(p.clusters[cid].kind, p.clusters[cid].numOfDataBlocks, larger);
    NothingGrew(cfg, n, TailGroup(cfg, cid), view0);
    if p.clusters[cid].kind == D {
      SkipDataCluster(cfg, st, n, view0, visited, touched, cid);
      return;
    }
    TurnTest(cfg, st, n, cid, view0[cid]);
    RefreshCluster(p, cfg, st, n, cid, visited, touched);
    ghost var view1 := p.View();
    SpecialChange(cfg, n, TailGroup(cfg, cid), view0, cid, view1[cid]);
    if m > cfg.g {
      moved := (xi - 1) * cfg.g;
      SomeSurplus(cfg, xi);
      newSet := MoveOut(p, cfg, st, n, cid, moved, clusterSet, newSet0, visited);
    } else {
      StartTurn(cfg, st, n, view1, visited, touched, cid);
      EndTurn(cfg, st, n, view1, view1, cid, 0, 0, visited, touched, touched);
      NothingGrew(cfg, n, TailGroup(cfg, cid), view1);
    }
    GrewAfter(cfg, n, TailGroup(cfg, cid), view0, view1, p.View(), moved);
    KeptTrans(cfg, view0, view1, p.View());
  }

  lemma SomeSurplus(cfg: Config, xi: nat)
    requires cfg.Valid() && xi > 1
    ensures (xi - 1) * cfg.g > 0
  {
    MulMono(1, xi - 1, cfg.g);
  }

  lemma NothingGrew(cfg: Config, n: nat, i: nat, view: View)
    ensures Grew(cfg, n, i, view, view, 0)
  {
    hide SumOf;
  }

  lemma SkipDataCluster(cfg: Config, st: Stage, n: nat, view: View, visited: set<nat>, touched: set<nat>, cid: nat)
    requires cfg.Valid() && st.Valid() && PhaseBut(cfg, st, n, view, visited, touched, {}) && !cfg.Special(cid)
    ensures PhaseBut(cfg, st, n, view, visited + {cid}, touched, {}) && Kept(cfg, view, view)
  {
    hide ClusterReady, Pending, Spread;
    KeptSelf(cfg, st, n, view, visited, touched, {});
  }

  lemma StartTurn(cfg: Config, st: Stage, n: nat, view: View, visited: set<nat>, touched: set<nat>, cid: nat)
    requires cfg.Valid() && st.Valid() && PhaseBut(cfg, st, n, view, visited, touched, {cid})
    requires cid < |view| && cfg.Special(cid) && Refreshed(cfg, st, n, cid, view[cid])
    ensures Relocating(cfg, st, n, view, view, cid, 0, 0, touched) && NoDataKind(cfg, view)
    ensures DataTags(cfg, st, n + 1, view[cid].blocks)
  {
    hide Relocating, NoDataKind, DataTags, RenamedData, HomeLocals, HomeGlobals, PhaseBut;
    StartRelocation(cfg, st, n, view, visited, touched, cid);
  }
}
