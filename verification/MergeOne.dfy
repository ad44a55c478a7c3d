/** One whole merge: rename the tags, renew the parities, move the surplus data. */
module MergeOne {
  import opened SimBlocks
  import opened StageInvariant
  import opened StageSteps
  import opened Relocation
  import opened ClusterSums
  import opened ClusterPacking
  import opened SimPlacement
  import opened MergeStep
  import opened MergeStage
  import opened MergeFill

  /** Between merges: every cluster is as point n wants it, and every data block is in exactly one place. */
  ghost predicate ViewReady(cfg: Config, st: Stage, n: nat, view: View)
    requires cfg.Valid() && st.Valid()
  {
    && cfg.gId < |view|
    && (forall c: nat :: c < |view| ==> ClusterReady(cfg, st, n, c, view[c]))
    && forall num: nat :: num < cfg.DataCount() ==> Total(view, DataNum(num)) == 1
  }

  /** The clusters that hold blocks of the stripes tagged lo to hi - 1, as a stripe's place2cluster records them. */
  ghost predicate Places(cfg: Config, view: View, lo: nat, hi: nat, places: set<nat>) {
    && (forall c: nat :: c < |view| && !cfg.Special(c) ==> view[c].blocks != [])
    && forall c: nat :: c in places <==> c < |view| && (cfg.Special(c) || lo <= view[c].blocks[0].stripe < hi)
  }

  ghost predicate PlacesOf(cfg: Config, view: View, t: nat, places: set<nat>) {
    Places(cfg, view, t, t + 1, places)
  }

  // ----- renaming

  function RenamedCluster(st: Stage, n: nat, s: ClusterState): ClusterState {
    ClusterState(Renamed(st, n, s.blocks), s.kind)
  }

  /** The view with the clusters of a set renamed. */
  ghost predicate RenamedView(st: Stage, n: nat, view0: View, view: View, done: set<nat>) {
    |view| == |view0| && forall c: nat :: c < |view| ==> view[c] == if c in done then RenamedCluster(st, n, view0[c]) else view0[c]
  }

  method RenameClusters(p: DataPlacement, from: nat, upTo: nat, n: nat, clusterSet: set<nat>, ghost st: Stage)
    requires p.Valid() && n <= from == st.From(n) <= upTo == st.From(n + 1)
    requires forall c :: c in clusterSet ==> c < |p.clusters|
    modifies p.clusters
    ensures p.Valid() && RenamedView(st, n, old(p.View()), p.View(), clusterSet)
  {
    hide DataPlacement.View, MergedAll, Stage.From;
    ghost var view0 := p.View();
    var rest := clusterSet;
    while rest != {}
      invariant p.Valid() && rest <= clusterSet && RenamedView(st, n, view0, p.View(), clusterSet - rest)
      decreases |rest|
    {
      var c :| c in rest;
      assert c in clusterSet;
      p.RenameIn(c, from, upTo, n);
      rest := rest - {c};
    }
    assert clusterSet - rest == clusterSet;
  }

  /** A data cluster all of whose blocks change their tag together stays a data cluster. */
  lemma RenameDataCluster(cfg: Config, st: Stage, n: nat, s: ClusterState)
    requires DataCluster(cfg, s)
    ensures DataCluster(cfg, RenamedCluster(st, n, s))
    ensures RenamedCluster(st, n, s).blocks[0].stripe
         == if st.From(n) <= s.blocks[0].stripe < st.From(n + 1) then n else s.blocks[0].stripe
    ensures RenamedCluster(st, n, s).blocks[0].group == s.blocks[0].group
    ensures |RenamedCluster(st, n, s).blocks| == |s.blocks|
  {
    var r := RenamedCluster(st, n, s);
    assert s.blocks[0] in s.blocks;
    forall b | b in r.blocks ensures b.kind == D && b.group == r.blocks[0].group && b.stripe == r.blocks[0].stripe {
      var a := RenamedFrom(st, n, s.blocks, b);
    }
  }

  /** The data clusters after renaming. */
  lemma RenameSpread(cfg: Config, st: Stage, n: nat, view0: View, view: View, clusterSet: set<nat>)
    requires cfg.Valid() && st.Valid() && ViewReady(cfg, st, n, view0) && RenamedView(st, n, view0, view, clusterSet)
    requires Places(cfg, view0, st.From(n), st.From(n + 1), clusterSet)
    ensures Spread(cfg, st, n, view, clusterSet)
  {
    hide Total, DataTag, DataCluster, Stage.From, Renamed;
    forall c: nat | c < |view| && !cfg.Special(c)
      ensures DataCluster(cfg, view[c]) && DataTags(cfg, st, n + 1, view[c].blocks)
      ensures view[c].blocks != [] && (c in clusterSet <==> view[c].blocks[0].stripe == n)
    {
      assert ClusterReady(cfg, st, n, c, view0[c]);
      RenameData(cfg, st, n, view0[c].blocks);
      RenameDataCluster(cfg, st, n, view0[c]);
      HeadTag(cfg, st, n, view0[c]);
      if c !in clusterSet {
        assert view0[c] == RenamedCluster(st, n, view0[c]) by {
          SameTags(cfg, st, n, view0[c]);
        }
      }
    }
  }

  lemma HeadTag(cfg: Config, st: Stage, n: nat, s: ClusterState)
    requires cfg.Valid() && st.Valid() && DataCluster(cfg, s) && DataTags(cfg, st, n, s.blocks)
    ensures s.blocks != [] && (s.blocks[0].stripe == n ==> st.From(n) <= n < st.From(n + 1))
  {
    assert s.blocks[0] in s.blocks;
    assert DataTag(cfg, st, n, s.blocks[0]);
    TagNotTaken(st, n, cfg.Origin(s.blocks[0].num));
  }

  lemma SameTags(cfg: Config, st: Stage, n: nat, s: ClusterState)
    requires DataCluster(cfg, s) && !(st.From(n) <= s.blocks[0].stripe < st.From(n + 1))
    ensures RenamedCluster(st, n, s) == s
  {
    hide Stage.From;
    forall i | 0 <= i < |s.blocks| ensures Renamed(st, n, s.blocks)[i] == s.blocks[i] {
      assert s.blocks[i] in s.blocks;
    }
  }

  /** The special clusters after renaming. */
  ghost predicate RenamedSpecial(cfg: Config, st: Stage, n: nat, c: nat, s: ClusterState)
    requires cfg.Valid() && st.Valid()
  {
    && DataTags(cfg, st, n + 1, s.blocks) && HomeKind(cfg, c, s.kind)
    && RenamedData(cfg, st, n, c, s.blocks) && RenamedLocals(cfg, st, n, c, s.blocks) && RenamedGlobals(cfg, st, n, c, s.blocks)
  }

  lemma RenameSpecial(cfg: Config, st: Stage, n: nat, c: nat, s: ClusterState)
    requires cfg.Valid() && st.Valid() && st.From(n + 1) <= st.x && cfg.Special(c) && ClusterReady(cfg, st, n, c, s)
    ensures RenamedSpecial(cfg, st, n, c, RenamedCluster(st, n, s))
  {
    hide DataTags, HomeData, HomeLocals, HomeGlobals, RenamedData, RenamedLocals, RenamedGlobals, Renamed;
    RenameData(cfg, st, n, s.blocks);
    RenameHomeData(cfg, st, n, c, s.blocks);
    RenameLocals(cfg, st, n, c, s.blocks);
    RenameGlobals(cfg, st, n, c, s.blocks);
  }

  lemma {:induction false} RenameTotal(st: Stage, n: nat, view0: View, view: View, done: set<nat>, num: nat)
    requires RenamedView(st, n, view0, view, done)
    ensures Total(view, DataNum(num)) == Total(view0, DataNum(num))
    decreases |view|
  {
    hide Count, Renamed;
    if view != [] {
      var m := |view| - 1;
      RenameTotal(st, n, view0[..m], view[..m], done, num);
      RenameCount(st, n, view0[m].blocks, num);
    }
  }

  lemma RenameCount(st: Stage, n: nat, s: seq<Block>, num: nat)
    ensures Count(Renamed(st, n, s), DataNum(num)) == Count(s, DataNum(num))
  {
    hide Count;
    CountSame(s, Renamed(st, n, s), DataNum(num), DataNum(num));
  }

  // ----- global parities

  function WithNewGlobals(cfg: Config, n: nat, s: ClusterState): ClusterState {
    ClusterState(Without(s.blocks, n, G) + NewGlobals(cfg, n, cfg.g), s.kind)
  }

  lemma PushGlobal(cfg: Config, n: nat, kept: seq<Block>, e: nat)
    ensures kept + NewGlobals(cfg, n, e + 1) == kept + NewGlobals(cfg, n, e) + [Block(G, cfg.GlobalId(n, e), cfg.l, n)]
    ensures kept + NewGlobals(cfg, n, 0) == kept
  {
    hide Config.GlobalId;
  }

  method RenewGlobals(p: DataPlacement, cfg: Config, n: nat)
    requires p.Valid() && cfg.gId < |p.clusters| && p.View()[cfg.gId].kind != D
    modifies p.clusters
    ensures p.Valid() && p.View() == old(p.View())[cfg.gId := WithNewGlobals(cfg, n, old(p.View())[cfg.gId])]
  {
    hide Without, DataPlacement.View, DataPlacement.Valid, Config.GlobalId, NewGlobals;
    ghost var s := p.View()[cfg.gId];
    var removed := p.RemoveFrom(cfg.gId, n, G);
    ghost var kept := Without(s.blocks, n, G);
    PushGlobal(cfg, n, kept, 0);
    for e := 0 to cfg.g
      invariant p.Valid() && cfg.gId < |p.clusters|
      invariant p.View() == old(p.View())[cfg.gId := ClusterState(kept + NewGlobals(cfg, n, e), s.kind)]
    {
      p.AddTo(cfg.gId, Block(G, cfg.GlobalId(n, e), cfg.l, n));
      PushGlobal(cfg, n, kept, e);
    }
  }

  lemma GlobalsRenewed(cfg: Config, st: Stage, n: nat, s: ClusterState)
    requires cfg.Valid() && st.Valid() && RenamedSpecial(cfg, st, n, cfg.gId, s)
    ensures Pending(cfg, st, n, cfg.gId, WithNewGlobals(cfg, n, s))
    ensures forall num: nat :: Count(WithNewGlobals(cfg, n, s).blocks, DataNum(num)) == Count(s.blocks, DataNum(num))
  {
    hide DataTags, RenamedData, RenamedLocals, RenamedGlobals, HomeGlobals, Count, Without;
    ReplaceSame(s.blocks, n, G, NewGlobals(cfg, n, cfg.g));
    ReplacedKeeps(cfg, st, n, cfg.gId, s.blocks, WithNewGlobals(cfg, n, s).blocks, G);
    ReplaceGlobals(cfg, st, n, s.blocks);
  }

  lemma NoGlobals(cfg: Config, st: Stage, n: nat, c: nat, s: ClusterState)
    requires cfg.Valid() && st.Valid() && RenamedSpecial(cfg, st, n, c, s) && c != cfg.gId
    ensures Pending(cfg, st, n, c, s)
  {
    hide DataTags, RenamedData, RenamedLocals, Count, GlobalTag, Stage.ValidTag;
  }

  /** After renaming and the new global parities, every cluster is ready for its turn. */
  lemma AllPending(cfg: Config, st: Stage, n: nat, view0: View, view1: View, view2: View, clusterSet: set<nat>)
    requires cfg.Valid() && st.Valid() && st.From(n + 1) <= st.x && ViewReady(cfg, st, n, view0)
    requires RenamedView(st, n, view0, view1, clusterSet) && Places(cfg, view0, st.From(n), st.From(n + 1), clusterSet)
    requires view2 == view1[cfg.gId := WithNewGlobals(cfg, n, view1[cfg.gId])]
    ensures PhaseBut(cfg, st, n, view2, {}, clusterSet, {})
    ensures forall num: nat :: Total(view2, DataNum(num)) == Total(view0, DataNum(num))
  {
    hide ClusterReady, RenamedSpecial, Pending, Total, Count, DataCluster, DataTags, WithNewGlobals, Stage.From, Renamed;
    RenameSpread(cfg, st, n, view0, view1, clusterSet);
    forall c: nat | c < |view1| && cfg.Special(c) ensures Pending(cfg, st, n, c, view2[c]) {
      RenameSpecial(cfg, st, n, c, view0[c]);
      if c == cfg.gId {
        GlobalsRenewed(cfg, st, n, view1[c]);
      } else {
        NoGlobals(cfg, st, n, c, view1[c]);
      }
    }
    GlobalsRenewedData(cfg, st, n, view0, view1, clusterSet);
    forall num: nat ensures Total(view2, DataNum(num)) == Total(view0, DataNum(num)) {
      RenameTotal(st, n, view0, view1, clusterSet, num);
      TotalUpdate(view1, cfg.gId, WithNewGlobals(cfg, n, view1[cfg.gId]), DataNum(num));
    }
  }

  lemma RenamedHome(cfg: Config, st: Stage, n: nat, c: nat, s: ClusterState)
    requires cfg.Valid() && st.Valid() && RenamedSpecial(cfg, st, n, c, s)
    ensures HomeKind(cfg, c, s.kind)
  {
  }

  lemma GlobalsRenewedData(cfg: Config, st: Stage, n: nat, view0: View, view1: View, clusterSet: set<nat>)
    requires cfg.Valid() && st.Valid() && st.From(n + 1) <= st.x && ViewReady(cfg, st, n, view0)
    requires RenamedView(st, n, view0, view1, clusterSet) && Places(cfg, view0, st.From(n), st.From(n + 1), clusterSet)
    ensures forall num: nat :: Count(WithNewGlobals(cfg, n, view1[cfg.gId]).blocks, DataNum(num)) == Count(view1[cfg.gId].blocks, DataNum(num))
    ensures view1[cfg.gId].kind != D
  {
    hide ClusterReady, RenamedSpecial, Total, Count, Stage.From, Renamed;
    RenameSpecial(cfg, st, n, cfg.gId, view0[cfg.gId]);
    GlobalsRenewed(cfg, st, n, view1[cfg.gId]);
    RenamedHome(cfg, st, n, cfg.gId, view1[cfg.gId]);
  }

  // ----- all turns

  /** The tail clusters, the only ones that may have a surplus. */
  function Tails(cfg: Config): (t: set<nat>)
    requires cfg.Valid()
    ensures forall c: nat :: c in t <==> cfg.Special(c) && c < cfg.gId
  {
    set c: nat | c < cfg.gId && cfg.Special(c)
  }

  lemma {:induction false} IntervalSize(lo: nat, hi: nat, s: set<nat>)
    requires lo <= hi && forall c: nat :: c in s <==> lo <= c < hi
    ensures |s| == hi - lo
    decreases hi
  {
    if lo == hi {
      assert s == {};
    } else {
      IntervalSize(lo, hi - 1, s - {hi - 1});
    }
  }

  lemma TailCount(cfg: Config)
    requires cfg.Valid()
    ensures |Tails(cfg)| == if cfg.tails then cfg.l else 0
  {
    if cfg.tails {
      IntervalSize(cfg.gId - cfg.l, cfg.gId, Tails(cfg));
    } else {
      assert Tails(cfg) == {};
    }
  }

  lemma VisitTail(cfg: Config, visited: set<nat>, c: nat, per: nat)
    requires cfg.Valid() && c !in visited
    ensures |Tails(cfg) * (visited + {c})| * per == |Tails(cfg) * visited| * per + if c in Tails(cfg) then per else 0
  {
    hide Tails;
    var t := Tails(cfg);
    var m := |t * visited|;
    if c in t {
      assert t * (visited + {c}) == t * visited + {c};
      assert (m + 1) * per == m * per + per;
    } else {
      assert t * (visited + {c}) == t * visited;
    }
  }

  /** The state of the turns: which clusters had theirs, what moved, and that every new cluster is recorded. */
  ghost predicate Turns(cfg: Config, st: Stage, n: nat, view0: View, view: View, visited: set<nat>, touched: set<nat>, dc: nat)
    requires cfg.Valid() && st.Valid()
  {
    && PhaseBut(cfg, st, n, view, visited, touched, {}) && Kept(cfg, view0, view)
    && dc == |Tails(cfg) * visited| * DataToMove(cfg, st)
    && forall c: nat :: |view0| <= c < |view| ==> c in touched
  }

  lemma TurnDone(cfg: Config, st: Stage, n: nat, view0: View, view1: View, view2: View, visited: set<nat>, touched1: set<nat>,
      touched2: set<nat>, c: nat, dc: nat, moved: nat)
    requires cfg.Valid() && st.Valid() && Turns(cfg, st, n, view0, view1, visited, touched1, dc) && c !in visited
    requires Kept(cfg, view1, view2) && PhaseBut(cfg, st, n, view2, visited + {c}, touched2, {}) && touched1 <= touched2
    requires moved == if cfg.Special(c) && c < cfg.gId then DataToMove(cfg, st) else 0
    requires forall c: nat :: |view1| <= c < |view2| ==> c in touched2
    ensures Turns(cfg, st, n, view0, view2, visited + {c}, touched2, dc + moved)
  {
    hide PhaseBut, DataToMove, Total, Tails, Config.Special;
    KeptTrans(cfg, view0, view1, view2);
    VisitTail(cfg, visited, c, DataToMove(cfg, st));
    assert c in Tails(cfg) <==> cfg.Special(c) && c < cfg.gId;
  }

  lemma NoTurns(cfg: Config, st: Stage, n: nat, view: View, touched: set<nat>)
    requires cfg.Valid() && st.Valid() && PhaseBut(cfg, st, n, view, {}, touched, {})
    ensures Turns(cfg, st, n, view, view, {}, touched, 0)
  {
    hide PhaseBut, Kept, Tails;
    KeptSelf(cfg, st, n, view, {}, touched, {});
    assert Tails(cfg) * {} == {};
  }

  method OneTurn(p: DataPlacement, cfg: Config, xi: nat, larger: nat, n: nat, c: nat, clusterSet: set<nat>,
      newSet0: set<nat>, ghost st: Stage, ghost view0: View, ghost visited: set<nat>, ghost dc: nat)
    returns (newSet: set<nat>, moved: nat)
    requires p.Valid() && cfg.Valid() && st.Valid() && StageOk(cfg, st) && st.From(n + 1) <= st.x && xi == st.xi && larger == st.x / st.xi > 0
    requires Turns(cfg, st, n, view0, p.View(), visited, clusterSet + newSet0, dc) && c in clusterSet && c !in visited
    requires TurnSums(cfg, n, view0, p.View(), visited, DataToMove(cfg, st))
    modifies p, p.clusters
    ensures p.Valid() && p.Grown()
    ensures Turns(cfg, st, n, view0, p.View(), visited + {c}, clusterSet + newSet, dc + moved)
    ensures TurnSums(cfg, n, view0, p.View(), visited + {c}, DataToMove(cfg, st))
  {
    hide TurnSums, Grew, TailGroup, Turns, DataPlacement.View, DataPlacement.Valid, Config.Special, StageOk, Config.Valid, Stage.From, DataToMove,
      PhaseBut, Kept;
    ghost var view1, touched := p.View(), clusterSet + newSet0;
    TurnStarts(cfg, st, n, view0, view1, visited, touched, dc, c);
    newSet, moved := HandleCluster(p, cfg, xi, larger, n, c, clusterSet, newSet0, st, visited);
    TurnDone(cfg, st, n, view0, view1, p.View(), visited, touched, clusterSet + newSet, c, dc, moved);
    TurnSumsNext(cfg, n, view0, view1, p.View(), visited, c, DataToMove(cfg, st), moved);
  }

  lemma TurnStarts(cfg: Config, st: Stage, n: nat, view0: View, view: View, visited: set<nat>, touched: set<nat>, dc: nat, c: nat)
    requires cfg.Valid() && st.Valid() && Turns(cfg, st, n, view0, view, visited, touched, dc) && c in touched
    ensures c < |view| && PhaseBut(cfg, st, n, view, visited, touched, {})
  {
    hide Spread, ClusterReady, Pending, Kept;
  }

  lemma StageFactor(st: Stage)
    requires st.Valid()
    ensures st.xi > 1
  {
  }

  /** Every cluster of the stripes to be merged gets its turn, in any order. */
  method HandleClusters(p: DataPlacement, cfg: Config, xi: nat, larger: nat, n: nat, clusterSet: set<nat>, ghost st: Stage)
    returns (newSet: set<nat>, dc: nat)
    requires p.Valid() && cfg.Valid() && st.Valid() && StageOk(cfg, st) && st.From(n + 1) <= st.x && xi == st.xi && larger == st.x / st.xi > 0
    requires PhaseBut(cfg, st, n, p.View(), {}, clusterSet, {})
    modifies p, p.clusters
    ensures p.Valid() && p.Grown()
    ensures Turns(cfg, st, n, old(p.View()), p.View(), clusterSet, clusterSet + newSet, dc)
    ensures TurnSums(cfg, n, old(p.View()), p.View(), clusterSet, DataToMove(cfg, st))
  {
    hide TurnSums, DataToMove, Stage.From, PhaseBut, StageOk, Cluster.State, Turns, DataPlacement.Valid, Config.Valid, Stage.Valid,
      Cluster.Valid, DataPlacement.View;
    ghost var view0, visited: set<nat> := p.View(), {};
    newSet, dc := {}, 0;
    var rest := clusterSet;
    assert clusterSet + newSet == clusterSet;
    NoTurns(cfg, st, n, view0, clusterSet);
    StageFactor(st);
    NoTurnSums(cfg, n, view0, DataToMove(cfg, st));
    while rest != {}
      invariant p.Valid() && p.Grown() && visited == clusterSet - rest && rest <= clusterSet
      invariant Turns(cfg, st, n, view0, p.View(), visited, clusterSet + newSet, dc)
      invariant TurnSums(cfg, n, view0, p.View(), visited, DataToMove(cfg, st))
      decreases |rest|
    {
      var c :| c in rest;
      var moved;
      newSet, moved := OneTurn(p, cfg, xi, larger, n, c, clusterSet, newSet, st, view0, visited, dc);
      visited, rest, dc := visited + {c}, rest - {c}, dc + moved;
    }
    assert visited == clusterSet;
  }

  // ----- the whole merge

  /** A finished view: every cluster had its turn. */
  lemma MergedClusters(cfg: Config, st: Stage, n: nat, view: View, visited: set<nat>, touched: set<nat>, c: nat)
    requires cfg.Valid() && st.Valid() && PhaseBut(cfg, st, n, view, visited, touched, {}) && c < |view|
    requires cfg.Special(c) ==> c in visited
    ensures ClusterReady(cfg, st, n + 1, c, view[c])
    ensures !cfg.Special(c) ==> view[c].blocks != [] && (c in touched <==> view[c].blocks[0].stripe == n)
  {
    hide DataTags, Pending, HomeData, HomeLocals, HomeGlobals;
  }

  lemma MergedReady(cfg: Config, st: Stage, n: nat, view0: View, view2: View, view3: View, clusterSet: set<nat>, touched: set<nat>, dc: nat)
    requires cfg.Valid() && st.Valid() && ViewReady(cfg, st, n, view0) && |view2| == |view0|
    requires Places(cfg, view0, st.From(n), st.From(n + 1), clusterSet)
    requires forall num: nat :: Total(view2, DataNum(num)) == Total(view0, DataNum(num))
    requires Turns(cfg, st, n, view2, view3, clusterSet, touched, dc) && clusterSet <= touched
    ensures ViewReady(cfg, st, n + 1, view3) && PlacesOf(cfg, view3, n, touched)
    ensures dc == (if cfg.tails then cfg.l else 0) * DataToMove(cfg, st)
  {
    hide ClusterReady, Total, DataToMove, Stage.From, Pending, Spread, Config.Valid, Tails;
    forall c: nat | c < |view3|
      ensures ClusterReady(cfg, st, n + 1, c, view3[c])
      ensures !cfg.Special(c) ==> view3[c].blocks != [] && (c in touched <==> view3[c].blocks[0].stripe == n)
    {
      MergedClusters(cfg, st, n, view3, clusterSet, touched, c);
    }
    TailCount(cfg);
    assert forall c: nat :: c in Tails(cfg) ==> c in clusterSet;
    assert Tails(cfg) * clusterSet == Tails(cfg);
  }

  lemma NotEmpty(cfg: Config, s: ClusterState)
    requires DataCluster(cfg, s)
    ensures s.blocks != []
  {
  }

  /** Where the other stripes are has not changed. */
  lemma OtherPlaces(cfg: Config, st: Stage, n: nat, view0: View, view1: View, view2: View, view3: View, clusterSet: set<nat>,
      touched: set<nat>, dc: nat, t: nat, places: set<nat>)
    requires cfg.Valid() && st.Valid() && st.From(n + 1) <= st.x && ViewReady(cfg, st, n, view0)
    requires RenamedView(st, n, view0, view1, clusterSet) && Places(cfg, view0, st.From(n), st.From(n + 1), clusterSet)
    requires view2 == view1[cfg.gId := WithNewGlobals(cfg, n, view1[cfg.gId])]
    requires Turns(cfg, st, n, view2, view3, clusterSet, touched, dc)
    requires st.ValidTag(n + 1, t) && t != n && PlacesOf(cfg, view0, t, places)
    ensures PlacesOf(cfg, view3, t, places)
  {
    hide Total, DataTags, Count, WithNewGlobals, DataCluster, Stage.From, Stage.ValidTag, Renamed;
    assert !(st.From(n) <= t < st.From(n + 1)) by { ValidTagNext(st, n, t); }
    forall c: nat | c < |view3| && !cfg.Special(c)
      ensures view3[c].blocks != [] && (c in places <==> view3[c].blocks[0].stripe == t)
    {
      NotEmpty(cfg, view3[c]);
      if c < |view0| {
        HeadAfter(cfg, st, n, view0, view1, clusterSet, c);
      }
    }
  }

  lemma HeadAfter(cfg: Config, st: Stage, n: nat, view0: View, view1: View, clusterSet: set<nat>, c: nat)
    requires cfg.Valid() && st.Valid() && ViewReady(cfg, st, n, view0) && c < |view0| && !cfg.Special(c)
    requires RenamedView(st, n, view0, view1, clusterSet) && Places(cfg, view0, st.From(n), st.From(n + 1), clusterSet)
    ensures view0[c].blocks != [] && view1[c].blocks != []
    ensures view1[c].blocks[0].stripe
         == if st.From(n) <= view0[c].blocks[0].stripe < st.From(n + 1) then n else view0[c].blocks[0].stripe
    ensures view1[c].blocks[0].group == view0[c].blocks[0].group && |view1[c].blocks| == |view0[c].blocks|
    ensures view0[c].blocks[0].stripe == n ==> st.From(n) <= n < st.From(n + 1)
  {
    hide Total, DataTags, Stage.From, Renamed;
    assert ClusterReady(cfg, st, n, c, view0[c]);
    RenameDataCluster(cfg, st, n, view0[c]);
    HeadTag(cfg, st, n, view0[c]);
  }

  /** The clusters of the merged stripes are those of the larger one, and the other stripes keep theirs. */
  lemma RenamedPart(cfg: Config, st: Stage, n: nat, view0: View, view1: View, clusterSet: set<nat>, c: nat, e: nat, t: nat,
      q: Measure)
    requires cfg.Valid() && st.Valid() && ViewReady(cfg, st, n, view0) && c < |view0| && st.From(n + 1) <= st.x
    requires RenamedView(st, n, view0, view1, clusterSet) && Places(cfg, view0, st.From(n), st.From(n + 1), clusterSet)
    requires st.ValidTag(n + 1, t)
    ensures Part(cfg, if t == n then Area(e, e + 1, st.From(n), st.From(n + 1)) else Cell(e, t), c, view0[c], q)
         == Part(cfg, Cell(e, t), c, view1[c], q)
  {
    hide Total, DataTags, Stage.From, Stage.ValidTag, Config.Special, ViewReady, Places, RenamedView;
    if !cfg.Special(c) {
      HeadAfter(cfg, st, n, view0, view1, clusterSet, c);
      ValidTagNext(st, n, t);
    }
  }

  lemma JoinStripes(cfg: Config, st: Stage, n: nat, view0: View, view1: View, clusterSet: set<nat>, f: Fill, f2: Fill)
    requires cfg.Valid() && st.Valid() && ViewReady(cfg, st, n, view0) && st.From(n + 1) <= st.x
    requires RenamedView(st, n, view0, view1, clusterSet) && Places(cfg, view0, st.From(n), st.From(n + 1), clusterSet)
    requires EvenAt(cfg, st, n, view0, f, f2)
    ensures Joined(cfg, st, n, view1, f, f2)
  {
    hide SumOf, FillOf, Part, ViewReady, Places, RenamedView, EvenAt, Stage.ValidTag, Stage.From;
    forall e: nat, t: nat, q | e < cfg.l && st.ValidTag(n + 1, t)
      ensures SumOf(cfg, Cell(e, t), view1, q) == JoinedFill(st, n, f, f2, t, q)
    {
      var a := if t == n then Area(e, e + 1, st.From(n), st.From(n + 1)) else Cell(e, t);
      SameLength(st, n, view0, view1, clusterSet);
      forall c: nat | c < |view0| ensures Part(cfg, a, c, view0[c], q) == Part(cfg, Cell(e, t), c, view1[c], q) {
        RenamedPart(cfg, st, n, view0, view1, clusterSet, c, e, t, q);
      }
      SumSame(cfg, a, view0, Cell(e, t), view1, q);
      if t == n {
        FromNext(st, n);
        forall u: nat | st.From(n) <= u < st.From(n) + st.xi ensures SumOf(cfg, Cell(e, u), view0, q) == FillOf(f, q) {
          MergedTag(st, n, u);
          EvenHere(cfg, st, n, view0, f, f2, e, u, q);
        }
        SumEven(cfg, e, st.From(n), st.xi, view0, q, FillOf(f, q));
      } else {
        ValidTagNext(st, n, t);
        EvenHere(cfg, st, n, view0, f, f2, e, t, q);
      }
    }
  }

  lemma MergedTag(st: Stage, n: nat, u: nat)
    requires st.Valid() && st.From(n) <= u < st.From(n + 1) <= st.x
    ensures st.ValidTag(n, u) && n <= u
  {
    FromNext(st, n);
  }

  lemma SameLength(st: Stage, n: nat, view0: View, view1: View, clusterSet: set<nat>)
    requires RenamedView(st, n, view0, view1, clusterSet)
    ensures |view0| == |view1|
  {
  }

  /** New global parities change no data cluster. */
  lemma JoinedWithGlobals(cfg: Config, st: Stage, n: nat, view1: View, s: ClusterState, f: Fill, f2: Fill)
    requires cfg.Valid() && cfg.gId < |view1| && Joined(cfg, st, n, view1, f, f2)
    ensures Joined(cfg, st, n, view1[cfg.gId := s], f, f2)
  {
    hide SumOf, JoinedFill, Stage.ValidTag;
    SpecialChange(cfg, n, 0, view1, cfg.gId, s);
    forall e: nat, t: nat, q | e < cfg.l && st.ValidTag(n + 1, t)
      ensures SumOf(cfg, Cell(e, t), view1[cfg.gId := s], q) == JoinedFill(st, n, f, f2, t, q)
    {
      GrewAt(cfg, n, 0, view1, view1[cfg.gId := s], 0, e, t, q);
      JoinedAt(cfg, st, n, view1, f, f2, e, t, q);
    }
  }

  /** The stripes tagged From(n) to From(n + 1) - 1 become the larger stripe n. */
  method MergeStripes(p: DataPlacement, cfg: Config, xi: nat, larger: nat, n: nat, clusterSet: set<nat>, ghost st: Stage,
      ghost f: Fill, ghost f2: Fill)
    returns (places: set<nat>, dc: nat)
    requires p.Valid() && cfg.Valid() && st.Valid() && StageOk(cfg, st) && st.From(n + 1) <= st.x && xi == st.xi && larger == st.x / st.xi > 0
    requires ViewReady(cfg, st, n, p.View()) && Places(cfg, p.View(), st.From(n), st.From(n + 1), clusterSet)
    requires EvenAt(cfg, st, n, p.View(), f, f2) && f2 == NextFill(cfg, st.d, st.xi, f)
    modifies p, p.clusters
    ensures p.Valid() && p.Grown()
    ensures ViewReady(cfg, st, n + 1, p.View()) && PlacesOf(cfg, p.View(), n, places)
    ensures forall t: nat, others: set<nat> ::
      st.ValidTag(n + 1, t) && t != n && PlacesOf(cfg, old(p.View()), t, others) ==> PlacesOf(cfg, p.View(), t, others)
    ensures dc == (if cfg.tails then cfg.l else 0) * DataToMove(cfg, st)
    ensures EvenAt(cfg, st, n + 1, p.View(), f, f2)
  {
    hide EvenAt, Joined, NextFill, TurnSums, DataToMove, Stage.From, PhaseBut, Places, PlacesOf, RenamedView, StageOk, Cluster.State, Total, Turns,
      DataPlacement.Valid, Config.Valid, Stage.Valid, Cluster.Valid, Stage.ValidTag, DataPlacement.View, ViewReady,
      WithNewGlobals;
    ghost var view0 := p.View();
    StripeClusters(cfg, st, n, view0, clusterSet);
    RenameClusters(p, n * xi, n * xi + xi, n, clusterSet, st);
    ghost var view1 := p.View();
    RenamedBounds(cfg, st, n, view0, view1, clusterSet);
    JoinStripes(cfg, st, n, view0, view1, clusterSet, f, f2);
    JoinedWithGlobals(cfg, st, n, view1, WithNewGlobals(cfg, n, view1[cfg.gId]), f, f2);
    RenewGlobals(p, cfg, n);
    ghost var view2 := p.View();
    AllPending(cfg, st, n, view0, view1, view2, clusterSet);
    var newSet;
    newSet, dc := HandleClusters(p, cfg, xi, larger, n, clusterSet, st);
    places := clusterSet + newSet;
    MergedReady(cfg, st, n, view0, view2, p.View(), clusterSet, places, dc);
    SpecialIn(cfg, st, n, view0, clusterSet);
    TurnsFill(cfg, st, n, view2, p.View(), clusterSet, f, f2);
    forall t: nat, others: set<nat> | st.ValidTag(n + 1, t) && t != n && PlacesOf(cfg, view0, t, others)
      ensures PlacesOf(cfg, p.View(), t, others)
    {
      OtherPlaces(cfg, st, n, view0, view1, view2, p.View(), clusterSet, places, dc, t, others);
    }
  }

  lemma SpecialIn(cfg: Config, st: Stage, n: nat, view: View, clusterSet: set<nat>)
    requires cfg.Valid() && st.Valid() && ViewReady(cfg, st, n, view)
    requires Places(cfg, view, st.From(n), st.From(n + 1), clusterSet)
    ensures forall c: nat :: cfg.Special(c) ==> c in clusterSet
  {
    hide Total, Stage.From;
  }

  lemma StripeClusters(cfg: Config, st: Stage, n: nat, view: View, clusterSet: set<nat>)
    requires st.Valid() && Places(cfg, view, st.From(n), st.From(n + 1), clusterSet)
    ensures forall c :: c in clusterSet ==> c < |view|
    ensures n <= n * st.xi == st.From(n) && st.From(n + 1) == n * st.xi + st.xi
  {
    FromNext(st, n);
  }

  lemma RenamedBounds(cfg: Config, st: Stage, n: nat, view0: View, view1: View, clusterSet: set<nat>)
    requires cfg.Valid() && st.Valid() && st.From(n + 1) <= st.x && ViewReady(cfg, st, n, view0)
    requires RenamedView(st, n, view0, view1, clusterSet) && Places(cfg, view0, st.From(n), st.From(n + 1), clusterSet)
    ensures cfg.gId < |view1| == |view0| && view1[cfg.gId].kind != D
  {
    GlobalsRenewedData(cfg, st, n, view0, view1, clusterSet);
  }
}
