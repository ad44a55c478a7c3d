/** Moving surplus data blocks out of a tail cluster, one at a time, into clusters that have room or into new ones. */
module Relocation {
  import opened SimBlocks
  import opened StageInvariant
  import opened StageSteps

  type View = seq<ClusterState>

  // ----- sums over all clusters

  function Total(view: View, q: Query): nat {
    if view == [] then 0 else Total(view[..|view| - 1], q) + Count(view[|view| - 1].blocks, q)
  }

  lemma {:induction false} TotalUpdate(view: View, i: nat, c: ClusterState, q: Query)
    requires i < |view|
    ensures Total(view[i := c], q) + Count(view[i].blocks, q) == Total(view, q) + Count(c.blocks, q)
  {
    hide Count;
    var n := |view| - 1;
    if i == n {
      assert view[i := c][..n] == view[..n];
    } else {
      assert view[i := c][..n] == view[..n][i := c];
      TotalUpdate(view[..n], i, c, q);
    }
  }

  lemma TotalPush(view: View, c: ClusterState, q: Query)
    ensures Total(view + [c], q) == Total(view, q) + Count(c.blocks, q)
  {
    assert (view + [c])[..|view|] == view;
  }

  /** At least one cluster has what the total counts, and a total of one is in one cluster only. */
  lemma {:induction false} TotalAtLeast(view: View, q: Query, i: nat)
    requires i < |view|
    ensures Total(view, q) >= Count(view[i].blocks, q)
    decreases |view|
  {
    hide Count;
    if i < |view| - 1 {
      TotalAtLeast(view[..|view| - 1], q, i);
    }
  }

  lemma {:induction false} TotalTwo(view: View, q: Query, i: nat, j: nat)
    requires i < j < |view|
    ensures Total(view, q) >= Count(view[i].blocks, q) + Count(view[j].blocks, q)
    decreases |view|
  {
    hide Count;
    if j < |view| - 1 {
      TotalTwo(view[..|view| - 1], q, i, j);
    } else {
      TotalAtLeast(view[..|view| - 1], q, i);
    }
  }

  lemma {:induction false} TotalSome(view: View, q: Query) returns (i: nat)
    requires Total(view, q) > 0
    ensures i < |view| && Count(view[i].blocks, q) > 0
  {
    hide Count;
    if Count(view[|view| - 1].blocks, q) > 0 {
      i := |view| - 1;
    } else {
      i := TotalSome(view[..|view| - 1], q);
    }
  }

  // ----- one move

  /** Cluster t can take block b from cluster cid. */
  predicate CanTake(view: View, g: nat, cid: nat, b: Block, t: nat) {
    && t < |view| && t != cid && view[t].kind == D && |view[t].blocks| < g + 1
    && view[t].blocks != [] && b.group == view[t].blocks[0].group
  }

  /** The clusters after block `index` of cluster cid went to cluster t, or to a new one. */
  function AfterMove(view: View, cid: nat, index: nat, t: nat): View
    requires cid < |view| && index < |view[cid].blocks| && t <= |view| && t != cid
  {
    var b := view[cid].blocks[index];
    var base := if t == |view| then view + [EMPTY_CLUSTER] else view;
    base[t := Added(base[t], b)][cid := ClusterState(Dropped(view[cid].blocks, index), view[cid].kind)]
  }

  lemma MoveTotal(view: View, cid: nat, index: nat, t: nat, q: Query)
    requires cid < |view| && index < |view[cid].blocks| && t <= |view| && t != cid
    ensures Total(AfterMove(view, cid, index, t), q) == Total(view, q)
  {
    hide Total, Count, Matches;
    var b := view[cid].blocks[index];
    var base := if t == |view| then view + [EMPTY_CLUSTER] else view;
    if t == |view| {
      TotalPush(view, EMPTY_CLUSTER, q);
      CountZero([], q);
    }
    var placed := base[t := Added(base[t], b)];
    TotalUpdate(base, t, Added(base[t], b), q);
    CountPush(base[t].blocks, b, q);
    TotalUpdate(placed, cid, ClusterState(Dropped(view[cid].blocks, index), view[cid].kind), q);
    CountDropped(view[cid].blocks, index, q);
  }

  // ----- the invariant of the relocation loop

  /** The data clusters are sound, and those with blocks of the larger stripe n are exactly the touched ones. */
  ghost predicate Spread(cfg: Config, st: Stage, n: nat, view: View, touched: set<nat>)
    requires cfg.Valid() && st.Valid()
  {
    forall c: nat :: c < |view| && !cfg.Special(c) ==>
      && DataCluster(cfg, view[c]) && DataTags(cfg, st, n + 1, view[c].blocks)
      && (c in touched <==> view[c].blocks[0].stripe == n)
  }

  /** Clusters other than cid are as before, except that touched data clusters may have got more blocks. */
  ghost predicate Frame(cfg: Config, view0: View, view: View, cid: nat) {
    && |view0| <= |view|
    && (forall c: nat :: c < |view0| && c != cid && cfg.Special(c) ==> view[c] == view0[c])
    && (forall c: nat :: c < |view0| && !cfg.Special(c) ==>
          view0[c].blocks != [] && view[c].blocks != [] && view[c].blocks[0] == view0[c].blocks[0])
    && (forall q: Query :: Total(view, q) == Total(view0, q))
  }

  ghost predicate Surplus(view0: View, view: View, cid: nat, n: nat, moved: nat, index: nat) {
    && cid < |view0| && cid < |view| && view[cid].kind == view0[cid].kind
    && MovedOut(view0[cid].blocks, view[cid].blocks, n, moved) && index <= |view[cid].blocks|
    && forall j :: 0 <= j < index ==> !Matches(DataOf(n), view[cid].blocks[j])
  }

  ghost predicate Relocating(cfg: Config, st: Stage, n: nat, view0: View, view: View, cid: nat, moved: nat, index: nat, touched: set<nat>)
    requires cfg.Valid() && st.Valid()
  {
    && Spread(cfg, st, n, view, touched) && Frame(cfg, view0, view, cid) && Surplus(view0, view, cid, n, moved, index)
    && cfg.gId < |view0| && cfg.Special(cid)
    && (forall c :: c in touched ==> c < |view|)
    && forall c: nat :: |view0| <= c < |view| ==> c in touched
  }

  lemma MoveSpread(cfg: Config, st: Stage, n: nat, view: View, cid: nat, index: nat, t: nat, touched: set<nat>)
    requires cfg.Valid() && st.Valid() && cfg.gId < |view| && cfg.Special(cid) && index < |view[cid].blocks|
    requires Spread(cfg, st, n, view, touched) && forall c :: c in touched ==> c < |view|
    requires var b := view[cid].blocks[index];
      && b.kind == D && b.stripe == n && DataTag(cfg, st, n + 1, b)
      && (t == |view| || (t in touched && !cfg.Special(t) && CanTake(view, cfg.g, cid, b, t)))
    ensures t != cid && t <= |view| && Spread(cfg, st, n, AfterMove(view, cid, index, t), touched + {t})
  {
    hide DataTag;
    var b, after := view[cid].blocks[index], AfterMove(view, cid, index, t);
    forall c: nat | c < |after| && !cfg.Special(c)
      ensures DataCluster(cfg, after[c]) && DataTags(cfg, st, n + 1, after[c].blocks)
      ensures c in touched + {t} <==> after[c].blocks[0].stripe == n
    {
      if c == t {
        var s := if t == |view| then [] else view[t].blocks;
        assert after[t].blocks == s + [b];
      }
    }
  }

  lemma MoveKeeps(cfg: Config, st: Stage, n: nat, view0: View, view: View, cid: nat, moved: nat, index: nat, t: nat, touched: set<nat>)
    requires cfg.Valid() && st.Valid() && Relocating(cfg, st, n, view0, view, cid, moved, index, touched)
    requires index < |view[cid].blocks|
    requires var b := view[cid].blocks[index];
      && b.kind == D && b.stripe == n && DataTag(cfg, st, n + 1, b)
      && (t == |view| || (t in touched && !cfg.Special(t) && CanTake(view, cfg.g, cid, b, t)))
    ensures t != cid && t <= |view|
    ensures Relocating(cfg, st, n, view0, AfterMove(view, cid, index, t), cid, moved + 1, index, touched + {t})
  {
    hide Spread, MovedOut, Total, DataTag;
    var after := AfterMove(view, cid, index, t);
    MoveSpread(cfg, st, n, view, cid, index, t, touched);
    MoveOne(view0[cid].blocks, view[cid].blocks, n, moved, index);
    forall q: Query ensures Total(after, q) == Total(view0, q) {
      MoveTotal(view, cid, index, t, q);
    }
  }

  /** When the loop is through the cluster or has moved enough, exactly the surplus is out. */
  lemma EnoughMoved(view0: View, view: View, cid: nat, n: nat, moved: nat, index: nat, dataToMove: nat)
    requires Surplus(view0, view, cid, n, moved, index) && moved <= dataToMove <= Count(view0[cid].blocks, DataOf(n))
    requires index == |view[cid].blocks| || moved == dataToMove
    ensures moved == dataToMove
  {
    hide Count;
    if index == |view[cid].blocks| {
      CountZero(view[cid].blocks, DataOf(n));
    }
  }
}
