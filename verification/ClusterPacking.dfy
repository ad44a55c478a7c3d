/** Where the surplus of a tail cluster goes: clusters with room are filled first, and a new one is opened only when there
    is none. So all clusters but the last new one are full, and no more are opened than needed. */
module ClusterPacking {
  import opened Arithmetic
  import opened Placement
  import opened SimBlocks
  import opened StageInvariant
  import opened Relocation
  import opened ClusterSums

  /** All clusters with blocks of group i of stripe n have g + 1 blocks. */
  ghost predicate AllFull(cfg: Config, n: nat, i: nat, view: View, upTo: nat) {
    forall c: nat :: c < upTo && c < |view| && InArea(cfg, Cell(i, n), c, view[c]) ==> |view[c].blocks| == cfg.g + 1
  }

  /** After `moved` blocks of group i of stripe n have left a tail cluster: they are in clusters of that group, and if any of
      these is new, then all but the last one are full. */
  ghost predicate Packed(cfg: Config, n: nat, i: nat, view0: View, view: View, moved: nat) {
    && |view0| <= |view|
    && (forall q :: SumOf(cfg, Cell(i, n), view, q)
          == SumOf(cfg, Cell(i, n), view0, q) + if q.Clusters? then |view| - |view0| else moved)
    && (|view| > |view0| ==>
          AllFull(cfg, n, i, view, |view| - 1) && InArea(cfg, Cell(i, n), |view| - 1, view[|view| - 1]))
    && forall e: nat, t: nat, q :: e != i || t != n ==> SumOf(cfg, Cell(e, t), view, q) == SumOf(cfg, Cell(e, t), view0, q)
  }

  lemma NothingPacked(cfg: Config, n: nat, i: nat, view: View)
    ensures Packed(cfg, n, i, view, view, 0)
  {
    hide SumOf;
  }

  lemma NewIsEmpty(cfg: Config, a: Area, c: nat, q: Measure)
    ensures Part(cfg, a, c, EMPTY_CLUSTER, q) == 0
  {
  }

  /** What one move does to the sum of a cell. */
  lemma SumMove(cfg: Config, e: nat, u: nat, n: nat, i: nat, view: View, cid: nat, index: nat, t: nat, q: Measure)
    requires cid < |view| && cfg.Special(cid) && index < |view[cid].blocks| && t <= |view| && t != cid && cfg.gId < |view|
    requires view[cid].blocks[index].group == i && view[cid].blocks[index].stripe == n && !cfg.Special(t)
    requires t < |view| ==> InArea(cfg, Cell(i, n), t, view[t])
    ensures SumOf(cfg, Cell(e, u), AfterMove(view, cid, index, t), q)
         == SumOf(cfg, Cell(e, u), view, q)
            + if e != i || u != n then 0 else if q.Blocks? || t == |view| then 1 else 0
  {
    hide SumOf, Config.Special;
    var a, b := Cell(e, u), view[cid].blocks[index];
    var base := if t == |view| then view + [EMPTY_CLUSTER] else view;
    if t == |view| {
      SumPush(cfg, a, view, EMPTY_CLUSTER, q);
      NewIsEmpty(cfg, a, t, q);
    }
    var placed := base[t := Added(base[t], b)];
    SumUpdate(cfg, a, base, t, Added(base[t], b), q);
    SumUpdate(cfg, a, placed, cid, ClusterState(Dropped(view[cid].blocks, index), view[cid].kind), q);
  }

  lemma MovePacked(cfg: Config, n: nat, i: nat, view0: View, view: View, cid: nat, index: nat, t: nat, moved: nat)
    requires cid < |view| && cfg.Special(cid) && index < |view[cid].blocks| && t <= |view| && t != cid && cfg.gId < |view|
    requires view[cid].blocks[index].group == i && view[cid].blocks[index].stripe == n && !cfg.Special(t)
    requires t < |view| ==> InArea(cfg, Cell(i, n), t, view[t]) && |view[t].blocks| <= cfg.g
    requires t == |view| ==> AllFull(cfg, n, i, view, |view|)
    requires Packed(cfg, n, i, view0, view, moved)
    ensures Packed(cfg, n, i, view0, AfterMove(view, cid, index, t), moved + 1)
  {
    hide SumOf, Config.Special;
    var after := AfterMove(view, cid, index, t);
    var last := |after| - 1;
    assert |after| == if t == |view| then |view| + 1 else |view|;
    if |after| > |view0| {
      assert InArea(cfg, Cell(i, n), last, after[last]);
      forall c: nat | c < last && InArea(cfg, Cell(i, n), c, after[c]) ensures |after[c].blocks| == cfg.g + 1 {
        assert c != cid;
        assert c != t;
        assert after[c] == view[c];
      }
      assert AllFull(cfg, n, i, after, last);
    }
    forall q ensures SumOf(cfg, Cell(i, n), after, q)
      == SumOf(cfg, Cell(i, n), view0, q) + if q.Clusters? then |after| - |view0| else moved + 1
    {
      SumMove(cfg, i, n, n, i, view, cid, index, t, q);
    }
    forall e: nat, u: nat, q | e != i || u != n ensures SumOf(cfg, Cell(e, u), after, q) == SumOf(cfg, Cell(e, u), view0, q) {
      SumMove(cfg, e, u, n, i, view, cid, index, t, q);
    }
  }

  /** Nothing more is opened than what does not fit into the room there was. */
  lemma OpenedCount(cfg: Config, n: nat, i: nat, view0: View, view: View, moved: nat)
    requires Packed(cfg, n, i, view0, view, moved)
    requires forall c: nat :: c < |view| && InArea(cfg, Cell(i, n), c, view[c]) ==> 0 < |view[c].blocks| <= cfg.g + 1
    ensures |view| - |view0|
         == Opened(cfg.g, SumOf(cfg, Cell(i, n), view0, Clusters), SumOf(cfg, Cell(i, n), view0, Blocks), moved)
  {
    hide InArea, SumOf;
    var a, k := Cell(i, n), |view| - |view0|;
    var c0, b0 := SumOf(cfg, a, view0, Clusters), SumOf(cfg, a, view0, Blocks);
    assert SumOf(cfg, a, view, Clusters) == c0 + k && SumOf(cfg, a, view, Blocks) == b0 + moved;
    if k == 0 {
      SumBound(cfg, a, view);
    } else {
      var m := |view| - 1;
      LastCluster(cfg, a, view);
      SumBound(cfg, a, view[..m]);
      NeededClusters(cfg.g, c0, b0, moved, k, |view[m].blocks|);
    }
  }

  lemma LastCluster(cfg: Config, a: Area, view: View)
    requires view != [] && InArea(cfg, a, |view| - 1, view[|view| - 1])
    ensures var m := |view| - 1;
      && SumOf(cfg, a, view, Clusters) == SumOf(cfg, a, view[..m], Clusters) + 1
      && SumOf(cfg, a, view, Blocks) == SumOf(cfg, a, view[..m], Blocks) + |view[m].blocks|
  {
  }

  lemma NeededClusters(g: nat, c0: nat, b0: nat, moved: nat, k: nat, last: nat)
    requires k > 0 && 0 < last <= g + 1 && b0 + moved == (c0 + k - 1) * (g + 1) + last
    ensures k == Opened(g, c0, b0, moved)
  {
    var w, room := g + 1, c0 * (g + 1) - b0;
    assert (c0 + k - 1) * w == c0 * w + (k - 1) * w;
    assert moved - room == (k - 1) * w + last;
    MulMono(0, k - 1, w);
    assert k * w == (k - 1) * w + w;
    CeilDivBelow(moved - room, w, k - 1);
    CeilDivBelow(moved - room, w, k);
  }

  /** Group i of stripe n has taken in `moved` blocks; all other groups and stripes have what they had. */
  ghost predicate Grew(cfg: Config, n: nat, i: nat, view0: View, view: View, moved: nat) {
    forall e: nat, t: nat, q :: SumOf(cfg, Cell(e, t), view, q)
      == SumOf(cfg, Cell(e, t), view0, q)
         + if e == i && t == n && moved > 0
           then Gain(q, cfg.g, SumOf(cfg, Cell(e, t), view0, Clusters), SumOf(cfg, Cell(e, t), view0, Blocks), moved) else 0
  }

  lemma PackedGrew(cfg: Config, n: nat, i: nat, view0: View, view: View, moved: nat)
    requires Packed(cfg, n, i, view0, view, moved) && moved > 0
    requires |view| - |view0|
          == Opened(cfg.g, SumOf(cfg, Cell(i, n), view0, Clusters), SumOf(cfg, Cell(i, n), view0, Blocks), moved)
    ensures Grew(cfg, n, i, view0, view, moved)
  {
    hide SumOf, Opened, AllFull, InArea;
    forall e: nat, t: nat, q
      ensures SumOf(cfg, Cell(e, t), view, q)
        == SumOf(cfg, Cell(e, t), view0, q)
           + if e == i && t == n && moved > 0
             then Gain(q, cfg.g, SumOf(cfg, Cell(e, t), view0, Clusters), SumOf(cfg, Cell(e, t), view0, Blocks), moved) else 0
    {
    }
  }

  /** New contents for a special cluster change no sum. */
  lemma SpecialChange(cfg: Config, n: nat, i: nat, view: View, c: nat, s: ClusterState)
    requires c < |view| && cfg.Special(c)
    ensures Grew(cfg, n, i, view, view[c := s], 0)
  {
    hide SumOf;
    forall e: nat, t: nat, q ensures SumOf(cfg, Cell(e, t), view[c := s], q) == SumOf(cfg, Cell(e, t), view, q) {
      SumUpdate(cfg, Cell(e, t), view, c, s, q);
    }
  }

  lemma GrewAfter(cfg: Config, n: nat, i: nat, a: View, b: View, c: View, moved: nat)
    requires Grew(cfg, n, i, a, b, 0) && Grew(cfg, n, i, b, c, moved)
    ensures Grew(cfg, n, i, a, c, moved)
  {
    hide SumOf, Gain;
    forall e: nat, t: nat, q
      ensures SumOf(cfg, Cell(e, t), c, q)
        == SumOf(cfg, Cell(e, t), a, q)
           + if e == i && t == n && moved > 0
             then Gain(q, cfg.g, SumOf(cfg, Cell(e, t), a, Clusters), SumOf(cfg, Cell(e, t), a, Blocks), moved) else 0
    {
      assert SumOf(cfg, Cell(e, t), b, Clusters) == SumOf(cfg, Cell(e, t), a, Clusters);
      assert SumOf(cfg, Cell(e, t), b, Blocks) == SumOf(cfg, Cell(e, t), a, Blocks);
      assert SumOf(cfg, Cell(e, t), b, q) == SumOf(cfg, Cell(e, t), a, q);
    }
  }
}
