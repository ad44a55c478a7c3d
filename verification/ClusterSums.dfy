/** How many clusters the data of one group of one stripe takes up outside the tail clusters, and how full they are. */
module ClusterSums {
  import opened Placement
  import opened SimBlocks
  import opened StageInvariant
  import opened Relocation

  /** What is added up over clusters: the clusters themselves, or the blocks in them. */
  datatype Measure = Clusters | Blocks

  /** Groups ilo to ihi - 1 of the stripes tagged tlo to thi - 1. */
  datatype Area = Area(ilo: nat, ihi: nat, tlo: nat, thi: nat)

  function Cell(i: nat, t: nat): Area { Area(i, i + 1, t, t + 1) }

  function MeasureOf(q: Measure, s: ClusterState): nat { if q.Clusters? then 1 else |s.blocks| }

  predicate InArea(cfg: Config, a: Area, c: nat, s: ClusterState) {
    !cfg.Special(c) && s.blocks != [] && a.ilo <= s.blocks[0].group < a.ihi && a.tlo <= s.blocks[0].stripe < a.thi
  }

  function Part(cfg: Config, a: Area, c: nat, s: ClusterState, q: Measure): nat {
    if InArea(cfg, a, c, s) then MeasureOf(q, s) else 0
  }

  /** The sum over the data clusters of an area. */
  function SumOf(cfg: Config, a: Area, view: View, q: Measure): nat {
    if view == [] then 0
    else
      var m := |view| - 1;
      SumOf(cfg, a, view[..m], q) + Part(cfg, a, m, view[m], q)
  }

  lemma {:induction false} SumUpdate(cfg: Config, a: Area, view: View, c: nat, s: ClusterState, q: Measure)
    requires c < |view|
    ensures SumOf(cfg, a, view[c := s], q) + Part(cfg, a, c, view[c], q) == SumOf(cfg, a, view, q) + Part(cfg, a, c, s, q)
    decreases |view|
  {
    hide Part;
    var m := |view| - 1;
    if c == m {
      assert view[c := s][..m] == view[..m];
    } else {
      assert view[c := s][..m] == view[..m][c := s];
      SumUpdate(cfg, a, view[..m], c, s, q);
    }
  }

  lemma SumPush(cfg: Config, a: Area, view: View, s: ClusterState, q: Measure)
    ensures SumOf(cfg, a, view + [s], q) == SumOf(cfg, a, view, q) + Part(cfg, a, |view|, s, q)
  {
    hide Part;
    assert (view + [s])[..|view|] == view;
  }

  /** Two views that have the same clusters, of the same sizes, in two areas. */
  lemma {:induction false} SumSame(cfg: Config, a: Area, v: View, b: Area, w: View, q: Measure)
    requires |v| == |w| && forall c: nat :: c < |v| ==> Part(cfg, a, c, v[c], q) == Part(cfg, b, c, w[c], q)
    ensures SumOf(cfg, a, v, q) == SumOf(cfg, b, w, q)
    decreases |v|
  {
    hide Part;
    if v != [] {
      var m := |v| - 1;
      SumSame(cfg, a, v[..m], b, w[..m], q);
    }
  }

  lemma {:induction false} SumSplitStripes(cfg: Config, a: Area, mid: nat, view: View, q: Measure)
    requires a.tlo <= mid <= a.thi
    ensures SumOf(cfg, a, view, q) == SumOf(cfg, a.(thi := mid), view, q) + SumOf(cfg, a.(tlo := mid), view, q)
    decreases |view|
  {
    if view != [] {
      SumSplitStripes(cfg, a, mid, view[..|view| - 1], q);
    }
  }

  lemma {:induction false} SumSplitGroups(cfg: Config, a: Area, mid: nat, view: View, q: Measure)
    requires a.ilo <= mid <= a.ihi
    ensures SumOf(cfg, a, view, q) == SumOf(cfg, a.(ihi := mid), view, q) + SumOf(cfg, a.(ilo := mid), view, q)
    decreases |view|
  {
    if view != [] {
      SumSplitGroups(cfg, a, mid, view[..|view| - 1], q);
    }
  }

  lemma {:induction false} SumNothing(cfg: Config, a: Area, view: View, q: Measure)
    requires forall c: nat :: c < |view| ==> !InArea(cfg, a, c, view[c])
    ensures SumOf(cfg, a, view, q) == 0
    decreases |view|
  {
    hide InArea;
    if view != [] {
      SumNothing(cfg, a, view[..|view| - 1], q);
    }
  }

  /** Stripes with the same sum each. */
  lemma {:induction false} SumEven(cfg: Config, i: nat, lo: nat, n: nat, view: View, q: Measure, each: nat)
    requires forall t: nat :: lo <= t < lo + n ==> SumOf(cfg, Cell(i, t), view, q) == each
    ensures SumOf(cfg, Area(i, i + 1, lo, lo + n), view, q) == n * each
    decreases n
  {
    hide SumOf;
    if n == 0 {
      NoStripes(cfg, i, lo, view, q);
    } else {
      SumEven(cfg, i, lo, n - 1, view, q, each);
      SumSplitStripes(cfg, Area(i, i + 1, lo, lo + n), lo + n - 1, view, q);
      assert Area(i, i + 1, lo + n - 1, lo + n) == Cell(i, lo + n - 1);
      assert n * each == (n - 1) * each + each;
    }
  }

  lemma NoStripes(cfg: Config, i: nat, lo: nat, view: View, q: Measure)
    ensures SumOf(cfg, Area(i, i + 1, lo, lo), view, q) == 0
  {
    SumNothing(cfg, Area(i, i + 1, lo, lo), view, q);
  }

  lemma {:induction false} SumEvenGroups(cfg: Config, l: nat, x: nat, view: View, q: Measure, each: nat)
    requires forall i: nat, t: nat :: i < l && t < x ==> SumOf(cfg, Cell(i, t), view, q) == each
    ensures SumOf(cfg, Area(0, l, 0, x), view, q) == l * (x * each)
    decreases l
  {
    hide SumOf;
    if l == 0 {
      NoGroups(cfg, x, view, q);
    } else {
      SumEvenGroups(cfg, l - 1, x, view, q, each);
      SumSplitGroups(cfg, Area(0, l, 0, x), l - 1, view, q);
      SumEven(cfg, l - 1, 0, x, view, q, each);
      assert l * (x * each) == (l - 1) * (x * each) + x * each;
    }
  }

  lemma NoGroups(cfg: Config, x: nat, view: View, q: Measure)
    ensures SumOf(cfg, Area(0, 0, 0, x), view, q) == 0
  {
    SumNothing(cfg, Area(0, 0, 0, x), view, q);
  }

  /** At most g + 1 blocks to a cluster, and exactly so many if all are full. */
  lemma {:induction false} SumBound(cfg: Config, a: Area, view: View)
    requires forall c: nat :: c < |view| && InArea(cfg, a, c, view[c]) ==> |view[c].blocks| <= cfg.g + 1
    ensures SumOf(cfg, a, view, Blocks) <= SumOf(cfg, a, view, Clusters) * (cfg.g + 1)
    ensures (forall c: nat :: c < |view| && InArea(cfg, a, c, view[c]) ==> |view[c].blocks| == cfg.g + 1) ==>
      SumOf(cfg, a, view, Blocks) == SumOf(cfg, a, view, Clusters) * (cfg.g + 1)
    decreases |view|
  {
    hide InArea;
    if view != [] {
      var m := |view| - 1;
      SumBound(cfg, a, view[..m]);
      var before := SumOf(cfg, a, view[..m], Clusters);
      assert (before + 1) * (cfg.g + 1) == before * (cfg.g + 1) + (cfg.g + 1);
    }
  }

  // ----- what a turn of a tail cluster adds

  /** The clusters to open for `moved` blocks, when `clusters` clusters with `blocks` blocks have room for some of them: the
      quotient of what does not fit by g + 1, rounded up. */
  function Opened(g: nat, clusters: nat, blocks: nat, moved: nat): nat {
    var room := clusters * (g + 1) - blocks;
    if moved <= room then 0 else CeilDiv(moved - room, g + 1)
  }

  function Gain(q: Measure, g: nat, clusters: nat, blocks: nat, moved: nat): nat {
    if q.Clusters? then Opened(g, clusters, blocks, moved) else moved
  }
}
